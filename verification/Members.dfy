/** The writes of one transaction under the project lock, statement by statement. */
module Members {
  import opened Wrappers
  import opened IdSets
  import opened Membership

  /** A failed write leaves the rows alone; a successful one leaves them as op should, and governed. */
  ghost predicate Answers(before: Project, op: Op, error: Option<OpError>, after: Project) {
    match error
    case Some(e) => Perform(before, op) == Err(e) && after == before
    case None => Perform(before, op) == Ok(Some(after)) && ProjectOk(after)
  }

  /** The rows of one project that the lock protects. */
  class ProjectRows {
    var lead: Option<int>
    var roles: map<int, Role>
    var counter: int
    var assignees: map<int, Option<int>>

    function Contents(): Project
      reads this
    {
      Project(lead, roles, counter, assignees)
    }

    constructor (creator: int)
      ensures Contents() == NewProject(creator) && ProjectOk(Contents())
    {
      lead, roles, counter, assignees := Some(creator), map[creator := Admin], 0, map[];
      new;
      NewProjectIsOk(creator);
    }

    method CountAdmins() returns (n: nat)
      ensures n == |Admins(Contents())|
    {
      n := 0;
      var unseen := roles.Keys;
      ghost var counted: set<int> := {};
      while unseen != {}
        invariant unseen <= roles.Keys && n == |counted|
        invariant counted == set m | m in roles && m !in unseen && roles[m] == Admin
        decreases unseen
      {
        SomeMember(unseen);
        var m :| m in unseen;
        if roles[m] == Admin {
          n, counted := n + 1, counted + {m};
        }
        unseen := unseen - {m};
      }
      assert counted == Admins(Contents());
    }

    /** Refuses when the project has at most one admin. */
    method EnsureAnotherAdmin() returns (error: Option<OpError>)
      ensures error == if |Admins(Contents())| <= 1 then Some(LastAdmin) else None
    {
      var admins := CountAdmins();
      error := if admins <= 1 then Some(LastAdmin) else None;
    }

    method RequireMember(user: int) returns (error: Option<OpError>)
      ensures error == if user in roles then None else Some(NotAMember)
    {
      error := if user in roles then None else Some(NotAMember);
    }

    method AddMember(found: Option<int>, role: Role) returns (error: Option<OpError>)
      requires ProjectOk(Contents())
      modifies this`roles
      ensures Answers(old(Contents()), Op.AddMember(found, role), error, Contents())
    {
      PerformKeeps(Contents(), Op.AddMember(found, role));
      if found.None? { return Some(UserNotFound); }
      if found.value in roles { return Some(AlreadyMember); }
      roles := roles[found.value := role];
      return None;
    }

    method UpdateMember(member: int, role: Role) returns (error: Option<OpError>)
      requires ProjectOk(Contents())
      modifies this`roles
      ensures Answers(old(Contents()), Op.UpdateMember(member, role), error, Contents())
    {
      PerformKeeps(Contents(), Op.UpdateMember(member, role));
      if member !in roles { return Some(MemberNotFound); }
      if roles[member] != role {
        if roles[member] == Admin {
          error := EnsureAnotherAdmin();
          if error.Some? { return; }
        }
        roles := roles[member := role];
      }
      return None;
    }

    /** Unassigns the member's issues, takes the lead away and deletes the membership, in that order. */
    method RemoveMember(member: int) returns (error: Option<OpError>)
      requires ProjectOk(Contents())
      modifies this
      ensures Answers(old(Contents()), Op.RemoveMember(member), error, Contents())
    {
      PerformKeeps(Contents(), Op.RemoveMember(member));
      if member !in roles { return Some(MemberNotFound); }
      if roles[member] == Admin {
        error := EnsureAnotherAdmin();
        if error.Some? { return; }
      }
      assignees := map i | i in assignees :: if assignees[i] == Some(member) then None else assignees[i];
      if lead == Some(member) { lead := None; }
      roles := roles - {member};
      return None;
    }

    method SetLead(newLead: Option<int>) returns (error: Option<OpError>)
      requires ProjectOk(Contents())
      modifies this`lead
      ensures Answers(old(Contents()), Op.SetLead(newLead), error, Contents())
    {
      PerformKeeps(Contents(), Op.SetLead(newLead));
      if newLead.Some? && newLead != lead {
        error := RequireMember(newLead.value);
        if error.Some? { return; }
      }
      lead := newLead;
      return None;
    }

    method CreateIssue(assignee: Option<int>) returns (error: Option<OpError>)
      requires ProjectOk(Contents())
      modifies this`counter, this`assignees
      ensures Answers(old(Contents()), Op.CreateIssue(assignee), error, Contents())
    {
      PerformKeeps(Contents(), Op.CreateIssue(assignee));
      if assignee.Some? {
        error := RequireMember(assignee.value);
        if error.Some? { return; }
      }
      counter := counter + 1;
      assignees := assignees[counter := assignee];
      return None;
    }

    method Assign(issue: int, assignee: Option<int>) returns (error: Option<OpError>)
      requires ProjectOk(Contents())
      modifies this`assignees
      ensures Answers(old(Contents()), Op.Assign(issue, assignee), error, Contents())
    {
      PerformKeeps(Contents(), Op.Assign(issue, assignee));
      if issue !in assignees { return Some(IssueNotFound); }
      if assignee.Some? && assignee != assignees[issue] {
        error := RequireMember(assignee.value);
        if error.Some? { return; }
      }
      assignees := assignees[issue := assignee];
      return None;
    }
  }

  lemma PerformKeeps(p: Project, op: Op)
    requires ProjectOk(p)
    ensures Perform(p, op).Ok? && Perform(p, op).value.Some? ==> ProjectOk(Perform(p, op).value.value)
  {
    hide Perform, ProjectOk;
    if Perform(p, op).Ok? && Perform(p, op).value.Some? { PerformKeepsProject(p, op); }
  }
}
