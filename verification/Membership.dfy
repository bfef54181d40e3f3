/** Who belongs to a project, in which role, and what that lets them do: the rows of one project and their writes. */
module Membership {
  import opened Wrappers
  import opened IdSets

  datatype Role = Viewer | Member | Admin

  function RoleLevel(r: Role): nat {
    match r
    case Viewer => 1
    case Member => 2
    case Admin => 3
  }

  predicate AtLeast(r: Role, min: Role) {
    RoleLevel(r) >= RoleLevel(min)
  }

  /** A project's lead, its members' roles, its issue counter and the assignee of each of its issues. */
  datatype Project = Project(lead: Option<int>, roles: map<int, Role>, counter: int, assignees: map<int, Option<int>>)

  datatype Op =
    | AddMember(found: Option<int>, role: Role)
    | UpdateMember(member: int, newRole: Role)
    | RemoveMember(leaver: int)
    | SetLead(newLead: Option<int>)
    | DeleteProject
    | CreateIssue(assignee: Option<int>)
    | Assign(issue: int, newAssignee: Option<int>)
    | DeleteIssue(gone: int)

  datatype OpError = UserNotFound | AlreadyMember | MemberNotFound | LastAdmin | NotAMember | IssueNotFound

  function MinRole(caller: int, op: Op): Role {
    match op
    case AddMember(_, _) | UpdateMember(_, _) | SetLead(_) | DeleteProject => Admin
    case RemoveMember(leaver) => if leaver == caller then Viewer else Admin
    case CreateIssue(_) | Assign(_, _) | DeleteIssue(_) => Member
  }

  /** The caller may do op in the project as it stands. */
  predicate Authorized(p: Project, caller: int, op: Op) {
    caller in p.roles && AtLeast(p.roles[caller], MinRole(caller, op))
  }

  function Admins(p: Project): set<int> {
    set m | m in p.roles && p.roles[m] == Admin
  }

  predicate CanBe(p: Project, user: Option<int>) {
    user.None? || user.value in p.roles
  }

  function Unassigned(p: Project, user: int): map<int, Option<int>> {
    map i | i in p.assignees :: if p.assignees[i] == Some(user) then None else p.assignees[i]
  }

  /** The project as op leaves it; None when op deletes it. */
  function Perform(p: Project, op: Op): Result<Option<Project>, OpError> {
    match op
    case AddMember(found, role) =>
      if found.None? then Err(UserNotFound)
      else if found.value in p.roles then Err(AlreadyMember)
      else Ok(Some(p.(roles := p.roles[found.value := role])))
    case UpdateMember(member, role) =>
      if member !in p.roles then Err(MemberNotFound)
      else if p.roles[member] == role then Ok(Some(p))
      else if p.roles[member] == Admin && |Admins(p)| <= 1 then Err(LastAdmin)
      else Ok(Some(p.(roles := p.roles[member := role])))
    case RemoveMember(member) =>
      if member !in p.roles then Err(MemberNotFound)
      else if p.roles[member] == Admin && |Admins(p)| <= 1 then Err(LastAdmin)
      else Ok(Some(Left(p, member)))
    case SetLead(lead) =>
      if lead != p.lead && !CanBe(p, lead) then Err(NotAMember) else Ok(Some(p.(lead := lead)))
    case DeleteProject => Ok(None)
    case CreateIssue(assignee) =>
      if !CanBe(p, assignee) then Err(NotAMember)
      else Ok(Some(p.(counter := p.counter + 1, assignees := p.assignees[p.counter + 1 := assignee])))
    case Assign(issue, assignee) =>
      if issue !in p.assignees then Err(IssueNotFound)
      else if assignee != p.assignees[issue] && !CanBe(p, assignee) then Err(NotAMember)
      else Ok(Some(p.(assignees := p.assignees[issue := assignee])))
    case DeleteIssue(issue) =>
      if issue !in p.assignees then Err(IssueNotFound) else Ok(Some(p.(assignees := p.assignees - {issue})))
  }

  /** Somebody can administer the project, and its lead and assignees belong to it. */
  ghost predicate ProjectOk(p: Project) {
    Admins(p) != {} && CanBe(p, p.lead) && forall i | i in p.assignees :: CanBe(p, p.assignees[i])
  }

  lemma PerformKeepsProject(p: Project, op: Op)
    requires ProjectOk(p) && Perform(p, op).Ok? && Perform(p, op).value.Some?
    ensures ProjectOk(Perform(p, op).value.value)
  {
    var r := Perform(p, op).value.value;
    match op
    case UpdateMember(member, role) => AnotherAdminStays(p, r, member);
    case RemoveMember(member) => AnotherAdminStays(p, r, member);
    case AddMember(found, role) => assert Admins(p) <= Admins(r);
    case _ =>
  }

  /** When one of several admins goes, and nobody else's role changes, an admin is left. */
  lemma AnotherAdminStays(p: Project, r: Project, member: int)
    requires Admins(p) != {} && (member in Admins(p) ==> |Admins(p)| > 1 || member in Admins(r))
    requires forall m | m != member :: (m in p.roles <==> m in r.roles) && (m in p.roles ==> r.roles[m] == p.roles[m])
    ensures Admins(r) != {}
  {
    forall m | m in Admins(p) && m != member ensures m in Admins(r) {
      assert m in p.roles && m in r.roles;
    }
    if member in Admins(p) && member !in Admins(r) {
      assert |Admins(p) - {member}| == |Admins(p)| - 1;
      assert Admins(p) - {member} <= Admins(r);
    } else {
      assert Admins(p) <= Admins(r);
    }
  }

  /**
   * What each role can bring about: only admins change other people's membership, take the lead away
   * from others or delete the project; viewers change nothing but can leave.
   */
  lemma RolesLimitChanges(p: Project, caller: int, op: Op)
    requires Authorized(p, caller, op) && Perform(p, op).Ok?
    ensures Perform(p, op).value.None? ==> p.roles[caller] == Admin
    ensures Perform(p, op).value.Some? ==>
              var r := Perform(p, op).value.value;
              (p.roles[caller] != Admin ==>
                 r.roles - {caller} == p.roles - {caller} &&
                 (r.lead != p.lead ==> p.lead == Some(caller) && r.lead == None) &&
                 (caller in r.roles ==> r.roles[caller] == p.roles[caller])) &&
              (p.roles[caller] == Viewer ==> r == p || r == Left(p, caller))
  {
  }

  /** Every member may leave, and is refused exactly as the project's only admin. */
  lemma LeavingIsRefusedExactly(p: Project, caller: int)
    requires caller in p.roles
    ensures Authorized(p, caller, RemoveMember(caller))
    ensures Perform(p, RemoveMember(caller)).Err? <==> Admins(p) == {caller}
    ensures Perform(p, RemoveMember(caller)) ==
            if Admins(p) == {caller} then Err(LastAdmin) else Ok(Some(Left(p, caller)))
  {
    if caller in Admins(p) {
      assert Admins(p) == {caller} + (Admins(p) - {caller});
      assert |Admins(p) - {caller}| == |Admins(p)| - 1;
      if |Admins(p)| <= 1 { assert Admins(p) - {caller} == {}; }
    }
  }

  /** The project once a member has left it: not a member, not the lead, and no issue assigned to them. */
  function Left(p: Project, member: int): (r: Project)
    ensures member !in r.roles && r.lead != Some(member)
    ensures forall i | i in r.assignees :: r.assignees[i] != Some(member)
  {
    p.(roles := p.roles - {member}, assignees := Unassigned(p, member),
       lead := if p.lead == Some(member) then None else p.lead)
  }

  // ---------------------------------------------------------------- what each operation writes

  predicate OnlyAdmin(p: Project, member: int) {
    member in p.roles && p.roles[member] == Admin && forall m | m in p.roles && m != member :: p.roles[m] != Admin
  }

  /** The answer to an operation that is refused; None for one that succeeds. */
  function Refusal(p: Project, op: Op): Option<OpError> {
    match op
    case AddMember(None, _) => Some(UserNotFound)
    case AddMember(Some(user), _) => if user in p.roles then Some(AlreadyMember) else None
    case UpdateMember(member, role) =>
      if member !in p.roles then Some(MemberNotFound)
      else if OnlyAdmin(p, member) && role != Admin then Some(LastAdmin)
      else None
    case RemoveMember(member) =>
      if member !in p.roles then Some(MemberNotFound) else if OnlyAdmin(p, member) then Some(LastAdmin) else None
    case SetLead(Some(user)) => if p.lead != Some(user) && user !in p.roles then Some(NotAMember) else None
    case CreateIssue(Some(user)) => if user !in p.roles then Some(NotAMember) else None
    case Assign(issue, assignee) =>
      if issue !in p.assignees then Some(IssueNotFound)
      else if assignee.Some? && assignee != p.assignees[issue] && assignee.value !in p.roles then Some(NotAMember)
      else None
    case DeleteIssue(issue) => if issue !in p.assignees then Some(IssueNotFound) else None
    case _ => None
  }

  /** Which column of which row an operation writes, and what; all else stays. */
  ghost predicate Writes(p: Project, op: Op, r: Project) {
    match op
    case AddMember(found, role) =>
      r == p.(roles := r.roles) && found.Some? && r.roles == p.roles + map[found.value := role]
    case UpdateMember(member, role) => r == p.(roles := r.roles) && r.roles == p.roles + map[member := role]
    case RemoveMember(member) =>
      r.counter == p.counter && r.roles == p.roles - {member} &&
      r.lead == (if p.lead == Some(member) then None else p.lead) &&
      (forall i :: i in r.assignees <==> i in p.assignees) &&
      forall i | i in p.assignees :: r.assignees[i] == if p.assignees[i] == Some(member) then None else p.assignees[i]
    case SetLead(lead) => r == p.(lead := lead)
    case CreateIssue(assignee) =>
      r == p.(counter := p.counter + 1, assignees := p.assignees + map[p.counter + 1 := assignee])
    case Assign(issue, assignee) => r == p.(assignees := p.assignees + map[issue := assignee])
    case DeleteIssue(issue) => r == p.(assignees := p.assignees - {issue})
    case DeleteProject => false
  }

  lemma SeveralAdmins(p: Project, member: int)
    requires member in p.roles && p.roles[member] == Admin
    ensures |Admins(p)| <= 1 <==> OnlyAdmin(p, member)
  {
    assert member in Admins(p);
    assert |Admins(p) - {member}| == |Admins(p)| - 1;
    if |Admins(p)| <= 1 {
      forall m | m in p.roles && m != member ensures p.roles[m] != Admin { assert m !in Admins(p) - {member}; }
    } else {
      SomeMember(Admins(p) - {member});
    }
  }

  /** Every operation is refused exactly as Refusal says, and else writes exactly what it is to write. */
  lemma PerformsExactly(p: Project, op: Op)
    ensures match Refusal(p, op)
            case Some(e) => Perform(p, op) == Err(e)
            case None =>
              Perform(p, op).Ok? &&
              if op == DeleteProject then Perform(p, op).value == None
              else Perform(p, op).value.Some? && Writes(p, op, Perform(p, op).value.value)
  {
    match op
    case UpdateMember(member, role) => if member in p.roles && p.roles[member] == Admin { SeveralAdmins(p, member); }
    case RemoveMember(member) => if member in p.roles && p.roles[member] == Admin { SeveralAdmins(p, member); }
    case _ =>
  }

  /** Admins may do everything, members work on issues, and everybody may leave. */
  lemma AuthorizedExactly(p: Project, caller: int, op: Op)
    ensures Authorized(p, caller, op) <==>
            caller in p.roles &&
            match p.roles[caller]
            case Admin => true
            case Member => op.CreateIssue? || op.Assign? || op.DeleteIssue? || op == RemoveMember(caller)
            case Viewer => op == RemoveMember(caller)
  {
  }

  function NewProject(creator: int): Project {
    Project(Some(creator), map[creator := Admin], 0, map[])
  }

  lemma NewProjectIsOk(creator: int)
    ensures ProjectOk(NewProject(creator))
  {
    assert creator in Admins(NewProject(creator));
  }
}
