/** The rows that a project's lock protects, and the operations that clients perform on them under it. */
module ProjectLock {
  import opened Wrappers
  import opened LockProtocol
  import Membership
  import Refusals
  import Tracker
  import TrackerInvariant
  import TrackerIsolation

  /** The members, lead and assignees of a project, and its statuses, sprints and issues as project 1 of a database. */
  datatype Rows = Rows(people: Membership.Project, work: Tracker.Db)

  datatype Op = People(change: Membership.Op) | Work(request: Tracker.Op, now: int)

  datatype OpError = PeopleError(people: Membership.OpError) | WorkError(work: Tracker.Error) | OtherProject

  /** Admins change workflow and project, members sprints and issues. */
  function MinRole(request: Tracker.Op): Membership.Role {
    match request
    case OpCreateProject(_) | OpUpdateProject(_, _) | OpDeleteProject(_) => Membership.Admin
    case OpCreateStatus(_, _) | OpUpdateStatus(_, _, _) => Membership.Admin
    case OpReorderStatuses(_, _) | OpDeleteStatus(_, _, _) => Membership.Admin
    case _ => Membership.Member
  }

  predicate MayDo(rows: Rows, caller: int, op: Op) {
    match op
    case People(change) => Membership.Authorized(rows.people, caller, change)
    case Work(request, _) =>
      caller in rows.people.roles && Membership.AtLeast(rows.people.roles[caller], MinRole(request))
  }

  /** Admins may do everything, members all but change the project or its statuses, viewers nothing here. */
  lemma MayWorkExactly(rows: Rows, caller: int, request: Tracker.Op, now: int)
    ensures MayDo(rows, caller, Work(request, now)) <==>
            caller in rows.people.roles &&
            match rows.people.roles[caller]
            case Admin => true
            case Member =>
              !request.OpCreateProject? && !request.OpUpdateProject? && !request.OpDeleteProject? &&
              !request.OpCreateStatus? && !request.OpUpdateStatus? && !request.OpReorderStatuses? &&
              !request.OpDeleteStatus?
            case Viewer => false
  {
  }

  /** A request about another project finds nothing here; the project itself is created and deleted with its members. */
  function PerformOp(rows: Rows, op: Op): Result<Option<Rows>, OpError> {
    match op
    case People(change) =>
      (match Membership.Perform(rows.people, change)
       case Err(e) => Err(PeopleError(e))
       case Ok(None) => Ok(None)
       case Ok(Some(people)) => Ok(Some(rows.(people := people))))
    case Work(request, now) =>
      if TrackerIsolation.Subject(rows.work, request) != Some(1) || request.OpCreateProject? || request.OpDeleteProject?
      then Err(OtherProject)
      else
        match Tracker.Apply(rows.work, request, now)
        case Err(e) => Err(WorkError(e))
        case Ok(work) => Ok(Some(rows.(work := work)))
  }

  /**
   * A membership change is refused or writes as it does on the members alone, a tracker request as it does on
   * the tracker alone, and neither touches the other's rows.
   */
  lemma WritesOneSide(rows: Rows, op: Op)
    requires TrackerInvariant.Inv(rows.work)
    ensures match op
            case People(change) =>
              (match Membership.Refusal(rows.people, change)
               case Some(e) => PerformOp(rows, op) == Err(PeopleError(e))
               case None =>
                 PerformOp(rows, op).Ok? &&
                 if change == Membership.DeleteProject then PerformOp(rows, op).value == None
                 else PerformOp(rows, op).value.Some? && PerformOp(rows, op).value.value.work == rows.work &&
                      Membership.Writes(rows.people, change, PerformOp(rows, op).value.value.people))
            case Work(request, now) =>
              TrackerIsolation.Subject(rows.work, request) == Some(1) && !request.OpCreateProject? &&
              !request.OpDeleteProject? ==>
                match Refusals.Refusal(rows.work, request)
                case Some(e) => PerformOp(rows, op) == Err(WorkError(e))
                case None => PerformOp(rows, op) == Ok(Some(Rows(rows.people, Tracker.Next(rows.work, request, now))))
  {
    hide Membership.Perform, Membership.Refusal, Membership.Writes, Refusals.Refusal, Tracker.Apply;
    match op
    case People(change) => Membership.PerformsExactly(rows.people, change);
    case Work(request, now) => Refusals.StepRefused(rows.work, request, now);
  }

  predicate IsNew(creator: int, rows: Rows) {
    rows.people == Membership.NewProject(creator) &&
    (rows.work == Tracker.CreateProject(Tracker.EMPTY, Tracker.Scrum) ||
     rows.work == Tracker.CreateProject(Tracker.EMPTY, Tracker.Kanban))
  }

  const RULES := Rules(IsNew, MayDo, PerformOp)

  ghost predicate RowsOk(rows: Rows) {
    Membership.ProjectOk(rows.people) && TrackerInvariant.Inv(rows.work)
  }

  lemma NewRowsAreOk(creator: int, rows: Rows)
    requires IsNew(creator, rows)
    ensures RowsOk(rows)
  {
    hide Tracker.CreateProject, TrackerInvariant.Inv, Membership.ProjectOk, Membership.NewProject;
    Membership.NewProjectIsOk(creator);
    EmptyIsOk();
    TrackerInvariant.CreateProjectKeeps(Tracker.EMPTY, Tracker.Scrum);
    TrackerInvariant.CreateProjectKeeps(Tracker.EMPTY, Tracker.Kanban);
  }

  lemma EmptyIsOk()
    ensures TrackerInvariant.Inv(Tracker.EMPTY)
  {
    assert Tracker.Run([]) == Tracker.EMPTY;
    TrackerInvariant.RunKeeps([]);
  }

  lemma PerformKeepsRows(rows: Rows, op: Op)
    requires RowsOk(rows) && PerformOp(rows, op).Ok? && PerformOp(rows, op).value.Some?
    ensures RowsOk(PerformOp(rows, op).value.value)
  {
    hide Tracker.Apply, TrackerInvariant.Inv, Membership.ProjectOk, Membership.Perform, TrackerIsolation.Subject;
    match op
    case People(change) => Membership.PerformKeepsProject(rows.people, change);
    case Work(request, now) => TrackerInvariant.StepKeeps(rows.work, request, now);
  }

  lemma RulesPreserveRows()
    ensures Preserved(RULES, RowsOk)
  {
    hide RowsOk, IsNew, PerformOp;
    forall c, p | RULES.isNew(c, p) ensures RowsOk(p) { NewRowsAreOk(c, p); }
    forall p, o | RowsOk(p) && RULES.perform(p, o).Ok? && RULES.perform(p, o).value.Some?
      ensures RowsOk(RULES.perform(p, o).value.value)
    {
      PerformKeepsRows(p, o);
    }
  }

  type LockState = State<Rows, Op>

  type LockStep = Step<Rows, Op>

  /**
   * In every interleaving of the clients' transactions, each project has an admin, its lead and assignees are
   * members, and its issues, sprints and statuses satisfy the tracker's invariant.
   */
  lemma ProjectsStayGoverned(states: seq<LockState>, steps: seq<LockStep>, n: nat, p: int)
    requires IsRun(RULES, states, steps) && n <= |steps| && p in states[n].projects
    ensures Membership.ProjectOk(states[n].projects[p].people) && TrackerInvariant.Inv(states[n].projects[p].work)
  {
    hide IsRun, Membership.ProjectOk, TrackerInvariant.Inv;
    RulesPreserveRows();
    RowsStayOk(RULES, RowsOk, states, steps, n, p);
  }

  /** Each commit is by a caller whose role at that moment meets the operation's minimum. */
  lemma CommitsMeetMinimum(states: seq<LockState>, steps: seq<LockStep>, n: nat, t: int)
    requires IsRun(RULES, states, steps) && n < |steps| && steps[n] == Commit(t)
    ensures t in states[n].txns && states[n].txns[t].project in states[n].projects
    ensures var q := states[n].txns[t];
            var people := states[n].projects[q.project].people;
            q.caller in people.roles &&
            Membership.AtLeast(people.roles[q.caller],
                               if q.op.Work? then MinRole(q.op.request) else Membership.MinRole(q.caller, q.op.change))
  {
    CommitIsAuthorized(RULES, states, steps, n, t);
  }
}
