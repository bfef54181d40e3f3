/** A request works on one project and leaves every other project's rows alone. */
module TrackerIsolation {
  import opened Wrappers
  import opened RankedList
  import opened Columns
  import opened Tracker
  import opened TrackerInvariant
  import opened TrackerRuns

  ghost predicate SameIssues(a: Issues, b: Issues, q: int) {
    forall id :: ((id in a && a[id].project == q) || (id in b && b[id].project == q)) ==>
      id in a && id in b && a[id] == b[id]
  }

  ghost predicate SameSprints(a: Sprints, b: Sprints, q: int) {
    forall s :: ((s in a && a[s].project == q) || (s in b && b[s].project == q)) ==> s in a && s in b && a[s] == b[s]
  }

  ghost predicate SameStatuses(a: Statuses, b: Statuses, q: int) {
    forall s :: ((s in a && a[s].project == q) || (s in b && b[s].project == q)) ==> s in a && s in b && a[s] == b[s]
  }

  /** Project q has the same type, statuses, sprints and issues in both states, and as many of each. */
  ghost predicate SameProject(a: Db, b: Db, q: int) {
    (q in a.projects <==> q in b.projects) && (q in a.projects ==> a.projects[q] == b.projects[q]) &&
    SameIssues(a.issues, b.issues, q) && SameSprints(a.sprints, b.sprints, q) && SameStatuses(a.statuses, b.statuses, q)
  }

  function SprintProject(db: Db, id: int): Option<int> {
    if id in db.sprints then Some(db.sprints[id].project) else None
  }

  function IssueProject(db: Db, id: int): Option<int> {
    if id in db.issues then Some(db.issues[id].project) else None
  }

  /** The project a request is about. */
  function Subject(db: Db, op: Op): Option<int> {
    match op
    case OpCreateProject(_) => Some(db.lastId + 1)
    case OpUpdateProject(p, _) => Some(p)
    case OpDeleteProject(p) => Some(p)
    case OpCreateIssue(p, _) => Some(p)
    case OpUpdateIssue(id, _) => IssueProject(db, id)
    case OpMoveIssue(id, _) => IssueProject(db, id)
    case OpDeleteIssue(id) => IssueProject(db, id)
    case OpCreateSprint(p, _, _, _) => Some(p)
    case OpUpdateSprint(id, _, _, _) => SprintProject(db, id)
    case OpStartSprint(id, _, _, _) => SprintProject(db, id)
    case OpCompleteSprint(id, _) => SprintProject(db, id)
    case OpDeleteSprint(id) => SprintProject(db, id)
    case OpCreateStatus(p, _) => Some(p)
    case OpUpdateStatus(p, _, _) => Some(p)
    case OpReorderStatuses(p, _) => Some(p)
    case OpDeleteStatus(p, _, _) => Some(p)
  }

  /** Standard issues of one project take along subtasks of that project only. */
  lemma ResprintIsLocal(db: Db, moved: set<int>, dest: Option<int>, project: int, q: int)
    requires Inv(db) && project != q && forall id | id in moved :: id in db.issues && db.issues[id].project == project
    ensures SameIssues(db.issues, Resprint(db.issues, moved, dest), q)
  {
    forall id | id in db.issues && db.issues[id].project == q
      ensures Resprint(db.issues, moved, dest)[id] == db.issues[id]
    {
      assert IssueOk(db, db.issues[id]);
      if db.issues[id].parent.Some? {
        var p := db.issues[id].parent.value;
        assert p in db.issues ==> (p in moved ==> db.issues[p].project == project);
      }
    }
  }

  lemma ChangeIsLocal(db: Db, id: int, next: Issue, q: int)
    requires Inv(db) && id in db.issues && db.issues[id].project != q && next.project == db.issues[id].project
    ensures SameIssues(db.issues, WithChangedIssue(db.issues, id, next), q)
  {
    ResprintIsLocal(db, {id}, next.sprint, db.issues[id].project, q);
  }

  lemma UpdateIsLocal(db: Db, id: int, in': UpdateInput, now: int, q: int)
    requires Inv(db) && UpdateIssue(db, id, in', now).Ok? && IssueProject(db, id) != Some(q)
    ensures SameProject(db, UpdateIssue(db, id, in', now).value, q)
  {
    hide PatchedIssue, Resolved, SprintChanges, WithChangedIssue;
    assert IssueOk(db, db.issues[id]);
    PatchedIssueMayReplace(db, id, in');
    var next := PatchedIssue(db, db.issues[id], in').value;
    ResolvedKeepsProject(db, db.issues[id], next, now);
    ChangeIsLocal(db, id, Resolved(db, db.issues[id], next, now), q);
  }

  lemma ResolvedKeepsProject(db: Db, cur: Issue, next: Issue, now: int)
    ensures Resolved(db, cur, next, now).project == next.project
  {
  }

  lemma MoveIsLocal(db: Db, id: int, in': MoveInput, now: int, q: int)
    requires Inv(db) && MoveIssue(db, id, in', now).Ok? && IssueProject(db, id) != Some(q)
    ensures SameProject(db, MoveIssue(db, id, in', now).value, q)
  {
    hide MovedIssue, MoveRank, Resolved, SprintChanges, WithChangedIssue;
    assert IssueOk(db, db.issues[id]);
    MovedIssueMayReplace(db, id, in');
    var next, rank := MoveIssueParts(db, id, in', now);
    ResolvedKeepsProject(db, db.issues[id], next, now);
    ChangeIsLocal(db, id, Resolved(db, db.issues[id], next, now).(rank := rank), q);
  }

  lemma DeleteIssueIsLocal(db: Db, id: int, q: int)
    requires Inv(db) && DeleteIssue(db, id).Ok? && IssueProject(db, id) != Some(q)
    ensures SameProject(db, DeleteIssue(db, id).value, q)
  {
    forall x | x in db.issues ensures IssueOk(db, db.issues[x]) {}
  }

  lemma CompletionIsLocal(db: Db, id: int, target: CompleteTarget, q: int)
    requires Inv(db) && CompleteSprint(db, id, target).Ok? && SprintProject(db, id) != Some(q)
    ensures SameProject(db, CompleteSprint(db, id, target).value.db, q)
  {
    hide Resprint, SprintChanges;
    var project := db.sprints[id].project;
    forall x | x in OpenIssues(db, id)
      ensures x in db.issues && db.issues[x].project == project
    {
      assert IssueOk(db, db.issues[x]);
    }
    ResprintIsLocal(db, OpenIssues(db, id), CompleteSprint(db, id, target).value.target, project, q);
    hide OpenIssues, SprintStandardIssues, SameIssues;
    assert db.lastId + 1 !in db.sprints;
  }

  lemma DeleteSprintIsLocal(db: Db, id: int, q: int)
    requires Inv(db) && DeleteSprint(db, id).Ok? && SprintProject(db, id) != Some(q)
    ensures SameProject(db, DeleteSprint(db, id).value, q)
  {
    hide SprintChanges;
    forall x | x in db.issues ensures IssueOk(db, db.issues[x]) {}
  }

  /** Renumbering one project's statuses leaves the other projects' positions alone. */
  lemma RepositionedIsLocal(statuses: Statuses, pos: Positions, q: int)
    requires forall s | s in pos && s in statuses :: statuses[s].project != q
    ensures SameStatuses(statuses, Repositioned(statuses, pos), q)
  {
  }

  lemma ReorderIsLocal(db: Db, project: int, ids: seq<int>, q: int)
    requires ReorderStatuses(db, project, ids).Ok? && project != q
    ensures SameProject(db, ReorderStatuses(db, project, ids).value, q)
  {
    hide Repositioned, SameStatuses;
    EveryStatusIsListed(PositionsOf(db.statuses, project), ids);
    RepositionedIsLocal(db.statuses, Reordered(PositionsOf(db.statuses, project), ids), q);
  }

  lemma DeletedStatusRows(statuses: Statuses, project: int, id: int, q: int)
    requires id in statuses && statuses[id].project == project && project != q
    ensures SameStatuses(statuses, Repositioned(statuses - {id}, Compact(PositionsOf(statuses, project) - {id})), q)
  {
    hide Repositioned;
    var pos := Compact(PositionsOf(statuses, project) - {id});
    assert forall s | s in pos :: statuses[s].project == project;
    RepositionedIsLocal(statuses - {id}, pos, q);
  }

  /** Only issues in the deleted status are migrated, and they are in its project. */
  lemma DeleteStatusIsLocal(db: Db, project: int, id: int, moveTo: Option<int>, now: int, q: int)
    requires Inv(db) && DeleteStatus(db, project, id, moveTo, now).Ok? && project != q
    ensures SameProject(db, DeleteStatus(db, project, id, moveTo, now).value, q)
  {
    hide Compact, PositionsOf, Repositioned, StatusMigration;
    DeletedStatusRows(db.statuses, project, id, q);
    hide SameStatuses;
    forall x | x in db.issues && db.issues[x].project == q
      ensures db.issues[x].status != id
    {
      assert IssueOk(db, db.issues[x]);
    }
  }

  lemma CreateStatusIsLocal(db: Db, project: int, category: Category, q: int)
    requires Inv(db) && CreateStatus(db, project, category).Ok? && project != q
    ensures SameProject(db, CreateStatus(db, project, category).value, q)
  {
    hide NextPosition, PositionsOf;
    assert db.lastId + 1 !in db.statuses;
  }

  lemma UpdateStatusIsLocal(db: Db, project: int, id: int, category: Category, now: int, q: int)
    requires Inv(db) && UpdateStatus(db, project, id, category, now).Ok? && project != q
    ensures SameProject(db, UpdateStatus(db, project, id, category, now).value, q)
  {
    forall x | x in db.issues ensures IssueOk(db, db.issues[x]) {}
  }

  lemma CreateProjectIsLocal(db: Db, typ: ProjectType, q: int)
    requires Inv(db) && q != db.lastId + 1
    ensures SameProject(db, CreateProject(db, typ), q)
  {
    var b, p := CreateProject(db, typ), db.lastId + 1;
    assert forall s | s in db.statuses :: s <= db.lastId;
    forall s ensures s in b.statuses <==> s in db.statuses || p < s <= p + 4 {}
  }

  lemma CreateIssueIsLocal(db: Db, project: int, in': CreateInput, now: int, q: int)
    requires Inv(db) && CreateIssue(db, project, in', now).Ok? && project != q
    ensures SameProject(db, CreateIssue(db, project, in', now).value, q)
  {
    hide NewIssue;
    CreatedIssueOnly(db, project, in', now);
    NewIssueIsOk(db, project, in', now);
    assert db.lastId + 1 !in db.issues;
  }

  lemma SprintRowIsLocal(db: Db, op: Op, now: int, q: int)
    requires Inv(db) && Apply(db, op, now).Ok? && Subject(db, op) != Some(q)
    requires op.OpCreateSprint? || op.OpUpdateSprint? || op.OpStartSprint?
    ensures SameProject(db, Apply(db, op, now).value, q)
  {
    hide DateErrors, Required;
    assert db.lastId + 1 !in db.sprints;
  }

  /** No request changes anything in a project it is not about, whatever it moves, migrates or cascades. */
  lemma StepIsLocal(db: Db, op: Op, now: int, q: int)
    requires Inv(db) && Subject(db, op) != Some(q)
    ensures SameProject(db, Next(db, op, now), q)
  {
    hide CompleteSprint, CreateIssue, CreateProject, CreateSprint, CreateStatus, DeleteIssue, DeleteSprint,
      DeleteStatus, MoveIssue,
         ReorderStatuses, StartSprint, UpdateIssue, UpdateSprint, UpdateStatus;
    if Apply(db, op, now).Ok? {
      match op
      case OpUpdateIssue(id, in') => UpdateIsLocal(db, id, in', now, q);
      case OpMoveIssue(id, in') => MoveIsLocal(db, id, in', now, q);
      case OpDeleteIssue(id) => DeleteIssueIsLocal(db, id, q);
      case OpCompleteSprint(id, target) => CompletionIsLocal(db, id, target, q);
      case OpDeleteSprint(id) => DeleteSprintIsLocal(db, id, q);
      case OpCreateStatus(p, category) => CreateStatusIsLocal(db, p, category, q);
      case OpUpdateStatus(p, id, category) => UpdateStatusIsLocal(db, p, id, category, now, q);
      case OpReorderStatuses(p, ids) => ReorderIsLocal(db, p, ids, q);
      case OpDeleteStatus(p, id, moveTo) => DeleteStatusIsLocal(db, p, id, moveTo, now, q);
      case OpCreateProject(typ) => CreateProjectIsLocal(db, typ, q);
      case OpUpdateProject(_, _) =>
      case OpDeleteProject(_) =>
      case OpCreateIssue(p, in') => CreateIssueIsLocal(db, p, in', now, q);
      case _ => SprintRowIsLocal(db, op, now, q);
    }
  }

  /** Over every run, requests about other projects leave a project's rows as they were. */
  lemma {:induction false} RunIsLocal(db: Db, requests: seq<Request>, q: int)
    requires Inv(db)
    requires forall i | 0 <= i < |requests| :: Subject(RunFrom(db, requests[..i]), requests[i].op) != Some(q)
    ensures SameProject(db, RunFrom(db, requests), q)
  {
    if requests != [] {
      var last, before := requests[|requests| - 1], requests[..|requests| - 1];
      forall i | 0 <= i < |before| ensures Subject(RunFrom(db, before[..i]), before[i].op) != Some(q) {
        assert before[..i] == requests[..i];
      }
      RunIsLocal(db, before, q);
      RunFromKeeps(db, before);
      StepIsLocal(RunFrom(db, before), last.op, last.now, q);
    }
  }
}
