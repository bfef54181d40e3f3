/** What requests do to resolved_at, to the sprint-change log, and to completed sprints, over whole runs. */
module TrackerHistory {
  import opened Wrappers
  import opened RankedList
  import opened Columns
  import opened Tracker
  import opened TrackerInvariant
  import opened TrackerRuns

  // ---------------------------------------------------------------- resolved_at

  ghost predicate IsDone(db: Db, id: int)
    requires id in db.issues
  {
    CategoryOf(db, db.issues[id].status).Done?
  }

  ghost predicate WasDone(db: Db, id: int) {
    id in db.issues && IsDone(db, id)
  }

  /** resolved_at is kept within done, set to the request's time on entry, and cleared outside. */
  ghost predicate ResolvedTracks(a: Db, b: Db, now: int) {
    forall id | id in b.issues ::
      b.issues[id].resolvedAt ==
        if !IsDone(b, id) then None else if WasDone(a, id) then a.issues[id].resolvedAt else Some(now)
  }

  /** Apart from the changed row, only sprints of subtasks change. */
  lemma ChangedIssueRows(issues: Issues, id: int, next: Issue)
    requires id in issues
    ensures var after := WithChangedIssue(issues, id, next);
            (forall x :: x in after <==> x in issues) && after[id] == next &&
            forall x | x in issues && x != id :: after[x] == issues[x].(sprint := after[x].sprint) &&
                                                 (after[x].sprint != issues[x].sprint ==> issues[x].typ.Subtask?)
  {
  }

  lemma UpdateTracks(db: Db, id: int, in': UpdateInput, now: int)
    requires Inv(db) && UpdateIssue(db, id, in', now).Ok?
    ensures ResolvedTracks(db, UpdateIssue(db, id, in', now).value, now)
  {
    hide PatchedIssue, WithChangedIssue;
    var b := UpdateIssue(db, id, in', now).value;
    var next := PatchedIssue(db, db.issues[id], in').value;
    assert IssueOk(db, db.issues[id]);
    PatchedIssueMayReplace(db, id, in');
    ChangedIssueRows(db.issues, id, Resolved(db, db.issues[id], next, now));
    forall x | x in b.issues ensures IssueOk(db, db.issues[x]) {}
  }

  lemma MoveTracks(db: Db, id: int, in': MoveInput, now: int)
    requires Inv(db) && MoveIssue(db, id, in', now).Ok?
    ensures ResolvedTracks(db, MoveIssue(db, id, in', now).value, now)
  {
    hide MoveIssue, MovedIssue, MoveRank, WithChangedIssue;
    var b := MoveIssue(db, id, in', now).value;
    var next, rank := MoveIssueParts(db, id, in', now);
    assert IssueOk(db, db.issues[id]);
    MovedIssueMayReplace(db, id, in');
    ChangedIssueRows(db.issues, id, Resolved(db, db.issues[id], next, now).(rank := rank));
    forall x | x in b.issues ensures IssueOk(db, db.issues[x]) {}
  }

  lemma CreateTracks(db: Db, project: int, in': CreateInput, now: int)
    requires Inv(db) && CreateIssue(db, project, in', now).Ok?
    ensures ResolvedTracks(db, CreateIssue(db, project, in', now).value, now)
  {
    hide CreateIssue, ResolveParent, SprintForNew, StatusForNew;
    CreatedIssueOnly(db, project, in', now);
    assert db.lastId + 1 !in db.issues;
    forall x | x in db.issues ensures IssueOk(db, db.issues[x]) {}
  }

  lemma UpdatedStatusTracks(db: Db, project: int, id: int, category: Category, now: int)
    requires Inv(db) && UpdateStatus(db, project, id, category, now).Ok?
    ensures ResolvedTracks(db, UpdateStatus(db, project, id, category, now).value, now)
  {
    forall x | x in db.issues ensures IssueOk(db, db.issues[x]) {}
  }

  lemma DeletedStatusTracks(db: Db, project: int, id: int, moveTo: Option<int>, now: int)
    requires Inv(db) && DeleteStatus(db, project, id, moveTo, now).Ok?
    ensures ResolvedTracks(db, DeleteStatus(db, project, id, moveTo, now).value, now)
  {
    hide Compact, PositionsOf;
    forall x | x in db.issues ensures IssueOk(db, db.issues[x]) {}
  }

  lemma CompletionRows(db: Db, id: int, target: CompleteTarget)
    requires CompleteSprint(db, id, target).Ok?
    ensures var c := CompleteSprint(db, id, target).value;
            c.db.issues == Resprint(db.issues, OpenIssues(db, id), c.target) &&
            c.db.statuses == db.statuses && c.db.projects == db.projects
  {
    hide OpenIssues, Resprint;
  }

  lemma StepTracks(db: Db, op: Op, now: int)
    requires Inv(db)
    ensures ResolvedTracks(db, Next(db, op, now), now)
  {
    hide CompleteSprint, CreateIssue, DeleteStatus, MoveIssue, UpdateIssue, UpdateStatus;
    forall x | x in db.issues ensures IssueOk(db, db.issues[x]) {}
    if Apply(db, op, now).Ok? {
      match op
      case OpCreateIssue(p, in') => CreateTracks(db, p, in', now);
      case OpUpdateIssue(id, in') => UpdateTracks(db, id, in', now);
      case OpMoveIssue(id, in') => MoveTracks(db, id, in', now);
      case OpUpdateStatus(p, id, category) => UpdatedStatusTracks(db, p, id, category, now);
      case OpDeleteStatus(p, id, moveTo) => DeletedStatusTracks(db, p, id, moveTo, now);
      case OpCompleteSprint(id, target) => CompletionRows(db, id, target);
      case _ => OtherStepsTrack(db, op, now);
    }
  }

  lemma ReorderTracks(db: Db, project: int, ids: seq<int>, now: int)
    requires Inv(db) && ReorderStatuses(db, project, ids).Ok?
    ensures ResolvedTracks(db, ReorderStatuses(db, project, ids).value, now)
  {
    hide Reordered, PositionsOf;
    forall x | x in db.issues ensures IssueOk(db, db.issues[x]) {}
  }

  lemma OtherStepsTrack(db: Db, op: Op, now: int)
    requires Inv(db) && Apply(db, op, now).Ok?
    requires !op.OpCreateIssue? && !op.OpUpdateIssue? && !op.OpMoveIssue? && !op.OpUpdateStatus? &&
             !op.OpDeleteStatus? && !op.OpCompleteSprint?
    ensures ResolvedTracks(db, Apply(db, op, now).value, now)
  {
    hide Compact, NextPosition, PositionsOf, Reordered, SprintChanges, StatusMigration;
    forall x | x in db.issues ensures IssueOk(db, db.issues[x]) {}
    if op.OpReorderStatuses? { ReorderTracks(db, op.project, op.ids, now); }
  }

  /** When an issue that is done now last entered done, replayed from the requests. */
  ghost function LastEntry(requests: seq<Request>, id: int): Option<int> {
    if requests == [] || !WasDone(Run(requests), id) then None
    else
      var last, before := requests[|requests| - 1], requests[..|requests| - 1];
      if WasDone(Run(before), id) then LastEntry(before, id) else Some(last.now)
  }

  /** Over every run, resolved_at is the time of the last entry into done, and unset outside done. */
  lemma {:induction false} ResolvedAtIsLastEntry(requests: seq<Request>, id: int)
    requires id in Run(requests).issues
    ensures Run(requests).issues[id].resolvedAt == LastEntry(requests, id)
    ensures LastEntry(requests, id).Some? <==> IsDone(Run(requests), id)
  {
    var last, before := requests[|requests| - 1], requests[..|requests| - 1];
    RunKeeps(before);
    StepTracks(Run(before), last.op, last.now);
    if id in Run(before).issues { ResolvedAtIsLastEntry(before, id); }
  }

  // ---------------------------------------------------------------- the sprint-change log

  lemma CompletionLog(db: Db, id: int, target: CompleteTarget)
    requires Inv(db) && CompleteSprint(db, id, target).Ok?
    ensures var b := CompleteSprint(db, id, target).value.db;
            b.sprintLog == db.sprintLog + multiset(SprintChanges(db, b.issues, b.sprints))
  {
    hide CompletionTarget, OpenIssues, Resprint;
    var b := CompleteSprint(db, id, target).value.db;
    var with := CompletionTarget(db, db.sprints[id].project, target).value.0;
    CompletionTargetKeeps(db, db.sprints[id].project, target);
    forall x | x in db.issues
      ensures SprintName(with.sprints, db.issues[x].sprint) == SprintName(db.sprints, db.issues[x].sprint)
    {
      assert IssueOk(db, db.issues[x]);
    }
    assert SprintChanges(with, b.issues, b.sprints) == SprintChanges(db, b.issues, b.sprints);
  }

  lemma NoSprintChanges(db: Db, b: Db)
    requires forall x | x in db.issues && x in b.issues :: b.issues[x].sprint == db.issues[x].sprint
    requires b.sprintLog == db.sprintLog
    ensures b.sprintLog == db.sprintLog + multiset(SprintChanges(db, b.issues, b.sprints))
  {
    assert SprintChanges(db, b.issues, b.sprints) == {};
  }

  /**
   * Every request logs exactly one sprint change, with the old and new names, for each issue whose
   * sprint it changes, subtasks carried along included, and none for any other issue.
   */
  lemma StepLogsSprintChanges(db: Db, op: Op, now: int)
    requires Inv(db)
    ensures var b := Next(db, op, now);
            b.sprintLog == db.sprintLog + multiset(SprintChanges(db, b.issues, b.sprints))
  {
    hide Apply, SprintChanges;
    var b := Next(db, op, now);
    if Apply(db, op, now).Err? {
      NoSprintChanges(db, b);
    } else if op.OpCompleteSprint? || op.OpUpdateIssue? || op.OpMoveIssue? || op.OpDeleteSprint? {
      LoggingStep(db, op, now);
    } else {
      QuietStep(db, op, now);
      NoSprintChanges(db, b);
    }
  }

  lemma LoggingStep(db: Db, op: Op, now: int)
    requires Inv(db) && Apply(db, op, now).Ok?
    requires op.OpCompleteSprint? || op.OpUpdateIssue? || op.OpMoveIssue? || op.OpDeleteSprint?
    ensures var b := Apply(db, op, now).value;
            b.sprintLog == db.sprintLog + multiset(SprintChanges(db, b.issues, b.sprints))
  {
    hide CompleteSprint, MovedIssue, MoveRank, PatchedIssue, Resprint, SprintChanges, WithChangedIssue;
    match op
    case OpCompleteSprint(id, target) => CompletionLog(db, id, target);
    case OpUpdateIssue(_, _) => NoSprintChanges(db, db);
    case _ =>
  }

  /** The other requests log no sprint change and change no existing issue's sprint. */
  lemma QuietStep(db: Db, op: Op, now: int)
    requires Inv(db) && Apply(db, op, now).Ok?
    requires !op.OpCompleteSprint? && !op.OpUpdateIssue? && !op.OpMoveIssue? && !op.OpDeleteSprint?
    ensures var b := Apply(db, op, now).value;
            b.sprintLog == db.sprintLog &&
            forall x | x in db.issues && x in b.issues :: b.issues[x].sprint == db.issues[x].sprint
  {
    hide Compact, NewIssue, PositionsOf, Reordered, NextPosition, StatusMigration;
    if op.OpCreateIssue? { assert db.lastId + 1 !in db.issues; }
  }

  // ---------------------------------------------------------------- completed sprints and Kanban

  /** A completed sprint stays completed, and no standard issue joins it. */
  ghost predicate CompletedOnlyShrinks(a: Db, b: Db, sprint: int) {
    sprint in a.sprints && a.sprints[sprint].state.Completed? ==>
      (sprint in b.sprints ==> b.sprints[sprint].state.Completed?) &&
      SprintStandardIssues(b.issues, sprint) <= SprintStandardIssues(a.issues, sprint)
  }

  /** The project's standard issues that are in a sprint. */
  function InSomeSprint(db: Db, project: int): set<int> {
    set id | id in db.issues && db.issues[id].project == project && db.issues[id].typ.Standard() &&
      db.issues[id].sprint.Some?
  }

  /** While the project is Kanban, no standard issue without a sprint gains one, new issues included. */
  ghost predicate KanbanGainsNoSprint(a: Db, b: Db, project: int) {
    project in a.projects && a.projects[project].Kanban? ==> InSomeSprint(b, project) <= InSomeSprint(a, project)
  }

  /** Where a request may put a standard issue: where it was, nowhere, or a sprint that accepts issues. */
  ghost predicate Joins(a: Db, b: Db, id: int)
    requires id in b.issues
  {
    var i := b.issues[id];
    i.typ.Standard() ==>
      (id in a.issues ==> a.issues[id].typ.Standard() && a.issues[id].project == i.project) &&
      ((id in a.issues && a.issues[id].sprint == i.sprint) || i.sprint == None ||
       (i.sprint.value in b.sprints && !b.sprints[i.sprint.value].state.Completed? &&
        (i.sprint.value in a.sprints ==> !a.sprints[i.sprint.value].state.Completed?) &&
        i.project in a.projects && (a.projects[i.project].Kanban? ==> id in a.issues && a.issues[id].sprint.Some?)))
  }

  lemma JoinsSuffices(a: Db, b: Db, sprint: int, project: int)
    requires forall id | id in b.issues :: Joins(a, b, id)
    requires sprint in a.sprints && a.sprints[sprint].state.Completed? && sprint in b.sprints ==>
               b.sprints[sprint].state.Completed?
    ensures CompletedOnlyShrinks(a, b, sprint) && KanbanGainsNoSprint(a, b, project)
  {
    forall id | id in SprintStandardIssues(b.issues, sprint) && sprint in a.sprints &&
                a.sprints[sprint].state.Completed?
      ensures id in SprintStandardIssues(a.issues, sprint)
    {
      assert Joins(a, b, id);
    }
    forall id | id in InSomeSprint(b, project) && project in a.projects && a.projects[project].Kanban?
      ensures id in InSomeSprint(a, project)
    {
      assert Joins(a, b, id);
    }
  }

  lemma CreateJoins(db: Db, project: int, in': CreateInput, now: int, id: int)
    requires Inv(db) && CreateIssue(db, project, in', now).Ok? && id in CreateIssue(db, project, in', now).value.issues
    ensures Joins(db, CreateIssue(db, project, in', now).value, id)
  {
    hide CreateIssue, StatusForNew;
    CreatedIssueOnly(db, project, in', now);
  }

  lemma UpdateJoins(db: Db, id: int, in': UpdateInput, now: int, x: int)
    requires Inv(db) && UpdateIssue(db, id, in', now).Ok? && x in UpdateIssue(db, id, in', now).value.issues
    ensures Joins(db, UpdateIssue(db, id, in', now).value, x)
  {
    hide PatchedIssue, WithChangedIssue;
    var cur, next := db.issues[id], PatchedIssue(db, db.issues[id], in').value;
    assert IssueOk(db, cur);
    PatchedIssueMayReplace(db, id, in');
    ChangedIssueRows(db.issues, id, Resolved(db, cur, next, now));
    PatchedSprintOf(db, cur, in');
  }

  lemma PatchedSprintOf(db: Db, cur: Issue, in': UpdateInput)
    requires cur.project in db.projects && PatchedIssue(db, cur, in').Ok?
    ensures PatchedIssue(db, cur, in').value.typ.Standard() ==>
              PatchedSprint(db, cur, in'.sprint) == Ok(PatchedIssue(db, cur, in').value.sprint)
    ensures PatchedIssue(db, cur, in').value.typ.Standard() ==> cur.typ.Standard()
  {
  }

  lemma MovedSprintOf(db: Db, cur: Issue, in': MoveInput)
    requires cur.project in db.projects && MovedIssue(db, cur, in').Ok?
    ensures var next := MovedIssue(db, cur, in').value;
            next.typ == cur.typ && next.project == cur.project &&
            (cur.typ.Standard() ==> PatchedSprint(db, cur, in'.sprint) == Ok(next.sprint))
  {
    hide PatchedSprint;
  }

  lemma MoveJoins(db: Db, id: int, in': MoveInput, now: int, x: int)
    requires Inv(db) && MoveIssue(db, id, in', now).Ok? && x in MoveIssue(db, id, in', now).value.issues
    ensures Joins(db, MoveIssue(db, id, in', now).value, x)
  {
    hide MoveIssue, MoveRank, MovedIssue, WithChangedIssue;
    var next, rank := MoveIssueParts(db, id, in', now);
    assert IssueOk(db, db.issues[id]);
    MovedSprintOf(db, db.issues[id], in');
    ChangedIssueRows(db.issues, id, Resolved(db, db.issues[id], next, now).(rank := rank));
  }

  lemma CompletionJoins(db: Db, id: int, target: CompleteTarget, x: int)
    requires Inv(db) && CompleteSprint(db, id, target).Ok? && x in CompleteSprint(db, id, target).value.db.issues
    ensures Joins(db, CompleteSprint(db, id, target).value.db, x)
  {
    hide CompletionTarget;
    CompletionTargetKeeps(db, db.sprints[id].project, target);
    assert IssueOk(db, db.issues[x]);
  }

  /** Steps that put no issue into a sprint: existing rows keep project and type, and their sprint or none. */
  lemma OtherRowsStay(db: Db, op: Op, now: int, x: int)
    requires Apply(db, op, now).Ok? && x in Apply(db, op, now).value.issues
    requires !op.OpCreateIssue? && !op.OpUpdateIssue? && !op.OpMoveIssue? && !op.OpCompleteSprint?
    ensures x in db.issues
    ensures var i, i' := db.issues[x], Apply(db, op, now).value.issues[x];
            i'.project == i.project && i'.typ == i.typ && (i'.sprint == i.sprint || i'.sprint == None)
  {
    hide Compact, NextPosition, PositionsOf, Reordered, Repositioned, StatusMigration, CategoryOf;
  }

  lemma StepJoins(db: Db, op: Op, now: int, x: int)
    requires Inv(db) && x in Next(db, op, now).issues
    ensures Joins(db, Next(db, op, now), x)
  {
    if Apply(db, op, now).Ok? {
      match op
      case OpCreateIssue(p, in') => CreateJoins(db, p, in', now, x);
      case OpUpdateIssue(id, in') => UpdateJoins(db, id, in', now, x);
      case OpMoveIssue(id, in') => MoveJoins(db, id, in', now, x);
      case OpCompleteSprint(id, target) => CompletionJoins(db, id, target, x);
      case _ => OtherJoins(db, op, now, x);
    }
  }

  lemma OtherJoins(db: Db, op: Op, now: int, x: int)
    requires Apply(db, op, now).Ok? && x in Apply(db, op, now).value.issues
    requires !op.OpCreateIssue? && !op.OpUpdateIssue? && !op.OpMoveIssue? && !op.OpCompleteSprint?
    ensures Joins(db, Apply(db, op, now).value, x)
  {
    hide Apply;
    OtherRowsStay(db, op, now, x);
  }

  lemma StepKeepsCompleted(db: Db, op: Op, now: int, sprint: int)
    requires Inv(db) && sprint in db.sprints && db.sprints[sprint].state.Completed?
    requires sprint in Next(db, op, now).sprints
    ensures Next(db, op, now).sprints[sprint].state.Completed?
  {
    hide Compact, MovedIssue, MoveRank, NewIssue, PatchedIssue, PositionsOf, Resprint, SyncResolved, WithChangedIssue;
    if op.OpCompleteSprint? && CompleteSprint(db, op.id, op.target).Ok? {
      CompletionTargetKeeps(db, db.sprints[op.id].project, op.target);
    }
  }

  lemma StepShrinksCompleted(db: Db, op: Op, now: int, sprint: int, project: int)
    requires Inv(db)
    ensures CompletedOnlyShrinks(db, Next(db, op, now), sprint)
    ensures KanbanGainsNoSprint(db, Next(db, op, now), project)
  {
    var b := Next(db, op, now);
    hide Apply, Next;
    forall x | x in b.issues ensures Joins(db, b, x) { StepJoins(db, op, now, x); }
    if sprint in db.sprints && db.sprints[sprint].state.Completed? && sprint in b.sprints {
      StepKeepsCompleted(db, op, now, sprint);
    }
    JoinsSuffices(db, b, sprint, project);
  }

  lemma DeletedSprintsStayDeleted(db: Db, op: Op, now: int, sprint: int)
    requires sprint <= db.lastId && sprint !in db.sprints
    ensures sprint !in Next(db, op, now).sprints && db.lastId <= Next(db, op, now).lastId
  {
    hide Compact, MovedIssue, MoveRank, NewIssue, PatchedIssue, PositionsOf, Resprint, SyncResolved, WithChangedIssue;
  }

  lemma IdsOnlyGrow(db: Db, op: Op, now: int)
    ensures db.lastId <= Next(db, op, now).lastId
  {
    hide Compact, MovedIssue, NewIssue, PatchedIssue, PositionsOf;
  }

  /** Once a sprint is completed, no run ever adds a standard issue to it. */
  lemma {:induction false} CompletedSprintNeverGrows(db: Db, requests: seq<Request>, sprint: int)
    requires Inv(db) && sprint in db.sprints && db.sprints[sprint].state.Completed?
    ensures var b := RunFrom(db, requests);
            sprint <= b.lastId && (sprint in b.sprints ==> b.sprints[sprint].state.Completed?) &&
            SprintStandardIssues(b.issues, sprint) <= SprintStandardIssues(db.issues, sprint)
  {
    if requests != [] {
      var last, before := requests[|requests| - 1], requests[..|requests| - 1];
      var a := RunFrom(db, before);
      CompletedSprintNeverGrows(db, before, sprint);
      RunFromKeeps(db, before);
      IdsOnlyGrow(a, last.op, last.now);
      if sprint in a.sprints {
        StepShrinksCompleted(a, last.op, last.now, sprint, 0);
      } else {
        DeletedSprintsStayDeleted(a, last.op, last.now, sprint);
        RunFromKeeps(db, requests);
        NoIssuesInMissingSprint(RunFrom(db, requests), sprint);
      }
    }
  }

  lemma NoIssuesInMissingSprint(db: Db, sprint: int)
    requires IssuesOk(db) && sprint !in db.sprints
    ensures SprintStandardIssues(db.issues, sprint) == {}
  {
    forall x | x in db.issues ensures db.issues[x].sprint != Some(sprint) { assert IssueOk(db, db.issues[x]); }
  }

  /** Over every run in which the project stays Kanban, its standard issues only ever leave sprints. */
  lemma {:induction false} KanbanIssuesOnlyLeaveSprints(db: Db, requests: seq<Request>, project: int)
    requires Inv(db)
    requires forall i | 0 <= i < |requests| ::
               project in RunFrom(db, requests[..i]).projects && RunFrom(db, requests[..i]).projects[project].Kanban?
    ensures InSomeSprint(RunFrom(db, requests), project) <= InSomeSprint(db, project)
  {
    if requests != [] {
      var last, before := requests[|requests| - 1], requests[..|requests| - 1];
      forall i | 0 <= i < |before|
        ensures project in RunFrom(db, before[..i]).projects && RunFrom(db, before[..i]).projects[project].Kanban?
      {
        assert before[..i] == requests[..i];
      }
      KanbanIssuesOnlyLeaveSprints(db, before, project);
      RunFromKeeps(db, before);
      StepShrinksCompleted(RunFrom(db, before), last.op, last.now, 0, project);
    }
  }
}
