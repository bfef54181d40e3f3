/** When a Kanban project's issue changes sprint: only when its old sprint is completed into another one. */
module KanbanSprints {
  import opened Wrappers
  import opened RankedList
  import opened Columns
  import opened Tracker
  import opened TrackerInvariant
  import opened TrackerRuns
  import opened TrackerHistory
  import opened SprintCompletion

  /** x is a standard issue of a Kanban project, in sprint s. */
  ghost predicate KanbanIssueIn(db: Db, x: int, s: int) {
    x in db.issues && db.issues[x].typ.Standard() && db.issues[x].sprint == Some(s) &&
    db.issues[x].project in db.projects && db.projects[db.issues[x].project].Kanban?
  }

  ghost predicate Goes(db: Db, op: Op, now: int, x: int, t: int) {
    x in Next(db, op, now).issues && Next(db, op, now).issues[x].sprint == Some(t)
  }

  lemma KanbanRefusesSprints(db: Db, cur: Issue, sprint: Patch<int>)
    requires cur.project in db.projects && db.projects[cur.project].Kanban? && PatchedSprint(db, cur, sprint).Ok?
    ensures PatchedSprint(db, cur, sprint).value in {cur.sprint, None}
  {
  }

  lemma UpdateStays(db: Db, id: int, in': UpdateInput, now: int, x: int, s: int)
    requires Inv(db) && KanbanIssueIn(db, x, s) && UpdateIssue(db, id, in', now).Ok?
    ensures x in UpdateIssue(db, id, in', now).value.issues
    ensures UpdateIssue(db, id, in', now).value.issues[x].sprint in {Some(s), None}
  {
    hide PatchedIssue, PatchedSprint, WithChangedIssue;
    var cur, next := db.issues[id], PatchedIssue(db, db.issues[id], in').value;
    assert IssueOk(db, cur);
    PatchedIssueMayReplace(db, id, in');
    ChangedIssueRows(db.issues, id, Resolved(db, cur, next, now));
    PatchedSprintOf(db, cur, in');
    if x == id { KanbanRefusesSprints(db, cur, in'.sprint); }
  }

  lemma MoveStays(db: Db, id: int, in': MoveInput, now: int, x: int, s: int)
    requires Inv(db) && KanbanIssueIn(db, x, s) && MoveIssue(db, id, in', now).Ok?
    ensures x in MoveIssue(db, id, in', now).value.issues
    ensures MoveIssue(db, id, in', now).value.issues[x].sprint in {Some(s), None}
  {
    hide MoveIssue, MoveRank, PatchedSprint, WithChangedIssue;
    var next, rank := MoveIssueParts(db, id, in', now);
    ChangedIssueRows(db.issues, id, Resolved(db, db.issues[id], next, now).(rank := rank));
    if x == id { KanbanRefusesSprints(db, db.issues[id], in'.sprint); }
  }

  lemma OtherStepStays(db: Db, op: Op, now: int, x: int, s: int)
    requires Inv(db) && KanbanIssueIn(db, x, s)
    requires !op.OpCreateIssue? && !op.OpUpdateIssue? && !op.OpMoveIssue? && !op.OpCompleteSprint?
    requires x in Next(db, op, now).issues
    ensures Next(db, op, now).issues[x].sprint in {Some(s), None}
  {
    hide Compact, NextPosition, PositionsOf, Reordered, StatusMigration;
  }

  /** What completing a sprint needs to put x into t. */
  ghost predicate CompletesInto(db: Db, op: Op, x: int, s: int, t: int) {
    op == OpCompleteSprint(s, ToSprint(Some(t))) && s in db.sprints && db.sprints[s].state.Active? &&
    x in OpenIssues(db, s) && SprintIn(db, db.issues[x].project, t) && db.sprints[t].state.Planned?
  }

  /** A Kanban project's sprint can be completed into t exactly if it is active and t is named and planned. */
  lemma KanbanCompletionTarget(db: Db, id: int, target: CompleteTarget, t: int)
    requires Inv(db) && id in db.sprints && db.projects[db.sprints[id].project].Kanban?
    ensures CompleteSprint(db, id, target).Ok? && CompleteSprint(db, id, target).value.target == Some(t) <==>
            db.sprints[id].state.Active? && target == ToSprint(Some(t)) && SprintIn(db, db.sprints[id].project, t) &&
            db.sprints[t].state.Planned?
  {
    hide Resprint, OpenIssues, SprintChanges;
    assert SprintOk(db, db.sprints[id]);
  }

  lemma CompletionStays(db: Db, id: int, target: CompleteTarget, now: int, x: int, s: int, t: int)
    requires Inv(db) && KanbanIssueIn(db, x, s) && t != s
    ensures Goes(db, OpCompleteSprint(id, target), now, x, t) <==>
            CompletesInto(db, OpCompleteSprint(id, target), x, s, t)
  {
    assert IssueOk(db, db.issues[x]);
    if CompleteSprint(db, id, target).Ok? {
      CompletionMovesOpenWork(db, id, target);
    }
    KanbanCompletionTarget(db, s, target, t);
    hide CompleteSprint, CategoryOf;
  }

  /**
   * A standard issue of a Kanban project goes from one sprint to another exactly if the request completes
   * its active sprint into a planned one of the project and the issue is open.
   */
  lemma KanbanIssueMovesExactly(db: Db, op: Op, now: int, x: int, s: int, t: int)
    requires Inv(db) && KanbanIssueIn(db, x, s) && t != s
    ensures Goes(db, op, now, x, t) <==> CompletesInto(db, op, x, s, t)
  {
    hide CompleteSprint, CreateIssue, MoveIssue, UpdateIssue;
    match op
    case OpCompleteSprint(id, target) => CompletionStays(db, id, target, now, x, s, t);
    case OpCreateIssue(p, in') => if CreateIssue(db, p, in', now).Ok? { CreatedIssueOnly(db, p, in', now); }
    case OpUpdateIssue(id, in') => if UpdateIssue(db, id, in', now).Ok? { UpdateStays(db, id, in', now, x, s); }
    case OpMoveIssue(id, in') => if MoveIssue(db, id, in', now).Ok? { MoveStays(db, id, in', now, x, s); }
    case _ => if x in Next(db, op, now).issues { OtherStepStays(db, op, now, x, s); }
  }

  // ---------------------------------------------------------------- a run in which it happens

  lemma RunExtends(requests: seq<Request>, last: Request)
    ensures Run(requests + [last]) == Next(Run(requests), last.op, last.now)
  {
    assert (requests + [last])[..|requests|] == requests;
  }

  /** Project 1 with its four statuses, the active sprint 6 and the planned sprint 7. */
  lemma TwoSprints() returns (requests: seq<Request>)
    ensures var db := Run(requests);
            1 in db.projects && db.projects[1].Scrum? && db.lastId == 7 && StatusIn(db, 1, 2) &&
            db.statuses[2].category.Todo? &&
            SprintIn(db, 1, 6) && db.sprints[6].state.Active? && SprintIn(db, 1, 7) && db.sprints[7].state.Planned? &&
            db.issues == map[]
  {
    hide Run;
    var create := Request(OpCreateProject(Scrum), 0);
    var first := Request(OpCreateSprint(1, "A", Some(0), Some(1)), 0);
    var second := Request(OpCreateSprint(1, "B", None, None), 0);
    var start := Request(OpStartSprint(6, None, None, None), 0);
    assert Run([]) == EMPTY by { NothingHappened(); }
    RunExtends([], create);
    RunExtends([] + [create], first);
    RunExtends([] + [create] + [first], second);
    RunExtends([] + [create] + [first] + [second], start);
    requests := [] + [create] + [first] + [second] + [start];
  }

  lemma NothingHappened()
    ensures Run([]) == EMPTY
  {
  }

  /** A Kanban project's issue goes from sprint 6 to sprint 7. */
  lemma KanbanIssueCanMove() returns (requests: seq<Request>, last: Request)
    ensures KanbanIssueIn(Run(requests), 8, 6) && Goes(Run(requests), last.op, last.now, 8, 7)
  {
    hide Run;
    var before := TwoSprints();
    var input := CreateInput(Story, Some(2), None, Value(6), None, "");
    var create := Request(OpCreateIssue(1, input), 0);
    var switch := Request(OpUpdateProject(1, Kanban), 0);
    RunKeeps(before);
    RunExtends(before, create);
    RunExtends(before + [create], switch);
    requests, last := before + [create] + [switch], Request(OpCompleteSprint(6, ToSprint(Some(7))), 0);
    RunKeeps(requests);
    KanbanIssueMovesExactly(Run(requests), last.op, last.now, 8, 6, 7);
  }
}
