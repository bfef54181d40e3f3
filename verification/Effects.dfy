/** What each accepted request on the tracker writes: which rows, and in them exactly which columns. */
module Effects {
  import opened Wrappers
  import opened RankFractions
  import opened RankedList
  import opened Columns
  import opened Tracker
  import opened TrackerInvariant
  import opened TrackerRuns
  import opened TrackerHistory
  import opened SprintCompletion
  import opened Refusals

  predicate InDone(db: Db, status: int) {
    status in db.statuses && db.statuses[status].category == Done
  }

  /** resolved_at of an issue that goes to a status: kept within done, set on entry, cleared outside. */
  function ResolvedIn(db: Db, i: Issue, status: int, now: int): Option<int> {
    if !InDone(db, status) then None else if InDone(db, i.status) then i.resolvedAt else Some(now)
  }

  /** A new row with the next id joins the table; the others stay. */
  ghost predicate Inserted<T(!new)>(a: map<int, T>, b: map<int, T>, id: int, row: T) {
    id !in a && (forall x :: x in b <==> x in a || x == id) && b[id] == row && forall x | x in a :: b[x] == a[x]
  }

  /** One row is replaced; the others stay. */
  ghost predicate Replaced<T(!new)>(a: map<int, T>, b: map<int, T>, id: int, row: T) {
    id in a && (forall x :: x in b <==> x in a) && b[id] == row && forall x | x in a && x != id :: b[x] == a[x]
  }

  // ---------------------------------------------------------------- issues

  /** No table but the issues, and the log, is written. */
  ghost predicate OnlyIssues(a: Db, b: Db) {
    b == a.(issues := b.issues, sprintLog := b.sprintLog)
  }

  /** The row of issue id is written, and its subtasks have the sprint it has then; no other row changes. */
  ghost predicate OnlyIssue(a: Db, b: Db, id: int) {
    OnlyIssues(a, b) && id in a.issues && (forall x :: x in b.issues <==> x in a.issues) &&
    forall x | x in a.issues && x != id ::
      b.issues[x] == if a.issues[x].typ == Subtask && a.issues[x].parent == Some(id)
                     then a.issues[x].(sprint := b.issues[id].sprint) else a.issues[x]
  }

  /** A status of the project with no other to the left of it. */
  ghost predicate Leftmost(db: Db, project: int, status: int) {
    OwnStatus(db, project, status) &&
    forall s | s in db.statuses && db.statuses[s].project == project && s != status ::
      db.statuses[status].position < db.statuses[s].position
  }

  lemma FirstIsLeftmost(db: Db, project: int)
    requires StatusesOk(db) && project in db.projects
    ensures FirstColumn(PositionsOf(db.statuses, project)).Some? &&
            Leftmost(db, project, FirstColumn(PositionsOf(db.statuses, project)).value)
  {
    var pos := PositionsOf(db.statuses, project);
    assert HasColumns(db.statuses, project);
    var l: seq<int> :| l != [] && InColumns(l, pos);
    FirstIsHead(l, pos);
    forall s | s in db.statuses && db.statuses[s].project == project && s != l[0] ensures pos[l[0]] < pos[s] {
      assert s in pos && l[pos[s]] == s;
    }
  }

  /** A new issue has what was asked for, the leftmost status by default, and ranks behind all others. */
  lemma CreateWrites(db: Db, project: int, in': CreateInput, now: int)
    requires Inv(db) && Apply(db, OpCreateIssue(project, in'), now).Ok?
    ensures var b, id := Apply(db, OpCreateIssue(project, in'), now).value, db.lastId + 1;
            b == db.(issues := b.issues, lastId := id) && id in b.issues &&
            var row := b.issues[id];
            Inserted(db.issues, b.issues, id, row) &&
            row.project == project && row.typ == in'.typ && row.parent == in'.parent && row.points == in'.points &&
            row.details == in'.details &&
            (if in'.status.Some? then row.status == in'.status.value else Leftmost(db, project, row.status)) &&
            row.sprint == SprintOf(db, in'.typ, in'.parent, None, in'.sprint) &&
            row.resolvedAt == (if InDone(db, row.status) then Some(now) else None) &&
            forall x | x in db.issues && db.issues[x].project == project :: Less(db.issues[x].rank, row.rank)
  {
    CreatedIssueOnly(db, project, in', now);
    NewColumns(db, project, in', now);
    NewRankIsLast(db, project, in', now);
    hide CreateIssue, InDone, Leftmost, Less, NewIssue, SprintOf;
  }

  lemma NewColumns(db: Db, project: int, in': CreateInput, now: int)
    requires Inv(db) && NewIssue(db, project, in', now).Ok?
    ensures var row := NewIssue(db, project, in', now).value;
            row.project == project && row.typ == in'.typ && row.parent == in'.parent && row.points == in'.points &&
            row.details == in'.details &&
            (if in'.status.Some? then row.status == in'.status.value else Leftmost(db, project, row.status)) &&
            row.sprint == SprintOf(db, in'.typ, in'.parent, None, in'.sprint) &&
            row.resolvedAt == if InDone(db, row.status) then Some(now) else None
  {
    FirstIsLeftmost(db, project);
    hide FirstColumn, Inv, Leftmost, AppendRank, RanksOf;
  }

  lemma NewRankIsLast(db: Db, project: int, in': CreateInput, now: int)
    requires NewIssue(db, project, in', now).Ok?
    ensures forall x | x in db.issues && db.issues[x].project == project ::
              Less(db.issues[x].rank, NewIssue(db, project, in', now).value.rank)
  {
    hide FirstColumn, ResolveParent, SprintForNew, StatusForNew;
    var rank := NewIssue(db, project, in', now).value.rank;
    var ranks := RanksOf(db.issues, project);
    assert AppendRank(ranks) == Ok(rank);
    forall x | x in db.issues && db.issues[x].project == project ensures Less(db.issues[x].rank, rank) {
      AppendedIsAfter(ranks, x);
    }
  }

  lemma AppendedIsAfter(ranks: Ranks, x: int)
    requires AppendRank(ranks).Ok? && x in ranks
    ensures Less(ranks[x], AppendRank(ranks).value)
  {
    hide Less;
    var keys := set id | id in ranks :: ranks[id];
    assert ranks[x] in keys;
    var top := MaxIssueRank(ranks);
    if ranks[x] != top { LessIsTransitive(ranks[x], top, AppendRank(ranks).value); }
  }

  /** An updated issue has what was asked for; a field left out keeps its column. */
  lemma UpdateWrites(db: Db, id: int, in': UpdateInput, now: int)
    requires Inv(db) && Apply(db, OpUpdateIssue(id, in'), now).Ok?
    ensures var b := Apply(db, OpUpdateIssue(id, in'), now).value;
            OnlyIssue(db, b, id) &&
            var cur, row := db.issues[id], b.issues[id];
            row.project == cur.project && row.rank == cur.rank &&
            row.typ == (if in'.typ.Value? then in'.typ.value else cur.typ) &&
            Some(row.status) == Asked(in'.status, Some(cur.status)) &&
            row.parent == Asked(in'.parent, cur.parent) && row.points == Asked(in'.points, cur.points) &&
            row.details == (if in'.details.Some? then in'.details.value else cur.details) &&
            row.sprint == SprintOf(db, row.typ, row.parent, cur.sprint, in'.sprint) &&
            row.resolvedAt == ResolvedIn(db, cur, row.status, now)
  {
    var cur, next := db.issues[id], PatchedIssue(db, db.issues[id], in').value;
    assert IssueOk(db, cur);
    PatchedColumns(db, cur, in');
    PatchedIssueMayReplace(db, id, in');
    hide PatchedIssue;
    ResolvedIsIn(db, cur, next, now);
    SubtasksFollow(db, id, Resolved(db, cur, next, now));
    SubtasksFollow(db, id, cur);
    hide WithChangedIssue, Resolved, SprintOf;
  }

  lemma PatchedColumns(db: Db, cur: Issue, in': UpdateInput)
    requires IssueOk(db, cur) && PatchedIssue(db, cur, in').Ok?
    ensures var row := PatchedIssue(db, cur, in').value;
            row.project == cur.project && row.rank == cur.rank && row.resolvedAt == cur.resolvedAt &&
            row.typ == (if in'.typ.Value? then in'.typ.value else cur.typ) &&
            Some(row.status) == Asked(in'.status, Some(cur.status)) &&
            row.parent == Asked(in'.parent, cur.parent) && row.points == Asked(in'.points, cur.points) &&
            row.details == (if in'.details.Some? then in'.details.value else cur.details) &&
            row.sprint == SprintOf(db, row.typ, row.parent, cur.sprint, in'.sprint)
  {
    var typ, parent := if in'.typ.Value? then in'.typ.value else cur.typ, Asked(in'.parent, cur.parent);
    FieldsRefused(cur, in');
    PatchedStatusIs(db, cur, in'.status);
    PatchedParentIs(db, cur, typ, in'.parent);
    if GoodFields(cur, in') && (parent == cur.parent || MayHaveParent(db, cur.project, typ, parent)) {
      PatchedSprintIs(db, cur, typ, parent, in'.sprint);
    }
    hide FieldErrors, BadFields, PatchedStatus, PatchedParent, SprintAfterUpdate, MayAskForSprint, SprintOf;
  }

  lemma ResolvedIsIn(db: Db, cur: Issue, next: Issue, now: int)
    requires IssueOk(db, cur) && next.resolvedAt == cur.resolvedAt && OwnStatus(db, cur.project, next.status)
    ensures Resolved(db, cur, next, now) == next.(resolvedAt := ResolvedIn(db, cur, next.status, now))
  {
  }

  /** Writing a row takes its subtasks to its sprint; those of a row whose sprint stays are there already. */
  lemma SubtasksFollow(db: Db, id: int, row: Issue)
    requires IssuesOk(db) && id in db.issues
    requires row.typ == db.issues[id].typ || (row.typ.Standard() && db.issues[id].typ.Standard())
    ensures var after := WithChangedIssue(db.issues, id, row);
            (forall x :: x in after <==> x in db.issues) && after[id] == row &&
            forall x | x in db.issues && x != id ::
              after[x] == if db.issues[x].typ == Subtask && db.issues[x].parent == Some(id)
                          then db.issues[x].(sprint := row.sprint) else db.issues[x]
  {
    forall x | x in db.issues ensures IssueOk(db, db.issues[x]) {}
  }

  /**
   * A drag and drop gives an issue the status and the sprint asked for, and leaves the rest of its row but the
   * rank. A subtask stays in its parent's sprint. The rank is that of the place in the list that was asked for.
   */
  lemma MoveWrites(db: Db, id: int, in': MoveInput, now: int)
    requires Inv(db) && Apply(db, OpMoveIssue(id, in'), now).Ok?
    ensures var b := Apply(db, OpMoveIssue(id, in'), now).value;
            OnlyIssue(db, b, id) &&
            var cur, row := db.issues[id], b.issues[id];
            Some(row.status) == Asked(in'.status, Some(cur.status)) &&
            row.sprint == (if cur.typ == Subtask then cur.sprint else Asked(in'.sprint, cur.sprint)) &&
            row.resolvedAt == ResolvedIn(db, cur, row.status, now) &&
            row == cur.(status := row.status, sprint := row.sprint, resolvedAt := row.resolvedAt, rank := row.rank)
  {
    assert in'.status != Null;
    hide MoveIssue, MovedIssue, MoveRank, WithChangedIssue, Resolved;
    var next, rank := MoveIssueParts(db, id, in', now);
    var cur := db.issues[id];
    assert IssueOk(db, cur);
    MovedIssueIs(db, cur, in');
    ResolvedIsIn(db, cur, next, now);
    SubtasksFollow(db, id, Resolved(db, cur, next, now).(rank := rank));
  }

  /** An issue goes with its subtasks; its other children lose their parent, and nothing else changes. */
  lemma DeleteWrites(db: Db, id: int, now: int)
    requires Inv(db) && Apply(db, OpDeleteIssue(id), now).Ok?
    ensures var b := Apply(db, OpDeleteIssue(id), now).value;
            b == db.(issues := b.issues) &&
            (forall x :: x in b.issues <==>
               x in db.issues && x != id && !(db.issues[x].typ == Subtask && db.issues[x].parent == Some(id))) &&
            forall x | x in b.issues ::
              b.issues[x] == if db.issues[x].parent == Some(id) then db.issues[x].(parent := None) else db.issues[x]
  {
  }

  // ---------------------------------------------------------------- the log

  function NameOf(db: Db, sprint: Option<int>): Option<string> {
    match sprint
    case None => None
    case Some(s) => if s in db.sprints then Some(db.sprints[s].name) else None
  }

  /** The row that a change of the issue's sprint between two states is to be logged with. */
  predicate LogsChange(a: Db, b: Db, row: SprintRow) {
    row.issue in a.issues && row.issue in b.issues && a.issues[row.issue].sprint != b.issues[row.issue].sprint &&
    row.oldName == NameOf(a, a.issues[row.issue].sprint) && row.newName == NameOf(b, b.issues[row.issue].sprint)
  }

  /** Every request adds one log row for each issue whose sprint changes, with the names, and no other row. */
  lemma LogWrites(db: Db, op: Op, now: int, row: SprintRow)
    requires Inv(db)
    ensures var b := Next(db, op, now);
            b.sprintLog[row] == db.sprintLog[row] + if LogsChange(db, b, row) then 1 else 0
  {
    hide Next, Inv;
    var b := Next(db, op, now);
    StepLogsSprintChanges(db, op, now);
    LoggedRows(db, b, row);
  }

  lemma LoggedRows(a: Db, b: Db, row: SprintRow)
    ensures row in SprintChanges(a, b.issues, b.sprints) <==> LogsChange(a, b, row)
  {
  }

  // ---------------------------------------------------------------- sprints

  lemma CreateSprintWrites(db: Db, project: int, name: string, s: Option<int>, e: Option<int>, now: int)
    requires Inv(db) && Apply(db, OpCreateSprint(project, name, s, e), now).Ok?
    ensures var b, id := Apply(db, OpCreateSprint(project, name, s, e), now).value, db.lastId + 1;
            b == db.(sprints := b.sprints, lastId := id) &&
            Inserted(db.sprints, b.sprints, id, Sprint(project, name, Planned, s, e))
  {
  }

  /** Name and dates are those asked for, or else the old ones; project and state stay. */
  lemma UpdateSprintWrites(db: Db, id: int, name: Option<string>, s: Patch<int>, e: Patch<int>, now: int)
    requires Apply(db, OpUpdateSprint(id, name, s, e), now).Ok?
    ensures var b := Apply(db, OpUpdateSprint(id, name, s, e), now).value;
            b == db.(sprints := b.sprints) && id in db.sprints &&
            var cur := db.sprints[id];
            Replaced(db.sprints, b.sprints, id,
                     Sprint(cur.project, if name.Some? then name.value else cur.name, cur.state,
                            Asked(s, cur.startDate), Asked(e, cur.endDate)))
  {
  }

  lemma StartSprintWrites(db: Db, id: int, name: Option<string>, s: Option<int>, e: Option<int>, now: int)
    requires Apply(db, OpStartSprint(id, name, s, e), now).Ok?
    ensures var b := Apply(db, OpStartSprint(id, name, s, e), now).value;
            b == db.(sprints := b.sprints) && id in db.sprints &&
            var cur := db.sprints[id];
            Replaced(db.sprints, b.sprints, id,
                     Sprint(cur.project, if name.Some? then name.value else cur.name, Active,
                            if s.Some? then s else cur.startDate, if e.Some? then e else cur.endDate))
  {
  }

  /** A plain issue of the sprint that is not done. */
  predicate IsOpenIn(db: Db, sprint: int, x: int) {
    x in db.issues && Plain(db.issues[x].typ) && db.issues[x].sprint == Some(sprint) &&
    !InDone(db, db.issues[x].status)
  }

  /** An open issue of the sprint, or the subtask of one. */
  predicate LeavesWith(db: Db, sprint: int, x: int)
    requires x in db.issues
  {
    IsOpenIn(db, sprint, x) ||
    (db.issues[x].typ == Subtask && db.issues[x].parent.Some? && IsOpenIn(db, sprint, db.issues[x].parent.value))
  }

  /** What completing a sprint does to the sprints, and where the open issues are to go. */
  ghost predicate CompletesSprint(a: Db, b: Db, id: int, target: CompleteTarget, dest: Option<int>)
    requires id in a.sprints
  {
    var added := a.lastId + 1;
    added !in a.sprints && b.lastId == (if target.ToNew? then added else a.lastId) &&
    (forall s :: s in b.sprints <==> s in a.sprints || (target.ToNew? && s == added)) &&
    (forall s | s in a.sprints ::
       b.sprints[s] == if s == id then a.sprints[s].(state := Completed) else a.sprints[s]) &&
    (target.ToNew? ==> b.sprints[added] == Sprint(a.sprints[id].project, target.name, Planned, None, None)) &&
    dest == match target case ToBacklog => None case ToSprint(d) => d case ToNew(_) => Some(added)
  }

  /**
   * The sprint is completed: of its row, only the state changes. If a new sprint is asked for, it is planned, has
   * the name given and no dates, and is the target; no other sprint comes, goes or changes. Open issues and
   * their subtasks go to the target, and the project is left without an active sprint.
   */
  lemma CompleteWrites(db: Db, id: int, target: CompleteTarget, now: int)
    requires Inv(db) && CompleteSprint(db, id, target).Ok?
    ensures var c := CompleteSprint(db, id, target).value;
            var b := c.db;
            Apply(db, OpCompleteSprint(id, target), now) == Ok(b) && id in db.sprints &&
            b == db.(sprints := b.sprints, issues := b.issues, sprintLog := b.sprintLog, lastId := b.lastId) &&
            CompletesSprint(db, b, id, target, c.target) &&
            (forall x :: x in b.issues <==> x in db.issues) &&
            (forall x | x in db.issues ::
               b.issues[x] == if LeavesWith(db, id, x) then db.issues[x].(sprint := c.target) else db.issues[x]) &&
            forall s | s in b.sprints :: b.sprints[s].project == db.sprints[id].project ==> b.sprints[s].state != Active
  {
    CompletionRows(db, id, target);
    CompletedSprints(db, id, target);
    OpenWorkLeaves(db, id, CompleteSprint(db, id, target).value.target);
    NoneActive(db, CompleteSprint(db, id, target).value.db, id);
    hide CompleteSprint, CompletesSprint, Inv, LeavesWith, OpenIssues, Resprint;
  }

  /** The sprint's plain issues that are done. */
  function DoneIn(db: Db, sprint: int): set<int> {
    set x | x in db.issues && Plain(db.issues[x].typ) && db.issues[x].sprint == Some(sprint) &&
            InDone(db, db.issues[x].status)
  }

  function OpenIn(db: Db, sprint: int): set<int> {
    set x | x in db.issues && IsOpenIn(db, sprint, x)
  }

  lemma OpenAndDone(db: Db, sprint: int)
    requires IssuesOk(db)
    ensures OpenIssues(db, sprint) == OpenIn(db, sprint) && OpenIn(db, sprint) !! DoneIn(db, sprint)
    ensures SprintStandardIssues(db.issues, sprint) == OpenIn(db, sprint) + DoneIn(db, sprint)
  {
    forall x ensures x in OpenIssues(db, sprint) <==> x in OpenIn(db, sprint) {
      if x in db.issues { assert IssueOk(db, db.issues[x]); }
    }
  }

  /** The answer counts the open issues, which were moved, and the done ones, which were not. */
  lemma CompletionCountsExactly(db: Db, id: int, target: CompleteTarget)
    requires Inv(db) && CompleteSprint(db, id, target).Ok?
    ensures var c := CompleteSprint(db, id, target).value;
            c.movedCount == |OpenIn(db, id)| && c.completedCount == |DoneIn(db, id)|
  {
    CompletionCounts(db, id, target);
    OpenAndDone(db, id);
    hide CompleteSprint, DoneIn, Inv, OpenIn, OpenIssues, SprintStandardIssues;
  }

  lemma CompletedSprints(db: Db, id: int, target: CompleteTarget)
    requires Inv(db) && CompleteSprint(db, id, target).Ok?
    ensures var c := CompleteSprint(db, id, target).value;
            id in db.sprints && db.sprints[id].state == Active && CompletesSprint(db, c.db, id, target, c.target) &&
            c.db == db.(sprints := c.db.sprints, issues := c.db.issues, sprintLog := c.db.sprintLog,
                        lastId := c.db.lastId)
  {
    hide IssuesOk, OpenIssues, RanksOk, Resprint, SprintChanges, SprintStandardIssues, SprintsOk, StatusesOk;
  }

  lemma OpenWorkLeaves(db: Db, id: int, dest: Option<int>)
    requires IssuesOk(db)
    ensures var after := Resprint(db.issues, OpenIssues(db, id), dest);
            (forall x :: x in after <==> x in db.issues) &&
            forall x | x in db.issues ::
              after[x] == if LeavesWith(db, id, x) then db.issues[x].(sprint := dest) else db.issues[x]
  {
    forall x | x in db.issues ensures x in OpenIssues(db, id) <==> IsOpenIn(db, id, x) {
      assert IssueOk(db, db.issues[x]);
    }
    hide OpenIssues, IsOpenIn;
  }

  /** The active sprint was the project's only one, so once it is completed there is none. */
  lemma NoneActive(db: Db, b: Db, id: int)
    requires SprintsOk(db) && id in db.sprints && db.sprints[id].state == Active
    requires forall s | s in b.sprints && b.sprints[s].state == Active :: s in db.sprints && s != id &&
               b.sprints[s] == db.sprints[s]
    ensures forall s | s in b.sprints :: b.sprints[s].project == db.sprints[id].project ==> b.sprints[s].state != Active
  {
  }

  /** Every issue of a deleted planned sprint goes to the backlog. */
  lemma DeleteSprintWrites(db: Db, id: int, now: int)
    requires Inv(db) && Apply(db, OpDeleteSprint(id), now).Ok?
    ensures var b := Apply(db, OpDeleteSprint(id), now).value;
            b == db.(sprints := b.sprints, issues := b.issues, sprintLog := b.sprintLog) &&
            b.sprints == db.sprints - {id} && (forall x :: x in b.issues <==> x in db.issues) &&
            forall x | x in db.issues ::
              b.issues[x] == if db.issues[x].sprint == Some(id) then db.issues[x].(sprint := None) else db.issues[x]
  {
  }

  // ---------------------------------------------------------------- statuses

  /** A new status stands right of the project's others. */
  lemma CreateStatusWrites(db: Db, project: int, category: Category, now: int)
    requires Inv(db) && Apply(db, OpCreateStatus(project, category), now).Ok?
    ensures var b, id := Apply(db, OpCreateStatus(project, category), now).value, db.lastId + 1;
            b == db.(statuses := b.statuses, lastId := id) && id in b.statuses &&
            var row := b.statuses[id];
            Inserted(db.statuses, b.statuses, id, row) && row.project == project && row.category == category &&
            forall s | s in db.statuses && db.statuses[s].project == project :: db.statuses[s].position < row.position
  {
    var pos := PositionsOf(db.statuses, project);
    assert HasColumns(db.statuses, project);
    var l: seq<int> :| l != [] && InColumns(l, pos);
    AppendColumn(l, pos, db.lastId + 1);
    forall s | s in pos ensures pos[s] < NextPosition(pos) { assert l[pos[s]] == s; }
    forall s | s in db.statuses && db.statuses[s].project == project
      ensures db.statuses[s].position < NextPosition(pos)
    {
      assert s in pos;
    }
  }

  /** Only resolved_at changes in issues, as their status, deleted or not, is or is not in done. */
  ghost predicate Resolves(a: Db, b: Db, now: int) {
    (forall x :: x in b.issues <==> x in a.issues) &&
    forall x | x in a.issues ::
      b.issues[x] == a.issues[x].(status := b.issues[x].status,
                                  resolvedAt := if !InDone(b, b.issues[x].status) then None
                                                else if InDone(a, a.issues[x].status) then a.issues[x].resolvedAt
                                                else Some(now))
  }

  /** A status gets the category asked for; its issues stay in it, resolved from now on or no longer. */
  lemma UpdateStatusWrites(db: Db, project: int, id: int, category: Category, now: int)
    requires Inv(db) && Apply(db, OpUpdateStatus(project, id, category), now).Ok?
    ensures var b := Apply(db, OpUpdateStatus(project, id, category), now).value;
            b == db.(statuses := b.statuses, issues := b.issues) && id in db.statuses &&
            Replaced(db.statuses, b.statuses, id, db.statuses[id].(category := category)) &&
            Resolves(db, b, now) && forall x | x in db.issues :: b.issues[x].status == db.issues[x].status
  {
  }

  /** Each status of the project gets its place in the list as its position. */
  lemma ReorderWrites(db: Db, project: int, ids: seq<int>, now: int)
    requires Inv(db) && Apply(db, OpReorderStatuses(project, ids), now).Ok?
    ensures var b := Apply(db, OpReorderStatuses(project, ids), now).value;
            b == db.(statuses := b.statuses) && (forall s :: s in b.statuses <==> s in db.statuses) &&
            (forall s | s in db.statuses && s !in ids :: b.statuses[s] == db.statuses[s]) &&
            forall i | 0 <= i < |ids| :: ids[i] in db.statuses &&
              b.statuses[ids[i]] == db.statuses[ids[i]].(position := i)
  {
    hide InColumns, ListsEveryStatus, Reordered;
    var b, pos := Apply(db, OpReorderStatuses(project, ids), now).value, PositionsOf(db.statuses, project);
    ReorderStatusesKeeps(db, project, ids);
    EveryStatusIsListed(pos, ids);
    PositionsInOrder(ids, PositionsOf(b.statuses, project));
    ReorderedKeys(pos, ids);
    forall i | 0 <= i < |ids| ensures ids[i] in pos && ids[i] in PositionsOf(b.statuses, project) {}
  }

  lemma PositionsInOrder(ids: seq<int>, pos: Positions)
    requires InColumns(ids, pos)
    ensures forall i | 0 <= i < |ids| :: ids[i] in pos && pos[ids[i]] == i
  {
  }

  lemma ReorderedKeys(pos: Positions, ids: seq<int>)
    requires forall s | s in pos :: s in ids
    ensures forall s :: s in Reordered(pos, ids) <==> s in pos
  {
  }

  /** A deleted status's issues go to the status named; the other statuses change in position only. */
  lemma DeleteStatusWrites(db: Db, project: int, id: int, moveTo: Option<int>, now: int)
    requires Inv(db) && Apply(db, OpDeleteStatus(project, id, moveTo), now).Ok?
    ensures var b := Apply(db, OpDeleteStatus(project, id, moveTo), now).value;
            b == db.(statuses := b.statuses, issues := b.issues) &&
            (forall s :: s in b.statuses <==> s in db.statuses && s != id) &&
            (forall s | s in b.statuses ::
               b.statuses[s] == if db.statuses[s].project == project
                                then db.statuses[s].(position := b.statuses[s].position) else db.statuses[s]) &&
            Resolves(db, b, now) &&
            forall x | x in db.issues ::
              if db.issues[x].status == id then Some(b.issues[x].status) == moveTo
              else b.issues[x].status == db.issues[x].status
  {
    DeletedStatusTable(db, project, id, moveTo, now);
    DeletedStatusIssues(db, project, id, moveTo, now);
    hide DeleteStatus, Inv, Resolves;
  }

  lemma DeletedStatusTable(db: Db, project: int, id: int, moveTo: Option<int>, now: int)
    requires DeleteStatus(db, project, id, moveTo, now).Ok?
    ensures var b := DeleteStatus(db, project, id, moveTo, now).value;
            b == db.(statuses := b.statuses, issues := b.issues) &&
            (forall s :: s in b.statuses <==> s in db.statuses && s != id) &&
            forall s | s in b.statuses ::
              b.statuses[s] == if db.statuses[s].project == project
                               then db.statuses[s].(position := b.statuses[s].position) else db.statuses[s]
  {
    CompactKeys(PositionsOf(db.statuses, project) - {id});
    hide CategoryOf, Compact, StatusMigration;
  }

  lemma DeletedStatusIssues(db: Db, project: int, id: int, moveTo: Option<int>, now: int)
    requires IssuesOk(db) && DeleteStatus(db, project, id, moveTo, now).Ok?
    ensures var b := DeleteStatus(db, project, id, moveTo, now).value;
            Resolves(db, b, now) &&
            forall x | x in db.issues ::
              if db.issues[x].status == id then Some(b.issues[x].status) == moveTo
              else b.issues[x].status == db.issues[x].status
  {
    hide Compact, PositionsOf;
    forall x | x in db.issues ensures IssueOk(db, db.issues[x]) {}
  }

  lemma CompactKeys(pos: Positions)
    ensures forall s :: s in Compact(pos) <==> s in pos
  {
  }

  // ---------------------------------------------------------------- projects

  /** A new project has the type asked for and four columns: To Do, In Progress, In Review and Done. */
  lemma CreateProjectWrites(db: Db, typ: ProjectType, now: int)
    requires Inv(db)
    ensures var b, p := Next(db, OpCreateProject(typ), now), db.lastId + 1;
            b == db.(projects := b.projects, statuses := b.statuses, lastId := b.lastId) &&
            Inserted(db.projects, b.projects, p, typ) &&
            (forall s :: s in b.statuses <==> s in db.statuses || p < s <= p + 4) &&
            (forall s | s in db.statuses :: b.statuses[s] == db.statuses[s]) &&
            b.statuses[p + 1] == Status(p, Todo, 0) && b.statuses[p + 2] == Status(p, InProgress, 1) &&
            b.statuses[p + 3] == Status(p, InProgress, 2) && b.statuses[p + 4] == Status(p, Done, 3) &&
            b.lastId == p + 4
  {
  }

  lemma UpdateProjectWrites(db: Db, project: int, typ: ProjectType, now: int)
    requires Apply(db, OpUpdateProject(project, typ), now).Ok?
    ensures var b := Apply(db, OpUpdateProject(project, typ), now).value;
            b == db.(projects := b.projects) && Replaced(db.projects, b.projects, project, typ)
  {
  }

  /** A deleted project takes its rows along, and nobody else's. */
  lemma DeleteProjectWrites(db: Db, project: int, now: int)
    requires Apply(db, OpDeleteProject(project), now).Ok?
    ensures var b := Apply(db, OpDeleteProject(project), now).value;
            b.projects == db.projects - {project} && b.lastId == db.lastId && b.sprintLog == db.sprintLog &&
            (forall s :: s in b.statuses <==> s in db.statuses && db.statuses[s].project != project) &&
            (forall s :: s in b.sprints <==> s in db.sprints && db.sprints[s].project != project) &&
            (forall x :: x in b.issues <==> x in db.issues && db.issues[x].project != project) &&
            (forall s | s in b.statuses :: b.statuses[s] == db.statuses[s]) &&
            (forall s | s in b.sprints :: b.sprints[s] == db.sprints[s]) &&
            forall x | x in b.issues :: b.issues[x] == db.issues[x]
  {
  }
}
