/** What every reachable state of the tracker satisfies. */
module TrackerInvariant {
  import opened Wrappers
  import opened IdSets
  import opened RankFractions
  import opened RankedList
  import opened Columns
  import opened Tracker

  // ---------------------------------------------------------------- the invariant

  /** Three levels: epics, standard issues under an epic or none, subtasks in their parent's sprint. */
  ghost predicate HierarchyOk(db: Db, i: Issue) {
    match i.typ
    case Epic => i.parent == None && i.sprint == None
    case Subtask =>
      i.parent.Some? && i.parent.value in db.issues &&
      var p := db.issues[i.parent.value];
      p.typ.Standard() && p.project == i.project && p.sprint == i.sprint
    case _ =>
      i.parent.Some? ==>
        i.parent.value in db.issues &&
        var p := db.issues[i.parent.value];
        p.typ.Epic? && p.project == i.project
  }

  ghost predicate PointsOk(points: Option<real>) {
    points.Some? ==> 0.0 <= points.value <= MAX_STORY_POINTS
  }

  ghost predicate IssueOk(db: Db, i: Issue) {
    i.project in db.projects && StatusIn(db, i.project, i.status) &&
    (i.sprint.Some? ==> SprintIn(db, i.project, i.sprint.value)) &&
    HierarchyOk(db, i) && PointsOk(i.points) &&
    (i.resolvedAt.Some? <==> db.statuses[i.status].category.Done?)
  }

  ghost predicate IssuesOk(db: Db) {
    forall id | id in db.issues :: IssueOk(db, db.issues[id])
  }

  ghost predicate SprintOk(db: Db, s: Sprint) {
    s.project in db.projects && DateErrors(s.startDate, s.endDate) == {} &&
    (s.state.Active? ==> s.startDate.Some? && s.endDate.Some?)
  }

  ghost predicate SprintsOk(db: Db) {
    (forall s | s in db.sprints :: SprintOk(db, db.sprints[s])) &&
    forall s, t | s in db.sprints && t in db.sprints && db.sprints[s].state.Active? && db.sprints[t].state.Active? &&
                  db.sprints[s].project == db.sprints[t].project :: s == t
  }

  ghost predicate StatusesOk(db: Db) {
    (forall s | s in db.statuses :: db.statuses[s].project in db.projects) &&
    forall p | p in db.projects :: HasColumns(db.statuses, p)
  }

  /** The project's statuses fill the positions 0..n-1, and there is at least one. */
  ghost predicate HasColumns(statuses: Statuses, project: int) {
    exists l: seq<int> :: l != [] && InColumns(l, PositionsOf(statuses, project))
  }

  ghost predicate RanksOk(issues: Issues) {
    forall p :: Ranked(RanksOf(issues, p))
  }

  ghost predicate IdsOk(db: Db) {
    (forall p | p in db.projects :: p <= db.lastId) && (forall s | s in db.statuses :: s <= db.lastId) &&
    (forall s | s in db.sprints :: s <= db.lastId) && (forall i | i in db.issues :: i <= db.lastId)
  }

  ghost predicate Inv(db: Db) {
    IssuesOk(db) && SprintsOk(db) && StatusesOk(db) && RanksOk(db.issues) && IdsOk(db)
  }

  // ---------------------------------------------------------------- issues

  lemma RanksUntouched(a: Db, b: Db)
    requires RanksOk(a.issues)
    requires forall id | id in b.issues :: id in a.issues && b.issues[id].project == a.issues[id].project &&
                                           b.issues[id].rank == a.issues[id].rank
    ensures RanksOk(b.issues)
  {
    forall p ensures Ranked(RanksOf(b.issues, p)) {
      var before, after := RanksOf(a.issues, p), RanksOf(b.issues, p);
      assert Ranked(before);
      forall id | id in after ensures id in before && after[id] == before[id] {}
    }
  }

  /** Only issue rows changed: what is left to show is that each of them is still in order. */
  lemma IssuesStep(a: Db, b: Db)
    requires Inv(a) && IssuesOk(b)
    requires b.projects == a.projects && b.statuses == a.statuses && b.sprints == a.sprints && b.lastId == a.lastId
    requires forall id | id in b.issues :: id in a.issues && b.issues[id].project == a.issues[id].project &&
                                           b.issues[id].rank == a.issues[id].rank
    ensures Inv(b)
  {
    RanksUntouched(a, b);
  }

  /** What the checks of CreateIssue establish about the row they let through. */
  lemma NewIssueIsOk(db: Db, project: int, in': CreateInput, now: int)
    requires Inv(db) && NewIssue(db, project, in', now).Ok?
    ensures var i := NewIssue(db, project, in', now).value;
            i.project == project && IssueOk(db, i) && AppendRank(RanksOf(db.issues, project)) == Ok(i.rank)
  {
    var i := NewIssue(db, project, in', now).value;
    if in'.status.None? {
      var l: seq<int> :| l != [] && InColumns(l, PositionsOf(db.statuses, project));
      FirstIsHead(l, PositionsOf(db.statuses, project));
    }
    if i.parent.Some? {
      var p := i.parent.value;
      assert p in db.issues;
      assert IssueOk(db, db.issues[p]);
    }
  }

  lemma RanksOfNew(issues: Issues, id: int, i: Issue)
    requires id !in issues && RanksOk(issues)
    requires AppendRank(RanksOf(issues, i.project)) == Ok(i.rank)
    ensures RanksOk(issues[id := i])
  {
    AppendRankIsFresh(RanksOf(issues, i.project));
    var after := issues[id := i];
    forall p ensures Ranked(RanksOf(after, p)) {
      assert Ranked(RanksOf(issues, p));
      assert RanksOf(after, p) == if p == i.project then RanksOf(issues, p)[id := i.rank] else RanksOf(issues, p);
    }
  }

  lemma CreateIssueKeeps(db: Db, project: int, in': CreateInput, now: int)
    requires Inv(db) && CreateIssue(db, project, in', now).Ok?
    ensures Inv(CreateIssue(db, project, in', now).value)
  {
    hide AppendRank, NewIssue;
    var b, id := CreateIssue(db, project, in', now).value, db.lastId + 1;
    var i := NewIssue(db, project, in', now).value;
    NewIssueIsOk(db, project, in', now);
    RanksOfNew(db.issues, id, i);
    forall x | x in b.issues ensures IssueOk(b, b.issues[x]) {
      assert IssueOk(db, b.issues[x]);
    }
  }

  lemma AppendRankIsFresh(ranks: Ranks)
    requires AppendRank(ranks).Ok?
    ensures Valid(AppendRank(ranks).value)
    ensures forall id | id in ranks :: ranks[id] != AppendRank(ranks).value
  {
    hide Less;
    var k, top := AppendRank(ranks).value, MaxIssueRank(ranks);
    forall id | id in ranks ensures ranks[id] != k {
      var keys := set x | x in ranks :: ranks[x];
      assert ranks[id] in keys;
      LessIsTotal(k, ranks[id]);
      if ranks[id] != top { LessIsTransitive(ranks[id], top, k); }
    }
  }

  // ---------------------------------------------------------------- changing an issue

  /** A row that may replace an issue: its own rules hold, and its level is the old one's. */
  ghost predicate MayReplace(db: Db, cur: Issue, next: Issue) {
    next.project == cur.project && StatusIn(db, next.project, next.status) &&
    (next.typ == cur.typ || (next.typ.Standard() && cur.typ.Standard())) &&
    (next.sprint.Some? ==> SprintIn(db, next.project, next.sprint.value)) &&
    HierarchyOk(db, next) && PointsOk(next.points)
  }

  lemma PatchedIssueMayReplace(db: Db, id: int, in': UpdateInput)
    requires Inv(db) && id in db.issues && IssueOk(db, db.issues[id]) && PatchedIssue(db, db.issues[id], in').Ok?
    ensures var next := PatchedIssue(db, db.issues[id], in').value;
            MayReplace(db, db.issues[id], next) && next.rank == db.issues[id].rank &&
            next.resolvedAt == db.issues[id].resolvedAt
  {
    var cur, next := db.issues[id], PatchedIssue(db, db.issues[id], in').value;
    if next.parent.Some? {
      var p := next.parent.value;
      assert p in db.issues;
      assert IssueOk(db, db.issues[p]);
    }
  }

  lemma MovedIssueMayReplace(db: Db, id: int, in': MoveInput)
    requires Inv(db) && id in db.issues && IssueOk(db, db.issues[id])
    requires !db.issues[id].typ.Epic? && MovedIssue(db, db.issues[id], in').Ok?
    ensures var next := MovedIssue(db, db.issues[id], in').value;
            MayReplace(db, db.issues[id], next) && next.rank == db.issues[id].rank &&
            next.resolvedAt == db.issues[id].resolvedAt
  {
  }

  /** Whatever column of a row changes, the other rows keep their rules. */
  lemma ChangedIssueKeeps(db: Db, b: Db, id: int, next: Issue)
    requires Inv(db) && id in db.issues && MayReplace(db, db.issues[id], next)
    requires next.resolvedAt.Some? <==> CategoryOf(db, next.status).Done?
    requires b.projects == db.projects && b.statuses == db.statuses && b.sprints == db.sprints
    requires b.issues == WithChangedIssue(db.issues, id, next)
    ensures IssuesOk(b)
  {
    forall x | x in b.issues ensures IssueOk(b, b.issues[x]) {
      assert IssueOk(db, db.issues[x]);
      if x == id {
        NewRowKeeps(db, b, id, next);
      } else {
        OtherRowKeeps(db, b, id, next, x);
      }
    }
  }

  lemma NewRowKeeps(db: Db, b: Db, id: int, next: Issue)
    requires IssuesOk(db) && id in db.issues && MayReplace(db, db.issues[id], next)
    requires next.resolvedAt.Some? <==> CategoryOf(db, next.status).Done?
    requires b.projects == db.projects && b.statuses == db.statuses && b.sprints == db.sprints
    requires b.issues == WithChangedIssue(db.issues, id, next)
    ensures IssueOk(b, next)
  {
    assert IssueOk(db, db.issues[id]);
    if next.parent.Some? {
      var p := next.parent.value;
      assert IssueOk(db, db.issues[p]);
      assert p != id;
      assert b.issues[p] == db.issues[p];
    }
  }

  lemma OtherRowKeeps(db: Db, b: Db, id: int, next: Issue, x: int)
    requires IssuesOk(db) && id in db.issues && MayReplace(db, db.issues[id], next)
    requires b.projects == db.projects && b.statuses == db.statuses && b.sprints == db.sprints
    requires b.issues == WithChangedIssue(db.issues, id, next)
    requires x in db.issues && x != id
    ensures IssueOk(b, b.issues[x])
  {
    var row := db.issues[x];
    assert IssueOk(db, row);
    assert IssueOk(db, db.issues[id]);
    if row.parent.Some? {
      var p := row.parent.value;
      assert IssueOk(db, db.issues[p]);
      assert b.issues[p].typ == (if p == id then next.typ else db.issues[p].typ);
      assert row.typ.Subtask? && p != id ==> b.issues[p] == db.issues[p];
    }
  }

  lemma ResolvedMatches(db: Db, id: int, next: Issue, now: int)
    requires Inv(db) && id in db.issues && next.resolvedAt == db.issues[id].resolvedAt
    ensures var r := Resolved(db, db.issues[id], next, now);
            r.resolvedAt.Some? <==> CategoryOf(db, r.status).Done?
  {
    assert IssueOk(db, db.issues[id]);
  }

  lemma UpdateIssueKeeps(db: Db, id: int, in': UpdateInput, now: int)
    requires Inv(db) && UpdateIssue(db, id, in', now).Ok?
    ensures Inv(UpdateIssue(db, id, in', now).value)
  {
    hide PatchedIssue;
    var b, cur := UpdateIssue(db, id, in', now).value, db.issues[id];
    assert IssueOk(db, cur);
    var next := PatchedIssue(db, cur, in').value;
    PatchedIssueMayReplace(db, id, in');
    if next != cur {
      ResolvedMatches(db, id, next, now);
      ChangedIssueKeeps(db, b, id, Resolved(db, cur, next, now));
      IssuesStep(db, b);
    }
  }

  lemma ChangedIssueColumns(issues: Issues, id: int, next: Issue)
    requires id in issues && next.project == issues[id].project
    ensures var after := WithChangedIssue(issues, id, next);
            (forall x :: x in after <==> x in issues) &&
            forall x | x in issues :: after[x].project == issues[x].project &&
                                      after[x].rank == if x == id then next.rank else issues[x].rank
  {
  }

  /** The rows and the rank a successful move is made of. */
  lemma MoveIssueParts(db: Db, id: int, in': MoveInput, now: int) returns (next: Issue, rank: string)
    requires MoveIssue(db, id, in', now).Ok?
    ensures id in db.issues && db.issues[id].project in db.projects && !db.issues[id].typ.Epic?
    ensures MovedIssue(db, db.issues[id], in') == Ok(next)
    ensures MoveRank(RanksOf(db.issues, db.issues[id].project), id, in'.prev.Ptr(), in'.next.Ptr()) == Ok(rank)
    ensures var row := Resolved(db, db.issues[id], next, now).(rank := rank);
            MoveIssue(db, id, in', now).value == Logged(db, WithChangedIssue(db.issues, id, row), db.sprints)
  {
    hide MovedIssue, MoveRank, WithChangedIssue;
    next := MovedIssue(db, db.issues[id], in').value;
    rank := MoveRank(RanksOf(db.issues, db.issues[id].project), id, in'.prev.Ptr(), in'.next.Ptr()).value;
  }

  lemma MoveIssueKeeps(db: Db, id: int, in': MoveInput, now: int)
    requires Inv(db) && MoveIssue(db, id, in', now).Ok?
    ensures Inv(MoveIssue(db, id, in', now).value)
  {
    hide MoveIssue, MovedIssue, MoveRank, WithChangedIssue;
    var b := MoveIssue(db, id, in', now).value;
    var next, rank := MoveIssueParts(db, id, in', now);
    assert IssueOk(db, db.issues[id]);
    var row := Resolved(db, db.issues[id], next, now).(rank := rank);
    MovedIssueMayReplace(db, id, in');
    ResolvedMatches(db, id, next, now);
    ChangedIssueColumns(db.issues, id, row);
    ChangedIssueKeeps(db, b, id, row);
    RanksOfMoved(db.issues, b.issues, id, rank, in'.prev.Ptr(), in'.next.Ptr());
  }

  lemma RanksOfMoved(before: Issues, after: Issues, id: int, rank: string, prev: Option<int>, next: Option<int>)
    requires RanksOk(before) && id in before
    requires MoveRank(RanksOf(before, before[id].project), id, prev, next) == Ok(rank)
    requires forall x :: x in after <==> x in before
    requires forall x | x in after :: after[x].project == before[x].project &&
                                      after[x].rank == if x == id then rank else before[x].rank
    ensures RanksOk(after)
  {
    hide MoveRank;
    var project := before[id].project;
    forall p ensures Ranked(RanksOf(after, p)) {
      var ranks := RanksOf(before, p);
      assert Ranked(ranks);
      if p == project {
        var l := ListExists(ranks, ranks.Keys);
        MoveRefinesListMove(l, ranks, id, prev, next);
        RanksOfPointwise(before, after, id, rank, p);
        ListedIsRanked(MoveInList(l, id, prev, next), ranks[id := rank]);
      } else {
        RanksOfPointwise(before, after, id, rank, p);
      }
    }
  }

  lemma RanksOfPointwise(before: Issues, after: Issues, id: int, rank: string, p: int)
    requires id in before && forall x :: x in after <==> x in before
    requires forall x | x in after :: after[x].project == before[x].project &&
                                      after[x].rank == if x == id then rank else before[x].rank
    ensures RanksOf(after, p) == if p == before[id].project then RanksOf(before, p)[id := rank] else RanksOf(before, p)
  {
    var r, s := RanksOf(before, p), RanksOf(after, p);
    forall x ensures x in s <==> x in r {}
    forall x | x in s ensures s[x] == if x == id then rank else r[x] {}
  }

  lemma DeleteIssueKeeps(db: Db, id: int)
    requires Inv(db) && DeleteIssue(db, id).Ok?
    ensures Inv(DeleteIssue(db, id).value)
  {
    var b := DeleteIssue(db, id).value;
    forall x | x in b.issues ensures IssueOk(b, b.issues[x]) {
      assert IssueOk(db, db.issues[x]);
      if db.issues[x].parent.Some? {
        var p := db.issues[x].parent.value;
        assert IssueOk(db, db.issues[p]);
      }
    }
    IssuesStep(db, b);
  }

  // ---------------------------------------------------------------- sprints

  /** Sprint rows came or changed state; the issues' projects and ranks did not. */
  lemma SprintsStep(a: Db, b: Db)
    requires Inv(a) && IssuesOk(b) && SprintsOk(b)
    requires b.projects == a.projects && b.statuses == a.statuses && b.lastId >= a.lastId
    requires forall s | s in b.sprints :: s <= b.lastId
    requires forall id | id in b.issues :: id in a.issues && b.issues[id].project == a.issues[id].project &&
                                           b.issues[id].rank == a.issues[id].rank
    ensures Inv(b)
  {
    RanksUntouched(a, b);
  }

  lemma NewSprintKeeps(db: Db, project: int, name: string, startDate: Option<int>, endDate: Option<int>)
    requires Inv(db) && project in db.projects && DateErrors(startDate, endDate) == {}
    requires NewSprint(db, project, name, startDate, endDate).Ok?
    ensures Inv(NewSprint(db, project, name, startDate, endDate).value)
  {
    var b := NewSprint(db, project, name, startDate, endDate).value;
    forall x | x in b.issues ensures IssueOk(b, b.issues[x]) {
      assert IssueOk(db, db.issues[x]);
    }
    forall s | s in b.sprints ensures SprintOk(b, b.sprints[s]) {
      if s != b.lastId { assert SprintOk(db, db.sprints[s]); }
    }
    SprintsStep(db, b);
  }

  /** A sprint row changed, but not its project. */
  lemma SprintRowKeeps(db: Db, id: int, next: Sprint)
    requires Inv(db) && id in db.sprints && next.project == db.sprints[id].project && SprintOk(db, next)
    requires next.state.Active? && !db.sprints[id].state.Active? ==> ActiveSprints(db.sprints, next.project) == {}
    ensures Inv(db.(sprints := db.sprints[id := next]))
  {
    var b := db.(sprints := db.sprints[id := next]);
    forall x | x in b.issues ensures IssueOk(b, b.issues[x]) {
      assert IssueOk(db, db.issues[x]);
    }
    forall s | s in b.sprints ensures SprintOk(b, b.sprints[s]) {
      if s != id { assert SprintOk(db, db.sprints[s]); }
    }
    forall s | s in db.sprints && db.sprints[s].project == next.project && db.sprints[s].state.Active?
      ensures s in ActiveSprints(db.sprints, next.project) {}
    SprintsStep(db, b);
  }

  lemma UpdateSprintKeeps(db: Db, id: int, name: Option<string>, startDate: Patch<int>, endDate: Patch<int>)
    requires Inv(db) && UpdateSprint(db, id, name, startDate, endDate).Ok?
    ensures Inv(UpdateSprint(db, id, name, startDate, endDate).value)
  {
    var b := UpdateSprint(db, id, name, startDate, endDate).value;
    assert SprintOk(db, db.sprints[id]);
    assert b.sprints[id].state.Active? ==> "startDate" !in Required("startDate", b.sprints[id].startDate);
    assert b.sprints[id].state.Active? ==> "endDate" !in Required("endDate", b.sprints[id].endDate);
    assert b.sprints == db.sprints[id := b.sprints[id]];
    SprintRowKeeps(db, id, b.sprints[id]);
  }

  lemma StartSprintKeeps(db: Db, id: int, name: Option<string>, startDate: Option<int>, endDate: Option<int>)
    requires Inv(db) && StartSprint(db, id, name, startDate, endDate).Ok?
    ensures Inv(StartSprint(db, id, name, startDate, endDate).value)
  {
    var b := StartSprint(db, id, name, startDate, endDate).value;
    assert "startDate" !in Required("startDate", b.sprints[id].startDate);
    assert "endDate" !in Required("endDate", b.sprints[id].endDate);
    assert b.sprints == db.sprints[id := b.sprints[id]];
    SprintRowKeeps(db, id, b.sprints[id]);
  }

  /** Moving standard issues with their subtasks, to a sprint of their project or to none. */
  lemma ResprintKeeps(db: Db, moved: set<int>, project: int, dest: Option<int>)
    requires Inv(db)
    requires forall x | x in moved :: x in db.issues && db.issues[x].typ.Standard() && db.issues[x].project == project
    requires dest.Some? ==> SprintIn(db, project, dest.value)
    ensures Inv(db.(issues := Resprint(db.issues, moved, dest)))
  {
    var b := db.(issues := Resprint(db.issues, moved, dest));
    forall x | x in b.issues ensures IssueOk(b, b.issues[x]) {
      assert IssueOk(db, db.issues[x]);
      if db.issues[x].parent.Some? {
        var p := db.issues[x].parent.value;
        assert IssueOk(db, db.issues[p]);
        assert p !in moved && !db.issues[p].typ.Subtask? ==> b.issues[p] == db.issues[p];
      }
    }
    IssuesStep(db, b);
  }

  lemma CompletionTargetKeeps(db: Db, project: int, target: CompleteTarget)
    requires Inv(db) && project in db.projects && CompletionTarget(db, project, target).Ok?
    ensures var (with, dest) := CompletionTarget(db, project, target).value;
            Inv(with) && with.issues == db.issues && with.statuses == db.statuses && with.projects == db.projects &&
            with.sprintLog == db.sprintLog &&
            (forall s | s in db.sprints :: s in with.sprints && with.sprints[s] == db.sprints[s]) &&
            (dest.Some? ==> SprintIn(with, project, dest.value) && with.sprints[dest.value].state.Planned?)
  {
    if target.ToNew? { NewSprintKeeps(db, project, target.name, None, None); }
  }

  lemma CompleteSprintKeeps(db: Db, id: int, target: CompleteTarget)
    requires Inv(db) && CompleteSprint(db, id, target).Ok?
    ensures Inv(CompleteSprint(db, id, target).value.db)
  {
    hide CompletionTarget;
    var sprint := db.sprints[id];
    var (with, dest) := CompletionTarget(db, sprint.project, target).value;
    CompletionTargetKeeps(db, sprint.project, target);
    forall x | x in OpenIssues(db, id) ensures db.issues[x].project == sprint.project {
      assert IssueOk(db, db.issues[x]);
    }
    assert SprintOk(db, sprint);
    SprintRowKeeps(with, id, sprint.(state := Completed));
    var done := with.(sprints := with.sprints[id := sprint.(state := Completed)]);
    ResprintKeeps(done, OpenIssues(db, id), sprint.project, dest);
    LogKeeps(done.(issues := Resprint(db.issues, OpenIssues(db, id), dest)), CompleteSprint(db, id, target).value.db);
  }

  lemma LogKeeps(a: Db, b: Db)
    requires Inv(a) && b == a.(sprintLog := b.sprintLog)
    ensures Inv(b)
  {
    forall x | x in b.issues ensures IssueOk(b, b.issues[x]) { assert IssueOk(a, a.issues[x]); }
    forall s | s in b.sprints ensures SprintOk(b, b.sprints[s]) { assert SprintOk(a, a.sprints[s]); }
  }

  lemma DeleteSprintKeeps(db: Db, id: int)
    requires Inv(db) && DeleteSprint(db, id).Ok?
    ensures Inv(DeleteSprint(db, id).value)
  {
    var b := DeleteSprint(db, id).value;
    forall x | x in b.issues ensures IssueOk(b, b.issues[x]) {
      assert IssueOk(db, db.issues[x]);
    }
    forall s | s in b.sprints ensures SprintOk(b, b.sprints[s]) { assert SprintOk(db, db.sprints[s]); }
    SprintsStep(db, b);
  }

  // ---------------------------------------------------------------- statuses

  /** Only statuses of one project, and issue columns other than project and rank, changed. */
  lemma StatusesStep(a: Db, b: Db, project: int)
    requires Inv(a) && IssuesOk(b) && project in a.projects && HasColumns(b.statuses, project)
    requires b.projects == a.projects && b.sprints == a.sprints && b.lastId >= a.lastId
    requires forall s | s in b.statuses :: s <= b.lastId && b.statuses[s].project in b.projects
    requires forall p | p in a.projects && p != project :: PositionsOf(b.statuses, p) == PositionsOf(a.statuses, p)
    requires forall id | id in b.issues :: id in a.issues && b.issues[id].project == a.issues[id].project &&
                                           b.issues[id].rank == a.issues[id].rank
    ensures Inv(b)
  {
    RanksUntouched(a, b);
    forall p | p in b.projects ensures HasColumns(b.statuses, p) {
      assert HasColumns(a.statuses, p);
    }
    forall s | s in b.sprints ensures SprintOk(b, b.sprints[s]) { assert SprintOk(a, a.sprints[s]); }
  }

  /** Only status and resolved_at differ between the issue rows of two states. */
  ghost predicate Restatused(a: Db, b: Db) {
    b.projects == a.projects && b.sprints == a.sprints && (forall x :: x in b.issues <==> x in a.issues) &&
    forall x | x in b.issues ::
      b.issues[x] == a.issues[x].(status := b.issues[x].status, resolvedAt := b.issues[x].resolvedAt)
  }

  ghost predicate StatusOk(db: Db, i: Issue) {
    StatusIn(db, i.project, i.status) && (i.resolvedAt.Some? <==> db.statuses[i.status].category.Done?)
  }

  lemma RestatusedKeeps(a: Db, b: Db)
    requires IssuesOk(a) && Restatused(a, b)
    requires forall x | x in b.issues :: StatusOk(b, b.issues[x])
    ensures IssuesOk(b)
  {
    forall x | x in b.issues ensures IssueOk(b, b.issues[x]) {
      assert IssueOk(a, a.issues[x]) && StatusOk(b, b.issues[x]);
      if a.issues[x].parent.Some? {
        var p := a.issues[x].parent.value;
        assert IssueOk(a, a.issues[p]);
        assert b.issues[p] == a.issues[p].(status := b.issues[p].status, resolvedAt := b.issues[p].resolvedAt);
      }
    }
  }

  lemma CreateStatusKeeps(db: Db, project: int, category: Category)
    requires Inv(db) && CreateStatus(db, project, category).Ok?
    ensures Inv(CreateStatus(db, project, category).value)
  {
    var b, id := CreateStatus(db, project, category).value, db.lastId + 1;
    var pos := PositionsOf(db.statuses, project);
    var l: seq<int> :| l != [] && InColumns(l, pos);
    AppendColumn(l, pos, id);
    assert PositionsOf(b.statuses, project) == pos[id := NextPosition(pos)];
    assert HasColumns(b.statuses, project);
    forall x | x in b.issues ensures IssueOk(b, b.issues[x]) { assert IssueOk(db, db.issues[x]); }
    forall p | p != project ensures PositionsOf(b.statuses, p) == PositionsOf(db.statuses, p) {}
    StatusesStep(db, b, project);
  }

  lemma UpdateStatusKeeps(db: Db, project: int, id: int, category: Category, now: int)
    requires Inv(db) && UpdateStatus(db, project, id, category, now).Ok?
    ensures Inv(UpdateStatus(db, project, id, category, now).value)
  {
    var b := UpdateStatus(db, project, id, category, now).value;
    forall x | x in b.issues ensures StatusOk(b, b.issues[x]) { assert IssueOk(db, db.issues[x]); }
    RestatusedKeeps(db, b);
    forall p ensures PositionsOf(b.statuses, p) == PositionsOf(db.statuses, p) {}
    assert HasColumns(db.statuses, project);
    StatusesStep(db, b, project);
  }

  /** Repositioning the statuses of one project leaves the columns of the others alone. */
  lemma RepositionedPositions(statuses: Statuses, pos: Positions, project: int)
    requires forall s :: s in pos <==> s in PositionsOf(statuses, project)
    ensures PositionsOf(Repositioned(statuses, pos), project) == pos
    ensures forall p | p != project :: PositionsOf(Repositioned(statuses, pos), p) == PositionsOf(statuses, p)
  {
    var after := Repositioned(statuses, pos);
    forall s ensures s in PositionsOf(after, project) <==> s in pos {}
    forall p | p != project ensures PositionsOf(after, p) == PositionsOf(statuses, p) {
      forall s ensures s in PositionsOf(after, p) <==> s in PositionsOf(statuses, p) {}
    }
  }

  lemma ReorderStatusesKeeps(db: Db, project: int, ids: seq<int>)
    requires Inv(db) && ReorderStatuses(db, project, ids).Ok?
    ensures Inv(ReorderStatuses(db, project, ids).value)
    ensures InColumns(ids, PositionsOf(ReorderStatuses(db, project, ids).value.statuses, project))
  {
    var b, pos := ReorderStatuses(db, project, ids).value, PositionsOf(db.statuses, project);
    var l: seq<int> :| l != [] && InColumns(l, pos);
    ReorderColumns(l, pos, ids);
    RepositionedPositions(db.statuses, Reordered(pos, ids), project);
    assert l[0] in pos;
    assert ids != [] && HasColumns(b.statuses, project);
    forall x | x in b.issues ensures IssueOk(b, b.issues[x]) { assert IssueOk(db, db.issues[x]); }
    StatusesStep(db, b, project);
  }

  lemma DeletedColumns(db: Db, project: int, id: int, after: Statuses, l: seq<int>)
    requires StatusIn(db, project, id) && |PositionsOf(db.statuses, project)| > 1
    requires InColumns(l, PositionsOf(db.statuses, project))
    requires after == Repositioned(db.statuses - {id}, Compact(PositionsOf(db.statuses, project) - {id}))
    ensures Without(l, {id}) != [] && InColumns(Without(l, {id}), PositionsOf(after, project))
    ensures forall p | p != project :: PositionsOf(after, p) == PositionsOf(db.statuses, p)
  {
    hide RowNumber, Without;
    var pos := PositionsOf(db.statuses, project);
    DeleteColumn(l, pos, id);
    assert PositionsOf(db.statuses - {id}, project) == pos - {id};
    RepositionedPositions(db.statuses - {id}, Compact(pos - {id}), project);
    forall p | p != project ensures PositionsOf(db.statuses - {id}, p) == PositionsOf(db.statuses, p) {}
    SomeOther(pos, id);
    var s :| s in pos && s != id;
    assert l[pos[s]] == s && s in Without(l, {id});
  }

  lemma SomeOther(pos: Positions, id: int)
    requires |pos| > 1
    ensures exists s :: s in pos && s != id
  {
    if forall s | s in pos :: s == id {
      SubsetSize(pos.Keys, {id});
    }
  }

  /** The rows DeleteStatus leaves behind: the deleted status's issues have the target's state. */
  lemma MigratedRows(db: Db, project: int, id: int, moveTo: Option<int>, now: int)
    requires IssuesOk(db) && DeleteStatus(db, project, id, moveTo, now).Ok?
    ensures var b := DeleteStatus(db, project, id, moveTo, now).value;
            Restatused(db, b) && b.lastId == db.lastId && forall x | x in b.issues :: StatusOk(b, b.issues[x])
  {
    var b := DeleteStatus(db, project, id, moveTo, now).value;
    hide Compact, PositionsOf;
    forall x | x in b.issues ensures StatusOk(b, b.issues[x]) { assert IssueOk(db, db.issues[x]); }
  }

  lemma DeleteStatusKeeps(db: Db, project: int, id: int, moveTo: Option<int>, now: int)
    requires Inv(db) && DeleteStatus(db, project, id, moveTo, now).Ok?
    ensures Inv(DeleteStatus(db, project, id, moveTo, now).value)
  {
    hide Compact, InColumns, PositionsOf, Without;
    var b := DeleteStatus(db, project, id, moveTo, now).value;
    assert HasColumns(db.statuses, project);
    var l: seq<int> :| l != [] && InColumns(l, PositionsOf(db.statuses, project));
    DeletedColumns(db, project, id, b.statuses, l);
    assert HasColumns(b.statuses, project);
    MigratedRows(db, project, id, moveTo, now);
    RestatusedKeeps(db, b);
    StatusesStep(db, b, project);
  }

  // ---------------------------------------------------------------- projects

  lemma NewProjectColumns(db: Db, typ: ProjectType)
    requires StatusesOk(db) && IdsOk(db)
    ensures var b, p := CreateProject(db, typ), db.lastId + 1;
            HasColumns(b.statuses, p) &&
            forall q | q != p :: PositionsOf(b.statuses, q) == PositionsOf(db.statuses, q)
  {
    var b, p := CreateProject(db, typ), db.lastId + 1;
    forall q | q != p ensures PositionsOf(b.statuses, q) == PositionsOf(db.statuses, q) {}
    assert InColumns([p + 1, p + 2, p + 3, p + 4], PositionsOf(b.statuses, p));
  }

  lemma CreateProjectKeeps(db: Db, typ: ProjectType)
    requires Inv(db)
    ensures Inv(CreateProject(db, typ))
  {
    var b, p := CreateProject(db, typ), db.lastId + 1;
    NewProjectColumns(db, typ);
    forall x | x in b.issues ensures IssueOk(b, b.issues[x]) { assert IssueOk(db, db.issues[x]); }
    forall s | s in b.sprints ensures SprintOk(b, b.sprints[s]) { assert SprintOk(db, db.sprints[s]); }
    forall q | q in b.projects ensures HasColumns(b.statuses, q) {
      if q != p { assert HasColumns(db.statuses, q); }
    }
    RanksUntouched(db, b);
  }

  lemma UpdateProjectKeeps(db: Db, project: int, typ: ProjectType)
    requires Inv(db) && UpdateProject(db, project, typ).Ok?
    ensures Inv(UpdateProject(db, project, typ).value)
  {
    var b := UpdateProject(db, project, typ).value;
    forall x | x in b.issues ensures IssueOk(b, b.issues[x]) { assert IssueOk(db, db.issues[x]); }
    forall s | s in b.sprints ensures SprintOk(b, b.sprints[s]) { assert SprintOk(db, db.sprints[s]); }
    RanksUntouched(db, b);
  }

  /** Cascading the deletion leaves nothing dangling, since references stay inside a project. */
  lemma DeleteProjectKeeps(db: Db, project: int)
    requires Inv(db) && DeleteProject(db, project).Ok?
    ensures Inv(DeleteProject(db, project).value)
  {
    var b := DeleteProject(db, project).value;
    forall x | x in b.issues ensures IssueOk(b, b.issues[x]) {
      assert IssueOk(db, db.issues[x]);
      if db.issues[x].parent.Some? {
        var p := db.issues[x].parent.value;
        assert IssueOk(db, db.issues[p]);
      }
    }
    forall s | s in b.sprints ensures SprintOk(b, b.sprints[s]) { assert SprintOk(db, db.sprints[s]); }
    forall q | q in b.projects ensures HasColumns(b.statuses, q) {
      assert HasColumns(db.statuses, q);
      assert PositionsOf(b.statuses, q) == PositionsOf(db.statuses, q);
    }
    RanksUntouched(db, b);
  }

  // ---------------------------------------------------------------- every run

  /** Every request, whether it succeeds or is rolled back, keeps the invariant. */
  lemma StepKeeps(db: Db, op: Op, now: int)
    requires Inv(db)
    ensures Inv(Next(db, op, now))
  {
    if Apply(db, op, now).Ok? {
      match op
      case OpCreateProject(typ) => CreateProjectKeeps(db, typ);
      case OpUpdateProject(p, typ) => UpdateProjectKeeps(db, p, typ);
      case OpDeleteProject(p) => DeleteProjectKeeps(db, p);
      case OpCreateIssue(p, in') => CreateIssueKeeps(db, p, in', now);
      case OpUpdateIssue(id, in') => UpdateIssueKeeps(db, id, in', now);
      case OpMoveIssue(id, in') => MoveIssueKeeps(db, id, in', now);
      case OpDeleteIssue(id) => DeleteIssueKeeps(db, id);
      case OpCreateSprint(p, name, s, e) => NewSprintKeeps(db, p, name, s, e);
      case OpUpdateSprint(id, name, s, e) => UpdateSprintKeeps(db, id, name, s, e);
      case OpStartSprint(id, name, s, e) => StartSprintKeeps(db, id, name, s, e);
      case OpCompleteSprint(id, target) => CompleteSprintKeeps(db, id, target);
      case OpDeleteSprint(id) => DeleteSprintKeeps(db, id);
      case OpCreateStatus(p, category) => CreateStatusKeeps(db, p, category);
      case OpUpdateStatus(p, id, category) => UpdateStatusKeeps(db, p, id, category, now);
      case OpReorderStatuses(p, ids) => ReorderStatusesKeeps(db, p, ids);
      case OpDeleteStatus(p, id, moveTo) => DeleteStatusKeeps(db, p, id, moveTo, now);
    }
  }

  lemma {:induction false} RunFromKeeps(db: Db, requests: seq<Request>)
    requires Inv(db)
    ensures Inv(RunFrom(db, requests))
  {
    if requests != [] {
      var last, before := requests[|requests| - 1], requests[..|requests| - 1];
      RunFromKeeps(db, before);
      StepKeeps(RunFrom(db, before), last.op, last.now);
    }
  }

  /** In every reachable state the hierarchy, the sprint rules and the orders hold. */
  lemma RunKeeps(requests: seq<Request>)
    ensures Inv(Run(requests))
  {
    RunFromKeeps(EMPTY, requests);
  }
}
