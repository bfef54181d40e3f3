/** Whole runs of the tracker against simpler views: ordered lists, columns, and its history. */
module TrackerRuns {
  import opened Wrappers
  import opened RankedList
  import opened Columns
  import opened Tracker
  import opened TrackerInvariant

  // ---------------------------------------------------------------- the project as a list

  /** What a request does to a project's list of issue ids. */
  function ListAfter(l: seq<int>, db: Db, op: Op, now: int, project: int): seq<int> {
    if Apply(db, op, now).Err? then l
    else
      match op
      case OpCreateIssue(p, _) => if p == project then l + [db.lastId + 1] else l
      case OpMoveIssue(id, in') => if id in l then MoveInList(l, id, in'.prev.Ptr(), in'.next.Ptr()) else l
      case OpDeleteIssue(id) => Without(l, {id} + Subtasks(db.issues, id))
      case OpDeleteProject(p) => if p == project then [] else l
      case _ => l
  }

  function ListRun(requests: seq<Request>, project: int): seq<int> {
    if requests == [] then []
    else
      var last, before := requests[|requests| - 1], requests[..|requests| - 1];
      ListAfter(ListRun(before, project), Run(before), last.op, last.now, project)
  }

  lemma SameRanks(a: Issues, b: Issues, project: int)
    requires forall x :: x in b && b[x].project == project <==> x in a && a[x].project == project
    requires forall x | x in b && b[x].project == project :: b[x].rank == a[x].rank
    ensures RanksOf(b, project) == RanksOf(a, project)
  {
    var r, s := RanksOf(a, project), RanksOf(b, project);
    forall x ensures x in s <==> x in r {}
    forall x | x in s ensures s[x] == r[x] {}
  }

  lemma CreateAppends(db: Db, p: int, in': CreateInput, now: int, l: seq<int>, project: int)
    requires Inv(db) && CreateIssue(db, p, in', now).Ok? && Lists(l, RanksOf(db.issues, project))
    ensures Lists(if p == project then l + [db.lastId + 1] else l,
                  RanksOf(CreateIssue(db, p, in', now).value.issues, project))
  {
    hide Lists, NewIssue;
    var id, i := db.lastId + 1, NewIssue(db, p, in', now).value;
    var after := CreateIssue(db, p, in', now).value.issues;
    NewIssueIsOk(db, p, in', now);
    assert id !in db.issues;
    var ranks := RanksOf(db.issues, project);
    if p == project {
      assert RanksOf(after, project) == ranks[id := i.rank];
      assert Ranked(ranks);
      CreateRefinesAppend(l, ranks, id);
    } else {
      SameRanks(db.issues, after, project);
    }
  }

  lemma MoveReinserts(db: Db, id: int, in': MoveInput, now: int, l: seq<int>, project: int)
    requires Inv(db) && MoveIssue(db, id, in', now).Ok? && Lists(l, RanksOf(db.issues, project))
    ensures Lists(if id in l then MoveInList(l, id, in'.prev.Ptr(), in'.next.Ptr()) else l,
                  RanksOf(MoveIssue(db, id, in', now).value.issues, project))
  {
    hide MoveInList, MoveIssue, MovedIssue, MoveRank, WithChangedIssue;
    var after := MoveIssue(db, id, in', now).value.issues;
    var ranks := RanksOf(db.issues, project);
    var next, rank := MoveIssueParts(db, id, in', now);
    assert IssueOk(db, db.issues[id]);
    MovedIssueMayReplace(db, id, in');
    ChangedIssueColumns(db.issues, id, Resolved(db, db.issues[id], next, now).(rank := rank));
    RanksOfPointwise(db.issues, after, id, rank, project);
    assert id in l <==> id in ranks;
    if id in l {
      assert Ranked(ranks);
      MoveRefinesListMove(l, ranks, id, in'.prev.Ptr(), in'.next.Ptr());
    }
  }

  lemma DeleteRemoves(db: Db, id: int, l: seq<int>, project: int)
    requires Inv(db) && DeleteIssue(db, id).Ok? && Lists(l, RanksOf(db.issues, project))
    ensures Lists(Without(l, {id} + Subtasks(db.issues, id)), RanksOf(DeleteIssue(db, id).value.issues, project))
  {
    hide Lists, Without;
    var after, gone := DeleteIssue(db, id).value.issues, {id} + Subtasks(db.issues, id);
    DeleteRefinesRemoval(l, RanksOf(db.issues, project), gone);
    assert RanksOf(after, project) == RanksOf(db.issues, project) - gone;
  }

  ghost predicate SamePlaces(a: Issues, b: Issues) {
    (forall x :: x in b <==> x in a) &&
    forall x | x in b :: b[x].project == a[x].project && b[x].rank == a[x].rank
  }

  /** Requests other than create, move and delete leave every rank alone. */
  lemma OtherOpsKeepPlaces(db: Db, op: Op, now: int)
    requires Inv(db) && Apply(db, op, now).Ok?
    requires !op.OpCreateIssue? && !op.OpMoveIssue? && !op.OpDeleteIssue? && !op.OpDeleteProject?
    ensures SamePlaces(db.issues, Apply(db, op, now).value.issues)
  {
    hide CompleteSprint, DeleteStatus, UpdateIssue, UpdateStatus;
    match op
    case OpUpdateIssue(id, in') => UpdateKeepsPlaces(db, id, in', now);
    case OpCompleteSprint(id, target) => CompletionKeepsPlaces(db, id, target);
    case OpUpdateStatus(p, id, category) => UpdatedStatusKeepsPlaces(db, p, id, category, now);
    case OpDeleteStatus(p, id, moveTo) => DeletedStatusKeepsPlaces(db, p, id, moveTo, now);
    case _ =>
  }

  lemma UpdatedStatusKeepsPlaces(db: Db, project: int, id: int, category: Category, now: int)
    requires UpdateStatus(db, project, id, category, now).Ok?
    ensures SamePlaces(db.issues, UpdateStatus(db, project, id, category, now).value.issues)
  {
  }

  lemma DeletedStatusKeepsPlaces(db: Db, project: int, id: int, moveTo: Option<int>, now: int)
    requires DeleteStatus(db, project, id, moveTo, now).Ok?
    ensures SamePlaces(db.issues, DeleteStatus(db, project, id, moveTo, now).value.issues)
  {
    hide Compact, PositionsOf, Repositioned;
  }

  lemma CompletionKeepsPlaces(db: Db, id: int, target: CompleteTarget)
    requires CompleteSprint(db, id, target).Ok?
    ensures SamePlaces(db.issues, CompleteSprint(db, id, target).value.db.issues)
  {
    hide OpenIssues;
    var dest := CompletionTarget(db, db.sprints[id].project, target).value.1;
    assert CompleteSprint(db, id, target).value.db.issues == Resprint(db.issues, OpenIssues(db, id), dest);
  }

  lemma UpdateKeepsPlaces(db: Db, id: int, in': UpdateInput, now: int)
    requires Inv(db) && UpdateIssue(db, id, in', now).Ok?
    ensures SamePlaces(db.issues, UpdateIssue(db, id, in', now).value.issues)
  {
    hide PatchedIssue, WithChangedIssue;
    var next := PatchedIssue(db, db.issues[id], in').value;
    assert IssueOk(db, db.issues[id]);
    PatchedIssueMayReplace(db, id, in');
    ChangedIssueColumns(db.issues, id, Resolved(db, db.issues[id], next, now));
  }

  lemma StepRefinesList(db: Db, op: Op, now: int, l: seq<int>, project: int)
    requires Inv(db) && Lists(l, RanksOf(db.issues, project))
    ensures Lists(ListAfter(l, db, op, now, project), RanksOf(Next(db, op, now).issues, project))
  {
    hide CreateIssue, DeleteIssue, Lists, MoveInList, MoveIssue, Without;
    if Apply(db, op, now).Ok? {
      match op
      case OpCreateIssue(p, in') => CreateAppends(db, p, in', now, l, project);
      case OpMoveIssue(id, in') => MoveReinserts(db, id, in', now, l, project);
      case OpDeleteIssue(id) => DeleteRemoves(db, id, l, project);
      case OpDeleteProject(p) => ProjectRanksAfterDelete(db, p, l, project);
      case _ =>
        OtherOpsKeepPlaces(db, op, now);
        SameRanks(db.issues, Apply(db, op, now).value.issues, project);
    }
  }

  lemma ProjectRanksAfterDelete(db: Db, p: int, l: seq<int>, project: int)
    requires DeleteProject(db, p).Ok? && Lists(l, RanksOf(db.issues, project))
    ensures Lists(if p == project then [] else l, RanksOf(DeleteProject(db, p).value.issues, project))
  {
    if p != project { SameRanks(db.issues, DeleteProject(db, p).value.issues, project); }
  }

  /**
   * Over every run, a project's issues in rank order are the plain list that its requests built:
   * create appends, move removes and reinserts, delete removes. Ranks stay valid and distinct.
   */
  lemma {:induction false} RunRefinesList(requests: seq<Request>, project: int)
    ensures Lists(ListRun(requests, project), RanksOf(Run(requests).issues, project))
    ensures Ranked(RanksOf(Run(requests).issues, project))
  {
    RunKeeps(requests);
    if requests != [] {
      var last, before := requests[|requests| - 1], requests[..|requests| - 1];
      RunKeeps(before);
      RunRefinesList(before, project);
      StepRefinesList(Run(before), last.op, last.now, ListRun(before, project), project);
    }
  }

  /** Only the moved issue, and a new one, get a rank; no request changes another issue's. */
  lemma OtherRanksStay(db: Db, op: Op, now: int, id: int)
    requires Inv(db) && id in db.issues && id in Next(db, op, now).issues
    requires op.OpMoveIssue? ==> op.id != id
    ensures Next(db, op, now).issues[id].rank == db.issues[id].rank
  {
    hide CreateIssue, MoveIssue;
    if Apply(db, op, now).Ok? {
      match op
      case OpCreateIssue(p, in') => assert id != db.lastId + 1; CreatedIssueOnly(db, p, in', now);
      case OpMoveIssue(moved, in') =>
        var next, rank := MoveIssueParts(db, moved, in', now);
        assert IssueOk(db, db.issues[moved]);
        MovedIssueMayReplace(db, moved, in');
        ChangedIssueColumns(db.issues, moved, Resolved(db, db.issues[moved], next, now).(rank := rank));
      case OpDeleteIssue(_) =>
      case OpDeleteProject(_) =>
      case _ => OtherOpsKeepPlaces(db, op, now);
    }
  }

  lemma CreatedIssueOnly(db: Db, project: int, in': CreateInput, now: int)
    requires CreateIssue(db, project, in', now).Ok?
    ensures var b := CreateIssue(db, project, in', now).value;
            NewIssue(db, project, in', now).Ok? &&
            b == db.(issues := db.issues[db.lastId + 1 := NewIssue(db, project, in', now).value],
                     lastId := db.lastId + 1)
  {
    hide NewIssue;
  }

  /** A rank can always be computed: no request fails for want of one, or of a default status. */
  lemma NoInternalError(db: Db, op: Op, now: int)
    requires Inv(db)
    ensures Apply(db, op, now) != Err(Internal)
  {
    hide CompleteSprint, DeleteStatus;
    match op
    case OpCreateIssue(project, in') => CreateHasNoInternalError(db, project, in', now);
    case OpUpdateIssue(id, in') =>
      if id in db.issues { assert IssueOk(db, db.issues[id]); }
    case OpMoveIssue(id, in') => MoveHasNoInternalError(db, id, in', now);
    case OpCompleteSprint(id, target) => CompleteHasNoInternalError(db, id, target);
    case OpDeleteStatus(p, id, moveTo) => DeleteStatusHasNoInternalError(db, p, id, moveTo, now);
    case _ =>
  }

  lemma CreateHasNoInternalError(db: Db, project: int, in': CreateInput, now: int)
    requires Inv(db)
    ensures CreateIssue(db, project, in', now) != Err(Internal)
  {
    if project in db.projects {
      var ranks := RanksOf(db.issues, project);
      assert Ranked(ranks);
      var l := ListExists(ranks, ranks.Keys);
      assert db.lastId + 1 !in ranks;
      CreateRefinesAppend(l, ranks, db.lastId + 1);
      assert HasColumns(db.statuses, project);
      var c: seq<int> :| c != [] && InColumns(c, PositionsOf(db.statuses, project));
      FirstIsHead(c, PositionsOf(db.statuses, project));
    }
  }

  lemma MoveHasNoInternalError(db: Db, id: int, in': MoveInput, now: int)
    requires Inv(db)
    ensures MoveIssue(db, id, in', now) != Err(Internal)
  {
    hide MoveInList, MoveRank;
    if id in db.issues {
      var ranks := RanksOf(db.issues, db.issues[id].project);
      assert Ranked(ranks) && IssueOk(db, db.issues[id]);
      var l := ListExists(ranks, ranks.Keys);
      MoveRefinesListMove(l, ranks, id, in'.prev.Ptr(), in'.next.Ptr());
      MoveErrors(ranks, id, in'.prev.Ptr(), in'.next.Ptr());
    }
  }

  lemma MoveErrors(ranks: Ranks, id: int, prev: Option<int>, next: Option<int>)
    requires id in ranks
    ensures prev == Some(id) || next == Some(id) ==>
              MoveRank(ranks, id, prev, next).Err? && MoveRank(ranks, id, prev, next).error.MovedItself?
  {
  }

  lemma CompleteHasNoInternalError(db: Db, id: int, target: CompleteTarget)
    ensures CompleteSprint(db, id, target) != Err(Internal)
  {
  }

  lemma DeleteStatusHasNoInternalError(db: Db, project: int, id: int, moveTo: Option<int>, now: int)
    ensures DeleteStatus(db, project, id, moveTo, now) != Err(Internal)
  {
  }

  // ---------------------------------------------------------------- the columns as a list

  /** What a request does to a project's list of columns. */
  function ColumnsAfter(l: seq<int>, db: Db, op: Op, now: int, project: int): seq<int> {
    if Apply(db, op, now).Err? then l
    else
      match op
      case OpCreateProject(_) =>
        var p := db.lastId + 1;
        if p == project then [p + 1, p + 2, p + 3, p + 4] else l
      case OpDeleteProject(p) => if p == project then [] else l
      case OpCreateStatus(p, _) => if p == project then l + [db.lastId + 1] else l
      case OpReorderStatuses(p, ids) => if p == project then ids else l
      case OpDeleteStatus(p, id, _) => if p == project then Without(l, {id}) else l
      case _ => l
  }

  function ColumnsRun(requests: seq<Request>, project: int): seq<int> {
    if requests == [] then []
    else
      var last, before := requests[|requests| - 1], requests[..|requests| - 1];
      ColumnsAfter(ColumnsRun(before, project), Run(before), last.op, last.now, project)
  }

  lemma SamePositions(a: Statuses, b: Statuses, project: int)
    requires forall s :: s in b && b[s].project == project <==> s in a && a[s].project == project
    requires forall s | s in b && b[s].project == project :: b[s].position == a[s].position
    ensures PositionsOf(b, project) == PositionsOf(a, project)
  {
    var r, t := PositionsOf(a, project), PositionsOf(b, project);
    forall s ensures s in t <==> s in r {}
    forall s | s in t ensures t[s] == r[s] {}
  }

  lemma CreatedProjectColumns(db: Db, typ: ProjectType, l: seq<int>, project: int)
    requires Inv(db) && InColumns(l, PositionsOf(db.statuses, project))
    ensures var b, p := CreateProject(db, typ), db.lastId + 1;
            InColumns(if p == project then [p + 1, p + 2, p + 3, p + 4] else l, PositionsOf(b.statuses, project))
  {
    NewProjectColumns(db, typ);
  }

  lemma CreatedStatusColumns(db: Db, p: int, category: Category, l: seq<int>, project: int)
    requires Inv(db) && CreateStatus(db, p, category).Ok? && InColumns(l, PositionsOf(db.statuses, project))
    ensures InColumns(if p == project then l + [db.lastId + 1] else l,
                      PositionsOf(CreateStatus(db, p, category).value.statuses, project))
  {
    var after, pos := CreateStatus(db, p, category).value.statuses, PositionsOf(db.statuses, project);
    if p == project {
      AppendColumn(l, pos, db.lastId + 1);
      assert PositionsOf(after, project) == pos[db.lastId + 1 := NextPosition(pos)];
    } else {
      SamePositions(db.statuses, after, project);
    }
  }

  lemma ReorderedStatusColumns(db: Db, p: int, ids: seq<int>, l: seq<int>, project: int)
    requires Inv(db) && ReorderStatuses(db, p, ids).Ok? && InColumns(l, PositionsOf(db.statuses, project))
    ensures InColumns(if p == project then ids else l, PositionsOf(ReorderStatuses(db, p, ids).value.statuses, project))
  {
    var pos := PositionsOf(db.statuses, p);
    ReorderStatusesKeeps(db, p, ids);
    EveryStatusIsListed(pos, ids);
    RepositionedPositions(db.statuses, Reordered(pos, ids), p);
  }

  lemma DeletedStatusColumns(db: Db, p: int, id: int, moveTo: Option<int>, now: int, l: seq<int>, project: int)
    requires Inv(db) && DeleteStatus(db, p, id, moveTo, now).Ok? && InColumns(l, PositionsOf(db.statuses, project))
    ensures InColumns(if p == project then Without(l, {id}) else l,
                      PositionsOf(DeleteStatus(db, p, id, moveTo, now).value.statuses, project))
  {
    assert HasColumns(db.statuses, p);
    var c: seq<int> :| c != [] && InColumns(c, PositionsOf(db.statuses, p));
    DeletedColumns(db, p, id, DeleteStatus(db, p, id, moveTo, now).value.statuses, if p == project then l else c);
  }

  lemma OtherOpsKeepColumns(db: Db, op: Op, now: int, l: seq<int>, project: int)
    requires Apply(db, op, now).Ok? && InColumns(l, PositionsOf(db.statuses, project))
    requires !op.OpCreateProject? && !op.OpCreateStatus? && !op.OpReorderStatuses? && !op.OpDeleteStatus?
    ensures InColumns(if op == OpDeleteProject(project) then [] else l,
                      PositionsOf(Apply(db, op, now).value.statuses, project))
  {
    hide InColumns;
    var after := Apply(db, op, now).value.statuses;
    if op == OpDeleteProject(project) {
      assert PositionsOf(after, project) == map[];
      assert InColumns([], map[]) by { NoColumns(); }
    } else if op.OpDeleteProject? || op.OpUpdateStatus? {
      SamePositions(db.statuses, after, project);
    }
  }

  lemma NoColumns()
    ensures InColumns([], map[])
  {
  }

  lemma StepRefinesColumns(db: Db, op: Op, now: int, l: seq<int>, project: int)
    requires Inv(db) && InColumns(l, PositionsOf(db.statuses, project))
    ensures InColumns(ColumnsAfter(l, db, op, now, project), PositionsOf(Next(db, op, now).statuses, project))
  {
    hide CreateProject, CreateStatus, DeleteStatus, InColumns, PositionsOf, ReorderStatuses, Without;
    if Apply(db, op, now).Ok? {
      match op
      case OpCreateProject(typ) => CreatedProjectColumns(db, typ, l, project);
      case OpCreateStatus(p, category) => CreatedStatusColumns(db, p, category, l, project);
      case OpReorderStatuses(p, ids) => ReorderedStatusColumns(db, p, ids, l, project);
      case OpDeleteStatus(p, id, moveTo) => DeletedStatusColumns(db, p, id, moveTo, now, l, project);
      case _ => OtherOpsKeepColumns(db, op, now, l, project);
    }
  }

  /** Over every run, positions are exactly the places of the column list the requests built. */
  lemma {:induction false} RunRefinesColumns(requests: seq<Request>, project: int)
    ensures InColumns(ColumnsRun(requests, project), PositionsOf(Run(requests).statuses, project))
  {
    if requests != [] {
      var last, before := requests[|requests| - 1], requests[..|requests| - 1];
      RunKeeps(before);
      RunRefinesColumns(before, project);
      StepRefinesColumns(Run(before), last.op, last.now, ColumnsRun(before, project), project);
    }
  }
}
