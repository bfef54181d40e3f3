/** Which requests on the tracker are refused, and with which answer. */
module Refusals {
  import opened Wrappers
  import opened IdSets
  import opened Columns
  import opened RankedList
  import opened Tracker
  import opened TrackerInvariant
  import opened TrackerRuns

  // ---------------------------------------------------------------- what the fields of a request mean

  /** The value a PATCH field leaves in a column. */
  function Asked<T>(field: Patch<T>, current: Option<T>): Option<T> {
    match field
    case Absent => current
    case Null => None
    case Value(v) => Some(v)
  }

  predicate Plain(typ: IssueType) {
    !typ.Epic? && !typ.Subtask?
  }

  predicate OwnStatus(db: Db, project: int, status: int) {
    status in db.statuses && db.statuses[status].project == project
  }

  /** A sprint that an issue of the project may be put into: planned or active, and the project is Scrum. */
  predicate OpenTo(db: Db, project: int, sprint: int) {
    project in db.projects && db.projects[project] == Scrum &&
    sprint in db.sprints && db.sprints[sprint].project == project && db.sprints[sprint].state != Completed
  }

  /** Epics have no parent, plain issues an epic of the project or none, subtasks a plain issue of the project. */
  predicate MayHaveParent(db: Db, project: int, typ: IssueType, parent: Option<int>) {
    match parent
    case None => typ != Subtask
    case Some(p) =>
      typ != Epic && p in db.issues && db.issues[p].project == project &&
      if typ == Subtask then Plain(db.issues[p].typ) else db.issues[p].typ == Epic
  }

  function SprintOfParent(db: Db, parent: Option<int>): Option<int> {
    if parent.Some? && parent.value in db.issues then db.issues[parent.value].sprint else None
  }

  /** An epic takes no sprint, a subtask its parent's, a plain issue one that is open to it; it may stay in its own. */
  predicate MayAskForSprint(
    db: Db, project: int, typ: IssueType, parent: Option<int>, current: Option<int>, sprint: Patch<int>)
  {
    match sprint
    case Absent => true
    case Null => typ == Subtask ==> SprintOfParent(db, parent) == None
    case Value(s) =>
      if typ == Epic then false
      else if typ == Subtask then SprintOfParent(db, parent) == Some(s)
      else current == Some(s) || OpenTo(db, project, s)
  }

  predicate GoodPoints(points: Option<real>) {
    points.None? || 0.0 <= points.value <= 1000.0
  }

  predicate TypeFits(cur: Issue, typ: Patch<IssueType>) {
    match typ
    case Absent => true
    case Null => false
    case Value(t) => t == cur.typ || (Plain(t) && Plain(cur.typ))
  }

  predicate Reversed(startDate: Option<int>, endDate: Option<int>) {
    startDate.Some? && endDate.Some? && endDate.value < startDate.value
  }

  function Named(field: string, bad: bool): set<string> {
    if bad then {field} else {}
  }

  /** The dates a sprint cannot have; a started one needs both. */
  predicate GoodDates(started: bool, startDate: Option<int>, endDate: Option<int>) {
    !Reversed(startDate, endDate) && (started ==> startDate.Some? && endDate.Some?)
  }

  function BadDates(started: bool, startDate: Option<int>, endDate: Option<int>): set<string> {
    Named("startDate", started && startDate.None?) +
    Named("endDate", (started && endDate.None?) || Reversed(startDate, endDate))
  }

  /** ids lists every status of the project, and each once. */
  ghost predicate IsPermutation(db: Db, project: int, ids: seq<int>) {
    (forall s :: s in ids <==> OwnStatus(db, project, s)) &&
    forall i, j | 0 <= i < j < |ids| :: ids[i] != ids[j]
  }

  // ---------------------------------------------------------------- the refusals

  predicate GoodFields(cur: Issue, in': UpdateInput) {
    TypeFits(cur, in'.typ) && GoodPoints(Asked(in'.points, None)) && in'.status != Null
  }

  function BadFields(cur: Issue, in': UpdateInput): set<string> {
    Named("type", !TypeFits(cur, in'.typ)) + Named("storyPoints", !GoodPoints(Asked(in'.points, None))) +
    Named("statusId", in'.status == Null)
  }

  function CreateRefusal(db: Db, project: int, in': CreateInput): Option<Error> {
    if !GoodPoints(in'.points) then Some(Validation({"storyPoints"}))
    else if project !in db.projects then Some(NotFound)
    else if in'.status.Some? && !OwnStatus(db, project, in'.status.value) then Some(Validation({"statusId"}))
    else if !MayHaveParent(db, project, in'.typ, in'.parent) then Some(Validation({"parentId"}))
    else if !MayAskForSprint(db, project, in'.typ, in'.parent, None, in'.sprint) then Some(Validation({"sprintId"}))
    else None
  }

  function UpdateRefusal(db: Db, id: int, in': UpdateInput): Option<Error> {
    if id !in db.issues then Some(NotFound)
    else
      var cur := db.issues[id];
      var typ, parent := if in'.typ.Value? then in'.typ.value else cur.typ, Asked(in'.parent, cur.parent);
      if !GoodFields(cur, in') then Some(Validation(BadFields(cur, in')))
      else if in'.status.Value? && in'.status.value != cur.status && !OwnStatus(db, cur.project, in'.status.value)
        then Some(Validation({"statusId"}))
      else if parent != cur.parent && !MayHaveParent(db, cur.project, typ, parent) then Some(Validation({"parentId"}))
      else if !MayAskForSprint(db, cur.project, typ, parent, cur.sprint, in'.sprint)
        then Some(Validation({"sprintId"}))
      else None
  }

  function MoveRefusal(db: Db, id: int, in': MoveInput): Option<Error> {
    if in'.status.Null? then Some(Validation({"statusId"}))
    else if id !in db.issues then Some(NotFound)
    else
      var cur := db.issues[id];
      if cur.typ == Epic then Some(EpicsDoNotMove)
      else if in'.status.Value? && in'.status.value != cur.status && !OwnStatus(db, cur.project, in'.status.value)
        then Some(Validation({"statusId"}))
      else if !MayAskForSprint(db, cur.project, cur.typ, cur.parent, cur.sprint, in'.sprint)
        then Some(Validation({"sprintId"}))
      else if in'.prev == Value(id) then Some(Validation({"prevIssueId"}))
      else if in'.next == Value(id) then Some(Validation({"nextIssueId"}))
      else None
  }

  function SprintRefusal(db: Db, op: Op): Option<Error> {
    match op
    case OpCreateSprint(project, _, s, e) =>
      if Reversed(s, e) then Some(Validation({"endDate"}))
      else if project !in db.projects then Some(NotFound)
      else if db.projects[project] == Kanban then Some(NotForKanban)
      else None
    case OpUpdateSprint(id, _, s, e) =>
      if id !in db.sprints then Some(NotFound)
      else
        var cur := db.sprints[id];
        var started, start, end := cur.state == Active, Asked(s, cur.startDate), Asked(e, cur.endDate);
        if cur.state == Completed then Some(Conflict)
        else if !GoodDates(started, start, end) then Some(Validation(BadDates(started, start, end)))
        else None
    case OpStartSprint(id, _, s, e) =>
      if id !in db.sprints then Some(NotFound)
      else
        var cur := db.sprints[id];
        var start, end := if s.Some? then s else cur.startDate, if e.Some? then e else cur.endDate;
        if cur.project in db.projects && db.projects[cur.project] == Kanban then Some(NotForKanban)
        else if cur.state != Planned then Some(Conflict)
        else if !GoodDates(true, start, end) then Some(Validation(BadDates(true, start, end)))
        else if exists x | x in db.sprints :: db.sprints[x].project == cur.project && db.sprints[x].state == Active
          then Some(Conflict)
        else None
    case OpCompleteSprint(id, target) =>
      if target == ToSprint(None) then Some(Validation({"sprintId"}))
      else if id !in db.sprints then Some(NotFound)
      else
        var cur := db.sprints[id];
        if cur.state != Active then Some(Conflict)
        else if target.ToNew? && cur.project in db.projects && db.projects[cur.project] == Kanban
          then Some(NotForKanban)
        else if target.ToSprint? && (target.sprint.value !in db.sprints ||
                db.sprints[target.sprint.value].project != cur.project ||
                db.sprints[target.sprint.value].state != Planned)
          then Some(Validation({"sprintId"}))
        else None
    case OpDeleteSprint(id) =>
      if id !in db.sprints then Some(NotFound) else if db.sprints[id].state != Planned then Some(Conflict) else None
    case _ => None
  }

  ghost function StatusRefusal(db: Db, op: Op): Option<Error> {
    match op
    case OpCreateStatus(project, _) => if project !in db.projects then Some(NotFound) else None
    case OpUpdateStatus(project, id, _) => if !OwnStatus(db, project, id) then Some(NotFound) else None
    case OpReorderStatuses(project, ids) =>
      if project !in db.projects then Some(NotFound)
      else if !IsPermutation(db, project, ids) then Some(Validation({"statusIds"}))
      else None
    case OpDeleteStatus(project, id, moveTo) =>
      if !OwnStatus(db, project, id) then Some(NotFound)
      else if forall s | s in db.statuses :: db.statuses[s].project == project ==> s == id then Some(Conflict)
      else if forall x | x in db.issues :: db.issues[x].status != id then None
      else if moveTo.None? then Some(Conflict)
      else if moveTo.value == id || !OwnStatus(db, project, moveTo.value) then Some(Validation({"moveTo"}))
      else None
    case _ => None
  }

  /** The answer to a request that is refused; None for one that is accepted. */
  ghost function Refusal(db: Db, op: Op): Option<Error> {
    match op
    case OpCreateProject(_) => None
    case OpUpdateProject(project, _) => if project !in db.projects then Some(NotFound) else None
    case OpDeleteProject(project) => if project !in db.projects then Some(NotFound) else None
    case OpCreateIssue(project, in') => CreateRefusal(db, project, in')
    case OpUpdateIssue(id, in') => UpdateRefusal(db, id, in')
    case OpMoveIssue(id, in') => MoveRefusal(db, id, in')
    case OpDeleteIssue(id) => if id !in db.issues then Some(NotFound) else None
    case OpCreateStatus(_, _) | OpUpdateStatus(_, _, _) => StatusRefusal(db, op)
    case OpReorderStatuses(_, _) | OpDeleteStatus(_, _, _) => StatusRefusal(db, op)
    case _ => SprintRefusal(db, op)
  }

  predicate Answers(r: Result<Db, Error>, refusal: Option<Error>) {
    match refusal
    case None => r.Ok?
    case Some(e) => r == Err(e)
  }

  // ---------------------------------------------------------------- issues

  lemma CreateRefused(db: Db, project: int, in': CreateInput, now: int)
    requires Inv(db)
    ensures Answers(CreateIssue(db, project, in', now), CreateRefusal(db, project, in'))
  {
    hide AppendRank, FirstColumn;
    CreateHasNoInternalError(db, project, in', now);
  }

  lemma FieldsRefused(cur: Issue, in': UpdateInput)
    ensures FieldErrors(cur, in') == BadFields(cur, in')
    ensures FieldErrors(cur, in') == {} <==> GoodFields(cur, in')
  {
    var bad := BadFields(cur, in');
    assert !TypeFits(cur, in'.typ) ==> "type" in bad;
    assert !GoodPoints(Asked(in'.points, None)) ==> "storyPoints" in bad;
    assert in'.status == Null ==> "statusId" in bad;
  }

  lemma PatchedStatusIs(db: Db, cur: Issue, status: Patch<int>)
    ensures PatchedStatus(db, cur, status) ==
            if status.Value? && status.value != cur.status && !OwnStatus(db, cur.project, status.value)
            then Err(Validation({"statusId"}))
            else Ok(if status.Value? then status.value else cur.status)
  {
  }

  lemma PatchedParentIs(db: Db, cur: Issue, typ: IssueType, parent: Patch<int>)
    ensures PatchedParent(db, cur, typ, parent) ==
            var asked := Asked(parent, cur.parent);
            if asked != cur.parent && !MayHaveParent(db, cur.project, typ, asked) then Err(Validation({"parentId"}))
            else Ok(asked)
  {
  }

  /** The sprint of an issue after a request: what was asked for, a subtask's being its parent's. */
  function SprintOf(
    db: Db, typ: IssueType, parent: Option<int>, current: Option<int>, sprint: Patch<int>): Option<int>
  {
    if typ == Epic then current
    else if typ == Subtask then SprintOfParent(db, parent)
    else Asked(sprint, current)
  }

  lemma PatchedSprintIs(db: Db, cur: Issue, typ: IssueType, parent: Option<int>, sprint: Patch<int>)
    requires cur.project in db.projects && (typ == Subtask ==> parent.Some? && parent.value in db.issues)
    ensures SprintAfterUpdate(db, cur, typ, parent, sprint) ==
            if MayAskForSprint(db, cur.project, typ, parent, cur.sprint, sprint)
            then Ok(SprintOf(db, typ, parent, cur.sprint, sprint))
            else Err(Validation({"sprintId"}))
  {
  }

  lemma UpdateRefused(db: Db, id: int, in': UpdateInput, now: int)
    requires Inv(db)
    ensures Answers(UpdateIssue(db, id, in', now), UpdateRefusal(db, id, in'))
  {
    hide WithChangedIssue, SprintChanges, Resolved;
    if id in db.issues {
      var cur := db.issues[id];
      var typ, parent := if in'.typ.Value? then in'.typ.value else cur.typ, Asked(in'.parent, cur.parent);
      assert IssueOk(db, cur);
      FieldsRefused(cur, in');
      PatchedStatusIs(db, cur, in'.status);
      PatchedParentIs(db, cur, typ, in'.parent);
      if GoodFields(cur, in') && (parent == cur.parent || MayHaveParent(db, cur.project, typ, parent)) {
        PatchedSprintIs(db, cur, typ, parent, in'.sprint);
      }
    }
    hide FieldErrors, BadFields, PatchedStatus, PatchedParent, SprintAfterUpdate, MayAskForSprint;
  }

  lemma MovedIssueIs(db: Db, cur: Issue, in': MoveInput)
    requires IssueOk(db, cur) && cur.typ != Epic
    ensures MovedIssue(db, cur, in') ==
            if in'.status.Value? && in'.status.value != cur.status && !OwnStatus(db, cur.project, in'.status.value)
            then Err(Validation({"statusId"}))
            else if !MayAskForSprint(db, cur.project, cur.typ, cur.parent, cur.sprint, in'.sprint)
            then Err(Validation({"sprintId"}))
            else Ok(cur.(status := if in'.status.Value? then in'.status.value else cur.status,
                         sprint := SprintOf(db, cur.typ, cur.parent, cur.sprint, in'.sprint)))
  {
    PatchedStatusIs(db, cur, in'.status);
    PatchedSprintIs(db, cur, cur.typ, cur.parent, in'.sprint);
  }

  lemma MoveRefused(db: Db, id: int, in': MoveInput, now: int)
    requires Inv(db)
    ensures Answers(MoveIssue(db, id, in', now), MoveRefusal(db, id, in'))
  {
    if id in db.issues {
      var cur := db.issues[id];
      assert IssueOk(db, cur);
      var ranks := RanksOf(db.issues, cur.project);
      if cur.typ != Epic { MovedIssueIs(db, cur, in'); }
      NeighboursRefused(ranks, id, in'.prev, in'.next);
      MoveHasNoInternalError(db, id, in', now);
    }
    hide Inv, MayAskForSprint, MovedIssue, MoveRank, OwnStatus, RanksOf, Resolved, SprintChanges, WithChangedIssue;
  }

  /** Only naming the moved issue itself is refused, the previous neighbour first. */
  lemma NeighboursRefused(ranks: Ranks, id: int, prev: Patch<int>, next: Patch<int>)
    requires id in ranks
    ensures var r := MoveRank(ranks, id, prev.Ptr(), next.Ptr());
            (r.Err? && r.error.MovedItself? <==> prev == Value(id) || next == Value(id)) &&
            (prev == Value(id) ==> r == Err(MovedItself("prevIssueId"))) &&
            (prev != Value(id) && next == Value(id) ==> r == Err(MovedItself("nextIssueId")))
  {
  }

  // ---------------------------------------------------------------- sprints, statuses and projects

  lemma DatesRefused(started: bool, startDate: Option<int>, endDate: Option<int>)
    ensures BadDates(started, startDate, endDate) ==
            (if started then Required("startDate", startDate) + Required("endDate", endDate) else {}) +
            DateErrors(startDate, endDate)
    ensures BadDates(started, startDate, endDate) == {} <==> GoodDates(started, startDate, endDate)
  {
    var bad := BadDates(started, startDate, endDate);
    assert started && startDate.None? ==> "startDate" in bad;
    assert (started && endDate.None?) || Reversed(startDate, endDate) ==> "endDate" in bad;
  }

  lemma UpdateSprintRefused(db: Db, id: int, name: Option<string>, s: Patch<int>, e: Patch<int>)
    requires Inv(db)
    ensures Answers(UpdateSprint(db, id, name, s, e), SprintRefusal(db, OpUpdateSprint(id, name, s, e)))
  {
    if id in db.sprints {
      var cur := db.sprints[id];
      assert SprintOk(db, cur);
      DatesRefused(cur.state == Active, Asked(s, cur.startDate), Asked(e, cur.endDate));
    }
    hide BadDates, GoodDates, Required, DateErrors;
  }

  lemma SomeActive(sprints: Sprints, project: int)
    ensures ActiveSprints(sprints, project) != {} <==>
            exists x | x in sprints :: sprints[x].project == project && sprints[x].state == Active
  {
    var active := ActiveSprints(sprints, project);
    SomeMember(active);
    forall x | x in sprints && sprints[x].project == project && sprints[x].state == Active ensures x in active {}
  }

  lemma StartSprintRefused(db: Db, id: int, name: Option<string>, s: Option<int>, e: Option<int>)
    requires Inv(db)
    ensures Answers(StartSprint(db, id, name, s, e), SprintRefusal(db, OpStartSprint(id, name, s, e)))
  {
    if id in db.sprints {
      var cur := db.sprints[id];
      assert SprintOk(db, cur);
      DatesRefused(true, if s.Some? then s else cur.startDate, if e.Some? then e else cur.endDate);
      SomeActive(db.sprints, cur.project);
    }
    hide BadDates, GoodDates, Required, DateErrors, ActiveSprints;
  }

  lemma OtherSprintRefused(db: Db, op: Op, now: int)
    requires Inv(db) && (op.OpCreateSprint? || op.OpCompleteSprint? || op.OpDeleteSprint?)
    ensures Answers(Apply(db, op, now), SprintRefusal(db, op))
  {
    hide Resprint, SprintChanges, OpenIssues, SprintStandardIssues;
    forall s | s in db.sprints ensures SprintOk(db, db.sprints[s]) {}
  }

  lemma PermutationAccepted(db: Db, project: int, ids: seq<int>)
    requires Inv(db)
    ensures ListsEveryStatus(PositionsOf(db.statuses, project), ids) <==> IsPermutation(db, project, ids)
  {
    var pos := PositionsOf(db.statuses, project);
    if ListsEveryStatus(pos, ids) {
      EveryStatusIsListed(pos, ids);
      forall i, j | 0 <= i < j < |ids| ensures ids[i] != ids[j] { RepeatCounts(ids, i, j); }
    }
    if IsPermutation(db, project, ids) { DistinctCounts(ids, pos.Keys); }
  }

  /** A list that names each member of a set once holds the set's members as often as the set does. */
  lemma {:induction false} DistinctCounts(ids: seq<int>, members: set<int>)
    requires forall s :: s in ids <==> s in members
    requires forall i, j | 0 <= i < j < |ids| :: ids[i] != ids[j]
    ensures multiset(ids) == multiset(members)
    decreases ids
  {
    if ids == [] {
      forall s ensures s !in members { assert s !in ids; }
    } else {
      var head, rest := ids[0], ids[1..];
      assert ids == [head] + rest;
      assert head !in rest;
      forall s ensures s in rest <==> s in members - {head} { assert s in ids <==> s == head || s in rest; }
      DistinctCounts(rest, members - {head});
      assert members == {head} + (members - {head});
    }
  }

  lemma StatusRefused(db: Db, op: Op, now: int)
    requires Inv(db)
    requires op.OpCreateStatus? || op.OpUpdateStatus? || op.OpReorderStatuses? || op.OpDeleteStatus?
    ensures Answers(Apply(db, op, now), StatusRefusal(db, op))
  {
    hide Compact, NextPosition, Reordered, Repositioned, SyncResolved, ListsEveryStatus, IsPermutation;
    match op
    case OpReorderStatuses(project, ids) => PermutationAccepted(db, project, ids);
    case OpDeleteStatus(project, id, _) => if OwnStatus(db, project, id) { OnlyStatus(db, project, id); }
    case _ =>
  }

  lemma OnlyStatus(db: Db, project: int, id: int)
    requires OwnStatus(db, project, id)
    ensures |PositionsOf(db.statuses, project)| <= 1 <==>
            forall s | s in db.statuses :: db.statuses[s].project == project ==> s == id
  {
    var pos := PositionsOf(db.statuses, project);
    if |pos| > 1 {
      SomeOther(pos, id);
      var s :| s in pos && s != id;
    } else {
      assert |pos.Keys - {id}| == 0;
      forall s | s in db.statuses && db.statuses[s].project == project ensures s == id {
        assert s in pos.Keys;
        assert s !in pos.Keys - {id};
      }
    }
  }

  // ---------------------------------------------------------------- every request

  /** In every reachable state a request is refused exactly as Refusal says, with that answer, and changes nothing. */
  lemma RefusedExactly(requests: seq<Request>, op: Op, now: int)
    ensures Answers(Apply(Run(requests), op, now), Refusal(Run(requests), op))
    ensures Refusal(Run(requests), op).Some? ==> Run(requests + [Request(op, now)]) == Run(requests)
  {
    assert (requests + [Request(op, now)])[..|requests|] == requests;
    RunKeeps(requests);
    StepRefused(Run(requests), op, now);
  }

  lemma StepRefused(db: Db, op: Op, now: int)
    requires Inv(db)
    ensures Answers(Apply(db, op, now), Refusal(db, op))
  {
    hide CreateIssue, CreateRefusal, UpdateIssue, UpdateRefusal, MoveIssue, MoveRefusal, SprintRefusal, StatusRefusal;
    hide CompleteSprint, CreateStatus, UpdateStatus, ReorderStatuses, DeleteStatus, StartSprint, UpdateSprint;
    match op
    case OpCreateProject(_) | OpUpdateProject(_, _) | OpDeleteProject(_) =>
    case OpCreateIssue(p, in') => CreateRefused(db, p, in', now);
    case OpUpdateIssue(id, in') => UpdateRefused(db, id, in', now);
    case OpMoveIssue(id, in') => MoveRefused(db, id, in', now);
    case OpDeleteIssue(id) => if id in db.issues { assert IssueOk(db, db.issues[id]); }
    case OpUpdateSprint(id, name, s, e) => UpdateSprintRefused(db, id, name, s, e);
    case OpStartSprint(id, name, s, e) => StartSprintRefused(db, id, name, s, e);
    case OpCreateSprint(_, _, _, _) | OpCompleteSprint(_, _) => OtherSprintRefused(db, op, now);
    case OpDeleteSprint(_) => OtherSprintRefused(db, op, now);
    case _ => StatusRefused(db, op, now);
  }
}
