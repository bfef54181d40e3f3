/** The transactions of the service, statement by statement, proved against the steps in Tracker. */
module Store {
  import opened Wrappers
  import opened IdSets
  import opened IssueChecks
  import opened Columns
  import opened Sorting
  import opened Tracker
  import opened TrackerInvariant

  // ---------------------------------------------------------------- SQL statements

  /** Log rows for the listed issues whose sprint is not dest. */
  function LogIssueSprintChanges(issues: Issues, sprints: Sprints, ids: set<int>, dest: Option<int>): set<SprintRow> {
    set id | id in ids && id in issues && issues[id].sprint != dest ::
      SprintRow(id, SprintName(sprints, issues[id].sprint), SprintName(sprints, dest))
  }

  function SetIssuesSprint(issues: Issues, ids: set<int>, dest: Option<int>): Issues {
    map id | id in issues :: if id in ids && issues[id].sprint != dest then issues[id].(sprint := dest) else issues[id]
  }

  /** The subtasks of the listed parents that are not in their parent's sprint. */
  predicate OutOfStep(issues: Issues, parents: set<int>, id: int) {
    id in issues && issues[id].typ.Subtask? && issues[id].parent.Some? && issues[id].parent.value in parents &&
    issues[id].parent.value in issues && issues[id].sprint != issues[issues[id].parent.value].sprint
  }

  function LogSubtaskSprintSync(issues: Issues, sprints: Sprints, parents: set<int>): set<SprintRow> {
    set id | id in issues && OutOfStep(issues, parents, id) ::
      SprintRow(id, SprintName(sprints, issues[id].sprint), SprintName(sprints, issues[issues[id].parent.value].sprint))
  }

  function SyncSubtaskSprints(issues: Issues, parents: set<int>): Issues {
    map id | id in issues ::
      if OutOfStep(issues, parents, id) then issues[id].(sprint := issues[issues[id].parent.value].sprint)
        else issues[id]
  }

  function UnparentChildren(issues: Issues, parent: int): Issues {
    map id | id in issues ::
      if issues[id].parent == Some(parent) && !issues[id].typ.Subtask? then issues[id].(parent := None) else issues[id]
  }

  /** DELETE of one issue; parent_id is ON DELETE SET NULL. */
  function DeleteIssueRow(issues: Issues, gone: int): Issues {
    map id | id in issues && id != gone ::
      if issues[id].parent == Some(gone) then issues[id].(parent := None) else issues[id]
  }

  /** The issues after a DELETE of one sprint; sprint_id is ON DELETE SET NULL. */
  function ClearSprint(issues: Issues, sprint: int): Issues {
    map id | id in issues :: if issues[id].sprint == Some(sprint) then issues[id].(sprint := None) else issues[id]
  }

  function MoveIssuesToStatus(issues: Issues, to: int, done: bool, from: int, now: int): Issues {
    map id | id in issues ::
      if issues[id].status != from then issues[id]
      else issues[id].(status := to,
                       resolvedAt := if !done then None
                                     else if issues[id].resolvedAt.Some? then issues[id].resolvedAt
                                     else Some(now))
  }

  // ---------------------------------------------------------------- change lists

  datatype FieldChange =
    | TypeChanged(oldType: IssueType, newType: IssueType)
    | StatusChanged(oldStatus: int, newStatus: int)
    | ParentChanged(oldParent: Option<int>, newParent: Option<int>)
    | SprintChanged(oldName: Option<string>, newName: Option<string>)
    | PointsChanged(oldPoints: Option<real>, newPoints: Option<real>)
    | DetailsChanged

  /** The log rows a list of changes of one issue gives rise to, sprint changes only. */
  function SprintRows(id: int, changes: seq<FieldChange>): multiset<SprintRow> {
    if changes == [] then multiset{}
    else
      var last := changes[|changes| - 1];
      SprintRows(id, changes[..|changes| - 1]) +
      if last.SprintChanged? then multiset{SprintRow(id, last.oldName, last.newName)} else multiset{}
  }

  lemma NoRows(id: int)
    ensures SprintRows(id, []) == multiset{}
  {
  }

  lemma SprintRowsOfAppend(id: int, changes: seq<FieldChange>, c: FieldChange)
    ensures SprintRows(id, changes + [c]) ==
            SprintRows(id, changes) + if c.SprintChanged? then multiset{SprintRow(id, c.oldName, c.newName)}
            else multiset{}
  {
    assert (changes + [c])[..|changes|] == changes;
  }

  /** Lists what differs between two versions of an issue. */
  method DescribeIssueChanges(id: int, cur: Issue, next: Issue, sprints: Sprints) returns (changes: seq<FieldChange>)
    requires next.project == cur.project && next.rank == cur.rank && next.resolvedAt == cur.resolvedAt
    ensures changes == [] <==> next == cur
    ensures SprintRows(id, changes) ==
            if next.sprint != cur.sprint
              then multiset{SprintRow(id, SprintName(sprints, cur.sprint), SprintName(sprints, next.sprint))}
            else multiset{}
  {
    hide SprintRows;
    changes := NoChanges(id);
    if cur.details != next.details { changes := Noted(id, changes, DetailsChanged); }
    if cur.typ != next.typ { changes := Noted(id, changes, TypeChanged(cur.typ, next.typ)); }
    if cur.status != next.status { changes := Noted(id, changes, StatusChanged(cur.status, next.status)); }
    if cur.parent != next.parent { changes := Noted(id, changes, ParentChanged(cur.parent, next.parent)); }
    if cur.sprint != next.sprint {
      changes := Noted(id, changes, SprintChanged(SprintName(sprints, cur.sprint), SprintName(sprints, next.sprint)));
    }
    if cur.points != next.points { changes := Noted(id, changes, PointsChanged(cur.points, next.points)); }
  }

  method NoChanges(id: int) returns (r: seq<FieldChange>)
    ensures r == [] && SprintRows(id, r) == multiset{}
  {
    r := [];
  }

  method Noted(id: int, changes: seq<FieldChange>, c: FieldChange) returns (r: seq<FieldChange>)
    ensures r == changes + [c]
    ensures SprintRows(id, r) ==
            SprintRows(id, changes) + if c.SprintChanged? then multiset{SprintRow(id, c.oldName, c.newName)}
            else multiset{}
  {
    SprintRowsOfAppend(id, changes, c);
    r := changes + [c];
  }

  // ---------------------------------------------------------------- lemmas about statements

  lemma LogAppends(log: multiset<SprintRow>, a: multiset<SprintRow>, b: multiset<SprintRow>)
    ensures log + a + b == log + (a + b) && a + multiset({}) == a
  {
  }

  lemma MultisetOfUnion(a: set<SprintRow>, b: set<SprintRow>)
    requires a !! b
    ensures multiset(a) + multiset(b) == multiset(a + b)
  {
  }

  /** After the listed issues moved, a subtask is out of step exactly when its parent moved away from it. */
  lemma OutOfStepAfterMove(issues: Issues, ids: set<int>, dest: Option<int>, id: int)
    requires forall x | x in ids :: x in issues && issues[x].typ.Standard()
    requires id in issues
    ensures var moved := SetIssuesSprint(issues, ids, dest);
            OutOfStep(moved, ids, id) <==>
            issues[id].typ.Subtask? && issues[id].parent.Some? && issues[id].parent.value in ids &&
            issues[id].sprint != dest
    ensures var moved := SetIssuesSprint(issues, ids, dest);
            OutOfStep(moved, ids, id) ==> moved[moved[id].parent.value].sprint == dest && moved[id] == issues[id]
  {
    var moved := SetIssuesSprint(issues, ids, dest);
    if issues[id].parent.Some? && issues[id].parent.value in ids {
      var p := issues[id].parent.value;
      assert moved[p].sprint == dest;
    }
  }

  /** SetIssuesSprint then SyncSubtaskSprints put the issues and their subtasks into dest. */
  lemma MoveStatements(issues: Issues, ids: set<int>, dest: Option<int>)
    requires forall id | id in ids :: id in issues && issues[id].typ.Standard()
    ensures SyncSubtaskSprints(SetIssuesSprint(issues, ids, dest), ids) == Resprint(issues, ids, dest)
  {
    hide OutOfStep;
    forall id | id in issues
      ensures SyncSubtaskSprints(SetIssuesSprint(issues, ids, dest), ids)[id] == Resprint(issues, ids, dest)[id]
    {
      OutOfStepAfterMove(issues, ids, dest, id);
    }
  }

  function RowFor(db: Db, id: int, dest: Option<int>): SprintRow
    requires id in db.issues
  {
    SprintRow(id, SprintName(db.sprints, db.issues[id].sprint), SprintName(db.sprints, dest))
  }

  /** The two log statements together log every sprint change of the move, once. */
  lemma MoveLogStatements(db: Db, ids: set<int>, dest: Option<int>)
    requires forall id | id in ids :: id in db.issues && db.issues[id].typ.Standard()
    ensures var rows := LogIssueSprintChanges(db.issues, db.sprints, ids, dest);
            var subtaskRows := LogSubtaskSprintSync(SetIssuesSprint(db.issues, ids, dest), db.sprints, ids);
            multiset(rows) + multiset(subtaskRows) ==
            multiset(SprintChanges(db, Resprint(db.issues, ids, dest), db.sprints))
  {
    var rows := LogIssueSprintChanges(db.issues, db.sprints, ids, dest);
    var moved := SetIssuesSprint(db.issues, ids, dest);
    var subtaskRows := LogSubtaskSprintSync(moved, db.sprints, ids);
    var after := Resprint(db.issues, ids, dest);
    forall id | id in db.issues
      ensures (OutOfStep(moved, ids, id) || (id in ids && db.issues[id].sprint != dest)) <==>
              db.issues[id].sprint != after[id].sprint
      ensures OutOfStep(moved, ids, id) ==> moved[moved[id].parent.value].sprint == dest && moved[id] == db.issues[id]
    {
      OutOfStepAfterMove(db.issues, ids, dest, id);
    }
    hide OutOfStep, SetIssuesSprint;
    assert subtaskRows == set id | id in db.issues && OutOfStep(moved, ids, id) :: RowFor(db, id, dest);
    assert rows == set id | id in db.issues && id in ids && db.issues[id].sprint != dest :: RowFor(db, id, dest);
    assert SprintChanges(db, after, db.sprints) ==
           set id | id in db.issues && db.issues[id].sprint != after[id].sprint :: RowFor(db, id, dest);
    assert SprintChanges(db, after, db.sprints) == rows + subtaskRows;
    MultisetOfUnion(rows, subtaskRows);
  }

  /** Once one row is written, a subtask is out of step exactly when the step takes it along. */
  lemma OutOfStepAfterWrite(issues: Issues, id: int, next: Issue, x: int)
    requires id in issues && x in issues && next.typ.Standard() == issues[id].typ.Standard()
    ensures var written, after := issues[id := next], WithChangedIssue(issues, id, next);
            var sync := next.typ.Standard() && next.sprint != issues[id].sprint;
            ((sync && OutOfStep(written, {id}, x)) || (x == id && next.sprint != issues[id].sprint) <==>
               issues[x].sprint != after[x].sprint) &&
            (sync && OutOfStep(written, {id}, x) ==>
               written[written[x].parent.value].sprint == next.sprint == after[x].sprint && written[x] == issues[x])
  {
  }

  /** Writing one row and syncing its subtasks is the step's effect on the issues, and its log. */
  lemma ChangeStatements(db: Db, id: int, next: Issue)
    requires id in db.issues && next.typ.Standard() == db.issues[id].typ.Standard()
    ensures var written, changed := db.issues[id := next], next.sprint != db.issues[id].sprint;
            var sync := next.typ.Standard() && changed;
            var rows := if changed then multiset{RowFor(db, id, next.sprint)} else multiset{};
            var subtaskRows := if sync then LogSubtaskSprintSync(written, db.sprints, {id}) else {};
            (if sync then SyncSubtaskSprints(written, {id}) else written) == WithChangedIssue(db.issues, id, next) &&
            rows + multiset(subtaskRows) ==
            multiset(SprintChanges(db, WithChangedIssue(db.issues, id, next), db.sprints))
  {
    var written, after := db.issues[id := next], WithChangedIssue(db.issues, id, next);
    var changed := next.sprint != db.issues[id].sprint;
    var sync := next.typ.Standard() && changed;
    var rows := if changed then {RowFor(db, id, next.sprint)} else {};
    var subtaskRows := if sync then LogSubtaskSprintSync(written, db.sprints, {id}) else {};
    forall x | x in db.issues
      ensures (sync && OutOfStep(written, {id}, x)) || (x == id && changed) <==> db.issues[x].sprint != after[x].sprint
      ensures sync && OutOfStep(written, {id}, x) ==>
                written[written[x].parent.value].sprint == next.sprint == after[x].sprint &&
                                                      written[x] == db.issues[x]
    {
      OutOfStepAfterWrite(db.issues, id, next, x);
    }
    hide OutOfStep, WithChangedIssue;
    assert subtaskRows == set x | x in db.issues && sync && OutOfStep(written, {id}, x) ::
             RowFor(db, x, after[x].sprint);
    assert SprintChanges(db, after, db.sprints) ==
           set x | x in db.issues && db.issues[x].sprint != after[x].sprint :: RowFor(db, x, after[x].sprint);
    assert SprintChanges(db, after, db.sprints) == rows + subtaskRows;
    MultisetOfUnion(rows, subtaskRows);
    assert multiset(rows) == if changed then multiset{RowFor(db, id, next.sprint)} else multiset{};
  }

  /** What a request answers, and the state it leaves: the step's, or the old one when it fails. */
  ghost predicate Answers(step: Result<Db, Error>, error: Option<Error>, before: Db, after: Db) {
    match step
    case Ok(db) => error == None && after == db
    case Err(e) => error == Some(e) && after == before
  }

  const DEFAULT_CATEGORIES := [Todo, InProgress, InProgress, Done]

  /** The statuses after the first n default ones of project p were inserted. */
  function WithDefaults(statuses: Statuses, p: int, n: nat): Statuses
    requires n <= |DEFAULT_CATEGORIES|
  {
    if n == 0 then statuses else WithDefaults(statuses, p, n - 1)[p + n := Status(p, DEFAULT_CATEGORIES[n - 1], n - 1)]
  }

  lemma NoDefaults(statuses: Statuses, p: int)
    ensures WithDefaults(statuses, p, 0) == statuses
  {
  }

  lemma NextDefault(statuses: Statuses, p: int, n: nat)
    requires n < |DEFAULT_CATEGORIES|
    ensures WithDefaults(statuses, p, n + 1) ==
            WithDefaults(statuses, p, n)[p + n + 1 := Status(p, DEFAULT_CATEGORIES[n], n)]
  {
  }

  lemma AllDefaults(statuses: Statuses, p: int)
    ensures WithDefaults(statuses, p, 4) ==
            statuses[p + 1 := Status(p, Todo, 0)][p + 2 := Status(p, InProgress, 1)]
            [p + 3 := Status(p, InProgress, 2)][p + 4 := Status(p, Done, 3)]
  {
    var one := statuses[p + 1 := Status(p, Todo, 0)];
    assert WithDefaults(statuses, p, 0) == statuses && DEFAULT_CATEGORIES[0] == Todo;
    assert WithDefaults(statuses, p, 1) == one;
    assert WithDefaults(statuses, p, 2) == one[p + 2 := Status(p, InProgress, 1)];
    assert WithDefaults(statuses, p, 3) == one[p + 2 := Status(p, InProgress, 1)][p + 3 := Status(p, InProgress, 2)];
  }

  /** The rows of a query, in some order, each once. */
  method Rows(ids: set<int>) returns (rows: seq<int>)
    ensures multiset(rows) == multiset(ids) && |rows| == |ids| && forall id :: id in rows <==> id in ids
  {
    rows := [];
    var left := ids;
    while left != {}
      invariant left <= ids && |rows| + |left| == |ids|
      invariant forall id :: id in rows <==> id in ids && id !in left
      invariant multiset(rows) == multiset(ids - left)
      decreases left
    {
      SomeMember(left);
      var id :| id in left;
      rows, left := rows + [id], left - {id};
    }
  }

  class Database {
    var projects: map<int, ProjectType>
    var statuses: Statuses
    var sprints: Sprints
    var issues: Issues
    var sprintLog: multiset<SprintRow>
    var lastId: int

    function State(): Db
      reads this
    {
      Db(projects, statuses, sprints, issues, sprintLog, lastId)
    }

    constructor ()
      ensures State() == EMPTY && Inv(State())
    {
      projects, statuses, sprints, issues, sprintLog, lastId := map[], map[], map[], map[], multiset{}, 0;
      new;
      assert EMPTY == Run([]);
      RunKeeps([]);
    }

    // -------------------------------------------------------------- projects

    method CreateProject(typ: ProjectType)
      requires Inv(State())
      modifies this
      ensures Inv(State()) && State() == Tracker.CreateProject(old(State()), typ)
    {
      hide Inv, WithDefaults;
      CreateProjectKeeps(State(), typ);
      NoDefaults(statuses, lastId + 1);
      lastId := lastId + 1;
      var p := lastId;
      projects := projects[p := typ];
      for i := 0 to |DEFAULT_CATEGORIES|
        invariant projects == old(projects)[p := typ] && sprints == old(sprints) && issues == old(issues) &&
                  sprintLog == old(sprintLog)
        invariant lastId == p + i && statuses == WithDefaults(old(statuses), p, i)
      {
        NextDefault(old(statuses), p, i);
        lastId := lastId + 1;
        statuses := statuses[lastId := Status(p, DEFAULT_CATEGORIES[i], i)];
      }
      AllDefaults(old(statuses), p);
    }

    method UpdateProject(project: int, typ: ProjectType) returns (error: Option<Error>)
      requires Inv(State())
      modifies this
      ensures Inv(State()) && Answers(Tracker.UpdateProject(old(State()), project, typ), error, old(State()), State())
    {
      if project !in projects { return Some(NotFound); }
      UpdateProjectKeeps(State(), project, typ);
      projects := projects[project := typ];
      return None;
    }

    method DeleteProject(project: int) returns (error: Option<Error>)
      requires Inv(State())
      modifies this
      ensures Inv(State()) && Answers(Tracker.DeleteProject(old(State()), project), error, old(State()), State())
    {
      if project !in projects { return Some(NotFound); }
      DeleteProjectKeeps(State(), project);
      issues := map x | x in issues && issues[x].project != project :: issues[x];
      sprints := map s | s in sprints && sprints[s].project != project :: sprints[s];
      statuses := map s | s in statuses && statuses[s].project != project :: statuses[s];
      projects := projects - {project};
      return None;
    }

    // -------------------------------------------------------------- issues

    method CreateIssue(project: int, in': CreateInput, now: int) returns (error: Option<Error>)
      requires Inv(State())
      modifies this
      ensures Inv(State()) &&
              Answers(Tracker.CreateIssue(old(State()), project, in', now), error, old(State()), State())
    {
      hide Inv, NewIssue;
      var issue := BuildIssue(State(), project, in', now);
      if issue.Err? { return Some(issue.error); }
      CreateIssueKeeps(State(), project, in', now);
      lastId := lastId + 1;
      issues := issues[lastId := issue.value];
      return None;
    }

    /** Moves subtasks of the given parents into their parent's sprint, logging those that move. */
    method SyncSubtasks(parents: set<int>)
      modifies this`issues, this`sprintLog
      ensures issues == SyncSubtaskSprints(old(issues), parents)
      ensures sprintLog == old(sprintLog) + multiset(LogSubtaskSprintSync(old(issues), sprints, parents))
    {
      if parents == {} {
        assert SyncSubtaskSprints(issues, {}) == issues && LogSubtaskSprintSync(issues, sprints, {}) == {};
        return;
      }
      sprintLog := sprintLog + multiset(LogSubtaskSprintSync(issues, sprints, parents));
      issues := SyncSubtaskSprints(issues, parents);
    }

    /** Writes the row, logs its changes one by one, and keeps its subtasks in its sprint. */
    method WriteIssueChanges(id: int, next: Issue, changes: seq<FieldChange>)
      requires id in issues && next.typ.Standard() == issues[id].typ.Standard()
      requires SprintRows(id, changes) ==
               if next.sprint != issues[id].sprint then multiset{RowFor(State(), id, next.sprint)} else multiset{}
      modifies this`issues, this`sprintLog
      ensures State() == Logged(old(State()), WithChangedIssue(old(issues), id, next), sprints)
    {
      hide LogSubtaskSprintSync, Resprint, RowFor, SprintChanges, SprintRows, SyncSubtaskSprints, WithChangedIssue;
      ChangeStatements(State(), id, next);
      var moved := issues[id].sprint != next.sprint;
      issues := issues[id := next];
      LogAppends(sprintLog, SprintRows(id, changes), multiset(LogSubtaskSprintSync(issues, sprints, {id})));
      LogChanges(id, changes);
      if next.typ.Standard() && moved {
        SyncSubtasks({id});
      }
    }

    /** One log row for each change. */
    method LogChanges(id: int, changes: seq<FieldChange>)
      modifies this`sprintLog
      ensures sprintLog == old(sprintLog) + SprintRows(id, changes)
    {
      hide SprintRows;
      NoRows(id);
      assert changes[..0] == [];
      for i := 0 to |changes|
        invariant sprintLog == old(sprintLog) + SprintRows(id, changes[..i])
      {
        SprintRowsOfAppend(id, changes[..i], changes[i]);
        assert changes[..i + 1] == changes[..i] + [changes[i]];
        if changes[i].SprintChanged? {
          sprintLog := sprintLog + multiset{SprintRow(id, changes[i].oldName, changes[i].newName)};
        }
      }
      assert changes[..|changes|] == changes;
    }

    method UpdateIssue(id: int, in': UpdateInput, now: int) returns (error: Option<Error>)
      requires Inv(State())
      modifies this
      ensures Inv(State()) && Answers(Tracker.UpdateIssue(old(State()), id, in', now), error, old(State()), State())
    {
      if id !in issues || issues[id].project !in projects { return Some(NotFound); }
      var cur := issues[id];
      var next := PatchIssue(State(), cur, in');
      if next.Err? { return Some(next.error); }
      assert IssueOk(State(), cur);
      PatchedIssueMayReplace(State(), id, in');
      UpdateIssueKeeps(State(), id, in', now);
      var changes := DescribeIssueChanges(id, cur, next.value, sprints);
      if changes == [] { return None; }
      WriteIssueChanges(id, Resolved(State(), cur, next.value, now), changes);
      return None;
    }

    method MoveIssue(id: int, in': MoveInput, now: int) returns (error: Option<Error>)
      requires Inv(State())
      modifies this
      ensures Inv(State()) && Answers(Tracker.MoveIssue(old(State()), id, in', now), error, old(State()), State())
    {
      if in'.status.Null? { return Some(Validation({"statusId"})); }
      if id !in issues || issues[id].project !in projects { return Some(NotFound); }
      if issues[id].typ.Epic? { return Some(EpicsDoNotMove); }
      var cur := issues[id];
      var next := PlaceIssue(State(), cur, in');
      if next.Err? { return Some(next.error); }
      var rank := NewRank(State(), id, in'.prev.Ptr(), in'.next.Ptr());
      if rank.Err? {
        return Some(if rank.error.MovedItself? then Validation({rank.error.field}) else Internal);
      }
      assert IssueOk(State(), cur);
      MovedIssueMayReplace(State(), id, in');
      MoveIssueKeeps(State(), id, in', now);
      WriteMove(id, next.value, Resolved(State(), cur, next.value, now), rank.value);
      return None;
    }

    /** The writes of a move: the changed columns if there are any, then the rank if it is new. */
    method WriteMove(id: int, next: Issue, resolved: Issue, rank: string)
      requires id in issues && next.project == issues[id].project && next.rank == issues[id].rank
      requires next.resolvedAt == issues[id].resolvedAt && next.typ == issues[id].typ
      requires resolved == next.(resolvedAt := resolved.resolvedAt) && (next == issues[id] ==> resolved == next)
      modifies this`issues, this`sprintLog
      ensures State() == Logged(old(State()), WithChangedIssue(old(issues), id, resolved.(rank := rank)), sprints)
    {
      hide SprintChanges, SprintRows, WithChangedIssue;
      var cur := issues[id];
      ChangedRow(State(), id, resolved, rank);
      var changes := DescribeIssueChanges(id, cur, next, sprints);
      if changes != [] {
        WriteIssueChanges(id, resolved, changes);
      }
      if rank != cur.rank {
        issues := issues[id := issues[id].(rank := rank)];
      }
    }

    /** Deletes an issue and its subtasks; other children become parentless. */
    method DeleteIssue(id: int) returns (error: Option<Error>)
      requires Inv(State())
      modifies this
      ensures Inv(State()) && Answers(Tracker.DeleteIssue(old(State()), id), error, old(State()), State())
    {
      if id !in issues || issues[id].project !in projects { return Some(NotFound); }
      ghost var before := State();
      DeleteIssueKeeps(before, id);
      UnparentedRows(before, id);
      var subtasks := Rows(Subtasks(issues, id));
      var victims := subtasks + [id];
      issues := UnparentChildren(issues, id);
      ghost var gone: set<int> := {};
      hide DeleteIssueRow, SurvivingRows, UnparentChildren;
      for i := 0 to |victims|
        invariant State() == before.(issues := SurvivingRows(before.issues, id, gone))
        invariant forall x :: x in gone <==> x in victims[..i]
      {
        var victim := victims[i];
        assert victims[..i + 1] == victims[..i] + [victim];
        if i < |subtasks| {
          assert victim in subtasks;
        } else {
          assert victims[..i] == subtasks;
          forall x | x in Subtasks(before.issues, id) ensures x in gone {
            assert x in subtasks;
          }
        }
        DeletedRow(before, id, gone, victim);
        issues := DeleteIssueRow(issues, victim);
        gone := gone + {victim};
      }
      assert victims[..|victims|] == victims;
      forall x ensures x in gone <==> x in {id} + Subtasks(before.issues, id) {
        assert x in victims <==> x in subtasks || x == id;
      }
      assert gone == {id} + Subtasks(before.issues, id);
      AllRowsDeleted(before, id);
      return None;
    }

    // -------------------------------------------------------------- sprints

    /** Inserts a planned sprint into a project whose type was just read. */
    method InsertSprint(project: int, name: string, startDate: Option<int>, endDate: Option<int>)
      returns (error: Option<Error>)
      requires Inv(State()) && project in projects && DateErrors(startDate, endDate) == {}
      modifies this
      ensures Inv(State()) &&
              Answers(NewSprint(old(State()), project, name, startDate, endDate), error, old(State()), State())
    {
      if projects[project].Kanban? { return Some(NotForKanban); }
      NewSprintKeeps(State(), project, name, startDate, endDate);
      lastId := lastId + 1;
      sprints := sprints[lastId := Sprint(project, name, Planned, startDate, endDate)];
      return None;
    }

    method CreateSprint(project: int, name: string, startDate: Option<int>, endDate: Option<int>)
      returns (error: Option<Error>)
      requires Inv(State())
      modifies this
      ensures Inv(State())
      ensures Answers(Tracker.CreateSprint(old(State()), project, name, startDate, endDate), error, old(State()),
              State())
    {
      var errors := DateErrors(startDate, endDate);
      if errors != {} { return Some(Validation(errors)); }
      if project !in projects { return Some(NotFound); }
      error := InsertSprint(project, name, startDate, endDate);
    }

    method UpdateSprint(id: int, name: Option<string>, startDate: Patch<int>, endDate: Patch<int>)
      returns (error: Option<Error>)
      requires Inv(State())
      modifies this
      ensures Inv(State()) &&
              Answers(Tracker.UpdateSprint(old(State()), id, name, startDate, endDate), error, old(State()), State())
    {
      if id !in sprints || sprints[id].project !in projects { return Some(NotFound); }
      var next := sprints[id];
      if next.state.Completed? { return Some(Conflict); }
      if name.Some? { next := next.(name := name.value); }
      if !startDate.Absent? { next := next.(startDate := startDate.Ptr()); }
      if !endDate.Absent? { next := next.(endDate := endDate.Ptr()); }
      var missing: set<string> := {};
      if next.state.Active? {
        missing := Required("startDate", next.startDate) + Required("endDate", next.endDate);
      }
      var errors := missing + DateErrors(next.startDate, next.endDate);
      if errors != {} { return Some(Validation(errors)); }
      UpdateSprintKeeps(State(), id, name, startDate, endDate);
      sprints := sprints[id := next];
      return None;
    }

    method StartSprint(id: int, name: Option<string>, startDate: Option<int>, endDate: Option<int>)
      returns (error: Option<Error>)
      requires Inv(State())
      modifies this
      ensures Inv(State()) &&
              Answers(Tracker.StartSprint(old(State()), id, name, startDate, endDate), error, old(State()), State())
    {
      if id !in sprints || sprints[id].project !in projects { return Some(NotFound); }
      var cur := sprints[id];
      if projects[cur.project].Kanban? { return Some(NotForKanban); }
      if !cur.state.Planned? { return Some(Conflict); }
      var next := cur.(state := Active);
      if startDate.Some? { next := next.(startDate := startDate); }
      if endDate.Some? { next := next.(endDate := endDate); }
      if name.Some? { next := next.(name := name.value); }
      var missing := Required("startDate", next.startDate) + Required("endDate", next.endDate);
      var errors := missing + DateErrors(next.startDate, next.endDate);
      if errors != {} { return Some(Validation(errors)); }
      if ActiveSprints(sprints, cur.project) != {} { return Some(Conflict); }
      StartSprintKeeps(State(), id, name, startDate, endDate);
      sprints := sprints[id := next];
      return None;
    }

    /** Moves standard issues to a sprint, or to the backlog, with their subtasks. */
    method MoveIssuesToSprint(ids: set<int>, dest: Option<int>)
      requires forall id | id in ids :: id in issues && issues[id].typ.Standard()
      modifies this`issues, this`sprintLog
      ensures State() == Logged(old(State()), Resprint(old(issues), ids, dest), sprints)
    {
      hide LogIssueSprintChanges, LogSubtaskSprintSync, Resprint, SetIssuesSprint, SprintChanges, SyncSubtaskSprints;
      ghost var before := State();
      MoveStatements(issues, ids, dest);
      MoveLogStatements(before, ids, dest);
      if ids == {} {
        MovingNothing(before, dest);
        return;
      }
      sprintLog := sprintLog + multiset(LogIssueSprintChanges(issues, sprints, ids, dest));
      issues := SetIssuesSprint(issues, ids, dest);
      SyncSubtasks(ids);
    }

    /** The loop over the sprint's standard issues that picks out the open ones. */
    method CollectOpen(id: int) returns (open: set<int>, total: nat)
      ensures open == OpenIssues(State(), id) && total == |SprintStandardIssues(issues, id)|
    {
      var rows := Rows(SprintStandardIssues(issues, id));
      open, total := {}, |rows|;
      for i := 0 to |rows|
        invariant forall x :: x in open <==> x in rows[..i] && x in OpenIssues(State(), id)
      {
        var x := rows[i];
        assert x in rows && rows[..i + 1] == rows[..i] + [x];
        if !CategoryOf(State(), issues[x].status).Done? {
          open := open + {x};
        }
      }
      assert rows[..|rows|] == rows;
      forall x ensures x in open <==> x in OpenIssues(State(), id) {}
    }

    method CompleteSprint(id: int, target: CompleteTarget)
      returns (error: Option<Error>, completedCount: int, movedCount: int)
      requires Inv(State())
      modifies this
      ensures Inv(State())
      ensures match Tracker.CompleteSprint(old(State()), id, target)
              case Ok(c) => error == None && State() == c.db && completedCount == c.completedCount &&
                movedCount == c.movedCount
              case Err(e) => error == Some(e) && State() == old(State())
    {
      hide OpenIssues, Resprint, SprintChanges, SprintStandardIssues;
      completedCount, movedCount := 0, 0;
      if target == ToSprint(None) { return Some(Validation({"sprintId"})), 0, 0; }
      if id !in sprints || sprints[id].project !in projects { return Some(NotFound), 0, 0; }
      if !sprints[id].state.Active? { return Some(Conflict), 0, 0; }
      var sprint := sprints[id];
      ghost var before := State();
      CompleteSprintMayKeep(before, id, target);
      var dest: Option<int>;
      error, dest := Destination(sprint.project, target);
      if error.Some? { return; }
      ghost var with := State();
      CompletionTargetKeeps(before, sprint.project, target);
      var open, total := CollectOpen(id);
      SameOpenIssues(before, State(), id);
      MoveIssuesToSprint(open, dest);
      RenamedSprints(with, issues, id, dest);
      sprints := sprints[id := sprint.(state := Completed)];
      return None, total - |open|, |open|;
    }

    /** Where a completed sprint's open issues go: the backlog, a planned sprint, or a new one made now. */
    method Destination(project: int, target: CompleteTarget) returns (error: Option<Error>, dest: Option<int>)
      requires Inv(State()) && project in projects
      modifies this
      ensures match CompletionTarget(old(State()), project, target)
              case Ok((with, to)) => error == None && State() == with && dest == to
              case Err(e) => error == Some(e) && State() == old(State())
    {
      error, dest := None, None;
      match target {
        case ToBacklog =>
        case ToSprint(None) => error := Some(Validation({"sprintId"}));
        case ToSprint(Some(d)) =>
          if !SprintIn(State(), project, d) || !sprints[d].state.Planned? {
            return Some(Validation({"sprintId"})), None;
          }
          dest := Some(d);
        case ToNew(name) =>
          error := InsertSprint(project, name, None, None);
          if error.None? { dest := Some(lastId); }
      }
    }

    method DeleteSprint(id: int) returns (error: Option<Error>)
      requires Inv(State())
      modifies this
      ensures Inv(State()) && Answers(Tracker.DeleteSprint(old(State()), id), error, old(State()), State())
    {
      if id !in sprints || sprints[id].project !in projects { return Some(NotFound); }
      if !sprints[id].state.Planned? { return Some(Conflict); }
      ghost var before := State();
      DeleteSprintKeeps(before, id);
      var ids := SprintStandardIssues(issues, id);
      MoveIssuesToSprint(ids, None);
      NothingLeftInSprint(before, id);
      sprints := sprints - {id};
      issues := ClearSprint(issues, id);
      return None;
    }

    // -------------------------------------------------------------- statuses

    method CreateStatus(project: int, category: Category) returns (error: Option<Error>)
      requires Inv(State())
      modifies this
      ensures Inv(State()) &&
              Answers(Tracker.CreateStatus(old(State()), project, category), error, old(State()), State())
    {
      if project !in projects { return Some(NotFound); }
      CreateStatusKeeps(State(), project, category);
      var position := NextPosition(PositionsOf(statuses, project));
      lastId := lastId + 1;
      statuses := statuses[lastId := Status(project, category, position)];
      return None;
    }

    /** Takes the new order only if it is a permutation of the project's statuses; then it is their order. */
    method ReorderStatuses(project: int, ids: seq<int>) returns (error: Option<Error>)
      requires Inv(State())
      modifies this
      ensures Inv(State()) && Answers(Tracker.ReorderStatuses(old(State()), project, ids), error, old(State()), State())
      ensures error.None? ==> InColumns(ids, PositionsOf(statuses, project))
    {
      if project !in projects { return Some(NotFound); }
      var pos := PositionsOf(statuses, project);
      var have := Rows(pos.Keys);
      var same := SamePermutation(have, ids);
      if !same { return Some(Validation({"statusIds"})); }
      EveryStatusIsListed(pos, ids);
      ReorderStatusesKeeps(State(), project, ids);
      statuses := Repositioned(statuses, Reordered(pos, ids));
      return None;
    }

    method UpdateStatus(project: int, id: int, category: Category, now: int) returns (error: Option<Error>)
      requires Inv(State())
      modifies this
      ensures Inv(State()) &&
              Answers(Tracker.UpdateStatus(old(State()), project, id, category, now), error, old(State()), State())
    {
      if project !in projects || !StatusIn(State(), project, id) { return Some(NotFound); }
      UpdateStatusKeeps(State(), project, id, category, now);
      var cur := statuses[id];
      if category == cur.category {
        assert statuses[id := cur.(category := category)] == statuses;
        return None;
      }
      statuses := statuses[id := cur.(category := category)];
      if cur.category.Done? != category.Done? {
        issues := SyncResolved(issues, id, category.Done?, now);
      }
      return None;
    }

    method DeleteStatus(project: int, id: int, moveTo: Option<int>, now: int) returns (error: Option<Error>)
      requires Inv(State())
      modifies this
      ensures Inv(State()) &&
              Answers(Tracker.DeleteStatus(old(State()), project, id, moveTo, now), error, old(State()), State())
    {
      if project !in projects || !StatusIn(State(), project, id) { return Some(NotFound); }
      hide Compact, Inv;
      if |PositionsOf(statuses, project)| <= 1 { return Some(Conflict); }
      ghost var before := State();
      var users := set x | x in issues && issues[x].status == id;
      if users != {} {
        SomeMember(users);
        match StatusMigration(State(), project, id, moveTo) {
          case Err(e) => return Some(e);
          case Ok(to) =>
            issues := MoveIssuesToStatus(issues, to, CategoryOf(State(), to).Done?, id, now);
        }
      } else {
        assert forall x | x in issues :: x !in users;
      }
      DeleteStatusKeeps(before, project, id, moveTo, now);
      statuses := statuses - {id};
      PositionsWithout(before.statuses, project, id);
      statuses := Repositioned(statuses, Compact(PositionsOf(statuses, project)));
      return None;
    }
  }

  // ---------------------------------------------------------------- lemmas about the transactions

  lemma CompleteSprintMayKeep(db: Db, id: int, target: CompleteTarget)
    requires Inv(db)
    ensures CompleteSprint(db, id, target).Ok? ==> Inv(CompleteSprint(db, id, target).value.db)
  {
    hide CompleteSprint, Inv;
    if CompleteSprint(db, id, target).Ok? { CompleteSprintKeeps(db, id, target); }
  }

  /** Which issues are open depends on the issues and their statuses only. */
  lemma SameOpenIssues(a: Db, b: Db, id: int)
    requires b.issues == a.issues && b.statuses == a.statuses
    ensures OpenIssues(b, id) == OpenIssues(a, id)
    ensures forall x | x in OpenIssues(a, id) :: x in a.issues && a.issues[x].typ.Standard()
  {
    assert forall x :: x in OpenIssues(b, id) <==> x in OpenIssues(a, id);
  }

  /** Rows that differ only outside sprint_id log the same changes. */
  lemma SameSprintsSameLog(before: Db, a: Issues, b: Issues, sprints: Sprints)
    requires forall x :: x in a <==> x in b
    requires forall x | x in a :: a[x].sprint == b[x].sprint
    ensures SprintChanges(before, a, sprints) == SprintChanges(before, b, sprints)
  {
  }

  /** Writing a row's rank after its other columns, and logging nothing for an unchanged row. */
  lemma ChangedRow(db: Db, id: int, next: Issue, rank: string)
    requires id in db.issues && next.rank == db.issues[id].rank
    ensures var changed := WithChangedIssue(db.issues, id, next);
            var ranked := WithChangedIssue(db.issues, id, next.(rank := rank));
            id in changed && changed[id] == next && changed[id := next.(rank := rank)] == ranked &&
            SprintChanges(db, changed, db.sprints) == SprintChanges(db, ranked, db.sprints)
    ensures next == db.issues[id] ==>
              WithChangedIssue(db.issues, id, next) == db.issues && SprintChanges(db, db.issues, db.sprints) == {}
  {
    hide Resprint, SprintChanges;
    var changed, ranked := WithChangedIssue(db.issues, id, next), WithChangedIssue(db.issues, id, next.(rank := rank));
    MovingNothing(db, None);
    assert changed[id := next.(rank := rank)] == ranked;
    if next == db.issues[id] { assert changed == db.issues; }
    SameSprintsSameLog(db, changed, ranked, db.sprints);
  }

  lemma MovingNothing(db: Db, dest: Option<int>)
    ensures Resprint(db.issues, {}, dest) == db.issues && SprintChanges(db, db.issues, db.sprints) == {}
  {
  }

  /** The rows while an issue is being deleted: its other children have no parent any more. */
  function SurvivingRows(issues: Issues, id: int, gone: set<int>): Issues {
    map x | x in issues && x !in gone ::
      if issues[x].parent == Some(id) && !issues[x].typ.Subtask? then issues[x].(parent := None) else issues[x]
  }

  lemma UnparentedRows(db: Db, id: int)
    ensures UnparentChildren(db.issues, id) == SurvivingRows(db.issues, id, {})
  {
  }

  /** Deleting the subtasks first leaves ON DELETE SET NULL nothing to do: no row loses a parent unnoticed. */
  lemma DeletedRow(db: Db, id: int, gone: set<int>, victim: int)
    requires Inv(db) && id in db.issues
    requires victim in Subtasks(db.issues, id) || (victim == id && Subtasks(db.issues, id) <= gone)
    ensures DeleteIssueRow(SurvivingRows(db.issues, id, gone), victim) == SurvivingRows(db.issues, id, gone + {victim})
  {
    forall x | x in db.issues && x !in gone && db.issues[x].parent == Some(victim)
      ensures SurvivingRows(db.issues, id, gone)[x].parent != Some(victim)
    {
      assert IssueOk(db, db.issues[x]);
      assert IssueOk(db, db.issues[victim]);
      if victim == id { assert x !in Subtasks(db.issues, id); }
    }
  }

  lemma AllRowsDeleted(db: Db, id: int)
    requires id in db.issues && db.issues[id].project in db.projects
    ensures Tracker.DeleteIssue(db, id) ==
            Ok(db.(issues := SurvivingRows(db.issues, id, {id} + Subtasks(db.issues, id))))
  {
    var gone := {id} + Subtasks(db.issues, id);
    var step, rows := Tracker.DeleteIssue(db, id).value.issues, SurvivingRows(db.issues, id, gone);
    forall x ensures x in step <==> x in rows {}
    forall x | x in step ensures step[x] == rows[x] {
      assert x !in Subtasks(db.issues, id);
    }
    assert step == rows;
  }

  /** Completing a sprint does not change the names its log rows carry. */
  lemma RenamedSprints(with: Db, issues: Issues, id: int, dest: Option<int>)
    requires id in with.sprints
    ensures var sprints := with.sprints[id := with.sprints[id].(state := Completed)];
            SprintChanges(with, issues, sprints) == SprintChanges(with, issues, with.sprints)
  {
    var sprints := with.sprints[id := with.sprints[id].(state := Completed)];
    assert forall s: Option<int> :: SprintName(sprints, s) == SprintName(with.sprints, s);
  }

  /** Once its standard issues have left, a sprint is empty: their subtasks went along, logged. */
  lemma NothingLeftInSprint(db: Db, id: int)
    requires Inv(db) && id in db.sprints
    ensures var moved := Resprint(db.issues, SprintStandardIssues(db.issues, id), None);
            moved == ClearSprint(db.issues, id) && ClearSprint(moved, id) == moved &&
            SprintChanges(db, moved, db.sprints - {id}) == SprintChanges(db, moved, db.sprints)
  {
    var ids := SprintStandardIssues(db.issues, id);
    var moved := Resprint(db.issues, ids, None);
    forall x | x in db.issues ensures moved[x] == ClearSprint(db.issues, id)[x] {
      assert IssueOk(db, db.issues[x]);
      if db.issues[x].parent.Some? {
        var p := db.issues[x].parent.value;
        assert p in db.issues;
      }
    }
    forall x | x in db.issues && db.issues[x].sprint != moved[x].sprint ensures moved[x].sprint == None {}
  }

  lemma PositionsWithout(statuses: Statuses, project: int, id: int)
    ensures PositionsOf(statuses - {id}, project) == PositionsOf(statuses, project) - {id}
  {
  }
}
