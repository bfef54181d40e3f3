/** The read models: the backlog page and the board, computed from the rows in a few loops. */
module Board {
  import opened Wrappers
  import opened IdSets
  import opened Orders
  import opened RankFractions
  import opened RankedList
  import opened Tracker
  import TrackerHistory
  import opened TrackerInvariant

  const DAY := 86_400_000_000          // microseconds
  const KANBAN_DONE_RETENTION_DAYS := 14

  // ---------------------------------------------------------------- which rows the queries select

  predicate SprintIs(db: Db, sprint: Option<int>, state: SprintState) {
    sprint.Some? && sprint.value in db.sprints && db.sprints[sprint.value].state == state
  }

  /** Standard issues of the project, without those that are done and in a completed sprint. */
  function BacklogIssues(db: Db, project: int): set<int> {
    set id | id in db.issues && db.issues[id].project == project && db.issues[id].typ.Standard() &&
             !(SprintIs(db, db.issues[id].sprint, Completed) && CategoryOf(db, db.issues[id].status).Done?)
  }

  predicate HiddenOnKanban(db: Db, i: Issue, now: int) {
    i.resolvedAt.Some? && i.resolvedAt.value < now - KANBAN_DONE_RETENTION_DAYS * DAY &&
    StatusIn(db, i.project, i.status) && CategoryOf(db, i.status).Done?
  }

  function KanbanIssues(db: Db, project: int, now: int): set<int> {
    set id | id in db.issues && db.issues[id].project == project && !db.issues[id].typ.Epic? &&
             !HiddenOnKanban(db, db.issues[id], now)
  }

  function SprintIssues(db: Db, sprint: int): set<int> {
    set id | id in db.issues && db.issues[id].sprint == Some(sprint) && !db.issues[id].typ.Epic?
  }

  function OpenSprints(db: Db, project: int): set<int> {
    set s | s in db.sprints && db.sprints[s].project == project && !db.sprints[s].state.Completed?
  }

  // ---------------------------------------------------------------- in which order

  function RanksOfSome(issues: Issues, ids: set<int>): Ranks {
    map id | id in ids && id in issues :: issues[id].rank
  }

  /** The rows in rank order. */
  method OrderByRank(issues: Issues, ids: set<int>) returns (l: seq<int>)
    requires ids <= issues.Keys && Ranked(RanksOfSome(issues, ids))
    ensures Lists(l, RanksOfSome(issues, ids))
  {
    l := [];
    var rest := ids;
    ghost var ranks := RanksOfSome(issues, ids);
    while rest != {}
      invariant rest <= ids && Ascending(l, ranks) && forall id | id in ids :: id in l <==> id !in rest
      invariant forall i, id | 0 <= i < |l| && id in rest :: Less(ranks[l[i]], ranks[id])
      decreases rest
    {
      FirstInRank(ranks, rest);
      var x :| x in rest && forall y | y in rest :: y == x || Less(issues[x].rank, issues[y].rank);
      l, rest := l + [x], rest - {x};
    }
  }

  lemma FirstInRank(ranks: Ranks, rest: set<int>)
    requires rest != {} && rest <= ranks.Keys && Ranked(ranks)
    ensures exists x :: x in rest && forall y | y in rest :: y == x || Less(ranks[x], ranks[y])
  {
    hide Less;
    SomeMember(rest);
    var keys := set id | id in rest :: ranks[id];
    assert keys != {} by {
      var x :| x in rest;
      assert ranks[x] in keys;
    }
    LeastExists(keys);
    var m :| IsLeast(m, keys);
    assert IsLeast(m, keys);
    var x :| x in rest && ranks[x] == m;
    forall y | y in rest ensures y == x || Less(ranks[x], ranks[y]) { assert ranks[y] in keys; }
  }

  predicate SprintBefore(db: Db, s: int, t: int)
    requires s in db.sprints && t in db.sprints
  {
    (db.sprints[s].state.Active? && !db.sprints[t].state.Active?) ||
    (db.sprints[s].state.Active? == db.sprints[t].state.Active? && s < t)
  }

  /** The active sprint first, then the planned ones by id; the loop of an ORDER BY. */
  method OrderSprints(db: Db, ids: set<int>) returns (l: seq<int>)
    requires ids <= db.sprints.Keys
    ensures forall s :: s in l <==> s in ids
    ensures forall i, j | 0 <= i < j < |l| :: l[i] in ids && l[j] in ids && SprintBefore(db, l[i], l[j])
  {
    l := [];
    var rest := ids;
    while rest != {}
      invariant rest <= ids && (forall s | s in ids :: s in l <==> s !in rest) && forall s | s in l :: s in ids
      invariant forall i, j | 0 <= i < j < |l| :: l[i] in ids && l[j] in ids && SprintBefore(db, l[i], l[j])
      invariant forall i, s | 0 <= i < |l| && s in rest :: l[i] in ids && SprintBefore(db, l[i], s)
      decreases rest
    {
      FirstSprint(db, rest);
      var x :| x in rest && forall y | y in rest :: y == x || SprintBefore(db, x, y);
      l, rest := l + [x], rest - {x};
    }
  }

  lemma FirstSprint(db: Db, rest: set<int>)
    requires rest != {} && rest <= db.sprints.Keys
    ensures exists x :: x in rest && forall y | y in rest :: y == x || SprintBefore(db, x, y)
  {
    SomeMember(rest);
    var x :| x in rest;
    var before := (s, t) => s in db.sprints && t in db.sprints && SprintBefore(db, s, t);
    var first := FirstOf(rest, x, before);
    assert first in rest;
    forall y | y in rest ensures y == first || SprintBefore(db, first, y) { assert y == first || before(first, y); }
  }

  // ---------------------------------------------------------------- the backlog

  datatype Section = Section(sprint: int, issues: seq<int>)

  /** A story, task or bug of the project. */
  predicate PlainIn(db: Db, project: int, id: int) {
    id in db.issues && db.issues[id].project == project && db.issues[id].typ in {Story, Task, Bug}
  }

  predicate IsDone(db: Db, id: int) {
    id in db.issues && db.issues[id].status in db.statuses && db.statuses[db.issues[id].status].category == Done
  }

  /** Where the backlog page lists an issue: in the section of its open sprint, in the backlog, or nowhere. */
  predicate InSection(db: Db, project: int, id: int, sprint: int) {
    PlainIn(db, project, id) && db.issues[id].sprint == Some(sprint) && sprint in db.sprints &&
    db.sprints[sprint].state != Completed
  }

  /** Without a sprint, or left open in a completed one. */
  predicate InBacklog(db: Db, project: int, id: int) {
    PlainIn(db, project, id) &&
    match db.issues[id].sprint
    case None => true
    case Some(s) => s in db.sprints && db.sprints[s].state == Completed && !IsDone(db, id)
  }

  lemma SomeAreRanked(db: Db, project: int, ids: set<int>)
    requires RanksOk(db.issues) && ids <= db.issues.Keys && forall id | id in ids :: db.issues[id].project == project
    ensures Ranked(RanksOfSome(db.issues, ids))
  {
    var all, some := RanksOf(db.issues, project), RanksOfSome(db.issues, ids);
    assert Ranked(all);
    forall id | id in some ensures id in all && some[id] == all[id] {}
  }

  /** Adding the next row at the end of a list keeps it in rank order. */
  lemma AppendRow(rows: seq<int>, n: nat, l: seq<int>, ranks: Ranks)
    requires n < |rows| && Ascending(rows, ranks) && Ascending(l, ranks) && forall id | id in l :: id in rows[..n]
    ensures Ascending(l + [rows[n]], ranks)
  {
    hide Less;
    var r := l + [rows[n]];
    forall i | 0 <= i < |l| ensures Less(ranks[r[i]], ranks[rows[n]]) {
      var id := l[i];
      assert id in l;
      var k :| 0 <= k < n && rows[k] == id;
    }
  }

  /** Puts each row into the section of its sprint, or into the backlog when its sprint has none. */
  method Distribute(
    issues: Issues, sprints: seq<int>, section: map<int, int>, empty: seq<Section>, rows: seq<int>, ghost ranks: Ranks)
    returns (sections: seq<Section>, backlog: seq<int>)
    requires |empty| == |sprints| && forall k | 0 <= k < |sprints| :: empty[k] == Section(sprints[k], [])
    requires forall s :: s in section <==> s in sprints
    requires forall s | s in section :: 0 <= section[s] < |sprints| && sprints[section[s]] == s
    requires forall i, j | 0 <= i < j < |sprints| :: sprints[i] != sprints[j]
    requires Ascending(rows, ranks) && forall id | id in rows :: id in issues
    ensures |sections| == |sprints| && forall k | 0 <= k < |sprints| :: sections[k].sprint == sprints[k]
    ensures forall k, id | 0 <= k < |sprints| :: id in sections[k].issues <==>
            id in rows && issues[id].sprint == Some(sprints[k])
    ensures forall id :: id in backlog <==>
            id in rows && (issues[id].sprint.Some? ==> issues[id].sprint.value !in sprints)
    ensures forall k | 0 <= k < |sprints| :: Ascending(sections[k].issues, ranks)
    ensures Ascending(backlog, ranks)
  {
    hide Ascending;
    sections, backlog := empty, [];
    NothingAscends(ranks);
    for n := 0 to |rows|
      invariant |sections| == |sprints| && forall k | 0 <= k < |sprints| :: sections[k].sprint == sprints[k]
      invariant forall k, id | 0 <= k < |sprints| :: id in sections[k].issues <==>
                id in rows[..n] && issues[id].sprint == Some(sprints[k])
      invariant forall id :: id in backlog <==>
                id in rows[..n] && (issues[id].sprint.Some? ==> issues[id].sprint.value !in sprints)
      invariant forall k | 0 <= k < |sprints| :: Ascending(sections[k].issues, ranks)
      invariant Ascending(backlog, ranks)
    {
      var id := rows[n];
      assert rows[..n + 1] == rows[..n] + [id];
      var sprint := issues[id].sprint;
      if sprint.Some? && sprint.value in section {
        var s := sprint.value;
        var k := section[s];
        assert 0 <= k < |sprints| && sprints[k] == s;
        AppendRow(rows, n, sections[k].issues, ranks);
        sections := sections[k := sections[k].(issues := sections[k].issues + [id])];
      } else {
        AppendRow(rows, n, backlog, ranks);
        backlog := backlog + [id];
      }
    }
    assert rows[..|rows|] == rows;
  }

  lemma NothingAscends(ranks: Ranks)
    ensures Ascending([], ranks)
  {
  }

  lemma RowsAscend(db: Db, project: int, ids: set<int>, rows: seq<int>)
    requires Lists(rows, RanksOfSome(db.issues, ids)) && ids <= db.issues.Keys
    requires forall id | id in ids :: db.issues[id].project == project
    ensures Ascending(rows, RanksOf(db.issues, project)) && forall id :: id in rows <==> id in ids
  {
    hide Less;
    var some, all := RanksOfSome(db.issues, ids), RanksOf(db.issues, project);
    forall i | 0 <= i < |rows| ensures rows[i] in ids && rows[i] in all && all[rows[i]] == some[rows[i]] {
      var id := rows[i];
      assert id in some;
    }
    forall id ensures id in rows <==> id in ids {
      if id in ids { assert id in some; }
    }
  }

  ghost predicate HasSection(sections: seq<Section>, sprint: int) {
    exists k :: 0 <= k < |sections| && sections[k].sprint == sprint
  }

  /** At most the first section's sprint is active; the others are planned, and by id. */
  ghost predicate ActiveFirst(db: Db, sections: seq<Section>) {
    forall i, j | 0 <= i < j < |sections| ::
      var s, t := sections[i].sprint, sections[j].sprint;
      s in db.sprints && t in db.sprints && db.sprints[t].state == Planned && (db.sprints[s].state == Planned ==> s < t)
  }

  /**
   * Every standard issue of the project, except done ones in completed sprints, is listed once: in
   * the section of its active or planned sprint, or else in the backlog. Sections and backlog are in
   * rank order; the active sprint's section comes first, then the planned ones by id.
   */
  method Backlog(db: Db, project: int) returns (sections: seq<Section>, backlog: seq<int>)
    requires Inv(db)
    ensures forall s :: HasSection(sections, s) <==>
              s in db.sprints && db.sprints[s].project == project && db.sprints[s].state != Completed
    ensures ActiveFirst(db, sections)
    ensures forall k, id | 0 <= k < |sections| :: id in sections[k].issues <==>
            InSection(db, project, id, sections[k].sprint)
    ensures forall id :: id in backlog <==> InBacklog(db, project, id)
    ensures forall k | 0 <= k < |sections| :: Ascending(sections[k].issues, RanksOf(db.issues, project))
    ensures Ascending(backlog, RanksOf(db.issues, project))
  {
    var sprints := OrderSprints(db, OpenSprints(db, project));
    var section: map<int, int> := map[];
    sections, backlog := [], [];
    for k := 0 to |sprints|
      invariant |sections| == k && forall i | 0 <= i < k :: sections[i] == Section(sprints[i], [])
      invariant forall s :: s in section <==> s in sprints[..k]
      invariant forall s | s in section :: 0 <= section[s] < k && sprints[section[s]] == s
    {
      sections := sections + [Section(sprints[k], [])];
      section := section[sprints[k] := k];
    }
    var ids := BacklogIssues(db, project);
    SomeAreRanked(db, project, ids);
    var rows := OrderByRank(db.issues, ids);
    RowsAscend(db, project, ids, rows);
    sections, backlog := Distribute(db.issues, sprints, section, sections, rows, RanksOf(db.issues, project));
    ListsAreRight(db, project, sprints, rows, sections, backlog);
    SectionsAreRight(db, project, sprints, sections);
    hide HasSection, ActiveFirst, InSection, InBacklog, BacklogIssues, OpenSprints, Ascending, Lists, SprintBefore;
  }

  /** The sections are those of the open sprints, in the order of the page. */
  lemma SectionsAreRight(db: Db, project: int, sprints: seq<int>, sections: seq<Section>)
    requires SprintsOk(db) && forall s :: s in sprints <==> s in OpenSprints(db, project)
    requires forall i, j | 0 <= i < j < |sprints| ::
               sprints[i] in db.sprints && sprints[j] in db.sprints && SprintBefore(db, sprints[i], sprints[j])
    requires |sections| == |sprints| && forall k | 0 <= k < |sprints| :: sections[k].sprint == sprints[k]
    ensures forall s :: HasSection(sections, s) <==>
              s in db.sprints && db.sprints[s].project == project && db.sprints[s].state != Completed
    ensures ActiveFirst(db, sections)
  {
    forall i, j | 0 <= i < j < |sections|
      ensures var s, t := sections[i].sprint, sections[j].sprint;
              s in db.sprints && t in db.sprints && db.sprints[t].state == Planned &&
              (db.sprints[s].state == Planned ==> s < t)
    {
      assert sprints[i] in sprints && sprints[j] in sprints;
      ActiveComesFirst(db, project, sprints[i], sprints[j]);
    }
    forall s ensures HasSection(sections, s) <==> s in OpenSprints(db, project) {
      if s in sprints {
        var k :| 0 <= k < |sprints| && sprints[k] == s;
        assert sections[k].sprint == s;
      }
      if HasSection(sections, s) {
        var k :| 0 <= k < |sections| && sections[k].sprint == s;
        assert sprints[k] in sprints;
      }
    }
  }

  /** Sections and backlog hold the issues that belong there. */
  lemma ListsAreRight(
    db: Db, project: int, sprints: seq<int>, rows: seq<int>, sections: seq<Section>, backlog: seq<int>)
    requires IssuesOk(db) && forall s :: s in sprints <==> s in OpenSprints(db, project)
    requires forall id :: id in rows <==> id in BacklogIssues(db, project)
    requires |sections| == |sprints| && forall k | 0 <= k < |sprints| :: sections[k].sprint == sprints[k]
    requires forall k, id | 0 <= k < |sprints| :: id in sections[k].issues <==>
               id in rows && db.issues[id].sprint == Some(sprints[k])
    requires forall id :: id in backlog <==>
               id in rows && (db.issues[id].sprint.Some? ==> db.issues[id].sprint.value !in sprints)
    ensures forall k, id | 0 <= k < |sections| :: id in sections[k].issues <==>
              InSection(db, project, id, sections[k].sprint)
    ensures forall id :: id in backlog <==> InBacklog(db, project, id)
  {
    forall k, id | 0 <= k < |sections|
      ensures id in sections[k].issues <==> InSection(db, project, id, sections[k].sprint)
    {
      PlaceOf(db, project, id);
      assert sprints[k] in sprints;
    }
    forall id ensures id in backlog <==> InBacklog(db, project, id) { PlaceOf(db, project, id); }
    hide InSection, InBacklog, BacklogIssues, OpenSprints;
  }

  /** What the query's rows mean for each place. */
  lemma PlaceOf(db: Db, project: int, id: int)
    requires IssuesOk(db)
    ensures forall s | s in OpenSprints(db, project) :: InSection(db, project, id, s) <==>
              id in BacklogIssues(db, project) && db.issues[id].sprint == Some(s)
    ensures InBacklog(db, project, id) <==>
            id in BacklogIssues(db, project) &&
            (db.issues[id].sprint.Some? ==> db.issues[id].sprint.value !in OpenSprints(db, project))
  {
    if id in db.issues { assert IssueOk(db, db.issues[id]); }
  }

  lemma ActiveComesFirst(db: Db, project: int, s: int, t: int)
    requires SprintsOk(db) && s in OpenSprints(db, project) && t in OpenSprints(db, project) && SprintBefore(db, s, t)
    ensures s != t && db.sprints[t].state == Planned && (db.sprints[s].state == Planned ==> s < t)
  {
  }

  /**
   * A story, task or bug has one place, the backlog or an open sprint's section, unless it is done and its sprint
   * is completed; then it has none.
   */
  lemma EachHasOnePlace(db: Db, project: int, id: int)
    requires Inv(db) && PlainIn(db, project, id)
    ensures db.issues[id].sprint.Some? && db.issues[id].sprint.value in db.sprints &&
            db.sprints[db.issues[id].sprint.value].state == Completed && IsDone(db, id) <==>
            !InBacklog(db, project, id) && forall s :: !InSection(db, project, id, s)
    ensures forall s | InSection(db, project, id, s) ::
              db.sprints[s].project == project && !InBacklog(db, project, id) &&
              forall t | InSection(db, project, id, t) :: t == s
  {
    var i := db.issues[id];
    assert IssueOk(db, i);
    if i.sprint.Some? && db.sprints[i.sprint.value].state != Completed {
      assert InSection(db, project, id, i.sprint.value);
    }
  }

  // ---------------------------------------------------------------- the board

  predicate ParentOf(issues: Issues, child: int, id: int) {
    child in issues && issues[child].typ.Subtask? && issues[child].parent == Some(id)
  }

  /** The parents of listed subtasks that are not listed themselves, by id. */
  method UnlistedParents(issues: Issues, rows: seq<int>) returns (parents: seq<int>)
    requires forall id | id in rows :: id in issues
    requires forall id | id in rows && issues[id].typ.Subtask? ::
               issues[id].parent.Some? ==> issues[id].parent.value in issues
    ensures forall id :: id in parents <==> id !in rows && exists n :: 0 <= n < |rows| && ParentOf(issues, rows[n], id)
    ensures forall i, j | 0 <= i < j < |parents| :: parents[i] < parents[j]
  {
    var listed: set<int> := {};
    for n := 0 to |rows|
      invariant listed == set id | id in rows[..n]
    {
      assert rows[..n + 1] == rows[..n] + [rows[n]];
      listed := listed + {rows[n]};
    }
    assert rows[..|rows|] == rows;
    var ids: set<int> := {};
    for n := 0 to |rows|
      invariant forall id :: id in ids <==> id !in listed && exists k :: 0 <= k < n && ParentOf(issues, rows[k], id)
    {
      var id := rows[n];
      var i := issues[id];
      if i.typ.Subtask? && i.parent.Some? {
        var parent := i.parent.value;
        assert ParentOf(issues, rows[n], parent);
        if parent !in listed { ids := ids + {parent}; }
      }
    }
    parents := SortIds(ids);
  }

  method SortIds(ids: set<int>) returns (l: seq<int>)
    ensures (forall id :: id in l <==> id in ids) && forall i, j | 0 <= i < j < |l| :: l[i] < l[j]
  {
    l := [];
    var rest := ids;
    while rest != {}
      invariant rest <= ids && (forall id | id in ids :: id in l <==> id !in rest) && forall id | id in l :: id in ids
      invariant forall i, j | 0 <= i < j < |l| :: l[i] < l[j]
      invariant forall i, id | 0 <= i < |l| && id in rest :: l[i] < id
      decreases rest
    {
      LeastId(rest);
      var x :| x in rest && forall y | y in rest :: x <= y;
      l, rest := l + [x], rest - {x};
    }
  }

  lemma LeastId(rest: set<int>)
    requires rest != {}
    ensures exists x :: x in rest && forall y | y in rest :: x <= y
  {
    SomeMember(rest);
    var x :| x in rest;
    var before := (a: int, b: int) => a < b;
    var least := FirstOf(rest, x, before);
    assert least in rest;
    forall y | y in rest ensures least <= y { assert y == least || before(least, y); }
  }

  /**
   * Kanban lists every issue but epics and those resolved long ago, Scrum those of the active sprint.
   * A listed subtask's parent is in exactly one of the two lists; on a Scrum board no parent is missing.
   */
  method BoardOf(db: Db, project: int, now: int) returns (sprint: Option<int>, listed: seq<int>, parents: seq<int>)
    requires Inv(db) && project in db.projects
    ensures Ascending(listed, RanksOf(db.issues, project))
    ensures db.projects[project] == Kanban ==>
              sprint.None? &&
              forall id :: id in listed <==>
                id in db.issues && db.issues[id].project == project && db.issues[id].typ != Epic &&
                (IsDone(db, id) ==>
                   db.issues[id].resolvedAt.Some? && now - db.issues[id].resolvedAt.value <= 14 * 86_400_000_000)
    ensures db.projects[project] == Scrum ==> parents == []
    ensures db.projects[project] == Scrum ==>
              match sprint
              case None =>
                listed == [] &&
                forall s | s in db.sprints :: db.sprints[s].project == project ==> db.sprints[s].state != Active
              case Some(a) =>
                a in db.sprints && db.sprints[a].project == project && db.sprints[a].state == Active &&
                forall id :: id in listed <==>
                  id in db.issues && db.issues[id].sprint == Some(a) && db.issues[id].typ != Epic
    ensures forall n | 0 <= n < |listed| ::
              listed[n] in db.issues &&
              (db.issues[listed[n]].typ.Subtask? ==>
                 db.issues[listed[n]].parent.Some? &&
                 (db.issues[listed[n]].parent.value in listed <==> db.issues[listed[n]].parent.value !in parents))
    ensures forall id :: id in parents ==>
              id in db.issues && id !in listed && exists n :: 0 <= n < |listed| && ParentOf(db.issues, listed[n], id)
    ensures forall i, j | 0 <= i < j < |parents| :: parents[i] < parents[j]
  {
    sprint, listed, parents := None, [], [];
    var ids: set<int>;
    if db.projects[project].Kanban? {
      ids := KanbanIssues(db, project, now);
    } else {
      var active := ActiveSprints(db.sprints, project);
      if active == {} {
        forall s | s in db.sprints && db.sprints[s].project == project ensures db.sprints[s].state != Active {
          assert s !in active;
        }
        return;
      }
      SomeMember(active);
      var a :| a in active;
      OneIsActive(db, project, a);
      sprint := Some(a);
      ids := SprintIssues(db, a);
      SprintIssuesAreInProject(db, project, a);
    }
    SomeAreRanked(db, project, ids);
    listed := OrderByRank(db.issues, ids);
    RowsAscend(db, project, ids, listed);
    ParentsExist(db, ids);
    parents := UnlistedParents(db.issues, listed);
    if sprint.Some? {
      ScrumListsParents(db, sprint.value, listed);
      NobodyListed(parents);
    }
    forall n | 0 <= n < |listed| && db.issues[listed[n]].typ.Subtask?
      ensures db.issues[listed[n]].parent.Some? && ParentOf(db.issues, listed[n], db.issues[listed[n]].parent.value)
    {
      var id := listed[n];
      assert id in ids;
    }
  }

  lemma OneIsActive(db: Db, project: int, a: int)
    requires Inv(db) && a in ActiveSprints(db.sprints, project)
    ensures ActiveSprints(db.sprints, project) == {a}
  {
    forall b | b in ActiveSprints(db.sprints, project) ensures b == a {
      assert db.sprints[a].state.Active? && db.sprints[b].state.Active?;
    }
  }

  lemma HeadIsListed(l: seq<int>)
    ensures l == [] || exists id :: id in l
  {
    if l != [] {
      var first := l[0];
      assert first in l;
    }
  }

  lemma NobodyListed(l: seq<int>)
    requires forall id :: id !in l
    ensures l == []
  {
    HeadIsListed(l);
  }

  lemma SprintIssuesAreInProject(db: Db, project: int, sprint: int)
    requires Inv(db) && sprint in db.sprints && db.sprints[sprint].project == project
    ensures forall id | id in SprintIssues(db, sprint) :: db.issues[id].project == project
  {
    forall id | id in SprintIssues(db, sprint)
      ensures db.issues[id].project == project
    {
      assert IssueOk(db, db.issues[id]);
    }
  }

  lemma ParentsExist(db: Db, ids: set<int>)
    requires Inv(db) && ids <= db.issues.Keys
    ensures forall id | id in ids && db.issues[id].typ.Subtask? ::
              db.issues[id].parent.Some? && db.issues[id].parent.value in db.issues
  {
    forall id | id in ids && db.issues[id].typ.Subtask?
      ensures db.issues[id].parent.Some? && db.issues[id].parent.value in db.issues
    {
      assert IssueOk(db, db.issues[id]);
    }
  }

  /** A sprint's subtasks never outlive their parents' stay in it, so the sprint's board lists the parents. */
  lemma ScrumListsParents(db: Db, sprint: int, listed: seq<int>)
    requires Inv(db) && forall id :: id in listed <==> id in SprintIssues(db, sprint)
    ensures forall n, id | 0 <= n < |listed| && ParentOf(db.issues, listed[n], id) :: id in listed
  {
    forall n, id | 0 <= n < |listed| && ParentOf(db.issues, listed[n], id) ensures id in listed {
      var child := listed[n];
      assert child in SprintIssues(db, sprint);
      assert IssueOk(db, db.issues[child]);
      assert id in SprintIssues(db, sprint);
    }
  }

  /** In every reachable state a Scrum board lists the parents of its subtasks itself. */
  lemma ReachableScrumBoardsAreComplete(requests: seq<Request>, sprint: int, child: int, parent: int)
    requires ParentOf(Run(requests).issues, child, parent) && Run(requests).issues[child].sprint == Some(sprint)
    ensures parent in Run(requests).issues && Run(requests).issues[parent].sprint == Some(sprint) &&
            Run(requests).issues[parent].typ != Epic
  {
    RunKeeps(requests);
    var db := Run(requests);
    assert IssueOk(db, db.issues[child]);
  }

  /**
   * In every reachable state the Kanban query selects all issues but epics that are not done, and of the done ones
   * those that last entered done at most 14 days ago.
   */
  lemma KanbanShowsRecentlyDone(requests: seq<Request>, project: int, id: int, now: int)
    requires id in Run(requests).issues && Run(requests).issues[id].project == project
    ensures var entry := TrackerHistory.LastEntry(requests, id);
            id in KanbanIssues(Run(requests), project, now) <==>
            Run(requests).issues[id].typ != Epic &&
            (IsDone(Run(requests), id) ==> entry.Some? && now - entry.value <= 14 * 86_400_000_000)
  {
    RunKeeps(requests);
    var db := Run(requests);
    assert IssueOk(db, db.issues[id]);
    TrackerHistory.ResolvedAtIsLastEntry(requests, id);
  }
}
