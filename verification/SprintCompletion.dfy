/** Completing a sprint conserves its issues and story points. */
module SprintCompletion {
  import opened Wrappers
  import opened IdSets
  import opened Tracker
  import opened TrackerInvariant
  import opened TrackerHistory

  // ---------------------------------------------------------------- statistics

  function PointsOf(i: Issue): real {
    if i.points.Some? then i.points.value else 0.0
  }

  /** sum(story_points) over some issues; rows without points do not count. */
  ghost function SumPoints(issues: Issues, ids: set<int>): real
    requires forall x | x in ids :: x in issues
  {
    if ids == {} then 0.0 else
      SomeMember(ids);
      var x :| x in ids;
      PointsOf(issues[x]) + SumPoints(issues, ids - {x})
  }

  ghost predicate SumsUp(issues: Issues, ids: set<int>, x: int)
    requires x in ids && forall y | y in ids :: y in issues
  {
    SumPoints(issues, ids) == PointsOf(issues[x]) + SumPoints(issues, ids - {x})
  }

  lemma {:induction false} SumWithout(issues: Issues, ids: set<int>, x: int)
    requires x in ids && forall y | y in ids :: y in issues
    ensures SumsUp(issues, ids, x)
    decreases ids
  {
    SomeMember(ids);
    var y :| y in ids && SumsUp(issues, ids, y);
    if x != y {
      SumWithout(issues, ids - {y}, x);
      SumWithout(issues, ids - {x}, y);
      var rest := ids - {x, y};
      assert SumsUp(issues, ids, y);
      assert ids - {y} - {x} == rest && ids - {x} - {y} == rest;
      assert SumPoints(issues, ids - {y}) == PointsOf(issues[x]) + SumPoints(issues, rest);
      assert SumPoints(issues, ids - {x}) == PointsOf(issues[y]) + SumPoints(issues, rest);
    }
  }

  lemma {:induction false} SumOfUnion(issues: Issues, a: set<int>, b: set<int>)
    requires a !! b && forall x | x in a + b :: x in issues
    ensures SumPoints(issues, a + b) == SumPoints(issues, a) + SumPoints(issues, b)
    decreases a
  {
    if a == {} {
      assert a + b == b;
    } else {
      SomeMember(a);
      var x :| x in a;
      SumWithout(issues, a + b, x);
      SumWithout(issues, a, x);
      SumOfUnion(issues, a - {x}, b);
      assert a + b - {x} == a - {x} + b;
    }
  }

  lemma {:induction false} SumOfSameRows(a: Issues, b: Issues, ids: set<int>)
    requires forall x | x in ids :: x in a && x in b && a[x].points == b[x].points
    ensures SumPoints(a, ids) == SumPoints(b, ids)
    decreases ids
  {
    if ids != {} {
      SomeMember(ids);
      var x :| x in ids;
      SumWithout(a, ids, x);
      SumWithout(b, ids, x);
      SumOfSameRows(a, b, ids - {x});
    }
  }

  /** The statistics a sprint is shown with, over its standard issues. */
  datatype Stats = Stats(issueCount: int, pointsTotal: real, pointsDone: real)

  ghost function StatsOf(db: Db, sprint: int): Stats {
    var all := SprintStandardIssues(db.issues, sprint);
    Stats(|all|, SumPoints(db.issues, all), SumPoints(db.issues, all - OpenIssues(db, sprint)))
  }

  // ---------------------------------------------------------------- completion

  /** The issues a completion moves: the open ones, and the subtasks of those. */
  ghost predicate Moves(db: Db, sprint: int, x: int)
    requires x in db.issues
  {
    x in OpenIssues(db, sprint) ||
    (db.issues[x].typ.Subtask? && db.issues[x].parent.Some? && db.issues[x].parent.value in OpenIssues(db, sprint))
  }

  /** Exactly the open issues and their subtasks move, all to the target; no other row changes at all. */
  lemma CompletionMovesOpenWork(db: Db, id: int, target: CompleteTarget)
    requires Inv(db) && CompleteSprint(db, id, target).Ok?
    ensures var c := CompleteSprint(db, id, target).value;
            (forall x :: x in c.db.issues <==> x in db.issues) &&
            forall x | x in db.issues ::
              c.db.issues[x] == if Moves(db, id, x) then db.issues[x].(sprint := c.target) else db.issues[x]
    ensures var c := CompleteSprint(db, id, target).value;
            c.target != Some(id) && (target.ToBacklog? <==> c.target == None)
  {
    CompletionTargetKeeps(db, db.sprints[id].project, target);
    CompletionRows(db, id, target);
  }

  /** The target gains exactly the open issues, and the completed sprint keeps exactly the done ones. */
  lemma CompletionSplitsSprint(db: Db, id: int, target: CompleteTarget)
    requires Inv(db) && CompleteSprint(db, id, target).Ok?
    ensures var c, open := CompleteSprint(db, id, target).value, OpenIssues(db, id);
            var all := SprintStandardIssues(db.issues, id);
            open <= all && SprintStandardIssues(c.db.issues, id) == all - open &&
            OpenIssues(c.db, id) == {} &&
            (c.target.Some? ==> SprintStandardIssues(c.db.issues, c.target.value) ==
                                SprintStandardIssues(db.issues, c.target.value) + open)
    ensures var c := CompleteSprint(db, id, target).value;
            forall s | s != id && c.target != Some(s) ::
              SprintStandardIssues(c.db.issues, s) == SprintStandardIssues(db.issues, s)
  {
    hide CompleteSprint, Resprint;
    var c, open := CompleteSprint(db, id, target).value, OpenIssues(db, id);
    CompletionMovesOpenWork(db, id, target);
    CompletionRows(db, id, target);
    forall x, s ensures x in SprintStandardIssues(c.db.issues, s) <==>
                        if x in open then c.target == Some(s) else x in SprintStandardIssues(db.issues, s)
    {
      StandardAfter(db, id, target, x, s);
    }
    forall s | s != id && c.target != Some(s)
      ensures SprintStandardIssues(c.db.issues, s) == SprintStandardIssues(db.issues, s)
    {
      forall x | x in open ensures x !in SprintStandardIssues(db.issues, s) {}
      assert forall x :: x in SprintStandardIssues(c.db.issues, s) <==> x in SprintStandardIssues(db.issues, s);
    }
    forall x | x in SprintStandardIssues(c.db.issues, id) ensures x !in OpenIssues(c.db, id) {
      assert x in SprintStandardIssues(db.issues, id) && x !in open;
    }
  }

  /** The project's type does not matter: an open issue of a Kanban project moves to a planned sprint too. */
  lemma CompletionIgnoresProjectType(db: Db, id: int, target: int, x: int)
    requires Inv(db) && id in db.sprints && db.sprints[id].state.Active? && x in OpenIssues(db, id)
    requires SprintIn(db, db.sprints[id].project, target) && db.sprints[target].state.Planned?
    ensures var c := CompleteSprint(db, id, ToSprint(Some(target)));
            c.Ok? && x in c.value.db.issues && c.value.db.issues[x].sprint == Some(target) != db.issues[x].sprint
  {
    assert SprintOk(db, db.sprints[id]);
    CompletionMovesOpenWork(db, id, ToSprint(Some(target)));
  }

  lemma StandardAfter(db: Db, id: int, target: CompleteTarget, x: int, s: int)
    requires Inv(db) && CompleteSprint(db, id, target).Ok?
    ensures var c := CompleteSprint(db, id, target).value;
            x in SprintStandardIssues(c.db.issues, s) <==>
            if x in OpenIssues(db, id) then c.target == Some(s) else x in SprintStandardIssues(db.issues, s)
  {
    CompletionMovesOpenWork(db, id, target);
    hide CompleteSprint;
  }

  /**
   * Issues and points are conserved: what leaves the sprint is what the target gains, the counts
   * returned are those of the two parts, and all the points left in the sprint are done points.
   */
  lemma CompletionConserves(db: Db, id: int, target: CompleteTarget)
    requires Inv(db) && CompleteSprint(db, id, target).Ok?
    ensures var c := CompleteSprint(db, id, target).value;
            var before, after := StatsOf(db, id), StatsOf(c.db, id);
            after.issueCount == c.completedCount && c.completedCount + c.movedCount == before.issueCount &&
            after.pointsTotal == after.pointsDone == before.pointsDone &&
            (c.target.Some? ==>
               var gained, had := StatsOf(c.db, c.target.value), StatsOf(db, c.target.value);
               gained.issueCount == had.issueCount + c.movedCount &&
               gained.pointsTotal + after.pointsTotal == had.pointsTotal + before.pointsTotal)
  {
    var c, open, all := CompleteSprint(db, id, target).value, OpenIssues(db, id), SprintStandardIssues(db.issues, id);
    CompletionMovesOpenWork(db, id, target);
    CompletionSplitsSprint(db, id, target);
    CompletionCounts(db, id, target);
    StandardExist(db, id);
    hide CompleteSprint, OpenIssues, SprintStandardIssues, Moves;
    SplitStats(db, c.db, all, open);
    if c.target.Some? {
      DifferentSprints(db, id, c.target.value);
      StandardExist(db, c.target.value);
      JoinedStats(db, c.db, SprintStandardIssues(db.issues, c.target.value), open);
    }
  }

  lemma CompletionCounts(db: Db, id: int, target: CompleteTarget)
    requires CompleteSprint(db, id, target).Ok?
    ensures var c := CompleteSprint(db, id, target).value;
            c.movedCount == |OpenIssues(db, id)| &&
            c.completedCount == |SprintStandardIssues(db.issues, id)| - c.movedCount
  {
    hide OpenIssues, SprintStandardIssues, Resprint;
  }

  lemma StandardExist(db: Db, sprint: int)
    ensures forall x | x in SprintStandardIssues(db.issues, sprint) :: x in db.issues
  {
  }

  lemma SplitStats(a: Db, b: Db, all: set<int>, open: set<int>)
    requires open <= all && forall x | x in all ::
               x in a.issues && x in b.issues && a.issues[x].points == b.issues[x].points
    ensures |all - open| == |all| - |open|
    ensures SumPoints(a.issues, all) == SumPoints(a.issues, all - open) + SumPoints(a.issues, open)
    ensures SumPoints(b.issues, all - open) == SumPoints(b.issues, all - open - {}) == SumPoints(a.issues, all - open)
  {
    assert all == (all - open) + open;
    SumOfUnion(a.issues, all - open, open);
    SumOfSameRows(a.issues, b.issues, all - open);
    assert all - open - {} == all - open;
  }

  lemma JoinedStats(a: Db, b: Db, had: set<int>, open: set<int>)
    requires had !! open
    requires forall x | x in had + open :: x in a.issues && x in b.issues && a.issues[x].points == b.issues[x].points
    ensures |had + open| == |had| + |open|
    ensures SumPoints(b.issues, had + open) == SumPoints(a.issues, had) + SumPoints(a.issues, open)
  {
    SumOfUnion(b.issues, had, open);
    SumOfSameRows(a.issues, b.issues, had);
    SumOfSameRows(a.issues, b.issues, open);
  }

  lemma DifferentSprints(db: Db, id: int, t: int)
    requires t != id
    ensures SprintStandardIssues(db.issues, t) !! OpenIssues(db, id)
  {
    forall x | x in OpenIssues(db, id) ensures x !in SprintStandardIssues(db.issues, t) {}
  }
}
