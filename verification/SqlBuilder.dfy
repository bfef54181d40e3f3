/** The builder that collects conditions and numbers their arguments, as SearchIssues fills it. */
module SqlBuilder {
  import opened Wrappers
  import opened Like
  import opened Search

  class Builder {
    var conds: seq<Cond>
    var args: seq<Value>

    function Snapshot(): Built
      reads this
    {
      Built(conds, args)
    }

    constructor ()
      ensures Snapshot() == Built([], [])
    {
      conds, args := [], [];
    }

    /** Registers an argument and returns its placeholder's number. */
    method AddArg(v: Value) returns (n: nat)
      modifies this`args
      ensures Snapshot() == WithArg(old(Snapshot()), v) && n == |args| && Arg(args, n) == Some(v)
    {
      args := args + [v];
      n := |args|;
    }

    method AddWhere(c: Cond)
      modifies this`conds
      ensures Snapshot() == Where(old(Snapshot()), c)
    {
      conds := conds + [c];
    }

    method AddWhereAny(alternatives: seq<Cond>)
      modifies this`conds
      ensures Snapshot() == WhereAny(old(Snapshot()), alternatives)
    {
      if |alternatives| > 0 {
        AddWhere(Or(alternatives));
      }
    }

    method AddProjectAndText(q: Query, user: int)
      modifies this
      ensures Snapshot() == ByText(ByProject(old(Snapshot()), q, user), q)
    {
      if q.projectId.Some? {
        var n := AddArg(Number(q.projectId.value));
        AddWhere(NumberIs(ProjectId, n));
      } else {
        var n := AddArg(Number(user));
        AddWhere(InProjectOf(n));
      }
      if q.text != "" {
        var pattern := "%" + Escape(q.text) + "%";
        var p := AddArg(Text(pattern));
        var k := AddArg(Text(q.upper));
        AddWhere(Or([TextIs(Key, k), ILike(Summary, p), ILike(Description, p)]));
      }
    }

    method AddTextList(column: TextColumn, values: seq<string>)
      modifies this
      ensures Snapshot() == ByTexts(old(Snapshot()), column, values)
    {
      if |values| > 0 {
        var n := AddArg(Texts(values));
        AddWhere(TextAnyOf(column, n));
      }
    }

    method AddNumberList(column: NumberColumn, values: seq<int>)
      modifies this
      ensures Snapshot() == ByNumbers(old(Snapshot()), column, values)
    {
      if |values| > 0 {
        var n := AddArg(Numbers(values));
        AddWhere(NumberAnyOf(column, n));
      }
    }

    method AddAlternatives(column: NumberColumn, ids: seq<int>, none: bool, active: bool)
      modifies this
      ensures Snapshot() == ByAlternatives(old(Snapshot()), column, ids, none, active)
    {
      ghost var first := |args| + 1;
      var alternatives: seq<Cond> := [];
      if |ids| > 0 {
        var n := AddArg(Numbers(ids));
        alternatives := alternatives + [NumberAnyOf(column, n)];
      }
      if none {
        alternatives := alternatives + [NumberIsNull(column)];
      }
      if active {
        alternatives := alternatives + [InActiveSprint];
      }
      assert alternatives == Alternatives(column, ids, none, active, first);
      AddWhereAny(alternatives);
    }

    method AddParentAndResolved(q: Query)
      modifies this
      ensures Snapshot() == ByResolved(ByParent(old(Snapshot()), q.parent), q.resolved)
    {
      if q.parent.Some? {
        var n := AddArg(Number(q.parent.value));
        AddWhere(NumberIs(ParentId, n));
      }
      if q.resolved.Some? {
        if q.resolved.value {
          AddWhere(ResolvedIsNull(false));
        } else {
          AddWhere(ResolvedIsNull(true));
        }
      }
    }

    /** Every filter in turn: the conditions select exactly the rows that meet them all. */
    method AddFilters(q: Query, user: int)
      requires Snapshot() == Built([], [])
      modifies this
      ensures Snapshot() == Build(q, user)
      ensures forall t, row :: Selects(Snapshot(), t, row) <==> Meets(q, user, t, row)
    {
      hide ByText, ByProject, ByTexts, ByNumbers, ByLabels, ByAlternatives, ByParent, ByResolved, Selects, Meets;
      AddProjectAndText(q, user);
      AddTextList(Type, q.types);
      AddNumberList(StatusId, q.statuses);
      AddTextList(StatusCategory, q.categories);
      AddTextList(Priority, q.priorities);
      AddLabels(q.labels);
      var assignees := q.assignees;
      if q.assigneeMe { assignees := assignees + [user]; }
      AddAlternatives(AssigneeId, assignees, q.assigneeNone, false);
      var reporters := q.reporters;
      if q.reporterMe { reporters := reporters + [user]; }
      AddNumberList(ReporterId, reporters);
      AddAlternatives(SprintId, q.sprints, q.sprintNone, q.sprintActive);
      AddParentAndResolved(q);
      forall t, row ensures Selects(Snapshot(), t, row) <==> Meets(q, user, t, row) {
        SearchFindsExactly(q, user, t, row);
      }
    }

    method AddLabels(labels: seq<int>)
      modifies this
      ensures Snapshot() == ByLabels(old(Snapshot()), labels)
    {
      if |labels| > 0 {
        var n := AddArg(Numbers(labels));
        AddWhere(Labelled(n));
      }
    }
  }
}
