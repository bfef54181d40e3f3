/** The issue search: filters compiled to WHERE conditions with numbered arguments. */
module Search {
  import opened Wrappers
  import opened Like

  // ---------------------------------------------------------------- rows

  datatype Row = Row(
    id: int, project: int, key: string, typ: string, status: int, priority: string, assignee: Option<int>,
    reporter: Option<int>, parent: Option<int>, sprint: Option<int>, summary: string, description: string,
    resolved: bool)

  datatype SprintInfo = SprintInfo(project: int, active: bool)

  /** The other tables a condition looks at, and the database's folding of case. */
  datatype Tables = Tables(
    members: set<(int, int)>, categories: map<int, string>, sprints: map<int, SprintInfo>, labels: set<(int, int)>,
    fold: char -> char)

  // ---------------------------------------------------------------- conditions

  datatype Value = Number(n: int) | Text(s: string) | Numbers(ns: seq<int>) | Texts(ss: seq<string>)

  datatype NumberColumn = ProjectId | StatusId | AssigneeId | ReporterId | SprintId | ParentId

  datatype TextColumn = Key | Type | StatusCategory | Priority | Summary | Description

  /** A condition of a WHERE clause; arg is the number of a placeholder, counted from 1. */
  datatype Cond =
    | NumberIs(number: NumberColumn, arg: nat)
    | NumberAnyOf(number: NumberColumn, arg: nat)
    | NumberIsNull(number: NumberColumn)
    | TextIs(text: TextColumn, arg: nat)
    | TextAnyOf(text: TextColumn, arg: nat)
    | ILike(text: TextColumn, arg: nat)
    | ResolvedIsNull(isNull: bool)
    | InProjectOf(arg: nat)
    | Labelled(arg: nat)
    | InActiveSprint
    | Or(alternatives: seq<Cond>)

  /** SQL's three truth values. */
  datatype Truth = True | False | Unknown

  function Known(b: bool): Truth {
    if b then True else False
  }

  function NumberOf(row: Row, c: NumberColumn): Option<int> {
    match c
    case ProjectId => Some(row.project)
    case StatusId => Some(row.status)
    case AssigneeId => row.assignee
    case ReporterId => row.reporter
    case SprintId => row.sprint
    case ParentId => row.parent
  }

  function TextOf(t: Tables, row: Row, c: TextColumn): Option<string> {
    match c
    case Key => Some(row.key)
    case Type => Some(row.typ)
    case StatusCategory => if row.status in t.categories then Some(t.categories[row.status]) else None
    case Priority => Some(row.priority)
    case Summary => Some(row.summary)
    case Description => Some(row.description)
  }

  function Arg(args: seq<Value>, n: nat): Option<Value> {
    if 1 <= n <= |args| then Some(args[n - 1]) else None
  }

  predicate HasLabel(t: Tables, row: Row, labels: seq<int>) {
    exists i | 0 <= i < |labels| :: (row.id, labels[i]) in t.labels
  }

  predicate ActiveIn(t: Tables, project: int, sprint: int) {
    sprint in t.sprints && t.sprints[sprint] == SprintInfo(project, true)
  }

  /** A condition's truth value for a row. Comparing a NULL is unknown, and so is OR unless a side is true. */
  function Eval(c: Cond, args: seq<Value>, t: Tables, row: Row): Truth
    decreases c
  {
    match c
    case NumberIs(col, n) =>
      var v, a := NumberOf(row, col), Arg(args, n);
      if v.None? || a.None? || !a.value.Number? then Unknown else Known(v.value == a.value.n)
    case NumberAnyOf(col, n) =>
      var v, a := NumberOf(row, col), Arg(args, n);
      if a.None? || !a.value.Numbers? then Unknown
      else if a.value.ns == [] then False
      else if v.None? then Unknown
      else Known(v.value in a.value.ns)
    case NumberIsNull(col) => Known(NumberOf(row, col).None?)
    case TextIs(col, n) =>
      var v, a := TextOf(t, row, col), Arg(args, n);
      if v.None? || a.None? || !a.value.Text? then Unknown else Known(v.value == a.value.s)
    case TextAnyOf(col, n) =>
      var v, a := TextOf(t, row, col), Arg(args, n);
      if v.None? || a.None? || !a.value.Texts? then Unknown else Known(v.value in a.value.ss)
    case ILike(col, n) =>
      var v, a := TextOf(t, row, col), Arg(args, n);
      if v.None? || a.None? || !a.value.Text? then Unknown else Known(Matches(v.value, a.value.s, t.fold))
    case ResolvedIsNull(isNull) => Known(isNull == !row.resolved)
    case InProjectOf(n) =>
      var a := Arg(args, n);
      if a.None? || !a.value.Number? then Unknown else Known((a.value.n, row.project) in t.members)
    case Labelled(n) =>
      var a := Arg(args, n);
      if a.None? || !a.value.Numbers? then False else Known(HasLabel(t, row, a.value.ns))
    case InActiveSprint =>
      if row.sprint.Some? then Known(ActiveIn(t, row.project, row.sprint.value))
      else if exists s | s in t.sprints :: ActiveIn(t, row.project, s) then Unknown
      else False
    case Or(alternatives) => EvalOr(alternatives, args, t, row)
  }

  function EvalOr(cs: seq<Cond>, args: seq<Value>, t: Tables, row: Row): Truth
    decreases cs
  {
    if cs == [] then False
    else
      var first, rest := Eval(cs[0], args, t, row), EvalOr(cs[1..], args, t, row);
      if first.True? || rest.True? then True else if first.Unknown? || rest.Unknown? then Unknown else False
  }

  /** Every placeholder of the condition has an argument. */
  predicate Bound(c: Cond, n: nat)
    decreases c
  {
    match c
    case NumberIs(_, arg) => 1 <= arg <= n
    case NumberAnyOf(_, arg) => 1 <= arg <= n
    case TextIs(_, arg) => 1 <= arg <= n
    case TextAnyOf(_, arg) => 1 <= arg <= n
    case ILike(_, arg) => 1 <= arg <= n
    case InProjectOf(arg) => 1 <= arg <= n
    case Labelled(arg) => 1 <= arg <= n
    case Or(alternatives) => AllBound(alternatives, n)
    case _ => true
  }

  predicate AllBound(cs: seq<Cond>, n: nat)
    decreases cs
  {
    cs == [] || (Bound(cs[0], n) && AllBound(cs[1..], n))
  }

  /** Later arguments do not change what earlier conditions mean. */
  lemma {:induction false} MoreArguments(c: Cond, args: seq<Value>, more: seq<Value>, t: Tables, row: Row)
    requires Bound(c, |args|)
    ensures Bound(c, |args + more|) && Eval(c, args + more, t, row) == Eval(c, args, t, row)
    decreases c
  {
    if c.Or? { MoreArgumentsOr(c.alternatives, args, more, t, row); }
  }

  lemma {:induction false} MoreArgumentsOr(cs: seq<Cond>, args: seq<Value>, more: seq<Value>, t: Tables, row: Row)
    requires AllBound(cs, |args|)
    ensures AllBound(cs, |args + more|) && EvalOr(cs, args + more, t, row) == EvalOr(cs, args, t, row)
    decreases cs
  {
    if cs != [] {
      MoreArguments(cs[0], args, more, t, row);
      MoreArgumentsOr(cs[1..], args, more, t, row);
    }
  }

  // ---------------------------------------------------------------- the builder

  datatype Built = Built(conds: seq<Cond>, args: seq<Value>)

  /** The joined conditions hold of the row: none is false and none is unknown. */
  predicate Selects(b: Built, t: Tables, row: Row) {
    forall i | 0 <= i < |b.conds| :: Eval(b.conds[i], b.args, t, row).True?
  }

  predicate WellFormed(b: Built) {
    forall i | 0 <= i < |b.conds| :: Bound(b.conds[i], |b.args|)
  }

  function Where(b: Built, c: Cond): Built {
    Built(b.conds + [c], b.args)
  }

  function WithArg(b: Built, v: Value): Built {
    Built(b.conds, b.args + [v])
  }

  function WhereAny(b: Built, cs: seq<Cond>): Built {
    if cs == [] then b else Where(b, Or(cs))
  }

  lemma WithArgSelectsSame(b: Built, v: Value, t: Tables, row: Row)
    requires WellFormed(b)
    ensures WellFormed(WithArg(b, v)) && (Selects(WithArg(b, v), t, row) <==> Selects(b, t, row))
    ensures Arg(WithArg(b, v).args, |b.args| + 1) == Some(v)
  {
    forall i | 0 <= i < |b.conds|
      ensures Bound(b.conds[i], |b.args + [v]|) &&
              Eval(b.conds[i], b.args + [v], t, row) == Eval(b.conds[i], b.args, t, row)
    {
      MoreArguments(b.conds[i], b.args, [v], t, row);
    }
  }

  lemma WhereSelects(b: Built, c: Cond, t: Tables, row: Row)
    requires WellFormed(b) && Bound(c, |b.args|)
    ensures WellFormed(Where(b, c)) &&
            (Selects(Where(b, c), t, row) <==> Selects(b, t, row) && Eval(c, b.args, t, row).True?)
  {
    hide Bound;
    var r := Where(b, c);
    forall i | 0 <= i < |b.conds| ensures r.conds[i] == b.conds[i] {}
    assert r.conds[|b.conds|] == c;
  }

  // ---------------------------------------------------------------- filters

  /** A parsed query. projectId is the project named in it, if any; upper is the text in upper case. */
  datatype Query = Query(
    projectId: Option<int>, text: string, upper: string, types: seq<string>, statuses: seq<int>,
    categories: seq<string>,
    priorities: seq<string>, labels: seq<int>, assignees: seq<int>, assigneeMe: bool, assigneeNone: bool,
    reporters: seq<int>, reporterMe: bool, sprints: seq<int>, sprintNone: bool, sprintActive: bool,
    parent: Option<int>, resolved: Option<bool>)

  function Plus(ids: seq<int>, me: bool, user: int): seq<int> {
    if me then ids + [user] else ids
  }

  function ByProject(b: Built, q: Query, user: int): Built {
    var n := |b.args| + 1;
    match q.projectId
    case Some(p) => Where(WithArg(b, Number(p)), NumberIs(ProjectId, n))
    case None => Where(WithArg(b, Number(user)), InProjectOf(n))
  }

  function ByText(b: Built, q: Query): Built {
    if q.text == "" then b
    else
      var n := |b.args| + 1;
      Where(WithArg(WithArg(b, Text(ContainsPattern(q.text))), Text(q.upper)),
            Or([TextIs(Key, n + 1), ILike(Summary, n), ILike(Description, n)]))
  }

  function ByTexts(b: Built, column: TextColumn, values: seq<string>): Built {
    if values == [] then b else Where(WithArg(b, Texts(values)), TextAnyOf(column, |b.args| + 1))
  }

  function ByNumbers(b: Built, column: NumberColumn, values: seq<int>): Built {
    if values == [] then b else Where(WithArg(b, Numbers(values)), NumberAnyOf(column, |b.args| + 1))
  }

  function ByLabels(b: Built, labels: seq<int>): Built {
    if labels == [] then b else Where(WithArg(b, Numbers(labels)), Labelled(|b.args| + 1))
  }

  /** The alternatives "one of ids", "none" and "active" that were asked for, joined by OR. */
  function ByAlternatives(b: Built, column: NumberColumn, ids: seq<int>, none: bool, active: bool): Built {
    var b' := if ids == [] then b else WithArg(b, Numbers(ids));
    WhereAny(b', Alternatives(column, ids, none, active, |b.args| + 1))
  }

  function Alternatives(column: NumberColumn, ids: seq<int>, none: bool, active: bool, n: nat): seq<Cond> {
    (if ids == [] then [] else [NumberAnyOf(column, n)]) + (if none then [NumberIsNull(column)] else []) +
    (if active then [InActiveSprint] else [])
  }

  function ByParent(b: Built, parent: Option<int>): Built {
    if parent.None? then b else Where(WithArg(b, Number(parent.value)), NumberIs(ParentId, |b.args| + 1))
  }

  function ByResolved(b: Built, resolved: Option<bool>): Built {
    if resolved.None? then b else Where(b, ResolvedIsNull(!resolved.value))
  }

  /** The whole WHERE clause, filter by filter. */
  function Build(q: Query, user: int): Built {
    var b1 := ByText(ByProject(Built([], []), q, user), q);
    var b2 := ByTexts(ByNumbers(ByTexts(b1, Type, q.types), StatusId, q.statuses), StatusCategory, q.categories);
    var b3 := ByLabels(ByTexts(b2, Priority, q.priorities), q.labels);
    var b4 := ByAlternatives(b3, AssigneeId, Plus(q.assignees, q.assigneeMe, user), q.assigneeNone, false);
    var b5 := ByNumbers(b4, ReporterId, Plus(q.reporters, q.reporterMe, user));
    var b6 := ByAlternatives(b5, SprintId, q.sprints, q.sprintNone, q.sprintActive);
    ByResolved(ByParent(b6, q.parent), q.resolved)
  }

  // ---------------------------------------------------------------- what a search should find

  predicate OneOf(v: Option<int>, ids: seq<int>) {
    v.Some? && v.value in ids
  }

  /** The issue is in an active sprint of its project. */
  predicate InItsActiveSprint(t: Tables, row: Row) {
    row.sprint.Some? && row.sprint.value in t.sprints && t.sprints[row.sprint.value].active &&
    t.sprints[row.sprint.value].project == row.project
  }

  predicate HasOneOf(t: Tables, row: Row, labels: seq<int>) {
    exists l :: l in labels && (row.id, l) in t.labels
  }

  predicate InSprint(t: Tables, row: Row, q: Query) {
    OneOf(row.sprint, q.sprints) || (q.sprintNone && row.sprint.None?) ||
    (q.sprintActive && InItsActiveSprint(t, row))
  }

  predicate AssignedTo(row: Row, q: Query, user: int) {
    OneOf(row.assignee, q.assignees) || (q.assigneeMe && row.assignee == Some(user)) ||
    (q.assigneeNone && row.assignee.None?)
  }

  /** The issue meets every filter of the query. */
  predicate Meets(q: Query, user: int, t: Tables, row: Row) {
    (if q.projectId.Some? then row.project == q.projectId.value else (user, row.project) in t.members) &&
    (q.text == "" || row.key == q.upper || Contains(row.summary, q.text, t.fold) ||
     Contains(row.description, q.text, t.fold)) &&
    (q.types == [] || row.typ in q.types) &&
    (q.statuses == [] || row.status in q.statuses) &&
    (q.categories == [] || (row.status in t.categories && t.categories[row.status] in q.categories)) &&
    (q.priorities == [] || row.priority in q.priorities) &&
    (q.labels == [] || HasOneOf(t, row, q.labels)) &&
    ((q.assignees == [] && !q.assigneeMe && !q.assigneeNone) || AssignedTo(row, q, user)) &&
    ((q.reporters == [] && !q.reporterMe) || OneOf(row.reporter, q.reporters) ||
     (q.reporterMe && row.reporter == Some(user))) &&
    ((q.sprints == [] && !q.sprintNone && !q.sprintActive) || InSprint(t, row, q)) &&
    (q.parent.None? || row.parent == q.parent) &&
    (q.resolved.None? || row.resolved == q.resolved.value)
  }

  // ---------------------------------------------------------------- each filter adds its condition

  /** r selects what b selects and the added filter lets through. */
  predicate Adds(b: Built, r: Built, t: Tables, row: Row, filter: bool) {
    WellFormed(r) && (Selects(r, t, row) <==> Selects(b, t, row) && filter)
  }

  lemma ByProjectSelects(b: Built, q: Query, user: int, t: Tables, row: Row)
    requires WellFormed(b)
    ensures Adds(b, ByProject(b, q, user), t, row,
                 if q.projectId.Some? then row.project == q.projectId.value else (user, row.project) in t.members)
  {
    hide Selects, WellFormed;
    var n, v := |b.args| + 1, Number(if q.projectId.Some? then q.projectId.value else user);
    WithArgSelectsSame(b, v, t, row);
    WhereSelects(WithArg(b, v), if q.projectId.Some? then NumberIs(ProjectId, n) else InProjectOf(n), t, row);
  }

  lemma ByTextSelects(b: Built, q: Query, t: Tables, row: Row)
    requires WellFormed(b)
    ensures Adds(b, ByText(b, q), t, row,
                 q.text == "" || row.key == q.upper || Contains(row.summary, q.text, t.fold) ||
                 Contains(row.description, q.text, t.fold))
  {
    hide Selects, WellFormed, ContainsPattern, Matches, Contains;
    if q.text != "" {
      var n, pattern := |b.args| + 1, Text(ContainsPattern(q.text));
      var b' := WithArg(WithArg(b, pattern), Text(q.upper));
      WithArgSelectsSame(b, pattern, t, row);
      WithArgSelectsSame(WithArg(b, pattern), Text(q.upper), t, row);
      assert Arg(b'.args, n) == Some(pattern);
      EscapedTextMatchesLiterally(q.text, row.summary, t.fold);
      EscapedTextMatchesLiterally(q.text, row.description, t.fold);
      var cs := [TextIs(Key, n + 1), ILike(Summary, n), ILike(Description, n)];
      ThreeWayOr(cs, b'.args, t, row);
      WhereSelects(b', Or(cs), t, row);
    }
  }

  lemma ThreeWayOr(cs: seq<Cond>, args: seq<Value>, t: Tables, row: Row)
    requires |cs| == 3
    ensures EvalOr(cs, args, t, row).True? <==>
            Eval(cs[0], args, t, row).True? || Eval(cs[1], args, t, row).True? || Eval(cs[2], args, t, row).True?
    ensures AllBound(cs, |args|) <==> Bound(cs[0], |args|) && Bound(cs[1], |args|) && Bound(cs[2], |args|)
  {
    hide Eval, Bound;
    assert cs == [cs[0]] + ([cs[1]] + [cs[2]]);
    EvalOfAppend([cs[0]], [cs[1]] + [cs[2]], args, t, row);
    EvalOfAppend([cs[1]], [cs[2]], args, t, row);
    AtMostOne([cs[0]], args, t, row);
    AtMostOne([cs[1]], args, t, row);
    AtMostOne([cs[2]], args, t, row);
  }

  lemma ByTextsSelects(b: Built, column: TextColumn, values: seq<string>, t: Tables, row: Row)
    requires WellFormed(b)
    ensures Adds(b, ByTexts(b, column, values), t, row,
                 values == [] || (TextOf(t, row, column).Some? && TextOf(t, row, column).value in values))
  {
    hide Selects, WellFormed;
    if values != [] {
      WithArgSelectsSame(b, Texts(values), t, row);
      WhereSelects(WithArg(b, Texts(values)), TextAnyOf(column, |b.args| + 1), t, row);
    }
  }

  lemma ByNumbersSelects(b: Built, column: NumberColumn, values: seq<int>, t: Tables, row: Row)
    requires WellFormed(b)
    ensures Adds(b, ByNumbers(b, column, values), t, row, values == [] || OneOf(NumberOf(row, column), values))
  {
    hide Selects, WellFormed;
    if values != [] {
      WithArgSelectsSame(b, Numbers(values), t, row);
      WhereSelects(WithArg(b, Numbers(values)), NumberAnyOf(column, |b.args| + 1), t, row);
    }
  }

  lemma SomeLabel(t: Tables, row: Row, labels: seq<int>)
    ensures HasLabel(t, row, labels) <==> HasOneOf(t, row, labels)
  {
    if HasOneOf(t, row, labels) {
      var l :| l in labels && (row.id, l) in t.labels;
      var i :| 0 <= i < |labels| && labels[i] == l;
    }
    if HasLabel(t, row, labels) {
      var i :| 0 <= i < |labels| && (row.id, labels[i]) in t.labels;
      var l := labels[i];
      assert l in labels && (row.id, l) in t.labels;
    }
  }

  lemma ByLabelsSelects(b: Built, labels: seq<int>, t: Tables, row: Row)
    requires WellFormed(b)
    ensures Adds(b, ByLabels(b, labels), t, row, labels == [] || HasOneOf(t, row, labels))
  {
    hide Selects, WellFormed;
    SomeLabel(t, row, labels);
    if labels != [] {
      WithArgSelectsSame(b, Numbers(labels), t, row);
      WhereSelects(WithArg(b, Numbers(labels)), Labelled(|b.args| + 1), t, row);
    }
  }

  lemma AlternativesAre(
    column: NumberColumn, ids: seq<int>, none: bool, active: bool, args: seq<Value>, n: nat, t: Tables, row: Row)
    requires ids != [] ==> n == |args| && Arg(args, n) == Some(Numbers(ids))
    ensures var cs := Alternatives(column, ids, none, active, n);
            AllBound(cs, |args|) && (cs == [] <==> ids == [] && !none && !active) &&
            (EvalOr(cs, args, t, row).True? <==>
               OneOf(NumberOf(row, column), ids) || (none && NumberOf(row, column).None?) ||
               (active && InItsActiveSprint(t, row)))
  {
    assert row.sprint.Some? ==> (ActiveIn(t, row.project, row.sprint.value) <==> InItsActiveSprint(t, row));
    hide ActiveIn, InItsActiveSprint;
    var a := if ids == [] then [] else [NumberAnyOf(column, n)];
    var b := if none then [NumberIsNull(column)] else [];
    var c := if active then [InActiveSprint] else [];
    EvalOfAppend(a + b, c, args, t, row);
    EvalOfAppend(a, b, args, t, row);
    AtMostOne(a, args, t, row);
    AtMostOne(b, args, t, row);
    AtMostOne(c, args, t, row);
  }

  lemma EvalOfAppend(cs: seq<Cond>, ds: seq<Cond>, args: seq<Value>, t: Tables, row: Row)
    ensures EvalOr(cs + ds, args, t, row).True? <==> EvalOr(cs, args, t, row).True? || EvalOr(ds, args, t, row).True?
    ensures AllBound(cs + ds, |args|) <==> AllBound(cs, |args|) && AllBound(ds, |args|)
    decreases cs
  {
    hide Eval, Bound;
    if cs == [] {
      assert cs + ds == ds;
    } else {
      assert (cs + ds)[1..] == cs[1..] + ds;
      EvalOfAppend(cs[1..], ds, args, t, row);
    }
  }

  lemma AtMostOne(cs: seq<Cond>, args: seq<Value>, t: Tables, row: Row)
    requires |cs| <= 1
    ensures EvalOr(cs, args, t, row).True? <==> cs != [] && Eval(cs[0], args, t, row).True?
    ensures AllBound(cs, |args|) <==> cs == [] || Bound(cs[0], |args|)
  {
    if cs != [] { assert cs[1..] == []; }
  }

  lemma ByAlternativesSelects(
    b: Built, column: NumberColumn, ids: seq<int>, none: bool, active: bool, t: Tables, row: Row)
    requires WellFormed(b)
    ensures Adds(b, ByAlternatives(b, column, ids, none, active), t, row,
                 (ids == [] && !none && !active) || OneOf(NumberOf(row, column), ids) ||
                 (none && NumberOf(row, column).None?) ||
                 (active && InItsActiveSprint(t, row)))
  {
    hide Selects, WellFormed, Alternatives, EvalOr, InItsActiveSprint;
    var n, b' := |b.args| + 1, if ids == [] then b else WithArg(b, Numbers(ids));
    WithArgSelectsSame(b, Numbers(ids), t, row);
    AlternativesAre(column, ids, none, active, b'.args, n, t, row);
    var cs := Alternatives(column, ids, none, active, n);
    if cs != [] { WhereSelects(b', Or(cs), t, row); }
  }

  lemma ByParentSelects(b: Built, parent: Option<int>, t: Tables, row: Row)
    requires WellFormed(b)
    ensures Adds(b, ByParent(b, parent), t, row, parent.None? || row.parent == parent)
  {
    hide Selects, WellFormed;
    if parent.Some? {
      WithArgSelectsSame(b, Number(parent.value), t, row);
      WhereSelects(WithArg(b, Number(parent.value)), NumberIs(ParentId, |b.args| + 1), t, row);
    }
  }

  lemma ByResolvedSelects(b: Built, resolved: Option<bool>, t: Tables, row: Row)
    requires WellFormed(b)
    ensures Adds(b, ByResolved(b, resolved), t, row, resolved.None? || row.resolved == resolved.value)
  {
    hide Selects, WellFormed;
    if resolved.Some? { WhereSelects(b, ResolvedIsNull(!resolved.value), t, row); }
  }

  /** The WHERE clause, evaluated with its numbered arguments, selects exactly the issues meeting every filter. */
  lemma SearchFindsExactly(q: Query, user: int, t: Tables, row: Row)
    ensures WellFormed(Build(q, user)) && (Selects(Build(q, user), t, row) <==> Meets(q, user, t, row))
  {
    hide Selects, WellFormed, ByProject, ByText, ByTexts, ByNumbers, ByLabels, ByAlternatives, ByParent, ByResolved;
    hide Contains, HasOneOf, InItsActiveSprint;
    var b := Built([], []);
    NothingIsSelected(b, t, row);
    ByProjectSelects(b, q, user, t, row);
    b := ByProject(b, q, user);
    ByTextSelects(b, q, t, row);
    b := ByText(b, q);
    ByTextsSelects(b, Type, q.types, t, row);
    b := ByTexts(b, Type, q.types);
    ByNumbersSelects(b, StatusId, q.statuses, t, row);
    b := ByNumbers(b, StatusId, q.statuses);
    ByTextsSelects(b, StatusCategory, q.categories, t, row);
    b := ByTexts(b, StatusCategory, q.categories);
    ByTextsSelects(b, Priority, q.priorities, t, row);
    b := ByTexts(b, Priority, q.priorities);
    ByLabelsSelects(b, q.labels, t, row);
    b := ByLabels(b, q.labels);
    ByAlternativesSelects(b, AssigneeId, Plus(q.assignees, q.assigneeMe, user), q.assigneeNone, false, t, row);
    b := ByAlternatives(b, AssigneeId, Plus(q.assignees, q.assigneeMe, user), q.assigneeNone, false);
    ByNumbersSelects(b, ReporterId, Plus(q.reporters, q.reporterMe, user), t, row);
    b := ByNumbers(b, ReporterId, Plus(q.reporters, q.reporterMe, user));
    ByAlternativesSelects(b, SprintId, q.sprints, q.sprintNone, q.sprintActive, t, row);
    b := ByAlternatives(b, SprintId, q.sprints, q.sprintNone, q.sprintActive);
    ByParentSelects(b, q.parent, t, row);
    b := ByParent(b, q.parent);
    ByResolvedSelects(b, q.resolved, t, row);
  }

  /** An empty list of conditions is TRUE. */
  lemma NothingIsSelected(b: Built, t: Tables, row: Row)
    requires b.conds == []
    ensures WellFormed(b) && Selects(b, t, row)
  {
  }
}
