/** The text of a WHERE clause, word by word, and how SQL reads it: AND binds more tightly than OR. */
module SqlText {
  import opened Wrappers
  import opened Search

  // ---------------------------------------------------------------- printing

  /** A word of the text; the text of a single comparison counts as one. */
  datatype Word = Comparison(cond: Cond) | TrueWord | AndWord | OrWord | Open | Close

  function Printed(c: Cond): seq<Word>
    decreases c
  {
    if c.Or? then [Open] + Joined(c.alternatives, OrWord) + [Close] else [Comparison(c)]
  }

  function Joined(cs: seq<Cond>, word: Word): seq<Word>
    decreases cs
  {
    if cs == [] then []
    else if |cs| == 1 then Printed(cs[0])
    else Printed(cs[0]) + [word] + Joined(cs[1..], word)
  }

  function Clause(b: Built): seq<Word> {
    if b.conds == [] then [TrueWord] else Joined(b.conds, AndWord)
  }

  // ---------------------------------------------------------------- reading

  /** An expression as SQL reads it. How a chain of one operator is grouped makes no difference. */
  datatype Expr = Holds(cond: Cond) | Always | Both(left: Expr, right: Expr) | Either(left: Expr, right: Expr)

  datatype Read = Read(expr: Expr, rest: seq<Word>)

  predicate Starts(ws: seq<Word>, word: Word) {
    ws != [] && ws[0] == word
  }

  function ReadOr(ws: seq<Word>): (r: Option<Read>)
    ensures r.Some? ==> |r.value.rest| < |ws|
    decreases |ws|, 2
  {
    var first := ReadAnd(ws);
    if first.None? || !Starts(first.value.rest, OrWord) then first
    else
      match ReadOr(first.value.rest[1..])
      case None => None
      case Some(more) => Some(Read(Either(first.value.expr, more.expr), more.rest))
  }

  function ReadAnd(ws: seq<Word>): (r: Option<Read>)
    ensures r.Some? ==> |r.value.rest| < |ws|
    decreases |ws|, 1
  {
    var first := ReadOne(ws);
    if first.None? || !Starts(first.value.rest, AndWord) then first
    else
      match ReadAnd(first.value.rest[1..])
      case None => None
      case Some(more) => Some(Read(Both(first.value.expr, more.expr), more.rest))
  }

  function ReadOne(ws: seq<Word>): (r: Option<Read>)
    ensures r.Some? ==> |r.value.rest| < |ws|
    decreases |ws|, 0
  {
    if ws == [] then None
    else
      match ws[0]
      case Comparison(c) => Some(Read(Holds(c), ws[1..]))
      case TrueWord => Some(Read(Always, ws[1..]))
      case Open =>
        var inner := ReadOr(ws[1..]);
        if inner.None? || !Starts(inner.value.rest, Close) then None
        else Some(Read(inner.value.expr, inner.value.rest[1..]))
      case _ => None
  }

  function Truth(e: Expr, args: seq<Value>, t: Tables, row: Row): Search.Truth {
    match e
    case Holds(c) => Eval(c, args, t, row)
    case Always => True
    case Both(l, r) =>
      var a, b := Truth(l, args, t, row), Truth(r, args, t, row);
      if a.False? || b.False? then False else if a.Unknown? || b.Unknown? then Unknown else True
    case Either(l, r) =>
      var a, b := Truth(l, args, t, row), Truth(r, args, t, row);
      if a.True? || b.True? then True else if a.Unknown? || b.Unknown? then Unknown else False
  }

  // ---------------------------------------------------------------- printed text reads back

  /** No OR is without alternatives; "()" is no expression. */
  predicate Printable(c: Cond)
    decreases c
  {
    c.Or? ==> c.alternatives != [] && AllPrintable(c.alternatives)
  }

  predicate AllPrintable(cs: seq<Cond>)
    decreases cs
  {
    cs == [] || (Printable(cs[0]) && AllPrintable(cs[1..]))
  }

  function Meant(c: Cond): Expr
    requires Printable(c)
    decreases c
  {
    if c.Or? then AnyOf(c.alternatives) else Holds(c)
  }

  function AnyOf(cs: seq<Cond>): Expr
    requires cs != [] && AllPrintable(cs)
    decreases cs
  {
    if |cs| == 1 then Meant(cs[0]) else Either(Meant(cs[0]), AnyOf(cs[1..]))
  }

  function AllOf(cs: seq<Cond>): Expr
    requires cs != [] && AllPrintable(cs)
  {
    if |cs| == 1 then Meant(cs[0]) else Both(Meant(cs[0]), AllOf(cs[1..]))
  }

  lemma InParentheses(inner: seq<Word>, e: Expr, rest: seq<Word>)
    requires ReadOr(inner + ([Close] + rest)) == Some(Read(e, [Close] + rest))
    ensures ReadOne([Open] + inner + [Close] + rest) == Some(Read(e, rest))
  {
    hide ReadOr;
    var ws := [Open] + inner + [Close] + rest;
    assert ws[1..] == inner + ([Close] + rest);
    assert ([Close] + rest)[1..] == rest;
  }

  lemma {:induction false} ReadsBack(c: Cond, rest: seq<Word>)
    requires Printable(c)
    ensures ReadOne(Printed(c) + rest) == Some(Read(Meant(c), rest))
    decreases c
  {
    if c.Or? {
      hide ReadOr, ReadOne, Joined, AnyOf, AllPrintable;
      OrReadsBack(c.alternatives, [Close] + rest);
      InParentheses(Joined(c.alternatives, OrWord), AnyOf(c.alternatives), rest);
    } else {
      hide ReadOr;
      assert ([Comparison(c)] + rest)[1..] == rest;
    }
  }

  lemma {:induction false} OrReadsBack(cs: seq<Cond>, rest: seq<Word>)
    requires cs != [] && AllPrintable(cs) && !Starts(rest, AndWord) && !Starts(rest, OrWord)
    ensures ReadOr(Joined(cs, OrWord) + rest) == Some(Read(AnyOf(cs), rest))
    decreases cs
  {
    hide ReadOne, Printed, Meant;
    if |cs| == 1 {
      ReadsBack(cs[0], rest);
    } else {
      var more := [OrWord] + (Joined(cs[1..], OrWord) + rest);
      ReadsBack(cs[0], more);
      assert Joined(cs, OrWord) + rest == Printed(cs[0]) + more;
      assert more[1..] == Joined(cs[1..], OrWord) + rest;
      OrReadsBack(cs[1..], rest);
    }
  }

  lemma {:induction false} AndReadsBack(cs: seq<Cond>, rest: seq<Word>)
    requires cs != [] && AllPrintable(cs) && !Starts(rest, AndWord)
    ensures ReadAnd(Joined(cs, AndWord) + rest) == Some(Read(AllOf(cs), rest))
    decreases cs
  {
    hide ReadOne, Printed, Meant;
    if |cs| == 1 {
      ReadsBack(cs[0], rest);
    } else {
      var more := [AndWord] + (Joined(cs[1..], AndWord) + rest);
      ReadsBack(cs[0], more);
      assert Joined(cs, AndWord) + rest == Printed(cs[0]) + more;
      assert more[1..] == Joined(cs[1..], AndWord) + rest;
      AndReadsBack(cs[1..], rest);
    }
  }

  // ---------------------------------------------------------------- and means what was compiled

  lemma {:induction false} MeansTheSame(c: Cond, args: seq<Value>, t: Tables, row: Row)
    requires Printable(c)
    ensures Truth(Meant(c), args, t, row) == Eval(c, args, t, row)
    decreases c
  {
    if c.Or? { AnyMeansOr(c.alternatives, args, t, row); }
  }

  lemma {:induction false} AnyMeansOr(cs: seq<Cond>, args: seq<Value>, t: Tables, row: Row)
    requires cs != [] && AllPrintable(cs)
    ensures Truth(AnyOf(cs), args, t, row) == EvalOr(cs, args, t, row)
    decreases cs
  {
    hide Eval, Meant;
    MeansTheSame(cs[0], args, t, row);
    if |cs| == 1 {
      assert cs[1..] == [];
    } else {
      AnyMeansOr(cs[1..], args, t, row);
    }
  }

  lemma {:induction false} AllMeansEach(cs: seq<Cond>, args: seq<Value>, t: Tables, row: Row)
    requires cs != [] && AllPrintable(cs)
    ensures Truth(AllOf(cs), args, t, row).True? <==> forall i | 0 <= i < |cs| :: Eval(cs[i], args, t, row).True?
    decreases cs
  {
    hide Eval, Meant;
    MeansTheSame(cs[0], args, t, row);
    if |cs| > 1 {
      AllMeansEach(cs[1..], args, t, row);
      forall i | 1 <= i < |cs| ensures cs[i] == cs[1..][i - 1] {}
    }
  }

  /** The clause's text is one expression, and true of exactly the rows that the conditions select. */
  lemma ClauseSelects(b: Built, t: Tables, row: Row)
    requires AllPrintable(b.conds)
    ensures var r := ReadOr(Clause(b));
            r.Some? && r.value.rest == [] && (Truth(r.value.expr, b.args, t, row).True? <==> Selects(b, t, row))
  {
    if b.conds != [] {
      AndReadsBack(b.conds, []);
      AllMeansEach(b.conds, b.args, t, row);
      assert Clause(b) + [] == Clause(b);
    } else {
      assert ReadOne(Clause(b)) == Some(Read(Always, []));
    }
  }

  // ---------------------------------------------------------------- the search

  lemma {:induction false} AppendPrintable(cs: seq<Cond>, c: Cond)
    requires AllPrintable(cs) && Printable(c)
    ensures AllPrintable(cs + [c])
    decreases cs
  {
    if cs == [] {
      assert [c][1..] == [];
    } else {
      assert (cs + [c])[1..] == cs[1..] + [c];
      AppendPrintable(cs[1..], c);
    }
  }

  lemma {:induction false} ComparisonsPrint(cs: seq<Cond>)
    requires forall i | 0 <= i < |cs| :: !cs[i].Or?
    ensures AllPrintable(cs)
    decreases cs
  {
    if cs != [] { ComparisonsPrint(cs[1..]); }
  }

  /** A comparison, or an OR of some comparisons. */
  predicate Simple(c: Cond) {
    c.Or? ==> c.alternatives != [] && forall i | 0 <= i < |c.alternatives| :: !c.alternatives[i].Or?
  }

  /** A filter adds one such condition, or none. */
  ghost predicate AddsSimple(b: Built, r: Built) {
    r.conds == b.conds || exists c :: Simple(c) && r == Where(Built(b.conds, r.args), c)
  }

  lemma StaysPrintable(b: Built, r: Built)
    requires AllPrintable(b.conds) && AddsSimple(b, r)
    ensures AllPrintable(r.conds)
  {
    if r.conds != b.conds {
      var c :| Simple(c) && r == Where(Built(b.conds, r.args), c);
      if c.Or? { ComparisonsPrint(c.alternatives); }
      AppendPrintable(b.conds, c);
    }
  }

  lemma ComparisonIsSimple(c: Cond)
    requires !c.Or?
    ensures Simple(c)
  {
  }

  lemma FiltersPrint(b: Built, q: Query, user: int)
    requires AllPrintable(b.conds)
    ensures AllPrintable(ByProject(b, q, user).conds) && AllPrintable(ByText(b, q).conds)
    ensures AllPrintable(ByLabels(b, q.labels).conds) && AllPrintable(ByParent(b, q.parent).conds)
    ensures AllPrintable(ByResolved(b, q.resolved).conds)
  {
    hide AllPrintable;
    forall n, p ensures Simple(Or([TextIs(Key, n), ILike(Summary, p), ILike(Description, p)])) {}
    forall c: Cond | !c.Or? ensures Simple(c) { ComparisonIsSimple(c); }
    hide Simple;
    StaysPrintable(b, ByProject(b, q, user));
    StaysPrintable(b, ByText(b, q));
    StaysPrintable(b, ByLabels(b, q.labels));
    StaysPrintable(b, ByParent(b, q.parent));
    StaysPrintable(b, ByResolved(b, q.resolved));
  }

  lemma ListsPrint(b: Built, texts: TextColumn, ss: seq<string>, numbers: NumberColumn, ns: seq<int>)
    requires AllPrintable(b.conds)
    ensures AllPrintable(ByTexts(b, texts, ss).conds) && AllPrintable(ByNumbers(b, numbers, ns).conds)
  {
    hide AllPrintable, Simple;
    forall c: Cond | !c.Or? ensures Simple(c) { ComparisonIsSimple(c); }
    StaysPrintable(b, ByTexts(b, texts, ss));
    StaysPrintable(b, ByNumbers(b, numbers, ns));
  }

  lemma AlternativesPrint(b: Built, column: NumberColumn, ids: seq<int>, none: bool, active: bool)
    requires AllPrintable(b.conds)
    ensures AllPrintable(ByAlternatives(b, column, ids, none, active).conds)
  {
    hide AllPrintable;
    StaysPrintable(b, ByAlternatives(b, column, ids, none, active));
  }

  lemma BuildIsPrintable(q: Query, user: int)
    ensures AllPrintable(Build(q, user).conds)
  {
    var b := Built([], []);
    assert AllPrintable(b.conds);
    hide AllPrintable, ByProject, ByText, ByTexts, ByNumbers, ByLabels, ByAlternatives, ByParent, ByResolved;
    FiltersPrint(b, q, user);
    b := ByProject(b, q, user);
    FiltersPrint(b, q, user);
    b := ByText(b, q);
    ListsPrint(b, Type, q.types, StatusId, []);
    b := ByTexts(b, Type, q.types);
    ListsPrint(b, Type, [], StatusId, q.statuses);
    b := ByNumbers(b, StatusId, q.statuses);
    ListsPrint(b, StatusCategory, q.categories, StatusId, []);
    b := ByTexts(b, StatusCategory, q.categories);
    ListsPrint(b, Priority, q.priorities, StatusId, []);
    b := ByTexts(b, Priority, q.priorities);
    FiltersPrint(b, q, user);
    b := ByLabels(b, q.labels);
    AlternativesPrint(b, AssigneeId, Plus(q.assignees, q.assigneeMe, user), q.assigneeNone, false);
    b := ByAlternatives(b, AssigneeId, Plus(q.assignees, q.assigneeMe, user), q.assigneeNone, false);
    ListsPrint(b, Type, [], ReporterId, Plus(q.reporters, q.reporterMe, user));
    b := ByNumbers(b, ReporterId, Plus(q.reporters, q.reporterMe, user));
    AlternativesPrint(b, SprintId, q.sprints, q.sprintNone, q.sprintActive);
    b := ByAlternatives(b, SprintId, q.sprints, q.sprintNone, q.sprintActive);
    FiltersPrint(b, q, user);
    b := ByParent(b, q.parent);
    FiltersPrint(b, q, user);
  }

  /**
   * The text of the WHERE clause, read by SQL's rules and evaluated with its numbered arguments, holds of
   * exactly the issues that meet every filter.
   */
  lemma SearchTextFindsExactly(q: Query, user: int, t: Tables, row: Row)
    ensures var b := Build(q, user);
            var r := ReadOr(Clause(b));
            r.Some? && r.value.rest == [] &&
            (Truth(r.value.expr, b.args, t, row).True? <==> Meets(q, user, t, row))
  {
    hide Build, Clause, Meets, Selects, ReadOr;
    BuildIsPrintable(q, user);
    ClauseSelects(Build(q, user), t, row);
    SearchFindsExactly(q, user, t, row);
  }
}
