/** The issues of one project, ordered by rank, behave like a plain list of issue ids. */
module RankedList {
  import opened Wrappers
  import opened IdSets
  import opened Orders
  import opened RankFractions
  import opened Rank

  type Ranks = map<int, string>

  datatype MoveError = MovedItself(field: string) | NoRoom(error: KeyError)

  /** Every rank is a valid key and no two issues share one. */
  ghost predicate Ranked(ranks: Ranks) {
    (forall id | id in ranks :: Valid(ranks[id])) &&
    (forall x, y | x in ranks && y in ranks && x != y :: ranks[x] != ranks[y])
  }

  ghost predicate Ascending(l: seq<int>, ranks: Ranks) {
    (forall i | 0 <= i < |l| :: l[i] in ranks) &&
    forall i, j | 0 <= i < j < |l| :: Less(ranks[l[i]], ranks[l[j]])
  }

  /** l lists exactly the ranked issues, each once, in rank order. */
  ghost predicate Lists(l: seq<int>, ranks: Ranks) {
    Ascending(l, ranks) && forall id | id in ranks :: id in l
  }

  // ---------------------------------------------------------------- aggregates

  predicate IsLeast(m: string, keys: set<string>) {
    m in keys && forall k | k in keys :: k == m || Less(m, k)
  }

  predicate IsGreatest(m: string, keys: set<string>) {
    m in keys && forall k | k in keys :: k == m || Less(k, m)
  }

  lemma LeastExists(keys: set<string>)
    requires keys != {}
    ensures exists m :: IsLeast(m, keys)
  {
    hide Less;
    forall a, b ensures a == b || Less(a, b) || Less(b, a) { LessIsTotal(a, b); }
    forall a, b, c | Less(a, b) && Less(b, c) ensures Less(a, c) { LessIsTransitive(a, b, c); }
    var x :| x in keys;
    var m := FirstOf(keys, x, (a, b) => Less(a, b));
    assert IsLeast(m, keys);
  }

  lemma GreatestExists(keys: set<string>)
    requires keys != {}
    ensures exists m :: IsGreatest(m, keys)
  {
    hide Less;
    forall a, b ensures a == b || Less(a, b) || Less(b, a) { LessIsTotal(a, b); }
    forall a, b, c | Less(a, b) && Less(b, c) ensures Less(a, c) { LessIsTransitive(a, b, c); }
    var x :| x in keys;
    var m := FirstOf(keys, x, (a, b) => Less(b, a));
    assert IsGreatest(m, keys);
  }

  lemma ExtremesAreUnique(keys: set<string>)
    ensures forall x, y | IsLeast(x, keys) && IsLeast(y, keys) :: x == y
    ensures forall x, y | IsGreatest(x, keys) && IsGreatest(y, keys) :: x == y
  {
    hide Less;
    forall x, y ensures !(Less(x, y) && Less(y, x)) { LessIsTotal(x, y); }
  }

  /** COALESCE(MIN(rank), ''). */
  function MinKey(keys: set<string>): (m: string)
    ensures if keys == {} then m == "" else IsLeast(m, keys)
  {
    if keys == {} then "" else
      LeastExists(keys);
      ExtremesAreUnique(keys);
      var m :| m in keys && IsLeast(m, keys);
      m
  }

  /** COALESCE(MAX(rank), ''). */
  function MaxKey(keys: set<string>): (m: string)
    ensures if keys == {} then m == "" else IsGreatest(m, keys)
  {
    if keys == {} then "" else
      GreatestExists(keys);
      ExtremesAreUnique(keys);
      var m :| m in keys && IsGreatest(m, keys);
      m
  }

  function MaxIssueRank(ranks: Ranks): string {
    MaxKey(set id | id in ranks :: ranks[id])
  }

  function RankAfter(ranks: Ranks, lo: string, exclude: int): string {
    MinKey(set id | id in ranks && id != exclude && Less(lo, ranks[id]) :: ranks[id])
  }

  function RankBefore(ranks: Ranks, hi: string, exclude: int): string {
    MaxKey(set id | id in ranks && id != exclude && Less(ranks[id], hi) :: ranks[id])
  }

  // ---------------------------------------------------------------- the new ranks

  function AppendRank(ranks: Ranks): Result<string, KeyError> {
    BetweenKey(MaxIssueRank(ranks), "")
  }

  /** A neighbour that is not an issue of this project counts as not given. */
  function Neighbour(ranks: Ranks, id: Option<int>): Option<int> {
    if id.Some? && id.value in ranks then id else None
  }

  function MoveRank(ranks: Ranks, id: int, prev: Option<int>, next: Option<int>): Result<string, MoveError>
    requires id in ranks
  {
    if prev == Some(id) then Err(MovedItself("prevIssueId"))
    else if next == Some(id) then Err(MovedItself("nextIssueId"))
    else
      match (Neighbour(ranks, prev), Neighbour(ranks, next))
      case (None, None) => Ok(ranks[id])
      case (Some(p), _) => Room(BetweenKey(ranks[p], RankAfter(ranks, ranks[p], id)))
      case (None, Some(n)) => Room(BetweenKey(RankBefore(ranks, ranks[n], id), ranks[n]))
  }

  function Room(r: Result<string, KeyError>): Result<string, MoveError> {
    match r case Ok(k) => Ok(k) case Err(e) => Err(NoRoom(e))
  }

  // ---------------------------------------------------------------- the plain list

  function Without(l: seq<int>, ids: set<int>): (r: seq<int>)
    ensures forall x :: x in r <==> x in l && x !in ids
  {
    if l == [] then [] else
      var rest := Without(l[1..], ids);
      if l[0] in ids then rest else [l[0]] + rest
  }

  function IndexOf(l: seq<int>, x: int): (i: nat)
    requires x in l
    ensures i < |l| && l[i] == x
  {
    if l[0] == x then 0 else 1 + IndexOf(l[1..], x)
  }

  function InsertAt(l: seq<int>, i: nat, x: int): seq<int>
    requires i <= |l|
  {
    l[..i] + [x] + l[i..]
  }

  /** Remove the issue, then put it right after prev, or right before next if only that exists. */
  function MoveInList(l: seq<int>, id: int, prev: Option<int>, next: Option<int>): seq<int> {
    var rest := Without(l, {id});
    if prev.Some? && prev.value in rest then InsertAt(rest, IndexOf(rest, prev.value) + 1, id)
    else if next.Some? && next.value in rest then InsertAt(rest, IndexOf(rest, next.value), id)
    else l
  }

  // ---------------------------------------------------------------- refinement

  /** A project has only one list: its ranks determine the order. */
  lemma {:induction false} ListIsUnique(l: seq<int>, m: seq<int>, ranks: Ranks)
    requires Lists(l, ranks) && Lists(m, ranks)
    ensures l == m
  {
    hide Less;
    if l == [] || m == [] {
      EmptyList(l, ranks);
      EmptyList(m, ranks);
    } else {
      var i, j := IndexOf(l, m[0]), IndexOf(m, l[0]);
      LessIsTotal(ranks[l[0]], ranks[m[0]]);
      assert i == 0 && j == 0;
      var rest := ranks - {l[0]};
      ListTail(l, ranks);
      ListTail(m, ranks);
      ListIsUnique(l[1..], m[1..], rest);
      assert l == [l[0]] + l[1..] && m == [m[0]] + m[1..];
    }
  }

  lemma EmptyList(l: seq<int>, ranks: Ranks)
    requires Lists(l, ranks)
    ensures l == [] <==> forall id :: id !in ranks
  {
    if l != [] {
      var first := l[0];
      assert first in ranks;
    }
  }

  lemma ListTail(l: seq<int>, ranks: Ranks)
    requires Lists(l, ranks) && l != []
    ensures Lists(l[1..], ranks - {l[0]})
  {
    hide Less;
    LessIsTotal(ranks[l[0]], ranks[l[0]]);
    forall id | id in ranks - {l[0]} ensures id in l[1..] {
      assert id in l;
    }
  }

  lemma ListedIsRanked(l: seq<int>, ranks: Ranks)
    requires Lists(l, ranks) && forall id | id in ranks :: Valid(ranks[id])
    ensures Ranked(ranks)
  {
    hide Less;
    forall x, y | x in ranks && y in ranks && x != y ensures ranks[x] != ranks[y] {
      LessIsTotal(ranks[x], ranks[y]);
      var i, j := IndexOf(l, x), IndexOf(l, y);
      assert i < j || j < i;
    }
  }

  lemma {:induction false} WithoutIsAscending(l: seq<int>, ids: set<int>, ranks: Ranks)
    requires Ascending(l, ranks)
    ensures Ascending(Without(l, ids), ranks - ids)
  {
    hide Less;
    if l != [] {
      WithoutIsAscending(l[1..], ids, ranks);
      var rest := Without(l[1..], ids);
      forall i | 0 <= i < |rest| ensures Less(ranks[l[0]], ranks[rest[i]]) {
        assert rest[i] in rest;
        var j :| 0 <= j < |l[1..]| && l[1..][j] == rest[i];
        assert Less(ranks[l[0]], ranks[l[j + 1]]);
      }
    }
  }

  lemma DeleteRefinesRemoval(l: seq<int>, ranks: Ranks, ids: set<int>)
    requires Lists(l, ranks)
    ensures Lists(Without(l, ids), ranks - ids)
  {
    WithoutIsAscending(l, ids, ranks);
  }

  /** A key between its two neighbours keeps the list in rank order. */
  lemma InsertKeepsOrder(l: seq<int>, ranks: Ranks, i: nat, id: int, key: string)
    requires Lists(l, ranks) && i <= |l| && id !in ranks
    requires i > 0 ==> Less(ranks[l[i - 1]], key)
    requires i < |l| ==> Less(key, ranks[l[i]])
    ensures Lists(InsertAt(l, i, id), ranks[id := key])
  {
    hide Less;
    forall j | 0 <= j < i ensures Less(ranks[l[j]], key) {
      if j < i - 1 { LessIsTransitive(ranks[l[j]], ranks[l[i - 1]], key); }
    }
    forall j | i <= j < |l| ensures Less(key, ranks[l[j]]) {
      if i < j { LessIsTransitive(key, ranks[l[i]], ranks[l[j]]); }
    }
    var m, after := InsertAt(l, i, id), ranks[id := key];
    forall a, b | 0 <= a < b < |m| ensures Less(after[m[a]], after[m[b]]) {
      var a', b' := if a < i then a else a - 1, if b < i then b else b - 1;
      if a != i && b != i { assert Less(ranks[l[a']], ranks[l[b']]); }
    }
    assert id == m[i];
    forall x | x in ranks ensures x in m {
      var j := IndexOf(l, x);
      assert x == if j < i then m[j] else m[j + 1];
    }
  }

  lemma CreateRefinesAppend(l: seq<int>, ranks: Ranks, id: int)
    requires Lists(l, ranks) && Ranked(ranks) && id !in ranks
    ensures AppendRank(ranks).Ok? && Valid(AppendRank(ranks).value)
    ensures Lists(l + [id], ranks[id := AppendRank(ranks).value])
  {
    hide Less;
    var top := MaxIssueRank(ranks);
    if l != [] {
      var last := l[|l| - 1];
      var keys := set x | x in ranks :: ranks[x];
      assert ranks[last] in keys;
      var x :| x in ranks && ranks[x] == top;
      var i := IndexOf(l, x);
      LessIsTotal(top, ranks[last]);
      assert top == ranks[last];
    } else {
      EmptyList(l, ranks);
      assert top == "";
    }
    InsertKeepsOrder(l, ranks, |l|, id, AppendRank(ranks).value);
    assert InsertAt(l, |l|, id) == l + [id];
  }

  /** In rank order, the smallest rank above an entry is the next entry's. */
  lemma RankAfterIsSuccessor(l: seq<int>, ranks: Ranks, id: int, rest: Ranks, i: nat)
    requires id in ranks && rest == ranks - {id} && Lists(l, rest) && i < |l|
    requires forall x | x in ranks :: Valid(ranks[x])
    ensures RankAfter(ranks, ranks[l[i]], id) == if i + 1 < |l| then ranks[l[i + 1]] else ""
  {
    hide Less;
    var keys := set x | x in ranks && x != id && Less(ranks[l[i]], ranks[x]) :: ranks[x];
    forall x | x in rest && Less(ranks[l[i]], ranks[x])
      ensures i + 1 < |l| && (x == l[i + 1] || Less(ranks[l[i + 1]], ranks[x]))
    {
      var j := IndexOf(l, x);
      LessIsTotal(ranks[l[i]], ranks[x]);
    }
    if i + 1 < |l| {
      var y := l[i + 1];
      assert y in rest && Less(rest[l[i]], rest[y]);
      assert ranks[y] in keys;
      LessIsTotal(MinKey(keys), ranks[l[i + 1]]);
    } else {
      assert keys == {};
    }
  }

  lemma RankBeforeIsPredecessor(l: seq<int>, ranks: Ranks, id: int, rest: Ranks, i: nat)
    requires id in ranks && rest == ranks - {id} && Lists(l, rest) && i < |l|
    requires forall x | x in ranks :: Valid(ranks[x])
    ensures RankBefore(ranks, ranks[l[i]], id) == if i > 0 then ranks[l[i - 1]] else ""
  {
    hide Less;
    var keys := set x | x in ranks && x != id && Less(ranks[x], ranks[l[i]]) :: ranks[x];
    forall x | x in rest && Less(ranks[x], ranks[l[i]])
      ensures i > 0 && (x == l[i - 1] || Less(ranks[x], ranks[l[i - 1]]))
    {
      var j := IndexOf(l, x);
      LessIsTotal(ranks[l[i]], ranks[x]);
    }
    if i > 0 {
      var y := l[i - 1];
      assert y in rest && Less(rest[y], rest[l[i]]);
      assert ranks[y] in keys;
      LessIsTotal(MaxKey(keys), ranks[l[i - 1]]);
    } else {
      assert keys == {};
    }
  }

  lemma MoveBelow(l: seq<int>, ranks: Ranks, id: int, p: int)
    requires Lists(l, ranks) && Ranked(ranks) && id in ranks && p in ranks && p != id
    ensures var r := BetweenKey(ranks[p], RankAfter(ranks, ranks[p], id));
            r.Ok? && Valid(r.value) && Lists(MoveInList(l, id, Some(p), None), ranks[id := r.value])
  {
    hide BetweenKey, IndexOf, Less, Without;
    var rest, others := Without(l, {id}), ranks - {id};
    DeleteRefinesRemoval(l, ranks, {id});
    var i := IndexOf(rest, p);
    RankAfterIsSuccessor(rest, ranks, id, others, i);
    hide Ascending, RankAfter;
    var key := BetweenKey(ranks[p], RankAfter(ranks, ranks[p], id)).value;
    InsertKeepsOrder(rest, others, i + 1, id, key);
    assert others[id := key] == ranks[id := key];
  }

  lemma MoveAbove(l: seq<int>, ranks: Ranks, id: int, n: int)
    requires Lists(l, ranks) && Ranked(ranks) && id in ranks && n in ranks && n != id
    ensures var r := BetweenKey(RankBefore(ranks, ranks[n], id), ranks[n]);
            r.Ok? && Valid(r.value) && Lists(MoveInList(l, id, None, Some(n)), ranks[id := r.value])
  {
    hide BetweenKey, IndexOf, Less, Without;
    var rest, others := Without(l, {id}), ranks - {id};
    DeleteRefinesRemoval(l, ranks, {id});
    var i := IndexOf(rest, n);
    RankBeforeIsPredecessor(rest, ranks, id, others, i);
    var key := BetweenKey(RankBefore(ranks, ranks[n], id), ranks[n]).value;
    InsertKeepsOrder(rest, others, i, id, key);
    assert others[id := key] == ranks[id := key];
  }

  /** A move fails only when an issue is its own neighbour; otherwise it moves it in the list. */
  lemma MoveRefinesListMove(l: seq<int>, ranks: Ranks, id: int, prev: Option<int>, next: Option<int>)
    requires Lists(l, ranks) && Ranked(ranks) && id in ranks
    ensures MoveRank(ranks, id, prev, next).Ok? <==> prev != Some(id) && next != Some(id)
    ensures MoveRank(ranks, id, prev, next).Ok? ==>
              var key := MoveRank(ranks, id, prev, next).value;
              Valid(key) && Lists(MoveInList(l, id, prev, next), ranks[id := key])
  {
    if prev != Some(id) && next != Some(id) {
      match (Neighbour(ranks, prev), Neighbour(ranks, next)) {
        case (None, None) =>
          assert ranks[id := ranks[id]] == ranks;
        case (Some(p), _) =>
          MoveBelow(l, ranks, id, p);
        case (None, Some(n)) =>
          MoveAbove(l, ranks, id, n);
      }
    }
  }

  /** Every set of distinct ranks is the ranks of some list. */
  lemma {:induction false} ListExists(ranks: Ranks, ids: set<int>) returns (l: seq<int>)
    requires Ranked(ranks) && ids == ranks.Keys
    ensures Lists(l, ranks)
    decreases ids
  {
    hide Less;
    if ids == {} {
      l := [];
    } else {
      SomeMember(ids);
      var keys := set x | x in ranks :: ranks[x];
      var x :| x in ids;
      assert ranks[x] in keys;
      var greatest := MaxKey(keys);
      assert IsGreatest(greatest, keys);
      var top :| top in ranks && ranks[top] == greatest;
      var rest := ranks - {top};
      var front := ListExists(rest, ids - {top});
      if front != [] {
        var last := front[|front| - 1];
        assert last in rest && ranks[last] in keys && last != top;
      }
      InsertKeepsOrder(front, rest, |front|, top, ranks[top]);
      assert rest[top := ranks[top]] == ranks;
      l := InsertAt(front, |front|, top);
    }
  }
}
