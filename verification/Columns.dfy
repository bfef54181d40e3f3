/** The board columns of a project: positions 0..n-1 of its statuses, as a plain list. */
module Columns {
  import opened Wrappers
  import opened Orders
  import opened RankedList

  type Positions = map<int, int>

  /** l[i] is the status at position i, and there are no others. */
  ghost predicate InColumns(l: seq<int>, pos: Positions) {
    (forall i | 0 <= i < |l| :: l[i] in pos && pos[l[i]] == i) &&
    forall s | s in pos :: 0 <= pos[s] < |l| && l[pos[s]] == s
  }

  /** ORDER BY position, id. */
  predicate Precedes(pos: Positions, s: int, t: int)
    requires s in pos && t in pos
  {
    pos[s] < pos[t] || (pos[s] == pos[t] && s < t)
  }

  predicate IsFirst(pos: Positions, s: int) {
    s in pos && forall t | t in pos :: t == s || Precedes(pos, s, t)
  }

  lemma SomeFirst(pos: Positions, s: int)
    requires s in pos
    ensures exists t :: t in pos && IsFirst(pos, t)
  {
    var t := FirstOf(pos.Keys, s, (a, b) => a in pos && b in pos && Precedes(pos, a, b));
    assert IsFirst(pos, t);
  }

  /** The first row of the project's statuses in column order. */
  function FirstColumn(pos: Positions): (r: Option<int>)
    ensures r.None? <==> forall s :: s !in pos
    ensures r.Some? ==> IsFirst(pos, r.value)
  {
    if s :| s in pos then
      SomeFirst(pos, s);
      var t :| t in pos && IsFirst(pos, t);
      Some(t)
    else None
  }

  // ---------------------------------------------------------------- the statements

  predicate IsLast(pos: Positions, s: int) {
    s in pos && forall t | t in pos :: t == s || Precedes(pos, t, s)
  }

  lemma SomeLast(pos: Positions, s: int)
    requires s in pos
    ensures exists t :: t in pos && IsLast(pos, t)
  {
    var t := FirstOf(pos.Keys, s, (a, b) => a in pos && b in pos && Precedes(pos, b, a));
    assert IsLast(pos, t);
  }

  /** COALESCE(MAX(position) + 1, 0). */
  function NextPosition(pos: Positions): (n: int)
    ensures ((forall s :: s !in pos) && n == 0) || exists t :: IsLast(pos, t) && n == pos[t] + 1
  {
    if s :| s in pos then
      SomeLast(pos, s);
      var t :| t in pos && IsLast(pos, t);
      pos[t] + 1
    else 0
  }

  /** row_number() OVER (ORDER BY position, id) - 1. */
  function RowNumber(pos: Positions, s: int): nat
    requires s in pos
  {
    |set t | t in pos && Precedes(pos, t, s)|
  }

  function Compact(pos: Positions): Positions {
    map s | s in pos :: RowNumber(pos, s)
  }

  /** Positions by the order of ids, which must list every status exactly once. */
  function Reordered(pos: Positions, ids: seq<int>): Positions
    requires forall s | s in pos :: s in ids
  {
    map s | s in pos :: IndexOf(ids, s)
  }

  /** Sorting both id lists and comparing them accepts exactly the permutations. */
  predicate ListsEveryStatus(pos: Positions, ids: seq<int>) {
    multiset(ids) == multiset(pos.Keys)
  }

  lemma EveryStatusIsListed(pos: Positions, ids: seq<int>)
    requires ListsEveryStatus(pos, ids)
    ensures forall s :: s in pos <==> s in ids
  {
    forall s ensures s in pos <==> s in ids {
      assert s in multiset(ids) <==> s in multiset(pos.Keys);
    }
  }

  // ---------------------------------------------------------------- refinement

  lemma FirstIsHead(l: seq<int>, pos: Positions)
    requires InColumns(l, pos) && l != []
    ensures FirstColumn(pos) == Some(l[0])
  {
    var head := l[0];
    assert head in pos;
    var t := FirstColumn(pos).value;
    assert pos[head] == 0 <= pos[t];
  }

  /** A new status goes to the right of every column. */
  lemma AppendColumn(l: seq<int>, pos: Positions, s: int)
    requires InColumns(l, pos) && s !in pos
    ensures InColumns(l + [s], pos[s := NextPosition(pos)])
  {
    if l != [] {
      var last := l[|l| - 1];
      assert last in pos;
      var t :| IsLast(pos, t) && NextPosition(pos) == pos[t] + 1;
      assert IsLast(pos, t);
      assert t in pos;
      assert l[pos[t]] == t;
      assert pos[last] <= pos[t];
    }
  }

  lemma {:induction false} DistinctSize(l: seq<int>)
    requires forall i, j | 0 <= i < j < |l| :: l[i] != l[j]
    ensures |set x | x in l| == |l|
  {
    if l != [] {
      var front, last := l[..|l| - 1], l[|l| - 1];
      DistinctSize(front);
      assert (set x | x in l) == (set x | x in front) + {last};
    }
  }

  ghost predicate Increasing(l: seq<int>, pos: Positions) {
    (forall i | 0 <= i < |l| :: l[i] in pos) &&
    forall i, j | 0 <= i < j < |l| :: pos[l[i]] < pos[l[j]]
  }

  /** Renumbering rows that are listed in order gives each its place in the list. */
  lemma CompactIsIndex(l: seq<int>, pos: Positions)
    requires Increasing(l, pos) && forall s | s in pos :: s in l
    ensures InColumns(l, Compact(pos))
  {
    forall i | 0 <= i < |l| ensures Compact(pos)[l[i]] == i {
      var before := set t | t in pos && Precedes(pos, t, l[i]);
      forall t ensures t in before <==> t in l[..i] {
        if t in pos {
          var j := IndexOf(l, t);
          assert t == l[j] && (j < i ==> l[..i][j] == t);
        }
      }
      assert before == set t | t in l[..i];
      DistinctSize(l[..i]);
    }
    forall s | s in pos ensures 0 <= Compact(pos)[s] < |l| && l[Compact(pos)[s]] == s {
      var i := IndexOf(l, s);
      assert Compact(pos)[l[i]] == i;
    }
  }

  /** Deleting a column and compacting removes it from the list. */
  lemma DeleteColumn(l: seq<int>, pos: Positions, s: int)
    requires InColumns(l, pos)
    ensures InColumns(Without(l, {s}), Compact(pos - {s}))
  {
    WithoutKeepsOrder(l, {s}, pos);
    forall t | t in pos - {s} ensures t in Without(l, {s}) {
      assert l[pos[t]] == t;
    }
    CompactIsIndex(Without(l, {s}), pos - {s});
  }

  lemma {:induction false} WithoutKeepsOrder(l: seq<int>, ids: set<int>, pos: Positions)
    requires Increasing(l, pos)
    ensures Increasing(Without(l, ids), pos - ids)
  {
    if l != [] {
      WithoutKeepsOrder(l[1..], ids, pos);
      var rest := Without(l[1..], ids);
      forall i | 0 <= i < |rest| ensures pos[l[0]] < pos[rest[i]] {
        var x := rest[i];
        assert x in rest;
        var j := IndexOf(l[1..], x);
        assert pos[l[0]] < pos[l[j + 1]];
      }
    }
  }

  lemma RepeatCounts(ids: seq<int>, i: int, j: int)
    requires 0 <= i < j < |ids|
    ensures ids[i] == ids[j] ==> multiset(ids)[ids[i]] >= 2
  {
    assert ids == ids[..j] + [ids[j]] + ids[j + 1..];
    assert ids[..j][i] in multiset(ids[..j]);
  }

  /** A permutation of the columns becomes the new column order. */
  lemma ReorderColumns(l: seq<int>, pos: Positions, ids: seq<int>)
    requires InColumns(l, pos) && ListsEveryStatus(pos, ids)
    ensures forall s | s in pos :: s in ids
    ensures InColumns(ids, Reordered(pos, ids))
  {
    EveryStatusIsListed(pos, ids);
    forall i, j | 0 <= i < j < |ids| ensures ids[i] != ids[j] {
      RepeatCounts(ids, i, j);
    }
    forall i | 0 <= i < |ids| ensures IndexOf(ids, ids[i]) == i {
      assert ids[IndexOf(ids, ids[i])] == ids[i];
    }
  }
}
