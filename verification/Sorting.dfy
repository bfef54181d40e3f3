/** Comparing two id lists by sorting copies of both. */
module Sorting {
  predicate Sorted(l: seq<int>) {
    forall i, j | 0 <= i < j < |l| :: l[i] <= l[j]
  }

  method Insert(l: seq<int>, x: int) returns (r: seq<int>)
    requires Sorted(l)
    ensures Sorted(r) && multiset(r) == multiset(l) + multiset{x}
  {
    var i := 0;
    while i < |l| && l[i] <= x
      invariant 0 <= i <= |l| && forall j | 0 <= j < i :: l[j] <= x
    {
      i := i + 1;
    }
    r := l[..i] + [x] + l[i..];
    assert l == l[..i] + l[i..];
  }

  method Sort(l: seq<int>) returns (r: seq<int>)
    ensures Sorted(r) && multiset(r) == multiset(l)
  {
    r := [];
    for i := 0 to |l|
      invariant Sorted(r) && multiset(r) == multiset(l[..i])
    {
      assert l[..i + 1] == l[..i] + [l[i]];
      r := Insert(r, l[i]);
    }
    assert l[..|l|] == l;
  }

  /** A sorted list is determined by which elements it holds how often. */
  lemma {:induction false} SortedIsUnique(a: seq<int>, b: seq<int>)
    requires Sorted(a) && Sorted(b) && multiset(a) == multiset(b)
    ensures a == b
    decreases a
  {
    assert |a| == |multiset(a)| && |b| == |multiset(b)|;
    if a != [] {
      HeadIsLeast(a, b);
      HeadIsLeast(b, a);
      assert a == [a[0]] + a[1..] && b == [b[0]] + b[1..];
      assert multiset(a[1..]) == multiset(a) - multiset{a[0]};
      assert multiset(b[1..]) == multiset(b) - multiset{b[0]};
      SortedIsUnique(a[1..], b[1..]);
    }
  }

  lemma HeadIsLeast(a: seq<int>, b: seq<int>)
    requires Sorted(a) && a != [] && b != [] && multiset(a) == multiset(b)
    ensures a[0] <= b[0]
  {
    var x := b[0];
    assert x in multiset(b);
    var k :| 0 <= k < |a| && a[k] == x;
  }

  /** Equal after sorting means permutations of each other, and the other way round. */
  method SamePermutation(have: seq<int>, want: seq<int>) returns (same: bool)
    ensures same <==> multiset(have) == multiset(want)
  {
    var a := Sort(have);
    var b := Sort(want);
    if multiset(have) == multiset(want) { SortedIsUnique(a, b); }
    same := a == b;
  }
}
