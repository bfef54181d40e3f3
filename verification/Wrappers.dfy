/** Optional values and results, shared by every module. */
module Wrappers {
  datatype Option<+T> = None | Some(value: T)

  datatype Result<+T, +E> = Ok(value: T) | Err(error: E)

  /** A field of a PATCH body: left out, sent as null, or sent with a value. */
  datatype Patch<+T> = Absent | Null | Value(value: T) {
    function Ptr(): Option<T> {
      if Value? then Some(value) else None
    }
  }
}

/** Facts about finite sets of ids. */
module IdSets {
  lemma SomeMember(s: set<int>)
    ensures s != {} ==> exists x :: x in s
  {
    if forall x :: x !in s {
      assert s == {};
    }
  }

  lemma {:induction false} SubsetSize(a: set<int>, b: set<int>)
    requires a <= b
    ensures |a| <= |b| && (|a| == |b| ==> a == b)
  {
    assert b == a + (b - a);
  }
}

/** Least elements of finite sets. */
module Orders {
  /** before compares any two different members of s, and consistently. */
  ghost predicate Orders<T(!new)>(s: set<T>, before: (T, T) -> bool) {
    (forall a, b | a in s && b in s :: a == b || before(a, b) || before(b, a)) &&
    forall a, b, c | a in s && b in s && c in s :: before(a, b) && before(b, c) ==> before(a, c)
  }

  ghost predicate IsFirst<T(!new)>(x: T, s: set<T>, before: (T, T) -> bool) {
    x in s && forall y | y in s :: y == x || before(x, y)
  }

  lemma {:induction false} FirstOf<T(!new)>(s: set<T>, some: T, before: (T, T) -> bool) returns (x: T)
    requires some in s && Orders(s, before)
    ensures IsFirst(x, s, before)
    decreases s
  {
    x := some;
    if other :| other in s && other != some {
      var rest := FirstOf(s - {some}, other, before);
      if !before(some, rest) { x := rest; }
      forall y | y in s ensures y == x || before(x, y) {
        if y != some { assert y in s - {some}; }
      }
    }
  }
}
