/** Rank keys are strings over 0-9a-z, read as base-36 fractions 0.d1d2d3... */
module RankFractions {
  // ---------------------------------------------------------------- characters

  function Digit(c: char): (d: int)
    ensures -1 <= d < 36
  {
    if '0' <= c <= '9' then c as int - '0' as int
    else if 'a' <= c <= 'z' then c as int - 'a' as int + 10
    else -1
  }

  function Symbol(d: int): (c: char)
    requires 0 <= d < 36
    ensures Digit(c) == d
  {
    if d < 10 then ('0' as int + d) as char else ('a' as int + d - 10) as char
  }

  predicate Alnum(s: string) {
    forall i | 0 <= i < |s| :: Digit(s[i]) >= 0
  }

  /** Empty, or not ending in '0'. */
  predicate Trimmed(s: string) {
    s == "" || s[|s| - 1] != '0'
  }

  predicate Valid(key: string) {
    key != "" && Trimmed(key) && Alnum(key)
  }

  function CharAt(s: string, i: nat): (c: char)
    ensures Alnum(s) ==> Digit(c) >= 0
  {
    if i < |s| then s[i] else '0'
  }

  function Suffix(s: string, i: nat): (t: string)
    ensures Alnum(s) ==> Alnum(t)
    ensures Trimmed(s) ==> Trimmed(t)
    ensures |t| == if i < |s| then |s| - i else 0
  {
    if i >= |s| then "" else s[i..]
  }

  function Repeat(c: char, n: nat): (s: string)
    ensures |s| == n
    ensures forall i | 0 <= i < n :: s[i] == c
  {
    seq(n, _ => c)
  }

  function Window(s: string, from: nat, n: nat): (w: string)
    ensures |w| == n
    ensures forall i | 0 <= i < n :: w[i] == CharAt(s, from + i)
    ensures Alnum(s) ==> Alnum(w)
    decreases n
  {
    if n == 0 then "" else [CharAt(s, from)] + Window(s, from + 1, n - 1)
  }

  /** s starts with exactly n characters c. */
  predicate IsRun(s: string, c: char, n: nat) {
    n <= |s| && (forall i | 0 <= i < n :: s[i] == c) && (n < |s| ==> s[n] != c)
  }

  function LeadingRun(s: string, c: char): (n: nat)
    ensures IsRun(s, c, n)
  {
    if s == "" || s[0] != c then 0 else 1 + LeadingRun(s[1..], c)
  }

  lemma RunIsUnique(s: string, c: char, m: nat, n: nat)
    requires IsRun(s, c, m) && IsRun(s, c, n)
    ensures m == n
  {
  }

  function TrimZeros(s: string): (t: string)
    ensures Trimmed(t)
    ensures |t| <= |s|
    ensures Alnum(s) ==> Alnum(t)
  {
    if s == "" || s[|s| - 1] != '0' then s else TrimZeros(s[..|s| - 1])
  }

  // ---------------------------------------------------------------- byte order

  predicate Less(a: string, b: string) {
    b != "" && (a == "" || a[0] < b[0] || (a[0] == b[0] && Less(a[1..], b[1..])))
  }

  lemma {:induction false} LessIsTransitive(a: string, b: string, c: string)
    requires Less(a, b) && Less(b, c)
    ensures Less(a, c)
  {
    if a != "" && a[0] == b[0] == c[0] {
      LessIsTransitive(a[1..], b[1..], c[1..]);
    }
  }

  lemma {:induction false} LessIsTotal(a: string, b: string)
    ensures !(Less(a, b) && Less(b, a))
    ensures Less(a, b) || Less(b, a) || a == b
    ensures a == b ==> !Less(a, b)
  {
    if a != "" && b != "" && a[0] == b[0] {
      LessIsTotal(a[1..], b[1..]);
      assert a == [a[0]] + a[1..] && b == [b[0]] + b[1..];
    }
  }

  lemma {:induction false} LessUnderPrefix(p: string, a: string, b: string)
    ensures Less(p + a, p + b) <==> Less(a, b)
  {
    if p == "" {
      assert p + a == a && p + b == b;
    } else {
      assert (p + a)[1..] == p[1..] + a && (p + b)[1..] == p[1..] + b;
      LessUnderPrefix(p[1..], a, b);
    }
  }

  // ---------------------------------------------------------------- fractions

  function Pow36(n: nat): (p: nat)
    ensures p >= 1
  {
    if n == 0 then 1 else 36 * Pow36(n - 1)
  }

  /** The first n digits of s, padded with zeros, as a numerator over 36^n. */
  function Frac(s: string, n: nat): int
    requires Alnum(s)
  {
    if n == 0 then 0 else 36 * Frac(s, n - 1) + Digit(CharAt(s, n - 1))
  }

  function ToDigits(v: int, n: nat): (s: string)
    requires 0 <= v
    ensures |s| == n && Alnum(s)
  {
    if n == 0 then "" else ToDigits(v / 36, n - 1) + [Symbol(v % 36)]
  }

  predicate SameDigits(a: string, b: string, n: nat) {
    forall i: nat | i < n :: CharAt(a, i) == CharAt(b, i)
  }

  lemma {:induction false} FracOfSameDigits(a: string, b: string, n: nat)
    requires Alnum(a) && Alnum(b) && SameDigits(a, b, n)
    ensures Frac(a, n) == Frac(b, n)
  {
    if n > 0 { FracOfSameDigits(a, b, n - 1); }
  }

  lemma {:induction false} FracDeterminesDigits(a: string, b: string, n: nat)
    requires Alnum(a) && Alnum(b) && Frac(a, n) == Frac(b, n)
    ensures SameDigits(a, b, n)
  {
    if n > 0 { FracDeterminesDigits(a, b, n - 1); }
  }

  lemma {:induction false} FracBounds(s: string, n: nat)
    requires Alnum(s)
    ensures 0 <= Frac(s, n) < Pow36(n)
  {
    if n > 0 { FracBounds(s, n - 1); }
  }

  lemma {:induction false} FracOfEmpty(n: nat)
    ensures Frac("", n) == 0
  {
    if n > 0 { FracOfEmpty(n - 1); }
  }

  // ---------------------------------------------------------------- byte order is numeric order

  /** a and b agree on i digits, and then a has the smaller one. */
  predicate SmallerAt(a: string, b: string, i: nat) {
    SameDigits(a, b, i) && Digit(CharAt(a, i)) < Digit(CharAt(b, i))
  }

  lemma SmallerInTails(a: string, b: string, i: nat)
    requires a != "" && b != "" && Alnum(a) && Alnum(b)
    ensures SmallerAt(a, b, i + 1) <==> a[0] == b[0] && SmallerAt(a[1..], b[1..], i)
  {
    assert forall j: nat :: CharAt(a, j + 1) == CharAt(a[1..], j) && CharAt(b, j + 1) == CharAt(b[1..], j);
    if a[0] == b[0] && SmallerAt(a[1..], b[1..], i) {
      forall j: nat | j < i + 1 ensures CharAt(a, j) == CharAt(b, j) {
        if j > 0 { assert CharAt(a[1..], j - 1) == CharAt(b[1..], j - 1); }
      }
    }
    if SmallerAt(a, b, i + 1) {
      assert CharAt(a, 0) == CharAt(b, 0);
      forall j: nat | j < i ensures CharAt(a[1..], j) == CharAt(b[1..], j) {
        assert CharAt(a, j + 1) == CharAt(b, j + 1);
      }
    }
  }

  lemma {:induction false} SmallerThenLess(a: string, b: string, i: nat)
    requires Alnum(a) && Alnum(b) && SmallerAt(a, b, i)
    ensures Less(a, b)
  {
    if a != "" && i > 0 {
      SmallerInTails(a, b, i - 1);
      SmallerThenLess(a[1..], b[1..], i - 1);
    }
  }

  lemma {:induction false} LessThenSmaller(a: string, b: string) returns (i: nat)
    requires Alnum(a) && Alnum(b) && Trimmed(b) && Less(a, b)
    ensures i < |b| && SmallerAt(a, b, i)
  {
    i := 0;
    if a == "" {
      i := FirstNonZero(b);
    } else if a[0] == b[0] {
      i := LessThenSmaller(a[1..], b[1..]);
      SmallerInTails(a, b, i);
      i := i + 1;
    }
  }

  lemma {:induction false} FirstNonZero(s: string) returns (i: nat)
    requires Valid(s)
    ensures i < |s| && SmallerAt("", s, i)
  {
    i := 0;
    if s[0] == '0' {
      i := FirstNonZero(s[1..]);
      SmallerInTails("0", s, i);
      assert forall j: nat :: CharAt("0", j) == CharAt("", j);
      assert SmallerAt("", s[1..], i) ==> SmallerAt("0"[1..], s[1..], i);
      i := i + 1;
    }
  }

  lemma {:induction false} SmallerThenFracLess(a: string, b: string, i: nat, n: nat)
    requires Alnum(a) && Alnum(b) && SmallerAt(a, b, i) && i < n
    ensures Frac(a, n) < Frac(b, n)
  {
    if i == n - 1 {
      FracOfSameDigits(a, b, i);
    } else {
      SmallerThenFracLess(a, b, i, n - 1);
    }
  }

  /** A smaller truncated fraction means an earlier byte string, whatever the tails are. */
  lemma {:induction false} FracLessThenLess(a: string, b: string, n: nat)
    requires Alnum(a) && Alnum(b) && Frac(a, n) < Frac(b, n)
    ensures Less(a, b)
  {
    if n > 0 {
      if Frac(a, n - 1) < Frac(b, n - 1) {
        FracLessThenLess(a, b, n - 1);
      } else {
        FracDeterminesDigits(a, b, n - 1);
        SmallerThenLess(a, b, n - 1);
      }
    }
  }

  lemma LessThenFracLess(a: string, b: string, n: nat)
    requires Alnum(a) && Alnum(b) && Trimmed(b) && |b| <= n && Less(a, b)
    ensures Frac(a, n) < Frac(b, n)
  {
    var i := LessThenSmaller(a, b);
    SmallerThenFracLess(a, b, i, n);
  }

  /** Byte order on keys is the numeric order of the fractions they denote. */
  lemma ByteOrderIsFractionOrder(a: string, b: string, n: nat)
    requires Valid(a) && Valid(b) && |a| <= n && |b| <= n
    ensures Less(a, b) <==> Frac(a, n) < Frac(b, n)
    ensures a == b <==> Frac(a, n) == Frac(b, n)
  {
    LessIsTotal(a, b);
    if Less(a, b) { LessThenFracLess(a, b, n); }
    if Less(b, a) { LessThenFracLess(b, a, n); }
  }

  // ---------------------------------------------------------------- digits

  lemma {:induction false} PowIsMonotone(m: nat, n: nat)
    requires m <= n
    ensures Pow36(m) <= Pow36(n)
  {
    if m < n { PowIsMonotone(m, n - 1); }
  }

  lemma FracOfSnoc(s: string, c: char)
    requires Alnum(s) && Digit(c) >= 0
    ensures Alnum(s + [c])
    ensures Frac(s + [c], |s| + 1) == 36 * Frac(s, |s|) + Digit(c)
  {
    FracOfSameDigits(s + [c], s, |s|);
  }

  lemma {:induction false} ToDigitsInverse(v: int, n: nat)
    requires 0 <= v < Pow36(n)
    ensures Frac(ToDigits(v, n), n) == v
  {
    if n > 0 {
      ToDigitsInverse(v / 36, n - 1);
      FracOfSnoc(ToDigits(v / 36, n - 1), Symbol(v % 36));
    }
  }

  lemma {:induction false} ToDigitsOfFrac(s: string)
    requires Alnum(s)
    ensures Frac(s, |s|) >= 0 && ToDigits(Frac(s, |s|), |s|) == s
  {
    FracBounds(s, |s|);
    if s != "" {
      var front, last := s[..|s| - 1], s[|s| - 1];
      assert s == front + [last];
      FracOfSnoc(front, last);
      ToDigitsOfFrac(front);
      DivMod36(Frac(front, |front|), Digit(last));
      assert Symbol(Digit(last)) == last;
    }
  }

  lemma DivMod36(q: int, d: int)
    requires 0 <= d < 36
    ensures (36 * q + d) / 36 == q && (36 * q + d) % 36 == d
  {
  }

  lemma {:induction false} TrimmingIsFree(s: string, n: nat)
    requires Alnum(s)
    ensures Frac(TrimZeros(s), n) == Frac(s, n)
  {
    if s != "" && s[|s| - 1] == '0' {
      var front := s[..|s| - 1];
      FracOfSameDigits(front, s, n);
      TrimmingIsFree(front, n);
    }
  }

  lemma WindowIsFrac(s: string, from: nat, n: nat)
    requires Alnum(s)
    ensures Frac(Window(s, from, n), n) == Frac(Suffix(s, from), n)
  {
    FracOfSameDigits(Window(s, from, n), Suffix(s, from), n);
  }

  /** The first digit of an n+1 digit window is zero, or 'z', exactly at the ends of its range. */
  lemma {:induction false} FirstDigitSplits(t: string, n: nat)
    requires Alnum(t)
    ensures CharAt(t, 0) == '0' <==> Frac(t, n + 1) < Pow36(n)
    ensures CharAt(t, 0) == 'z' <==> Frac(t, n + 1) >= 35 * Pow36(n)
  {
    FracBounds(t, n + 1);
    if n == 0 {
      assert Frac(t, 0) == 0;
    } else {
      FirstDigitSplits(t, n - 1);
    }
  }
}
