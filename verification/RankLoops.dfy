/** The loops that compute rank keys on a byte buffer, proved against the functions in Rank. */
module RankLoops {
  import opened Wrappers
  import opened RankFractions
  import opened Rank

  method IsValid(key: string) returns (ok: bool)
    ensures ok == Valid(key)
  {
    if key == "" || key[|key| - 1] == '0' { return false; }
    for i := 0 to |key|
      invariant forall j | 0 <= j < i :: Digit(key[j]) >= 0
    {
      if Digit(key[i]) < 0 { return false; }
    }
    return true;
  }

  method CountRun(s: string, c: char) returns (n: nat)
    ensures n == LeadingRun(s, c)
  {
    n := 0;
    while n < |s| && s[n] == c
      invariant n <= |s| && forall i | 0 <= i < n :: s[i] == c
    {
      n := n + 1;
    }
    RunIsUnique(s, c, n, LeadingRun(s, c));
  }

  method FillWindow(s: string, from: nat, n: nat) returns (out: array<char>)
    ensures fresh(out) && out[..] == Window(s, from, n)
  {
    out := new char[n];
    for i := 0 to n
      invariant forall j | 0 <= j < i :: out[j] == CharAt(s, from + j)
    {
      out[i] := CharAt(s, from + i);
    }
  }

  /** w and d agree up to i, d is one more at i, and behind it d has '0' where w has 'z'. */
  ghost predicate Carried(w: string, d: string, i: nat) {
    |w| == |d| && i < |w| && Alnum(w) && Alnum(d) && w[..i] == d[..i] &&
    Digit(d[i]) == Digit(w[i]) + 1 && forall j | i < j < |w| :: w[j] == 'z' && d[j] == '0'
  }

  lemma {:induction false} CarryAddsOne(w: string, d: string, i: nat, n: nat)
    requires Carried(w, d, i) && i < n <= |w|
    ensures Frac(d, n) == Frac(w, n) + 1
  {
    if n == i + 1 {
      FracOfSameDigits(w, d, i) by {
        assert forall j: nat | j < i :: w[j] == w[..i][j] == d[..i][j] == d[j];
      }
    } else {
      CarryAddsOne(w, d, i, n - 1);
    }
  }

  lemma CarriedDigits(w: string, d: string, i: nat)
    requires Carried(w, d, i)
    ensures Frac(w, |w|) >= 0 && d == ToDigits(Frac(w, |w|) + 1, |w|)
  {
    CarryAddsOne(w, d, i, |w|);
    FracBounds(w, |w|);
    ToDigitsOfFrac(d);
  }

  lemma BorrowedDigits(w: string, d: string, i: nat)
    requires Carried(d, w, i)
    ensures Frac(w, |w|) >= 1 && d == ToDigits(Frac(w, |w|) - 1, |w|)
  {
    CarryAddsOne(d, w, i, |w|);
    FracBounds(d, |w|);
    ToDigitsOfFrac(d);
  }

  /** Adds one with carry, in place. */
  method Increment(d: array<char>)
    requires d.Length > 0 && Alnum(d[..]) && d[0] != 'z'
    modifies d
    ensures Frac(old(d[..]), d.Length) >= 0
    ensures d[..] == ToDigits(Frac(old(d[..]), d.Length) + 1, d.Length)
  {
    ghost var w := d[..];
    var i := d.Length - 1;
    while d[i] == 'z'
      invariant 0 <= i < d.Length && d[..i + 1] == w[..i + 1]
      invariant forall j | i < j < d.Length :: w[j] == 'z' && d[j] == '0'
      decreases i
    {
      assert d[0] == d[..i + 1][0] == w[..i + 1][0] == w[0];
      d[i] := '0';
      i := i - 1;
      assert d[..i + 1] == w[..i + 1];
    }
    d[i] := Symbol(Digit(d[i]) + 1);
    CarriedDigits(w, d[..], i);
  }

  /** Subtracts one with borrow, in place. */
  method Decrement(d: array<char>)
    requires d.Length > 0 && Alnum(d[..]) && d[0] != '0'
    modifies d
    ensures Frac(old(d[..]), d.Length) >= 1
    ensures d[..] == ToDigits(Frac(old(d[..]), d.Length) - 1, d.Length)
  {
    ghost var w := d[..];
    var i := d.Length - 1;
    while d[i] == '0'
      invariant 0 <= i < d.Length && d[..i + 1] == w[..i + 1]
      invariant forall j | i < j < d.Length :: w[j] == '0' && d[j] == 'z'
      decreases i
    {
      assert d[0] == d[..i + 1][0] == w[..i + 1][0] == w[0];
      d[i] := 'z';
      i := i - 1;
      assert d[..i + 1] == w[..i + 1];
    }
    d[i] := Symbol(Digit(d[i]) - 1);
    BorrowedDigits(w, d[..], i);
  }

  method After(a: string) returns (k: string)
    requires Valid(a)
    ensures k == AfterKey(a)
  {
    hide Frac, LeadingRun, ToDigits, TrimZeros;
    var c := CountRun(a, 'z');
    var d := FillWindow(a, c, c + 1);
    WindowIsFrac(a, c, c + 1);
    assert d[0] == CharAt(a, c);
    Increment(d);
    k := Repeat('z', c) + TrimZeros(d[..]);
  }

  method Before(b: string) returns (k: string)
    requires Valid(b)
    ensures k == BeforeKey(b)
  {
    hide Frac, LeadingRun, ToDigits, TrimZeros;
    var c := CountRun(b, '0');
    BeforeDigits(b, c);
    var d := FillWindow(b, c, c + 1);
    WindowIsFrac(b, c, c + 1);
    assert d[0] == CharAt(b, c);
    Decrement(d);
    ghost var v := ClassDigits(b, c) - 1;
    ToDigitsInverse(v, c + 1);
    FirstDigitSplits(d[..], c);
    assert CharAt(d[..], 0) == d[0];
    if d[0] == '0' {
      k := Repeat('0', c + 1) + Repeat('z', c + 2);
    } else {
      k := Repeat('0', c) + TrimZeros(d[..]);
    }
  }

  method SharedDigits(a: string, b: string) returns (n: nat)
    ensures n == CommonPrefix(a, b)
  {
    n := 0;
    while n < |b| && CharAt(a, n) == b[n]
      invariant n <= |b| && forall i | 0 <= i < n :: CharAt(a, i) == b[i]
    {
      n := n + 1;
    }
  }

  method Midpoint(a: string, b: string) returns (m: string)
    requires Below(a, b)
    ensures m == MidpointKey(a, b)
    decreases |a| + |b|
  {
    if b != "" {
      var n := SharedDigits(a, b);
      if n > 0 {
        PrefixStrips(a, b, n);
        m := Midpoint(Suffix(a, n), b[n..]);
        return b[..n] + m;
      }
    }
    var da, db := 0, 36;
    if a != "" { da := Digit(a[0]); }
    if b != "" { db := Digit(b[0]); }
    FirstDigitsDiffer(a, b);
    if db - da > 1 { return [Symbol((da + db) / 2)]; }
    if |b| > 1 { return b[..1]; }
    m := Midpoint(Suffix(a, 1), "");
    m := [Symbol(da)] + m;
  }

  method Between(prev: string, next: string) returns (r: Result<string, KeyError>)
    ensures r == BetweenKey(prev, next)
  {
    if prev != "" {
      var ok := IsValid(prev);
      if !ok { return Err(InvalidKey(prev)); }
    }
    if next != "" {
      var ok := IsValid(next);
      if !ok { return Err(InvalidKey(next)); }
    }
    if prev == "" && next == "" { return Ok(FIRST); }
    if next == "" {
      var k := After(prev);
      return Ok(k);
    }
    if prev == "" {
      var k := Before(next);
      return Ok(k);
    }
    LessIsTotal(prev, next);
    if prev == next || Less(next, prev) { return Err(OutOfOrder(prev, next)); }
    var k := Midpoint(prev, next);
    return Ok(k);
  }
}
