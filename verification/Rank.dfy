/** Fractional indexing: a key strictly between any two keys, with short keys at either end. */
module Rank {
  import opened Wrappers
  import opened RankFractions

  const FIRST := "i"

  datatype KeyError = InvalidKey(key: string) | OutOfOrder(prev: string, next: string)

  // ---------------------------------------------------------------- the keys, as functions

  /** The c+1 digits after a run of c digits, as a number. */
  function ClassDigits(a: string, c: nat): (d: int)
    requires Alnum(a)
    ensures 0 <= d < Pow36(c + 1)
  {
    FracBounds(Suffix(a, c), c + 1);
    Frac(Suffix(a, c), c + 1)
  }

  /** A run of c digits lead, then the c+1 digits of d without trailing zeros. */
  function ClassKey(lead: char, c: nat, d: nat): string {
    Repeat(lead, c) + TrimZeros(ToDigits(d, c + 1))
  }

  /** The largest key of class c for inserts in front. */
  function TopKey(c: nat): string {
    Repeat('0', c) + Repeat('z', c + 1)
  }

  function AfterKey(a: string): string
    requires Valid(a)
  {
    var c := LeadingRun(a, 'z');
    ClassKey('z', c, ClassDigits(a, c) + 1)
  }

  function BeforeKey(b: string): string
    requires Valid(b)
  {
    var c := LeadingRun(b, '0');
    BeforeDigits(b, c);
    var d := ClassDigits(b, c) - 1;
    if d < Pow36(c) then TopKey(c + 1) else ClassKey('0', c, d)
  }

  /** How many digits of b a shares, when a is padded with zeros. */
  function CommonPrefix(a: string, b: string): (n: nat)
    ensures n <= |b|
    ensures forall i | 0 <= i < n :: CharAt(a, i) == b[i]
    ensures n < |b| ==> CharAt(a, n) != b[n]
    decreases |b|
  {
    if b == "" || CharAt(a, 0) != b[0] then 0 else
      var n := CommonPrefix(Suffix(a, 1), b[1..]);
      assert forall i | 1 <= i <= n :: CharAt(a, i) == CharAt(Suffix(a, 1), i - 1) == b[i];
      assert CharAt(a, n + 1) == CharAt(Suffix(a, 1), n);
      n + 1
  }

  predicate Below(a: string, b: string) {
    Alnum(a) && Alnum(b) && Trimmed(a) && Trimmed(b) && (b == "" || Less(a, b))
  }

  function MidpointKey(a: string, b: string): (m: string)
    requires Below(a, b)
    ensures Valid(m) && Less(a, m) && (b != "" ==> Less(m, b))
    ensures |m| <= 1 + if |a| < |b| then |b| else |a|
    decreases |a| + |b|
  {
    var n := CommonPrefix(a, b);
    if n > 0 then
      PrefixStrips(a, b, n);
      var m := MidpointKey(Suffix(a, n), b[n..]);
      PrefixRestores(a, b, n, m);
      b[..n] + m
    else
      var da := if a == "" then 0 else Digit(a[0]);
      var db := if b == "" then 36 else Digit(b[0]);
      FirstDigitsDiffer(a, b);
      if db - da > 1 then [Symbol((da + db) / 2)]
      else if |b| > 1 then b[..1]
      else
        var m := MidpointKey(Suffix(a, 1), "");
        TailLifts(a, da, m);
        [Symbol(da)] + m
  }

  predicate Bound(key: string) {
    key == "" || Valid(key)
  }

  /** Answers exactly on bounds that leave room, and the key lies strictly inside them. */
  function BetweenKey(prev: string, next: string): (r: Result<string, KeyError>)
    ensures r.Ok? <==> Bound(prev) && Bound(next) && (prev != "" && next != "" ==> Less(prev, next))
    ensures r.Ok? ==> Valid(r.value) && Less(prev, r.value) && (next != "" ==> Less(r.value, next))
  {
    if prev != "" && !Valid(prev) then Err(InvalidKey(prev))
    else if next != "" && !Valid(next) then Err(InvalidKey(next))
    else if prev == "" && next == "" then Ok(FIRST)
    else if next == "" then
      AfterIsLater(prev);
      Ok(AfterKey(prev))
    else if prev == "" then
      BeforeIsEarlier(next);
      Ok(BeforeKey(next))
    else
      LessIsTotal(prev, next);
      if prev == next || Less(next, prev) then Err(OutOfOrder(prev, next))
      else Ok(MidpointKey(prev, next))
  }

  // ---------------------------------------------------------------- lemmas for midpoint

  lemma {:induction false} PrefixStrips(a: string, b: string, n: nat)
    requires Below(a, b) && 0 < n <= |b|
    requires forall i | 0 <= i < n :: CharAt(a, i) == b[i]
    ensures n < |b| && Below(Suffix(a, n), b[n..])
  {
    if n == |b| {
      assert CharAt(a, n - 1) == b[n - 1] != '0';
      assert b == a[..n];
      var t := a[n..];
      assert a == b + t && b == b + "";
      LessUnderPrefix(b, t, "");
    } else if n < |a| {
      assert a == b[..n] + a[n..] && b == b[..n] + b[n..];
      LessUnderPrefix(b[..n], a[n..], b[n..]);
    }
  }

  lemma PrefixRestores(a: string, b: string, n: nat, m: string)
    requires Below(a, b) && n < |b|
    requires forall i | 0 <= i < n :: CharAt(a, i) == b[i]
    requires Valid(m) && Less(Suffix(a, n), m) && Less(m, b[n..])
    ensures Valid(b[..n] + m) && Less(a, b[..n] + m) && Less(b[..n] + m, b)
  {
    var p := b[..n];
    assert b == p + b[n..];
    LessUnderPrefix(p, m, b[n..]);
    PrefixThenValid(p, m);
    if n < |a| {
      assert a == p + a[n..];
      LessUnderPrefix(p, a[n..], m);
    } else {
      LongerIsLater(a, p + m);
    }
  }

  lemma PrefixThenValid(p: string, t: string)
    requires Alnum(p) && Valid(t)
    ensures Valid(p + t)
  {
    var k := p + t;
    assert k[|k| - 1] == t[|t| - 1];
  }

  lemma LongerIsLater(a: string, b: string)
    requires |a| < |b| && forall i | 0 <= i < |a| :: a[i] == b[i]
    ensures Less(a, b)
  {
    var t := b[|a|..];
    assert a == a + "" && b == a + t;
    LessUnderPrefix(a, "", t);
  }

  lemma FirstDigitsDiffer(a: string, b: string)
    requires Below(a, b) && (b == "" || CharAt(a, 0) != b[0])
    ensures b != "" ==> Digit(CharAt(a, 0)) < Digit(b[0])
  {
  }

  lemma TailLifts(a: string, da: int, m: string)
    requires Alnum(a) && Trimmed(a) && da == (if a == "" then 0 else Digit(a[0]))
    requires Valid(m) && Less(Suffix(a, 1), m)
    ensures Valid([Symbol(da)] + m) && Less(a, [Symbol(da)] + m)
  {
    if a != "" {
      assert Symbol(da) == a[0];
      assert ([Symbol(da)] + m)[1..] == m;
    }
  }

  // ---------------------------------------------------------------- lemmas for the two ends

  lemma ClassTail(d: int, n: nat) returns (t: string)
    requires 0 < d < Pow36(n)
    ensures t == TrimZeros(ToDigits(d, n)) && Valid(t) && |t| <= n && Frac(t, n) == d
  {
    t := TrimZeros(ToDigits(d, n));
    ToDigitsInverse(d, n);
    TrimmingIsFree(ToDigits(d, n), n);
    FracOfEmpty(n);
  }

  lemma RepeatThenValid(lead: char, c: nat, t: string)
    requires Digit(lead) >= 0 && Valid(t)
    ensures Valid(Repeat(lead, c) + t) && Suffix(Repeat(lead, c) + t, c) == t
  {
    PrefixThenValid(Repeat(lead, c), t);
  }

  /** A class key is valid, and its class and digits can be read back from it. */
  lemma ClassKeyReadsBack(lead: char, c: nat, d: nat)
    requires Digit(lead) >= 0 && 0 < d < Pow36(c + 1)
    ensures var k := ClassKey(lead, c, d);
            Valid(k) && ClassDigits(k, c) == d && c <= |k| <= 2 * c + 1 &&
            (forall i | 0 <= i < c :: k[i] == lead) &&
            (lead == 'z' && d < 35 * Pow36(c) ==> IsRun(k, lead, c)) &&
            (lead == '0' && d >= Pow36(c) ==> IsRun(k, lead, c))
  {
    var t := ClassTail(d, c + 1);
    RepeatThenValid(lead, c, t);
    FirstDigitSplits(t, c);
  }

  /** Behind a common run, order is decided by the class digits. */
  lemma ClassDigitsOrder(a: string, b: string, lead: char, c: nat)
    requires Alnum(a) && Alnum(b) && |a| >= c && |b| >= c
    requires forall i | 0 <= i < c :: a[i] == b[i] == lead
    requires ClassDigits(a, c) < ClassDigits(b, c)
    ensures Less(a, b)
  {
    hide Frac, Less, Pow36;
    var p := Repeat(lead, c);
    assert a == p + Suffix(a, c) && b == p + Suffix(b, c);
    TailsOrder(a, b, c);
    LessUnderPrefix(p, Suffix(a, c), Suffix(b, c));
  }

  lemma TailsOrder(a: string, b: string, c: nat)
    requires Alnum(a) && Alnum(b) && ClassDigits(a, c) < ClassDigits(b, c)
    ensures Less(Suffix(a, c), Suffix(b, c))
  {
    hide Frac, Less, Pow36;
    FracLessThenLess(Suffix(a, c), Suffix(b, c), c + 1);
  }

  lemma AfterDigits(a: string, c: nat)
    requires Valid(a) && IsRun(a, 'z', c)
    ensures ClassDigits(a, c) < 35 * Pow36(c)
  {
    FirstDigitSplits(Suffix(a, c), c);
  }

  lemma BeforeDigits(b: string, c: nat)
    requires Valid(b) && IsRun(b, '0', c)
    ensures c < |b| && ClassDigits(b, c) >= Pow36(c)
  {
    FirstDigitSplits(Suffix(b, c), c);
  }

  /** The digit d = 35 * 36^c opens the next class: its key is one 'z' longer. */
  lemma NextClassKey(c: nat)
    ensures IsRun(ClassKey('z', c, 35 * Pow36(c)), 'z', c + 1)
    ensures |ClassKey('z', c, 35 * Pow36(c))| == c + 1
  {
    var t := ClassTail(35 * Pow36(c), c + 1);
    FracOfSingleZ(c);
    ByteOrderIsFractionOrder(t, "z", c + 1);
  }

  lemma {:induction false} FracOfSingleZ(n: nat)
    ensures Frac("z", n + 1) == 35 * Pow36(n)
  {
    if n > 0 { FracOfSingleZ(n - 1); } else { assert Frac("z", 0) == 0; }
  }

  lemma AfterIsLater(a: string)
    requires Valid(a)
    ensures Valid(AfterKey(a)) && Less(a, AfterKey(a))
  {
    hide ClassKey, Frac, LeadingRun, TopKey;
    var c := LeadingRun(a, 'z');
    AfterDigits(a, c);
    ClassKeyReadsBack('z', c, ClassDigits(a, c) + 1);
    ClassDigitsOrder(a, AfterKey(a), 'z', c);
  }

  /** The top of class c for inserts in front: all its digits are 'z'. */
  lemma TopOfClass(c: nat)
    ensures TopKey(c) == ClassKey('0', c, Pow36(c + 1) - 1)
  {
    var z := Repeat('z', c + 1);
    FracOfAllZ(z, c + 1);
    ToDigitsOfFrac(z);
  }

  lemma {:induction false} FracOfAllZ(s: string, n: nat)
    requires Alnum(s) && n <= |s| && forall i | 0 <= i < n :: s[i] == 'z'
    ensures Frac(s, n) == Pow36(n) - 1
  {
    if n > 0 { FracOfAllZ(s, n - 1); }
  }

  lemma BeforeIsEarlier(b: string)
    requires Valid(b)
    ensures Valid(BeforeKey(b)) && Less(BeforeKey(b), b)
  {
    hide ClassKey, Frac, LeadingRun, TopKey;
    var c := LeadingRun(b, '0');
    BeforeDigits(b, c);
    var d := ClassDigits(b, c) - 1;
    TopOfClass(c + 1);
    if d < Pow36(c) {
      ClassKeyReadsBack('0', c + 1, Pow36(c + 2) - 1);
      MoreZerosIsEarlier(BeforeKey(b), b, c);
    } else {
      ClassKeyReadsBack('0', c, d);
      ClassDigitsOrder(BeforeKey(b), b, '0', c);
    }
  }

  lemma MoreZerosIsEarlier(k: string, b: string, c: nat)
    requires Valid(k) && Valid(b) && IsRun(k, '0', c + 1) && IsRun(b, '0', c)
    ensures Less(k, b)
  {
    FirstDigitSplits(Suffix(k, c), c);
    FirstDigitSplits(Suffix(b, c), c);
    ClassDigitsOrder(k, b, '0', c);
  }
}
