/** How long keys get when issues are inserted again and again into the same gap. */
module RankGap {
  import opened Wrappers
  import opened RankFractions
  import opened Rank

  // ---------------------------------------------------------------- fractions at a depth

  /** q steps of the first digits, counted in steps n digits deeper. */
  function Scaled(q: int, n: nat): int {
    q * Pow36(n)
  }

  lemma ScaledSteps(q: int, n: nat)
    ensures Scaled(q, n + 1) == 36 * Scaled(q, n) && Scaled(q + 1, n) == Scaled(q, n) + Pow36(n) && Scaled(0, n) == 0
  {
  }

  lemma ScaledGrows(p: int, q: int, n: nat)
    requires p <= q
    ensures Scaled(p, n) <= Scaled(q, n)
  {
  }

  /** The upper end of a gap, counted in steps of 36^-depth; no bound stands for 1. */
  function Upper(b: string, depth: nat): int
    requires Alnum(b)
  {
    if b == "" then Pow36(depth) else Frac(b, depth)
  }

  lemma {:induction false} FracSplit(s: string, n: nat, k: nat)
    requires Alnum(s)
    ensures Frac(s, n + k) == Scaled(Frac(s, n), k) + Frac(Suffix(s, n), k)
  {
    if k > 0 {
      FracSplit(s, n, k - 1);
      assert CharAt(Suffix(s, n), k - 1) == CharAt(s, n + (k - 1));
      ScaledSteps(Frac(s, n), k - 1);
      hide Scaled;
    }
  }

  lemma FracPads(s: string, n: nat)
    requires Alnum(s) && |s| <= n
    ensures Frac(s, n + 1) == 36 * Frac(s, n)
  {
  }

  // ---------------------------------------------------------------- where the midpoint is

  /** lo and hi lie between two neighbouring multiples of 36. */
  predicate InOneCell(lo: int, hi: int) {
    lo / 36 == (hi - 1) / 36
  }

  /** A key between lo and hi at some depth: longer than the depth only if nothing fits, else halving a cell. */
  ghost predicate Splits(m: string, lo: int, hi: int, depth: nat)
    requires Alnum(m)
  {
    lo < hi && (hi - lo >= 2 ==> |m| <= depth) &&
    (hi - lo == 1 ==> |m| == depth + 1 && Frac(m, depth + 1) == 36 * lo + 18) &&
    (hi - lo >= 2 && InOneCell(lo, hi) ==> Frac(m, depth) == (lo + hi) / 2)
  }

  lemma ShiftKeepsCell(cells: int, lo: int, hi: int)
    ensures InOneCell(36 * cells + lo, 36 * cells + hi) <==> InOneCell(lo, hi)
    ensures (36 * cells + lo + (36 * cells + hi)) / 2 == 36 * cells + (lo + hi) / 2
  {
  }

  lemma ShiftSplits(m: string, k: string, lo: int, hi: int, depth: nat, more: nat, shift: int, cells: int)
    requires Valid(m) && Alnum(k) && Splits(m, lo, hi, depth) && |k| == more + |m| &&
             (depth > 0 ==> shift == 36 * cells)
    requires Frac(k, more + depth) == shift + Frac(m, depth)
    requires Frac(k, more + depth + 1) == 36 * shift + Frac(m, depth + 1)
    ensures Splits(k, shift + lo, shift + hi, more + depth)
  {
    hide Frac, Alnum, Trimmed;
    ShiftKeepsCell(cells, lo, hi);
    hide InOneCell;
  }

  lemma PrefixFracs(p: string, m: string, depth: nat)
    requires Alnum(p) && Alnum(m)
    ensures Alnum(p + m) && Frac(p + m, |p| + depth) == Scaled(Frac(p, |p|), depth) + Frac(m, depth)
  {
    assert Suffix(p + m, |p|) == m;
    FracOfSameDigits(p + m, p, |p|);
    FracSplit(p + m, |p|, depth);
  }

  /** Putting the same digits p in front of a gap and of its midpoint. */
  lemma PrefixSplits(p: string, m: string, lo: int, hi: int, depth: nat)
    requires Alnum(p) && Valid(m) && Splits(m, lo, hi, depth)
    ensures var shift := Scaled(Frac(p, |p|), depth);
            Alnum(p + m) && Splits(p + m, shift + lo, shift + hi, |p| + depth)
  {
    hide Frac, Scaled, Splits, Trimmed, Alnum;
    var q := Frac(p, |p|);
    PrefixFracs(p, m, depth);
    PrefixFracs(p, m, depth + 1);
    ScaledSteps(q, depth);
    if depth > 0 { ScaledSteps(q, depth - 1); }
    ShiftSplits(m, p + m, lo, hi, depth, |p|, Scaled(q, depth), if depth > 0 then Scaled(q, depth - 1) else 0);
  }

  /** The digit a gap's lower end starts with, and the one its upper end starts with. */
  function LowDigit(a: string): (d: int)
    requires Alnum(a)
    ensures 0 <= d < 36
  {
    if a == "" then 0 else Digit(a[0])
  }

  function HighDigit(b: string): (d: int)
    requires Alnum(b)
    ensures 0 <= d <= 36
  {
    if b == "" then 36 else Digit(b[0])
  }

  /** The first digit apart from the rest. */
  lemma FirstDigit(s: string, k: nat)
    requires Alnum(s)
    ensures Frac(s, k + 1) == Scaled(LowDigit(s), k) + Frac(Suffix(s, 1), k)
    ensures 0 <= Frac(Suffix(s, 1), k) < Pow36(k)
  {
    assert Frac(s, 0) == 0;
    assert Frac(s, 1) == LowDigit(s);
    FracSplit(s, 1, k);
    FracBounds(Suffix(s, 1), k);
  }

  lemma UpperDigit(b: string, k: nat)
    requires Alnum(b)
    ensures Upper(b, k + 1) >= Scaled(HighDigit(b), k)
    ensures |b| <= 1 ==> Upper(b, k + 1) == Scaled(HighDigit(b), k)
  {
    FirstDigit(b, k);
    if b == "" { assert Pow36(k + 1) == 36 * Pow36(k); }
    if |b| == 1 {
      assert Suffix(b, 1) == "";
      FracOfEmpty(k);
    }
    hide Frac, Pow36;
  }

  lemma OneDigit(d: int)
    requires 0 <= d < 36
    ensures Alnum([Symbol(d)]) && Frac([Symbol(d)], 1) == d
  {
    assert Frac([Symbol(d)], 0) == 0;
  }

  lemma WideCell(lo: int, hi: int)
    requires hi - lo >= 37
    ensures !InOneCell(lo, hi)
  {
  }

  lemma WideSteps(da: int, db: int, k: nat, lo: int, hi: int)
    requires db - da >= 2 && lo < Scaled(da, k) + Pow36(k) && hi >= Scaled(db, k)
    ensures hi - lo >= Pow36(k) + 1
  {
    hide Pow36, Scaled;
    ScaledSteps(da, k);
    ScaledSteps(da + 1, k);
    ScaledGrows(da + 2, db, k);
  }

  /** First digits more than one apart: one digit is enough, and it halves the gap if that is all there is. */
  lemma WideGap(a: string, b: string, depth: nat)
    requires Alnum(a) && Alnum(b) && |a| <= depth && |b| <= depth && depth > 0 && HighDigit(b) - LowDigit(a) > 1
    ensures (LowDigit(a) + HighDigit(b)) / 2 < 36 && Alnum([Symbol((LowDigit(a) + HighDigit(b)) / 2)])
    ensures Splits([Symbol((LowDigit(a) + HighDigit(b)) / 2)], Frac(a, depth), Upper(b, depth), depth)
  {
    hide Frac, Pow36, Scaled, LowDigit, HighDigit, Upper, InOneCell, Symbol;
    var da, db, k := LowDigit(a), HighDigit(b), depth - 1;
    FirstDigit(a, k);
    UpperDigit(b, k);
    OneDigit((da + db) / 2);
    WideSteps(da, db, k, Frac(a, depth), Upper(b, depth));
    if k > 0 {
      PowIsLarge(k);
      WideCell(Frac(a, depth), Upper(b, depth));
    } else {
      SingleDigits(a, b);
    }
  }

  lemma PowIsLarge(k: nat)
    requires k > 0
    ensures Pow36(k) >= 36
  {
  }

  lemma SingleDigits(a: string, b: string)
    requires Alnum(a) && Alnum(b) && |b| <= 1
    ensures Frac(a, 1) == LowDigit(a) && Upper(b, 1) == HighDigit(b) && Pow36(0) == 1
  {
    FirstDigit(a, 0);
    UpperDigit(b, 0);
    assert Frac(Suffix(a, 1), 0) == 0;
  }

  lemma EdgeSplits(lo: int, edge: int, hi: int)
    requires lo < 36 * edge < hi
    ensures hi - lo >= 2 && !InOneCell(lo, hi)
  {
  }

  lemma TailIsPositive(b: string, k: nat)
    requires Valid(b) && 1 < |b| <= k + 1
    ensures Frac(Suffix(b, 1), k) > 0
  {
    FracOfEmpty(k);
    LessThenFracLess("", Suffix(b, 1), k);
  }

  /** Neighbouring first digits, and more digits in b: b's first digit alone fits, at a cell's edge. */
  lemma EdgeFits(a: string, b: string, depth: nat)
    requires Alnum(a) && Valid(b) && |a| <= depth && 1 < |b| <= depth && HighDigit(b) - LowDigit(a) == 1
    ensures Splits(b[..1], Frac(a, depth), Upper(b, depth), depth)
  {
    hide Frac, Pow36, Scaled, HighDigit, Trimmed, InOneCell;
    var k := depth - 1;
    FirstDigit(a, k);
    FirstDigit(b, k);
    SameFirstDigit(b);
    TailIsPositive(b, k);
    hide LowDigit;
    ScaledSteps(LowDigit(a), k);
    ScaledSteps(HighDigit(b), k - 1);
    EdgeSplits(Frac(a, depth), Scaled(HighDigit(b), k - 1), Upper(b, depth));
  }

  lemma SameFirstDigit(b: string)
    requires Alnum(b) && b != ""
    ensures HighDigit(b) == LowDigit(b)
  {
  }

  /** Neighbouring first digits, and nothing more in b: the midpoint lies behind a's first digit. */
  lemma TailSplits(a: string, b: string, m: string, depth: nat)
    requires Alnum(a) && Alnum(b) && |a| <= depth && |b| <= 1 <= depth && HighDigit(b) - LowDigit(a) == 1
    requires Valid(m) && Splits(m, Frac(Suffix(a, 1), depth - 1), Pow36(depth - 1), depth - 1)
    ensures Alnum([Symbol(LowDigit(a))] + m) &&
            Splits([Symbol(LowDigit(a))] + m, Frac(a, depth), Upper(b, depth), depth)
  {
    hide Frac, Pow36, Scaled, Splits, LowDigit, HighDigit, Upper, Trimmed, Symbol;
    var k := depth - 1;
    FirstDigit(a, k);
    UpperDigit(b, k);
    OneDigit(LowDigit(a));
    PrefixSplits([Symbol(LowDigit(a))], m, Frac(Suffix(a, 1), k), Pow36(k), k);
    ScaledSteps(LowDigit(a), k);
  }

  lemma MiddleOfAll()
    ensures Splits(MidpointKey("", ""), 0, 1, 0)
  {
    OneDigit(18);
    assert MidpointKey("", "") == [Symbol(18)];
    hide Frac;
  }

  lemma StrippedSplits(a: string, b: string, n: nat, depth: nat)
    requires Below(a, b) && |a| <= depth && |b| <= depth && n == CommonPrefix(a, b) > 0
    requires n < |b| && Below(Suffix(a, n), b[n..])
    requires Splits(MidpointKey(Suffix(a, n), b[n..]), Frac(Suffix(a, n), depth - n), Upper(b[n..], depth - n),
             depth - n)
    ensures Splits(MidpointKey(a, b), Frac(a, depth), Upper(b, depth), depth)
  {
    hide Frac, Pow36, Scaled, Splits, Less;
    var a', b', p := Suffix(a, n), b[n..], b[..n];
    var m := MidpointKey(a', b');
    assert MidpointKey(a, b) == p + m;
    hide MidpointKey;
    PrefixSplits(p, m, Frac(a', depth - n), Upper(b', depth - n), depth - n);
    FracSplit(a, n, depth - n);
    FracSplit(b, n, depth - n);
    assert Suffix(b, n) == b';
    FracOfSameDigits(a, p, n);
    FracOfSameDigits(b, p, n);
  }

  /** Without a common prefix the midpoint is decided by the first digits. */
  lemma FirstDigitsDecide(a: string, b: string)
    requires Below(a, b) && CommonPrefix(a, b) == 0
    ensures HighDigit(b) > LowDigit(a)
    ensures HighDigit(b) - LowDigit(a) > 1 ==>
              (LowDigit(a) + HighDigit(b)) / 2 < 36 && MidpointKey(a, b) == [Symbol((LowDigit(a) + HighDigit(b)) / 2)]
    ensures HighDigit(b) - LowDigit(a) == 1 && |b| > 1 ==> MidpointKey(a, b) == b[..1]
    ensures HighDigit(b) - LowDigit(a) == 1 && |b| <= 1 ==>
              Below(Suffix(a, 1), "") && MidpointKey(a, b) == [Symbol(LowDigit(a))] + MidpointKey(Suffix(a, 1), "")
  {
    hide Less;
    FirstDigitsDiffer(a, b);
  }

  lemma {:induction false} MidpointSplits(a: string, b: string, depth: nat)
    requires Below(a, b) && |a| <= depth && |b| <= depth
    ensures Splits(MidpointKey(a, b), Frac(a, depth), Upper(b, depth), depth)
    decreases |a| + |b|
  {
    hide Splits, Frac, Pow36, Less, MidpointKey, LowDigit, HighDigit, Upper;
    var n := CommonPrefix(a, b);
    if n > 0 {
      PrefixStrips(a, b, n);
      MidpointSplits(Suffix(a, n), b[n..], depth - n);
      StrippedSplits(a, b, n, depth);
    } else if depth == 0 {
      MiddleOfAll();
      AtDepthZero();
    } else {
      FirstDigitsDecide(a, b);
      if HighDigit(b) - LowDigit(a) > 1 {
        WideGap(a, b, depth);
      } else if |b| > 1 {
        EdgeFits(a, b, depth);
      } else {
        SomethingLeft(a, b);
        MidpointSplits(Suffix(a, 1), "", depth - 1);
        NoUpperBound(depth - 1);
        TailSplits(a, b, MidpointKey(Suffix(a, 1), ""), depth);
      }
    }
  }

  lemma AtDepthZero()
    ensures Frac("", 0) == 0 && Upper("", 0) == 1
  {
  }

  lemma NoUpperBound(depth: nat)
    ensures Upper("", depth) == Pow36(depth)
  {
  }

  lemma SomethingLeft(a: string, b: string)
    requires Alnum(a) && Alnum(b) && HighDigit(b) - LowDigit(a) == 1
    ensures a != "" || b != ""
  {
  }

  // ---------------------------------------------------------------- one gap, again and again

  /**
   * keys[i] is inserted between lo[i] and hi[i], and the next key goes into one of the two gaps that
   * leaves, whichever it is.
   */
  ghost predicate GapRun(lo: seq<string>, hi: seq<string>, keys: seq<string>) {
    |lo| == |hi| == |keys| + 1 && Valid(lo[0]) && Valid(hi[0]) && Less(lo[0], hi[0]) &&
    forall i | 0 <= i < |keys| ::
      BetweenKey(lo[i], hi[i]) == Ok(keys[i]) && NextGap(lo[i], hi[i], keys[i], lo[i + 1], hi[i + 1])
  }

  predicate NextGap(a: string, b: string, m: string, c: string, d: string) {
    (c == a && d == m) || (c == m && d == b)
  }

  /** How often a gap can be halved, always keeping the smaller half, until nothing fits. */
  function Halvings(gap: nat): nat {
    if gap <= 1 then 0 else 1 + Halvings(gap / 2)
  }

  lemma {:induction false} LargerHalf(gap: nat)
    ensures Halvings(gap + 1) >= Halvings(gap)
  {
    if gap > 1 && gap % 2 == 1 { LargerHalf(gap / 2); }
  }

  /** Either half of a gap leaves one halving less, at worst. */
  lemma HalvingsOfHalves(lo: int, hi: int)
    requires hi - lo >= 2
    ensures lo < (lo + hi) / 2 < hi
    ensures Halvings((lo + hi) / 2 - lo) + 1 >= Halvings(hi - lo) &&
            Halvings(hi - (lo + hi) / 2) + 1 >= Halvings(hi - lo)
  {
    var half := (hi - lo) / 2;
    assert (lo + hi) / 2 == lo + half;
    LargerHalf(half);
  }

  lemma HalvesOfCell(lo: int, hi: int)
    requires hi - lo >= 2 && InOneCell(lo, hi)
    ensures InOneCell(lo, (lo + hi) / 2) && InOneCell((lo + hi) / 2, hi)
  {
  }

  /** A cell is 36 wide, so it can be halved five times at most. */
  lemma CellHalvings(lo: int, hi: int)
    requires lo < hi && InOneCell(lo, hi)
    ensures Halvings(hi - lo) <= 5
  {
    var gap := hi - lo;
    assert gap <= 36;
    var g1, g2, g3, g4 := gap / 2, gap / 2 / 2, gap / 2 / 2 / 2, gap / 2 / 2 / 2 / 2;
    assert g1 <= 18 && g2 <= 9 && g3 <= 4 && g4 <= 2;
    assert Halvings(g4) <= 1;
    assert Halvings(g3) <= 2;
    assert Halvings(g2) <= 3;
    assert Halvings(g1) <= 4;
  }

  /** A gap whose bounds have at most `depth` characters and lie in one cell at that depth. */
  ghost predicate Deep(a: string, b: string, depth: nat) {
    Valid(a) && Valid(b) && Less(a, b) && |a| <= depth && |b| <= depth &&
    Frac(a, depth) < Frac(b, depth) && InOneCell(Frac(a, depth), Frac(b, depth))
  }

  function GapAt(a: string, b: string, depth: nat): int
    requires Valid(a) && Valid(b)
  {
    Frac(b, depth) - Frac(a, depth)
  }

  lemma NewCell(lo: int)
    ensures InOneCell(36 * lo, 36 * lo + 18) && InOneCell(36 * lo + 18, 36 * lo + 36)
  {
  }

  lemma MiddleOf(a: string, b: string, depth: nat)
    requires Valid(a) && Valid(b) && Less(a, b) && |a| <= depth && |b| <= depth
    ensures var m := MidpointKey(a, b);
            Valid(m) && Less(a, m) && Less(m, b) && Splits(m, Frac(a, depth), Frac(b, depth), depth)
  {
    MidpointSplits(a, b, depth);
    hide Less, Frac, MidpointKey;
  }

  /** Nothing fits at this depth: the new key opens the next one, in the middle of the gap. */
  lemma GoesDeeper(a: string, b: string, depth: nat, c: string, d: string)
    requires Valid(a) && Valid(b) && Less(a, b) && |a| <= depth && |b| <= depth && GapAt(a, b, depth) == 1
    requires NextGap(a, b, MidpointKey(a, b), c, d)
    ensures |MidpointKey(a, b)| == depth + 1 && Deep(c, d, depth + 1) && GapAt(c, d, depth + 1) == 18
  {
    hide Less, MidpointKey, InOneCell;
    MiddleOf(a, b, depth);
    FracPads(a, depth);
    FracPads(b, depth);
    hide Frac;
    NewCell(Frac(a, depth));
  }

  /** Something fits in the cell: the new key halves the gap. */
  lemma HalvesCell(a: string, b: string, depth: nat, c: string, d: string)
    requires Deep(a, b, depth) && GapAt(a, b, depth) >= 2 && NextGap(a, b, MidpointKey(a, b), c, d)
    ensures |MidpointKey(a, b)| <= depth && Deep(c, d, depth)
    ensures GapAt(c, d, depth) > 0 && Halvings(GapAt(c, d, depth)) + 1 >= Halvings(GapAt(a, b, depth))
  {
    hide Less, MidpointKey, InOneCell, Frac, Halvings;
    MiddleOf(a, b, depth);
    HalvingsOfHalves(Frac(a, depth), Frac(b, depth));
    HalvesOfCell(Frac(a, depth), Frac(b, depth));
  }

  /** Five insertions for each character by which the gap is deeper than `start` + 1, less the halvings left. */
  ghost predicate Paid(a: string, b: string, depth: nat, start: nat, done: nat) {
    Deep(a, b, depth) && GapAt(a, b, depth) > 0 &&
    5 * (depth - start - 1) + 5 <= done + Halvings(GapAt(a, b, depth))
  }

  lemma InsertKeepsPaid(a: string, b: string, depth: nat, start: nat, done: nat, c: string, d: string)
    returns (depth': nat)
    requires Paid(a, b, depth, start, done) && NextGap(a, b, MidpointKey(a, b), c, d)
    ensures Paid(c, d, depth', start, done + 1)
    ensures 5 * (|MidpointKey(a, b)| - start - 1) <= done
  {
    hide Less, MidpointKey, InOneCell, Frac, NextGap;
    if GapAt(a, b, depth) == 1 {
      GoesDeeper(a, b, depth, c, d);
      CertainHalvings();
      depth' := depth + 1;
    } else {
      HalvesCell(a, b, depth, c, d);
      CellHalvings(Frac(a, depth), Frac(b, depth));
      depth' := depth;
    }
  }

  lemma CertainHalvings()
    ensures Halvings(18) == 4 && Halvings(1) == 0
  {
    assert Halvings(2) == 1 && Halvings(4) == 2 && Halvings(9) == 3;
  }

  /** Until a first key is longer than the bounds at the start, all bounds stay within `start` characters. */
  ghost predicate Shallow(a: string, b: string, start: nat) {
    Valid(a) && Valid(b) && Less(a, b) && |a| <= start && |b| <= start
  }

  lemma FirstInserts(a: string, b: string, start: nat, done: nat, c: string, d: string)
    requires Shallow(a, b, start) && NextGap(a, b, MidpointKey(a, b), c, d)
    ensures Shallow(c, d, start) || Paid(c, d, start + 1, start, done + 1)
    ensures |MidpointKey(a, b)| <= start + 1
  {
    hide Less, MidpointKey, InOneCell, Frac;
    MiddleOf(a, b, start);
    if GapAt(a, b, start) == 1 {
      GoesDeeper(a, b, start, c, d);
      CertainHalvings();
    }
  }

  ghost predicate GapOk(a: string, b: string, start: nat, done: nat) {
    Shallow(a, b, start) || exists depth: nat :: Paid(a, b, depth, start, done)
  }

  lemma {:induction false} GapStaysOk(lo: seq<string>, hi: seq<string>, keys: seq<string>, start: nat, n: nat)
    requires GapRun(lo, hi, keys) && n <= |keys| && |lo[0]| <= start && |hi[0]| <= start
    ensures GapOk(lo[n], hi[n], start, n)
  {
    hide Less, MidpointKey, Paid, Shallow;
    if n == 0 {
      StartsShallow(lo[0], hi[0], start);
    } else {
      GapStaysOk(lo, hi, keys, start, n - 1);
      var i := n - 1;
      assert BetweenKey(lo[i], hi[i]) == Ok(keys[i]) && NextGap(lo[i], hi[i], keys[i], lo[i + 1], hi[i + 1]);
      InsertIsOk(lo[i], hi[i], start, i, lo[n], hi[n]);
    }
  }

  lemma StartsShallow(a: string, b: string, start: nat)
    requires Valid(a) && Valid(b) && Less(a, b) && |a| <= start && |b| <= start
    ensures Shallow(a, b, start)
  {
  }

  lemma InsertIsOk(a: string, b: string, start: nat, done: nat, c: string, d: string)
    requires GapOk(a, b, start, done) && BetweenKey(a, b).Ok? && NextGap(a, b, BetweenKey(a, b).value, c, d)
    ensures GapOk(c, d, start, done + 1) && 5 * (|BetweenKey(a, b).value| - start - 1) <= done
  {
    hide Less, MidpointKey, NextGap;
    if Shallow(a, b, start) {
      BetweenIsMidpoint(a, b);
      FirstInserts(a, b, start, done, c, d);
      assert Shallow(c, d, start) || Paid(c, d, start + 1, start, done + 1);
    } else {
      var depth: nat :| Paid(a, b, depth, start, done);
      assert Paid(a, b, depth, start, done);
      BetweenIsMidpoint(a, b);
      var depth' := InsertKeepsPaid(a, b, depth, start, done, c, d);
      assert Paid(c, d, depth', start, done + 1);
    }
  }

  lemma BetweenIsMidpoint(a: string, b: string)
    requires Valid(a) && Valid(b) && Less(a, b)
    ensures BetweenKey(a, b) == Ok(MidpointKey(a, b))
  {
    LessIsTotal(a, b);
  }

  /**
   * However the gaps are chosen, keys grow by at most one character per five insertions into the same gap,
   * after the one character that the first insertion may take.
   */
  lemma GapsStayShort(lo: seq<string>, hi: seq<string>, keys: seq<string>, n: nat)
    requires GapRun(lo, hi, keys) && n < |keys|
    ensures |keys[n]| <= (if |lo[0]| < |hi[0]| then |hi[0]| else |lo[0]|) + 1 + n / 5
  {
    var start := if |lo[0]| < |hi[0]| then |hi[0]| else |lo[0]|;
    GapStaysOk(lo, hi, keys, start, n);
    assert BetweenKey(lo[n], hi[n]) == Ok(keys[n]) && NextGap(lo[n], hi[n], keys[n], lo[n + 1], hi[n + 1]);
    InsertIsOk(lo[n], hi[n], start, n, lo[n + 1], hi[n + 1]);
  }
}
