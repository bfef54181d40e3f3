/** How long keys get when issues are only ever added at one end of a list. */
module RankGrowth {
  import opened Wrappers
  import opened RankFractions
  import opened Rank

  /** keys[n] is the key after n appends to a list that held only the first key. */
  ghost predicate AppendRun(keys: seq<string>) {
    keys != [] && keys[0] == FIRST &&
    forall i | 0 < i < |keys| :: BetweenKey(keys[i - 1], "") == Ok(keys[i])
  }

  /** keys[n] is the key after n inserts in front of a list that held only the first key. */
  ghost predicate PrependRun(keys: seq<string>) {
    keys != [] && keys[0] == FIRST &&
    forall i | 0 < i < |keys| :: BetweenKey("", keys[i - 1]) == Ok(keys[i])
  }

  /** The place of a key's class and digits in the order in which appends visit them. */
  function Ordinal(a: string): int
    requires Valid(a)
  {
    var c := LeadingRun(a, 'z');
    Pow36(c) - 1 + ClassDigits(a, c)
  }

  /** The same for inserts in front, counted downwards from the largest one-digit key. */
  function Depth(b: string): int
    requires Valid(b)
  {
    var c := LeadingRun(b, '0');
    37 * Pow36(c) - 2 - ClassDigits(b, c)
  }

  lemma OrdinalAt(a: string, c: nat)
    requires Valid(a) && IsRun(a, 'z', c)
    ensures Ordinal(a) == Pow36(c) - 1 + ClassDigits(a, c) && LeadingRun(a, 'z') == c
  {
    RunIsUnique(a, 'z', c, LeadingRun(a, 'z'));
  }

  lemma DepthAt(b: string, c: nat)
    requires Valid(b) && IsRun(b, '0', c)
    ensures Depth(b) == 37 * Pow36(c) - 2 - ClassDigits(b, c) && LeadingRun(b, '0') == c
  {
    RunIsUnique(b, '0', c, LeadingRun(b, '0'));
  }

  /** Each append moves exactly one place on, and the key stays within its class's length. */
  lemma AfterAdvancesByOne(a: string)
    requires Valid(a)
    ensures Valid(AfterKey(a)) && Ordinal(AfterKey(a)) == Ordinal(a) + 1
    ensures |AfterKey(a)| <= 2 * LeadingRun(AfterKey(a), 'z') + 1
  {
    hide ClassKey, Frac, LeadingRun, TopKey;
    var c := LeadingRun(a, 'z');
    var d := ClassDigits(a, c) + 1;
    AfterIsLater(a);
    AfterDigits(a, c);
    var k := AfterKey(a);
    if d == 35 * Pow36(c) {
      NextClassKey(c);
      FracOfEmpty(c + 2);
      OrdinalAt(k, c + 1);
    } else {
      ClassKeyReadsBack('z', c, d);
      OrdinalAt(k, c);
    }
  }

  lemma BeforeAdvancesByOne(b: string)
    requires Valid(b)
    ensures Valid(BeforeKey(b)) && Depth(BeforeKey(b)) == Depth(b) + 1
    ensures |BeforeKey(b)| <= 2 * LeadingRun(BeforeKey(b), '0') + 1
  {
    hide ClassKey, Frac, LeadingRun, TopKey;
    var c := LeadingRun(b, '0');
    BeforeDigits(b, c);
    var d := ClassDigits(b, c) - 1;
    var k := BeforeKey(b);
    if d < Pow36(c) {
      TopOfClass(c + 1);
      ClassKeyReadsBack('0', c + 1, Pow36(c + 2) - 1);
      DepthAt(k, c + 1);
    } else {
      ClassKeyReadsBack('0', c, d);
      DepthAt(k, c);
    }
  }

  lemma FirstPlace(k: string)
    requires k == FIRST
    ensures Valid(k) && Ordinal(k) == 18 && Depth(k) == 17
    ensures |k| <= 2 * LeadingRun(k, 'z') + 1 && |k| <= 2 * LeadingRun(k, '0') + 1
  {
    assert Suffix(FIRST, 0) == FIRST && Pow36(0) == 1 && Frac(FIRST, 0) == 0;
  }

  lemma {:induction false} AppendedPlace(keys: seq<string>, n: nat)
    requires AppendRun(keys) && n < |keys|
    ensures Valid(keys[n]) && Ordinal(keys[n]) == n + 18
    ensures |keys[n]| <= 2 * LeadingRun(keys[n], 'z') + 1
  {
    hide ClassKey, Frac, LeadingRun, TopKey;
    if n == 0 {
      FirstPlace(keys[0]);
    } else {
      AppendedPlace(keys, n - 1);
      AfterAdvancesByOne(keys[n - 1]);
    }
  }

  lemma {:induction false} PrependedPlace(keys: seq<string>, n: nat)
    requires PrependRun(keys) && n < |keys|
    ensures Valid(keys[n]) && Depth(keys[n]) == n + 17
    ensures |keys[n]| <= 2 * LeadingRun(keys[n], '0') + 1
  {
    hide ClassKey, Frac, LeadingRun, TopKey;
    if n == 0 {
      FirstPlace(keys[0]);
    } else {
      PrependedPlace(keys, n - 1);
      BeforeAdvancesByOne(keys[n - 1]);
    }
  }

  lemma ClassWithinPlace(k: string, run: nat, place: nat, c: nat)
    requires |k| <= 2 * run + 1 && Pow36(run) <= place < Pow36(c + 1)
    ensures |k| <= 2 * c + 1
  {
    if run > c { PowIsMonotone(c + 1, run); }
  }

  /** n appends give a key of at most 2c+1 characters, c the largest number with 36^c <= n+19. */
  lemma AppendsStayShort(keys: seq<string>, n: nat, c: nat)
    requires AppendRun(keys) && n < |keys|
    requires Pow36(c) <= n + 19 < Pow36(c + 1)
    ensures |keys[n]| <= 2 * c + 1
  {
    AppendedPlace(keys, n);
    ClassWithinPlace(keys[n], LeadingRun(keys[n], 'z'), n + 19, c);
  }

  /** n prepends: the same bound, c the largest number with 36^c <= n+18. */
  lemma PrependsStayShort(keys: seq<string>, n: nat, c: nat)
    requires PrependRun(keys) && n < |keys|
    requires Pow36(c) <= n + 18 < Pow36(c + 1)
    ensures |keys[n]| <= 2 * c + 1
  {
    PrependedPlace(keys, n);
    ClassWithinPlace(keys[n], LeadingRun(keys[n], '0'), n + 18, c);
  }
}
