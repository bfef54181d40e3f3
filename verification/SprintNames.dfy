/** The default name of a sprint: the first numbered name after the sprints created that is not taken. */
module SprintNames {

  function DigitChar(d: nat): char
    requires d < 10
  {
    "0123456789"[d]
  }

  function Decimal(n: nat): string {
    if n < 10 then [DigitChar(n)] else Decimal(n / 10) + [DigitChar(n % 10)]
  }

  function DigitValue(c: char): nat {
    if '0' <= c <= '9' then c as nat - '0' as nat else 0
  }

  function ValueOf(s: string): nat {
    if s == "" then 0 else ValueOf(s[..|s| - 1]) * 10 + DigitValue(s[|s| - 1])
  }

  lemma {:induction false} DecimalReadsBack(n: nat)
    ensures ValueOf(Decimal(n)) == n && forall i | 0 <= i < |Decimal(n)| :: '0' <= Decimal(n)[i] <= '9'
  {
    var last := DigitChar(n % 10);
    assert DigitValue(last) == n % 10 && '0' <= last <= '9';
    if n >= 10 {
      DecimalReadsBack(n / 10);
      assert Decimal(n)[..|Decimal(n)| - 1] == Decimal(n / 10);
    } else {
      assert Decimal(n)[..|Decimal(n)| - 1] == "";
    }
  }

  function Lowered(s: string, lower: char -> char): string {
    seq(|s|, i requires 0 <= i < |s| => lower(s[i]))
  }

  function Name(key: string, n: nat): string {
    key + " Sprint " + Decimal(n)
  }

  /** Lower-casing leaves digits alone. */
  ghost predicate KeepsDigits(lower: char -> char) {
    forall c | '0' <= c <= '9' :: lower(c) == c
  }

  /** Different numbers give names that differ even in lower case. */
  lemma NamesDiffer(key: string, m: nat, n: nat, lower: char -> char)
    requires KeepsDigits(lower) && Lowered(Name(key, m), lower) == Lowered(Name(key, n), lower)
    ensures m == n
  {
    DecimalReadsBack(m);
    DecimalReadsBack(n);
    var p, a, b := |key + " Sprint "|, Lowered(Name(key, m), lower), Lowered(Name(key, n), lower);
    assert |a| == p + |Decimal(m)| && |b| == p + |Decimal(n)|;
    forall i | 0 <= i < |Decimal(m)| ensures Decimal(m)[i] == Decimal(n)[i] {
      assert a[p + i] == lower(Decimal(m)[i]) && b[p + i] == lower(Decimal(n)[i]);
    }
    assert Decimal(m) == Decimal(n);
  }

  predicate Taken(names: seq<string>, name: string, lower: char -> char) {
    exists i | 0 <= i < |names| :: Lowered(names[i], lower) == Lowered(name, lower)
  }

  /**
   * The search ends, because the names it tries are all different and only finitely many are taken,
   * and finds the least free number after the sprints ever created.
   */
  method DefaultName(key: string, created: nat, names: seq<string>, lower: char -> char) returns (name: string, n: nat)
    requires KeepsDigits(lower)
    ensures name == Name(key, n) && n > created && !Taken(names, name, lower)
    ensures forall m | created < m < n :: Taken(names, Name(key, m), lower)
  {
    var taken: set<string> := {};
    for i := 0 to |names|
      invariant forall t :: t in taken <==> exists j :: 0 <= j < i && Lowered(names[j], lower) == t
    {
      taken := taken + {Lowered(names[i], lower)};
    }
    n := created + 1;
    ghost var left := taken;
    while Lowered(Name(key, n), lower) in taken
      invariant n > created && left <= taken
      invariant forall m | created < m < n :: Lowered(Name(key, m), lower) in taken
      invariant forall t | t in taken && t !in left :: exists m :: created < m < n && Lowered(Name(key, m), lower) == t
      decreases left
    {
      forall m | created < m < n && Lowered(Name(key, m), lower) == Lowered(Name(key, n), lower) ensures m == n {
        NamesDiffer(key, m, n, lower);
      }
      left := left - {Lowered(Name(key, n), lower)};
      n := n + 1;
    }
    name := Name(key, n);
  }
}
