/** LIKE patterns with backslash escapes (section 9.7.1 of the PostgreSQL documentation), and user text in them. */
module Like {
  import opened Wrappers

  datatype Item = Literal(c: char) | AnyChar | AnyRun

  /** A pattern's items; None for a pattern that ends in a lone escape character, which is an error. */
  function Parse(pattern: string): Option<seq<Item>> {
    if pattern == "" then Some([])
    else if pattern[0] == '\\' then
      if |pattern| == 1 then None else Prepend(Literal(pattern[1]), Parse(pattern[2..]))
    else
      var item := if pattern[0] == '%' then AnyRun else if pattern[0] == '_' then AnyChar else Literal(pattern[0]);
      Prepend(item, Parse(pattern[1..]))
  }

  function Prepend(item: Item, rest: Option<seq<Item>>): Option<seq<Item>> {
    if rest.None? then None else Some([item] + rest.value)
  }

  /** Whether the whole text matches; fold takes characters that differ only in case to the same one. */
  predicate Match(items: seq<Item>, text: string, fold: char -> char) {
    if items == [] then text == ""
    else
      match items[0]
      case Literal(c) => text != "" && fold(text[0]) == fold(c) && Match(items[1..], text[1..], fold)
      case AnyChar => text != "" && Match(items[1..], text[1..], fold)
      case AnyRun => exists k | 0 <= k <= |text| :: Match(items[1..], text[k..], fold)
  }

  /** What ILIKE answers; a malformed pattern matches nothing here. */
  predicate Matches(text: string, pattern: string, fold: char -> char) {
    Parse(pattern).Some? && Match(Parse(pattern).value, text, fold)
  }

  /** Puts a backslash before each character that patterns give a meaning. */
  function Escape(s: string): string {
    if s == "" then "" else Escaped(s[0]) + Escape(s[1..])
  }

  function Escaped(c: char): string {
    if c == '\\' || c == '%' || c == '_' then ['\\', c] else [c]
  }

  /** s occurs in text at position i, up to case. */
  predicate OccursAt(s: string, text: string, i: int, fold: char -> char) {
    0 <= i && i + |s| <= |text| && forall k | 0 <= k < |s| :: fold(text[i + k]) == fold(s[k])
  }

  predicate Contains(text: string, s: string, fold: char -> char) {
    exists i | 0 <= i <= |text| :: OccursAt(s, text, i, fold)
  }

  function Literals(s: string): seq<Item> {
    if s == "" then [] else [Literal(s[0])] + Literals(s[1..])
  }

  lemma EscapedIsLiteral(c: char, rest: string)
    ensures Parse(Escaped(c) + rest) == Prepend(Literal(c), Parse(rest))
  {
    assert (Escaped(c) + rest)[|Escaped(c)|..] == rest;
  }

  /** Escaped text reads back as itself, character by character, whatever follows it. */
  lemma {:induction false} EscapeReadsBack(s: string, rest: string)
    requires Parse(rest).Some?
    ensures Parse(Escape(s) + rest) == Some(Literals(s) + Parse(rest).value)
  {
    hide Parse, Escaped;
    if s == "" {
      assert Escape(s) + rest == rest && Literals(s) + Parse(rest).value == Parse(rest).value;
    } else {
      EscapeReadsBack(s[1..], rest);
      EscapedIsLiteral(s[0], Escape(s[1..]) + rest);
      assert Escape(s) + rest == Escaped(s[0]) + (Escape(s[1..]) + rest);
      assert [Literal(s[0])] + (Literals(s[1..]) + Parse(rest).value) == Literals(s) + Parse(rest).value;
    }
  }

  lemma WildcardIsRun(rest: string)
    ensures Parse("%" + rest) == Prepend(AnyRun, Parse(rest))
  {
    assert ("%" + rest)[1..] == rest;
  }

  lemma RunMatchesAll(text: string, fold: char -> char)
    ensures Match([AnyRun], text, fold)
  {
    assert Match([], text[|text|..], fold);
  }

  /** Literals and a final wildcard match exactly the texts that start with the literals. */
  lemma {:induction false} LiteralsMatchPrefix(s: string, text: string, fold: char -> char)
    ensures Match(Literals(s) + [AnyRun], text, fold) <==> OccursAt(s, text, 0, fold)
  {
    var items := Literals(s) + [AnyRun];
    if s == "" {
      assert items == [AnyRun];
      RunMatchesAll(text, fold);
    } else {
      assert items[0] == Literal(s[0]) && items[1..] == Literals(s[1..]) + [AnyRun];
      if text != "" {
        LiteralsMatchPrefix(s[1..], text[1..], fold);
        if OccursAt(s[1..], text[1..], 0, fold) && fold(text[0]) == fold(s[0]) {
          forall k | 0 <= k < |s| ensures fold(text[0 + k]) == fold(s[k]) {
            if k > 0 { assert fold(text[1..][0 + (k - 1)]) == fold(s[1..][k - 1]); }
          }
        }
        if OccursAt(s, text, 0, fold) {
          forall k | 0 <= k < |s| - 1 ensures fold(text[1..][0 + k]) == fold(s[1..][k]) {
            assert fold(text[0 + (k + 1)]) == fold(s[k + 1]);
          }
        }
      }
    }
  }

  lemma OccursLater(s: string, text: string, i: nat, fold: char -> char)
    requires i <= |text|
    ensures OccursAt(s, text[i..], 0, fold) <==> OccursAt(s, text, i, fold)
  {
    if OccursAt(s, text[i..], 0, fold) {
      forall k | 0 <= k < |s| ensures fold(text[i + k]) == fold(s[k]) {
        assert fold(text[i..][0 + k]) == fold(s[k]);
      }
    }
    if OccursAt(s, text, i, fold) {
      forall k | 0 <= k < |s| ensures fold(text[i..][0 + k]) == fold(s[k]) {
        assert fold(text[i + k]) == fold(s[k]);
      }
    }
  }

  lemma RunThen(items: seq<Item>, text: string, fold: char -> char)
    ensures Match([AnyRun] + items, text, fold) <==> exists k | 0 <= k <= |text| :: Match(items, text[k..], fold)
  {
    assert ([AnyRun] + items)[1..] == items;
  }

  function ContainsPattern(s: string): string {
    "%" + Escape(s) + "%"
  }

  /** User text between wildcards matches exactly the texts that contain it literally, up to case. */
  lemma EscapedTextMatchesLiterally(s: string, text: string, fold: char -> char)
    ensures Matches(text, ContainsPattern(s), fold) <==> Contains(text, s, fold)
  {
    hide Escape, OccursAt;
    var items := Literals(s) + [AnyRun];
    assert ContainsPattern(s) == "%" + (Escape(s) + "%") && "%" == "%" + "";
    WildcardIsRun("");
    EscapeReadsBack(s, "%");
    WildcardIsRun(Escape(s) + "%");
    assert [AnyRun] + [] == [AnyRun] && Parse("%") == Some([AnyRun]);
    assert Parse(ContainsPattern(s)) == Some([AnyRun] + items);
    RunThen(items, text, fold);
    hide Match;
    forall i | 0 <= i <= |text| ensures Match(items, text[i..], fold) <==> OccursAt(s, text, i, fold) {
      LiteralsMatchPrefix(s, text[i..], fold);
      OccursLater(s, text, i, fold);
    }
  }
}
