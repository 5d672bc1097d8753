/**
 * The string and date helpers of lib/formatters.ts: `capitalize`,
 * `toTitleCase` and `daysBetween`. Upper-casing is modelled on ASCII letters;
 * every other character is left as it is.
 */
module Formatters {

  const MillisPerDay: int := 1000 * 60 * 60 * 24

  /** `toUpperCase` on one character: ASCII letters only. */
  function UpperChar(c: char): (r: char)
    ensures 'a' <= c <= 'z' ==> 'A' <= r <= 'Z' && r as int == c as int - 32
    ensures !('a' <= c <= 'z') ==> r == c
  {
    if 'a' <= c <= 'z' then (c as int - 32) as char else c
  }

  /** `toUpperCase` on a string, character by character. */
  function Upper(s: string): (r: string)
    ensures |r| == |s| && forall i | 0 <= i < |s| :: r[i] == UpperChar(s[i])
  {
    seq(|s|, i requires 0 <= i < |s| => UpperChar(s[i]))
  }

  /** `capitalize`: the first character upper-cased, the rest unchanged; "" stays "". */
  function Capitalize(s: string): (r: string)
    ensures |r| == |s|
    ensures s != [] ==> r[0] == UpperChar(s[0]) && r[1..] == s[1..]
  {
    if s == "" then "" else [UpperChar(s[0])] + s[1..]
  }

  /** Capitalizing twice is capitalizing once. */
  lemma CapitalizeIdempotent(s: string)
    ensures Capitalize(Capitalize(s)) == Capitalize(s)
  {
  }

  predicate IsSeparator(c: char) {
    c == '-' || c == '_'
  }

  /**
   * `split`: the pieces between the characters `isSep` picks out, empty
   * pieces included; `toTitleCase` splits on `/[-_]/`.
   */
  function Split(s: string, isSep: char -> bool): (r: seq<string>)
    ensures |r| >= 1
  {
    if s == [] then [[]]
    else if isSep(s[0]) then [[]] + Split(s[1..], isSep)
    else
      var rest := Split(s[1..], isSep);
      [[s[0]] + rest[0]] + rest[1..]
  }

  /** `join(" ")` */
  function Join(parts: seq<string>): (r: string)
    requires |parts| >= 1
    decreases |parts|
  {
    if |parts| == 1 then parts[0] else parts[0] + " " + Join(parts[1..])
  }

  /** `map((word) => capitalize(word))` */
  function CapitalizeAll(parts: seq<string>): (r: seq<string>)
    ensures |r| == |parts| && forall i | 0 <= i < |parts| :: r[i] == Capitalize(parts[i])
  {
    seq(|parts|, i requires 0 <= i < |parts| => Capitalize(parts[i]))
  }

  /** `toTitleCase`: "" stays ""; otherwise split, capitalize each piece and join with spaces. */
  function TitleCase(s: string): (r: string)
    ensures r == Spaced(s, true)
  {
    SplitJoin(s);
    if s == "" then "" else Join(CapitalizeAll(Split(s, IsSeparator)))
  }

  /**
   * The same result character by character: a separator becomes a space,
   * a character that starts a piece is upper-cased, any other is kept.
   */
  function Spaced(s: string, atStart: bool): (r: string)
    ensures |r| == |s|
    ensures forall i | 0 <= i < |r| :: !IsSeparator(r[i])
  {
    if s == [] then []
    else if IsSeparator(s[0]) then [' '] + Spaced(s[1..], true)
    else [if atStart then UpperChar(s[0]) else s[0]] + Spaced(s[1..], false)
  }

  lemma JoinHead(x: string, p: string, ps: seq<string>)
    ensures Join([x + p] + ps) == x + Join([p] + ps)
  {
    if ps != [] {
      assert ([x + p] + ps)[1..] == ps;
      assert ([p] + ps)[1..] == ps;
    }
  }

  lemma JoinCons(p: string, ps: seq<string>)
    requires ps != []
    ensures Join([p] + ps) == p + " " + Join(ps)
  {
    assert ([p] + ps)[1..] == ps;
  }

  /** What `SplitJoin` states of `s`, both for a first piece capitalized and for one left as it is. */
  predicate JoinsSpaced(s: string) {
    var parts := Split(s, IsSeparator);
    Join(CapitalizeAll(parts)) == Spaced(s, true) &&
    Join([parts[0]] + CapitalizeAll(parts)[1..]) == Spaced(s, false)
  }

  /** A separator in front adds an empty piece, which joins as a space. */
  lemma SplitJoinSeparator(s: string)
    requires s != [] && IsSeparator(s[0]) && JoinsSpaced(s[1..])
    ensures JoinsSpaced(s)
  {
    var parts := Split(s, IsSeparator);
    var rest := Split(s[1..], IsSeparator);
    assert parts == [""] + rest;
    assert CapitalizeAll(parts) == [""] + CapitalizeAll(rest);
    JoinCons("", CapitalizeAll(rest));
    assert [parts[0]] + CapitalizeAll(parts)[1..] == [""] + CapitalizeAll(rest);
  }

  /** Any other character in front joins the first piece; only the capitalized reading upper-cases it. */
  lemma SplitJoinChar(s: string)
    requires s != [] && !IsSeparator(s[0]) && JoinsSpaced(s[1..])
    ensures JoinsSpaced(s)
  {
    var parts := Split(s, IsSeparator);
    var rest := Split(s[1..], IsSeparator);
    var tail := CapitalizeAll(rest)[1..];
    assert parts == [[s[0]] + rest[0]] + rest[1..];
    assert CapitalizeAll(parts) == [[UpperChar(s[0])] + rest[0]] + tail;
    JoinHead([UpperChar(s[0])], rest[0], tail);
    assert [parts[0]] + CapitalizeAll(parts)[1..] == [[s[0]] + rest[0]] + tail;
    JoinHead([s[0]], rest[0], tail);
  }

  lemma {:induction false} SplitJoin(s: string)
    ensures JoinsSpaced(s)
  {
    if s == [] {
    } else if IsSeparator(s[0]) {
      SplitJoin(s[1..]);
      SplitJoinSeparator(s);
    } else {
      SplitJoin(s[1..]);
      SplitJoinChar(s);
    }
  }

  /** `toTitleCase` agrees with the character-by-character reading on every input. */
  lemma TitleCaseSpaced(s: string)
    ensures TitleCase(s) == Spaced(s, true)
  {
    SplitJoin(s);
  }

  /** The title has the input's length and no separator left in it. */
  lemma TitleCaseShape(s: string)
    ensures |TitleCase(s)| == |s|
    ensures forall i | 0 <= i < |TitleCase(s)| :: !IsSeparator(TitleCase(s)[i])
  {
    TitleCaseSpaced(s);
  }

  /**
   * `daysBetween`: the whole days from start to end, rounded down, so that
   * a partial day before the start already counts as -1.
   */
  function DaysBetween(start: int, end: int): (r: int)
    ensures r * MillisPerDay <= end - start < (r + 1) * MillisPerDay
  {
    (end - start) / MillisPerDay
  }

  lemma DaysBetweenSame(t: int)
    ensures DaysBetween(t, t) == 0
  {
  }

  lemma DaysBetweenNegative(start: int, end: int)
    requires end < start
    ensures DaysBetween(start, end) < 0
  {
  }

  /** A later end never gives fewer days. */
  lemma DaysBetweenMonotone(start: int, end: int, end': int)
    requires end <= end'
    ensures DaysBetween(start, end) <= DaysBetween(start, end')
  {
  }
}
