/**
 * `getUserInitials` of components/layout/AppHeader.tsx: the first character
 * of each space-separated word, upper-cased, at most two of them, and "U"
 * when there is no name.
 */
module AppHeader {
  import opened Types
  import opened Formatters

  predicate IsSpace(c: char) {
    c == ' '
  }

  /** `.map((n) => n[0]).join("")`: an empty word's `n[0]` is undefined and joins as nothing. */
  function Firsts(words: seq<string>): (r: string)
    ensures |r| <= |words|
  {
    if words == [] then ""
    else (if words[0] == "" then "" else [words[0][0]]) + Firsts(words[1..])
  }

  /** `.slice(0, 2)` */
  function Prefix2(s: string): (r: string)
    ensures |r| <= 2 && |r| <= |s| && r == s[..|r|]
    ensures |s| <= 2 ==> r == s
    ensures |s| >= 2 ==> |r| == 2
  {
    if |s| <= 2 then s else s[..2]
  }

  /** `getUserInitials`: "U" for a missing or empty name; otherwise up to two upper-cased initials. */
  function UserInitials(name: Option<string>): (r: string)
    ensures |r| <= 2
    ensures name.None? || name.value == "" ==> r == "U"
  {
    if name.None? || name.value == "" then "U"
    else Prefix2(Upper(Firsts(Split(name.value, IsSpace))))
  }

  /** The characters that start a word, read off the name directly; `atStart` after a space or at the front. */
  function WordStarts(s: string, atStart: bool): (r: string)
    ensures |r| <= |s|
  {
    if s == [] then ""
    else if IsSpace(s[0]) then WordStarts(s[1..], true)
    else (if atStart then [s[0]] else "") + WordStarts(s[1..], false)
  }

  lemma {:induction false} FirstsOfWords(s: string)
    ensures Firsts(Split(s, IsSpace)) == WordStarts(s, true)
    ensures Firsts(Split(s, IsSpace)[1..]) == WordStarts(s, false)
  {
    if s != [] {
      var rest := Split(s[1..], IsSpace);
      FirstsOfWords(s[1..]);
      if IsSpace(s[0]) {
        assert Split(s, IsSpace) == [""] + rest;
        assert Split(s, IsSpace)[1..] == rest;
      } else {
        var ws := Split(s, IsSpace);
        assert ws == [[s[0]] + rest[0]] + rest[1..];
        assert ws[1..] == rest[1..];
      }
    }
  }

  /** The initials are the upper-cased word starts of the name, the first two of them. */
  lemma InitialsAreWordStarts(name: string)
    requires name != ""
    ensures UserInitials(Some(name)) == Prefix2(Upper(WordStarts(name, true)))
  {
    FirstsOfWords(name);
  }

  /** A name without spaces has exactly one starting character. */
  lemma {:induction false} WordStartsOneWord(s: string, atStart: bool)
    requires forall i | 0 <= i < |s| :: !IsSpace(s[i])
    ensures WordStarts(s, atStart) == if atStart && s != [] then [s[0]] else []
  {
    if s != [] {
      WordStartsOneWord(s[1..], false);
    }
  }

  /** A one-word name gives exactly one initial. */
  lemma OneWordOneInitial(name: string)
    requires name != "" && forall i | 0 <= i < |name| :: !IsSpace(name[i])
    ensures |UserInitials(Some(name))| == 1
  {
    InitialsAreWordStarts(name);
    WordStartsOneWord(name, true);
  }

  /** A name has no word starts exactly when it is all spaces. */
  lemma {:induction false} NoWordStartsIffBlank(s: string)
    ensures WordStarts(s, true) == "" <==> forall i | 0 <= i < |s| :: IsSpace(s[i])
  {
    if s != [] {
      NoWordStartsIffBlank(s[1..]);
      if IsSpace(s[0]) {
        assert forall i | 1 <= i < |s| :: s[i] == s[1..][i - 1];
      }
    }
  }

  /** A name made only of spaces, " " for one, passes the "no name" test and yet gets no initials. */
  lemma BlankNameNoInitials(name: string)
    requires name != "" && forall i | 0 <= i < |name| :: IsSpace(name[i])
    ensures UserInitials(Some(name)) == ""
  {
    InitialsAreWordStarts(name);
    NoWordStartsIffBlank(name);
  }

  /** The evident intent: fall back to "U" whenever no initial comes out. */
  function UserInitialsOrDefault(name: Option<string>): (r: string)
    ensures 1 <= |r| <= 2
    ensures UserInitials(name) != "" ==> r == UserInitials(name)
  {
    var initials := UserInitials(name);
    if initials == "" then "U" else initials
  }

  /** The fallback differs from the as-written result exactly on the all-space names. */
  lemma OrDefaultOnlyForBlank(name: string)
    requires name != ""
    ensures UserInitialsOrDefault(Some(name)) != UserInitials(Some(name)) <==>
      forall i | 0 <= i < |name| :: IsSpace(name[i])
  {
    InitialsAreWordStarts(name);
    NoWordStartsIffBlank(name);
  }
}
