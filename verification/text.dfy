/**
  Character classes and string operations of Python's `str`, restricted to
  ASCII: `\w`, `\s`, `str.upper()`, `str.title()`, `str.strip()` and the
  first piece of `str.split(sep)`.
 */
module Text {

  predicate IsUpperLetter(c: char) { 'A' <= c <= 'Z' }

  predicate IsLowerLetter(c: char) { 'a' <= c <= 'z' }

  /** `[a-zA-Z]`; on ASCII these are exactly the cased characters. */
  predicate IsLetter(c: char) { IsUpperLetter(c) || IsLowerLetter(c) }

  predicate IsDigit(c: char) { '0' <= c <= '9' }

  predicate IsAlnum(c: char) { IsLetter(c) || IsDigit(c) }

  /** `\w` on ASCII input. */
  predicate IsWordChar(c: char) { IsAlnum(c) || c == '_' }

  /** `\s` and `str.isspace()` on ASCII input: space, tab, line feed, vertical
      tab, form feed, carriage return and the four separators 0x1C-0x1F. */
  predicate IsSpace(c: char) {
    c == ' ' || '\t' <= c <= '\r' || '\U{1C}' <= c <= '\U{1F}'
  }

  function ToUpper(c: char): (u: char)
    ensures IsLowerLetter(c) ==> IsUpperLetter(u)
    ensures !IsLowerLetter(c) ==> u == c
  {
    if IsLowerLetter(c) then (c as int - 32) as char else c
  }

  function ToLower(c: char): (l: char)
    ensures IsUpperLetter(c) ==> IsLowerLetter(l)
    ensures !IsUpperLetter(c) ==> l == c
  {
    if IsUpperLetter(c) then (c as int + 32) as char else c
  }

  /** Case mapping keeps every character class used by the validators. */
  lemma CaseMapsKeepClasses(c: char)
    ensures IsLetter(ToUpper(c)) == IsLetter(c) && IsLetter(ToLower(c)) == IsLetter(c)
    ensures IsDigit(ToUpper(c)) == IsDigit(c) && IsDigit(ToLower(c)) == IsDigit(c)
    ensures IsSpace(ToUpper(c)) == IsSpace(c) && IsSpace(ToLower(c)) == IsSpace(c)
    ensures (ToUpper(c) == '_') == (c == '_') && (ToLower(c) == '_') == (c == '_')
    ensures (ToUpper(c) == '-') == (c == '-') && (ToLower(c) == '-') == (c == '-')
    ensures ToUpper(ToUpper(c)) == ToUpper(c) && ToLower(ToLower(c)) == ToLower(c)
  {
  }

  /** `str.upper()`. */
  function Upper(s: string): (r: string)
    ensures |r| == |s|
    ensures forall i :: 0 <= i < |s| ==> r[i] == ToUpper(s[i])
    decreases |s|
  {
    if s == [] then [] else [ToUpper(s[0])] + Upper(s[1..])
  }

  /** Upper-casing twice is upper-casing once. */
  lemma UpperIdempotent(s: string)
    ensures Upper(Upper(s)) == Upper(s)
  {
    forall i | 0 <= i < |s|
      ensures Upper(Upper(s))[i] == Upper(s)[i]
    {
      CaseMapsKeepClasses(s[i]);
    }
  }

  /** Whether the character before position `i` was cased, `prevCased`
      standing for the character before the start. */
  function CasedBefore(s: string, i: nat, prevCased: bool): bool
    requires i < |s|
  {
    if i == 0 then prevCased else IsLetter(s[i - 1])
  }

  /** Position `i` of `str.title()` run over `s`, `prevCased` standing for
      the character before the start: lower-cased when the character before
      it is cased, upper-cased otherwise. */
  function TitleChar(s: string, i: nat, prevCased: bool): char
    requires i < |s|
  {
    if CasedBefore(s, i, prevCased) then ToLower(s[i]) else ToUpper(s[i])
  }

  /** Dropping the first character moves every later position down by one. */
  lemma TitleCharShift(s: string, prevCased: bool, i: nat)
    requires 1 <= i < |s|
    ensures TitleChar(s[1..], i - 1, IsLetter(s[0])) == TitleChar(s, i, prevCased)
  {
    assert s[1..][i - 1] == s[i];
    if i > 1 {
      assert s[1..][i - 2] == s[i - 1];
    }
  }

  /** The scan of `str.title()`, one character at a time, remembering
      whether the last one was cased. */
  function TitleFrom(s: string, prevCased: bool): (r: string)
    ensures |r| == |s|
    ensures forall i :: 0 <= i < |s| ==> r[i] == TitleChar(s, i, prevCased)
    decreases |s|
  {
    if s == [] then []
    else
      var rest := TitleFrom(s[1..], IsLetter(s[0]));
      var r := [if prevCased then ToLower(s[0]) else ToUpper(s[0])] + rest;
      forall i | 1 <= i < |s|
        ensures r[i] == TitleChar(s, i, prevCased)
      {
        TitleCharShift(s, prevCased, i);
      }
      r
  }

  /** `str.title()`: every run of letters starts upper-case and continues
      lower-case; digits, spaces and punctuation end a run. */
  function Title(s: string): string
  {
    TitleFrom(s, false)
  }

  /** `Title` keeps every character class used by the validators, position by position. */
  lemma TitleKeepsClasses(s: string)
    ensures forall i :: 0 <= i < |s| ==>
              && IsLetter(Title(s)[i]) == IsLetter(s[i])
              && IsDigit(Title(s)[i]) == IsDigit(s[i])
              && IsSpace(Title(s)[i]) == IsSpace(s[i])
              && (Title(s)[i] == '_') == (s[i] == '_')
              && (Title(s)[i] == ' ') == (s[i] == ' ')
  {
    forall i | 0 <= i < |s|
      ensures IsLetter(Title(s)[i]) == IsLetter(s[i]) && IsDigit(Title(s)[i]) == IsDigit(s[i])
      ensures IsSpace(Title(s)[i]) == IsSpace(s[i]) && (Title(s)[i] == '_') == (s[i] == '_')
      ensures (Title(s)[i] == ' ') == (s[i] == ' ')
    {
      CaseMapsKeepClasses(s[i]);
    }
  }

  /** Title-casing twice is title-casing once. */
  lemma TitleIdempotent(s: string)
    ensures Title(Title(s)) == Title(s)
  {
    var t := Title(s);
    forall i | 0 <= i < |s|
      ensures Title(t)[i] == t[i]
    {
      TitleCharStable(s, i);
    }
  }

  /** Position `i` of a title-cased string is already what title-casing
      puts there. */
  lemma TitleCharStable(s: string, i: nat)
    requires i < |s|
    ensures TitleChar(Title(s), i, false) == Title(s)[i]
  {
    var t := Title(s);
    if i > 0 {
      CaseMapsKeepClasses(s[i - 1]);
      assert IsLetter(t[i - 1]) == IsLetter(s[i - 1]);
    }
    assert CasedBefore(t, i, false) == CasedBefore(s, i, false);
    CaseMapsKeepClasses(s[i]);
    if IsUpperLetter(s[i]) {
      assert ToUpper(ToLower(s[i])) == s[i] && ToLower(ToUpper(s[i])) == ToLower(s[i]);
    } else if IsLowerLetter(s[i]) {
      assert ToLower(ToUpper(s[i])) == s[i] && ToUpper(ToLower(s[i])) == ToUpper(s[i]);
    }
  }

  /** `str.lstrip()`: drops leading whitespace. */
  function StripLeft(s: string): (r: string)
    ensures |r| <= |s| && r == s[|s| - |r|..]
    ensures forall i :: 0 <= i < |s| - |r| ==> IsSpace(s[i])
    ensures r == [] || !IsSpace(r[0])
    decreases |s|
  {
    if s != [] && IsSpace(s[0]) then StripLeft(s[1..]) else s
  }

  /** `str.rstrip()`: drops trailing whitespace. */
  function StripRight(s: string): (r: string)
    ensures |r| <= |s| && r == s[..|r|]
    ensures forall i :: |r| <= i < |s| ==> IsSpace(s[i])
    ensures r == [] || !IsSpace(r[|r| - 1])
    decreases |s|
  {
    if s != [] && IsSpace(s[|s| - 1]) then StripRight(s[..|s| - 1]) else s
  }

  /** `str.strip()`: the middle of `s` after all surrounding whitespace is dropped. */
  function Strip(s: string): (r: string)
    ensures r == [] || (!IsSpace(r[0]) && !IsSpace(r[|r| - 1]))
    ensures exists lo :: 0 <= lo <= |s| - |r| && r == s[lo..][..|r|]
                         && (forall i :: 0 <= i < lo ==> IsSpace(s[i]))
                         && (forall i :: lo + |r| <= i < |s| ==> IsSpace(s[i]))
  {
    var l := StripLeft(s);
    var r := StripRight(l);
    StripMiddle(s, l, r);
    r
  }

  /** Dropping leading, then trailing, whitespace leaves a middle slice. */
  lemma StripMiddle(s: string, l: string, r: string)
    requires |l| <= |s| && l == s[|s| - |l|..] && forall i :: 0 <= i < |s| - |l| ==> IsSpace(s[i])
    requires |r| <= |l| && r == l[..|r|] && forall i :: |r| <= i < |l| ==> IsSpace(l[i])
    ensures exists lo :: 0 <= lo <= |s| - |r| && r == s[lo..][..|r|]
                         && (forall i :: 0 <= i < lo ==> IsSpace(s[i]))
                         && (forall i :: lo + |r| <= i < |s| ==> IsSpace(s[i]))
  {
    var lo := |s| - |l|;
    assert r == s[lo..][..|r|];
    forall i | lo + |r| <= i < |s|
      ensures IsSpace(s[i])
    {
      assert s[i] == l[i - lo];
    }
  }

  /** `s.split(sep)[0]`: the text before the first `sep`, or all of `s`. */
  function BeforeFirst(s: string, sep: char): (r: string)
    ensures r <= s && sep !in r
    ensures |r| == |s| || s[|r|] == sep
    decreases |s|
  {
    if s == [] || s[0] == sep then [] else [s[0]] + BeforeFirst(s[1..], sep)
  }

  /** Splitting a joined pair at the separator gives back its first part
      whenever that part does not contain the separator. */
  lemma BeforeFirstOfJoin(a: string, sep: char, b: string)
    requires sep !in a
    ensures BeforeFirst(a + [sep] + b, sep) == a
  {
    var s := a + [sep] + b;
    var r := BeforeFirst(s, sep);
    assert s[|a|] == sep;
    assert r == s[..|a|] == a;
  }
}
