/**
  The five `RegexValidator`s of the forms (website/forms.py:74-90).

  Each pattern is written in the shape of its regular expression, from a few
  combinators (`OneOrMore` for `C+`, `Repeat` for `C{lo,hi}`), and is then
  characterised independently by a closed-form statement about the string.
  Django runs the pattern with `re.search`, and Python's `$` also matches
  just before one final line feed; `RegexSearch` models that.
 */
module Validators {
  import opened Text

  predicate EndsWithNewline(s: string) { |s| > 0 && s[|s| - 1] == '\n' }

  /** `re.search("^" + P + "$", s)`: `P` matches all of `s`, or all of `s`
      but a final line feed. */
  predicate RegexSearch(pattern: string -> bool, s: string)
  {
    pattern(s) || (EndsWithNewline(s) && pattern(s[..|s| - 1]))
  }

  /** Away from a final line feed, the search is a whole-string match. */
  lemma SearchIsFullMatch(pattern: string -> bool, s: string)
    requires !EndsWithNewline(s)
    ensures RegexSearch(pattern, s) <==> pattern(s)
  {
  }

  /** `C+`. */
  predicate OneOrMore(cls: char -> bool, s: string)
    decreases |s|
  {
    s != [] && cls(s[0]) && (|s| == 1 || OneOrMore(cls, s[1..]))
  }

  /** `C{lo,hi}`. */
  predicate Repeat(cls: char -> bool, s: string, lo: nat, hi: nat)
    decreases |s|
  {
    if s == [] then lo == 0
    else hi > 0 && cls(s[0]) && Repeat(cls, s[1..], if lo == 0 then 0 else lo - 1, hi - 1)
  }

  lemma {:induction false} OneOrMoreIff(cls: char -> bool, s: string)
    ensures OneOrMore(cls, s) <==> s != [] && forall i :: 0 <= i < |s| ==> cls(s[i])
    decreases |s|
  {
    if |s| > 1 {
      OneOrMoreIff(cls, s[1..]);
      assert forall i :: 1 <= i < |s| ==> s[i] == s[1..][i - 1];
    }
  }

  lemma {:induction false} RepeatIff(cls: char -> bool, s: string, lo: nat, hi: nat)
    ensures Repeat(cls, s, lo, hi) <==> lo <= |s| <= hi && forall i :: 0 <= i < |s| ==> cls(s[i])
    decreases |s|
  {
    if s != [] && hi > 0 {
      RepeatIff(cls, s[1..], if lo == 0 then 0 else lo - 1, hi - 1);
      assert forall i :: 1 <= i < |s| ==> s[i] == s[1..][i - 1];
    }
  }

  // ---- letter_validator: ^[a-zA-Z ]+$ ----

  predicate IsLetterOrSpace(c: char) { IsLetter(c) || c == ' ' }

  predicate LetterPattern(s: string) { OneOrMore(IsLetterOrSpace, s) }

  predicate LetterValidator(s: string) { RegexSearch(LetterPattern, s) }

  /** Letters and spaces only, at least one character. */
  lemma LetterValidatorAccepts(s: string)
    requires !EndsWithNewline(s)
    ensures LetterValidator(s) <==> s != [] && forall i :: 0 <= i < |s| ==> IsLetter(s[i]) || s[i] == ' '
  {
    OneOrMoreIff(IsLetterOrSpace, s);
  }

  /** A letter-validated value rejects any digit: "John123", "USA123" and
      "Anytown123" from the tests all fail. */
  lemma LetterValidatorRejectsDigit(s: string, i: nat)
    requires i < |s| && IsDigit(s[i])
    ensures !LetterValidator(s)
  {
    OneOrMoreIff(IsLetterOrSpace, s);
    if EndsWithNewline(s) {
      OneOrMoreIff(IsLetterOrSpace, s[..|s| - 1]);
      if i < |s| - 1 {
        assert s[..|s| - 1][i] == s[i];
      }
    }
  }

  // ---- alphanumeric_validator: ^[\w\s]+$ ----

  predicate IsWordOrSpace(c: char) { IsWordChar(c) || IsSpace(c) }

  predicate AlphanumericPattern(s: string) { OneOrMore(IsWordOrSpace, s) }

  predicate AlphanumericValidator(s: string) { RegexSearch(AlphanumericPattern, s) }

  /** Word characters and whitespace only, at least one character (a final
      line feed is whitespace already, so `$` changes nothing here). */
  lemma AlphanumericValidatorAccepts(s: string)
    ensures AlphanumericValidator(s) <==> s != [] && forall i :: 0 <= i < |s| ==> IsWordChar(s[i]) || IsSpace(s[i])
  {
    OneOrMoreIff(IsWordOrSpace, s);
    if EndsWithNewline(s) {
      OneOrMoreIff(IsWordOrSpace, s[..|s| - 1]);
      assert forall i :: 0 <= i < |s| - 1 ==> s[..|s| - 1][i] == s[i];
    }
  }

  /** One character that is neither a word character nor whitespace is enough to reject. */
  lemma AlphanumericValidatorRejects(s: string, i: nat)
    requires i < |s| && !IsWordChar(s[i]) && !IsSpace(s[i])
    ensures !AlphanumericValidator(s)
  {
    AlphanumericValidatorAccepts(s);
  }

  // ---- phone_validator: ^[+]?(?:[0-9\-\(\)\/\.]\s?){6,15}[0-9]{1}$ ----

  predicate IsPhoneSymbol(c: char) { IsDigit(c) || c == '-' || c == '(' || c == ')' || c == '/' || c == '.' }

  /** The rest of `(?:[0-9\-\(\)\/\.]\s?){6,15}[0-9]$` once `count` groups
      have been matched. */
  predicate PhoneGroups(s: string, count: nat)
    decreases |s|
  {
    || (count >= 6 && |s| == 1 && IsDigit(s[0]))
    || (count < 15 && |s| >= 1 && IsPhoneSymbol(s[0]) &&
        (PhoneGroups(s[1..], count + 1) || (|s| >= 2 && IsSpace(s[1]) && PhoneGroups(s[2..], count + 1))))
  }

  predicate PhonePattern(s: string)
  {
    PhoneGroups(s, 0) || (s != [] && s[0] == '+' && PhoneGroups(s[1..], 0))
  }

  predicate PhoneValidator(s: string) { RegexSearch(PhonePattern, s) }

  lemma {:induction false} PhoneGroupsShape(s: string, count: nat)
    requires count <= 15 && PhoneGroups(s, count)
    ensures count <= 15 && |s| >= 1 && |s| + count >= 7 && |s| + 2 * count <= 31
    ensures IsDigit(s[|s| - 1]) && IsPhoneSymbol(s[0])
    ensures forall i :: 0 <= i < |s| ==> IsPhoneSymbol(s[i]) || IsSpace(s[i])
    decreases |s|
  {
    if count >= 6 && |s| == 1 && IsDigit(s[0]) {
    } else if PhoneGroups(s[1..], count + 1) {
      PhoneGroupsShape(s[1..], count + 1);
      assert forall i :: 1 <= i < |s| ==> s[i] == s[1..][i - 1];
    } else {
      PhoneGroupsShape(s[2..], count + 1);
      assert forall i :: 2 <= i < |s| ==> s[i] == s[2..][i - 2];
    }
  }

  /** Symbols without whitespace, then a final digit, match once the group
      count lands in 6..15. */
  lemma {:induction false} PhoneGroupsOfSymbols(s: string, count: nat)
    requires |s| >= 1 && IsDigit(s[|s| - 1])
    requires forall i :: 0 <= i < |s| - 1 ==> IsPhoneSymbol(s[i])
    requires 6 <= count + |s| - 1 <= 15
    ensures PhoneGroups(s, count)
    decreases |s|
  {
    if |s| > 1 {
      PhoneGroupsOfSymbols(s[1..], count + 1);
    }
  }

  /** The number of phone symbols, that is of characters that are not
      whitespace, in `s`. */
  function SymbolCount(s: string): nat
    decreases |s|
  {
    if s == [] then 0 else (if IsSpace(s[0]) then 0 else 1) + SymbolCount(s[1..])
  }

  /** `s` is a run of groups `[0-9\-\(\)\/\.]\s?`: every character is a
      phone symbol, or whitespace right after a phone symbol. */
  predicate Grouped(s: string)
  {
    forall i :: 0 <= i < |s| ==> GroupedAt(s, i)
  }

  predicate GroupedAt(s: string, i: nat)
    requires i < |s|
  {
    IsPhoneSymbol(s[i]) || (IsSpace(s[i]) && i > 0 && IsPhoneSymbol(s[i - 1]))
  }

  /** A run of groups cut before a phone symbol is still a run of groups. */
  lemma GroupedTail(b: string, k: nat)
    requires Grouped(b) && k <= |b|
    requires k < |b| ==> !IsSpace(b[k])
    ensures Grouped(b[k..])
  {
    var t := b[k..];
    forall i | 0 <= i < |t|
      ensures GroupedAt(t, i)
    {
      assert t[i] == b[k + i] && GroupedAt(b, k + i);
      if i > 0 {
        assert t[i - 1] == b[k + i - 1];
      }
    }
  }

  /** Groups of a phone symbol with at most one whitespace character after
      it, then a final digit, match once the group count lands in 6..15. */
  lemma {:induction false} PhoneGroupsOfGroups(body: string, d: char, count: nat)
    requires IsDigit(d) && Grouped(body)
    requires 6 <= count + SymbolCount(body) <= 15
    ensures PhoneGroups(body + [d], count)
    decreases |body|
  {
    var s := body + [d];
    if body == [] {
      assert s == [d];
    } else {
      assert GroupedAt(body, 0);
      assert IsPhoneSymbol(body[0]) && s[0] == body[0];
      assert SymbolCount(body) == 1 + SymbolCount(body[1..]);
      if |body| >= 2 && IsSpace(body[1]) {
        var rest := body[2..];
        if |body| > 2 {
          assert GroupedAt(body, 2);
          assert !IsPhoneSymbol(body[1]);
        }
        GroupedTail(body, 2);
        assert body[1..][1..] == rest;
        assert SymbolCount(body[1..]) == SymbolCount(rest);
        PhoneGroupsOfGroups(rest, d, count + 1);
        assert s[1] == body[1] && s[2..] == rest + [d];
      } else {
        var rest := body[1..];
        GroupedTail(body, 1);
        PhoneGroupsOfGroups(rest, d, count + 1);
        assert s[1..] == rest + [d];
      }
    }
  }

  /** The converse of `PhoneGroupsOfGroups`: whatever matches the rest of
      the pattern is a run of groups with 6..15 symbols in all, then one
      digit. */
  lemma {:induction false} PhoneGroupsGrouped(s: string, count: nat)
    requires count <= 15 && PhoneGroups(s, count)
    ensures |s| >= 1 && IsDigit(s[|s| - 1])
    ensures Grouped(s[..|s| - 1]) && 6 <= count + SymbolCount(s[..|s| - 1]) <= 15
    decreases |s|
  {
    var body := s[..|s| - 1];
    if count >= 6 && |s| == 1 && IsDigit(s[0]) {
    } else if PhoneGroups(s[1..], count + 1) {
      PhoneGroupsGrouped(s[1..], count + 1);
      var tail := s[1..][..|s| - 2];
      assert body[1..] == tail && body[0] == s[0];
      forall i | 0 <= i < |body|
        ensures GroupedAt(body, i)
      {
        if i > 0 {
          assert body[i] == tail[i - 1] && GroupedAt(tail, i - 1);
          if i > 1 {
            assert body[i - 1] == tail[i - 2];
          }
        }
      }
    } else {
      PhoneGroupsGrouped(s[2..], count + 1);
      var tail := s[2..][..|s| - 3];
      assert body[1..][1..] == tail && body[0] == s[0] && body[1] == s[1];
      assert SymbolCount(body[1..]) == SymbolCount(tail);
      forall i | 0 <= i < |body|
        ensures GroupedAt(body, i)
      {
        if i > 1 {
          assert body[i] == tail[i - 2] && GroupedAt(tail, i - 2);
          if i > 2 {
            assert body[i - 1] == tail[i - 3];
          }
        }
      }
    }
  }

  /** The phone pattern, characterised: an optional '+', then a run of
      groups (a phone symbol with at most one whitespace character after
      it) holding 6 to 15 symbols, then one digit. */
  lemma PhonePatternIff(s: string)
    ensures PhonePattern(s) <==>
              && |s| >= 2 && IsDigit(s[|s| - 1])
              && var body := if s[0] == '+' then s[1..|s| - 1] else s[..|s| - 1];
                 Grouped(body) && 6 <= SymbolCount(body) <= 15
  {
    if PhonePattern(s) {
      if PhoneGroups(s, 0) {
        PhoneGroupsGrouped(s, 0);
        PhoneGroupsShape(s, 0);
      } else {
        PhoneGroupsGrouped(s[1..], 0);
        assert s[1..][..|s| - 2] == s[1..|s| - 1];
      }
    }
    if |s| >= 2 && IsDigit(s[|s| - 1]) {
      var body := if s[0] == '+' then s[1..|s| - 1] else s[..|s| - 1];
      if Grouped(body) && 6 <= SymbolCount(body) <= 15 {
        PhoneGroupsOfGroups(body, s[|s| - 1], 0);
        if s[0] == '+' {
          assert body + [s[|s| - 1]] == s[1..];
        } else {
          assert body + [s[|s| - 1]] == s;
        }
      }
    }
  }

  /** An accepted phone number (a final line feed aside) is 7 to 32
      characters long, ends in a digit, may start with '+', and otherwise
      holds only digits, `-()/.` and whitespace; "123" is too short. */
  lemma PhonePatternShape(s: string)
    requires PhonePattern(s)
    ensures 7 <= |s| <= 32 && IsDigit(s[|s| - 1])
    ensures s[0] == '+' || IsPhoneSymbol(s[0])
    ensures forall i :: 1 <= i < |s| ==> IsPhoneSymbol(s[i]) || IsSpace(s[i])
  {
    if PhoneGroups(s, 0) {
      PhoneGroupsShape(s, 0);
    } else {
      PhoneGroupsShape(s[1..], 0);
      assert forall i :: 1 <= i < |s| ==> s[i] == s[1..][i - 1];
    }
  }

  // ---- postcode_validator: ^[a-zA-Z0-9][a-zA-Z0-9\- ]{0,10}[a-zA-Z0-9]$ ----

  predicate IsPostcodeInner(c: char) { IsAlnum(c) || c == '-' || c == ' ' }

  predicate PostcodePattern(s: string)
  {
    |s| >= 2 && IsAlnum(s[0]) && Repeat(IsPostcodeInner, s[1..|s| - 1], 0, 10) && IsAlnum(s[|s| - 1])
  }

  predicate PostcodeValidator(s: string) { RegexSearch(PostcodePattern, s) }

  /** Two to twelve characters, alphanumeric at both ends, alphanumerics,
      '-' and ' ' in between; one character is too few and
      "invalid_postcode" is rejected. */
  lemma PostcodeValidatorAccepts(s: string)
    requires !EndsWithNewline(s)
    ensures PostcodeValidator(s) <==>
              && 2 <= |s| <= 12
              && IsAlnum(s[0]) && IsAlnum(s[|s| - 1])
              && forall i :: 1 <= i < |s| - 1 ==> IsPostcodeInner(s[i])
  {
    if |s| >= 2 {
      RepeatIff(IsPostcodeInner, s[1..|s| - 1], 0, 10);
      assert forall i :: 1 <= i < |s| - 1 ==> s[i] == s[1..|s| - 1][i - 1];
    }
  }

  // ---- vat_validator: ^[Gg][Bb][0-9]{9}([0-9]{3})?$ ----

  predicate VatPattern(s: string)
  {
    && |s| >= 2 && (s[0] == 'G' || s[0] == 'g') && (s[1] == 'B' || s[1] == 'b')
    && (Repeat(IsDigit, s[2..], 9, 9) || (|s| >= 11 && Repeat(IsDigit, s[2..11], 9, 9) && Repeat(IsDigit, s[11..], 3, 3)))
  }

  predicate VatValidator(s: string) { RegexSearch(VatPattern, s) }

  /** "GB" in either case, then exactly 9 or exactly 12 digits: 11 or 14
      characters in all. */
  lemma VatValidatorAccepts(s: string)
    requires !EndsWithNewline(s)
    ensures VatValidator(s) <==>
              && (|s| == 11 || |s| == 14)
              && (s[0] == 'G' || s[0] == 'g') && (s[1] == 'B' || s[1] == 'b')
              && forall i :: 2 <= i < |s| ==> IsDigit(s[i])
  {
    if |s| >= 2 {
      RepeatIff(IsDigit, s[2..], 9, 9);
      assert forall i :: 2 <= i < |s| ==> s[i] == s[2..][i - 2];
      if |s| >= 11 {
        RepeatIff(IsDigit, s[2..11], 9, 9);
        RepeatIff(IsDigit, s[11..], 3, 3);
        assert forall i :: 2 <= i < 11 ==> s[i] == s[2..11][i - 2];
        assert forall i :: 11 <= i < |s| ==> s[i] == s[11..][i - 11];
      }
    }
  }
}
