/**
  The validator inputs used by the repository's form tests
  (tests/tests.py:113-189), checked against the models of the validators.
 */
module ValidatorExamples {
  import opened Text
  import opened Validators

  /** `$` lets one final line feed through: "John\n" is accepted. */
  lemma LetterValidatorFinalNewline()
    ensures LetterValidator("John\n")
  {
    var s := "John";
    OneOrMoreIff(IsLetterOrSpace, s);
    assert "John\n"[..4] == s;
  }

  /** The test inputs "John123", "USA123" and "Anytown123" are rejected. */
  lemma LetterValidatorRejectsTestInputs()
    ensures !LetterValidator("John123") && !LetterValidator("USA123") && !LetterValidator("Anytown123")
  {
    LetterValidatorRejectsDigit("John123", 4);
    LetterValidatorRejectsDigit("USA123", 3);
    LetterValidatorRejectsDigit("Anytown123", 7);
  }

  /** The test input "123 Main St" is accepted. */
  lemma AlphanumericAcceptsAddress()
    ensures AlphanumericValidator("123 Main St")
  {
    var good := "123 Main St";
    forall i | 0 <= i < |good|
      ensures IsAlnum(good[i]) || good[i] == ' '
    {
      assert good[i] in good;
    }
    AlphanumericValidatorAccepts(good);
  }

  /** The test input "Invalid@Address" is rejected. */
  lemma AlphanumericRejectsAt()
    ensures !AlphanumericValidator("Invalid@Address")
  {
    AlphanumericValidatorRejects("Invalid@Address", 7);
  }

  /** "123-456-7890" holds eleven symbols and a final digit. */
  lemma PhoneGroupsOfTestDigits()
    ensures PhoneGroups("123-456-7890", 1)
  {
    var digits := "123-456-7890";
    forall i | 0 <= i < |digits| - 1
      ensures IsPhoneSymbol(digits[i])
    {
      assert digits[i] in digits;
    }
    PhoneGroupsOfSymbols(digits, 1);
  }

  /** The test input "+1 123-456-7890" is accepted. */
  lemma PhoneAcceptsExample()
    ensures PhoneValidator("+1 123-456-7890")
  {
    PhoneGroupsOfTestDigits();
    var body := "1 123-456-7890";
    assert body[2..] == "123-456-7890";
    assert PhoneGroups(body, 0);
    var good := "+1 123-456-7890";
    assert good[1..] == body;
  }

  /** The test input "123" is rejected: too short. */
  lemma PhoneRejectsShort()
    ensures !PhoneValidator("123")
  {
    var bad := "123";
    if PhonePattern(bad) {
      PhonePatternShape(bad);
    }
    assert !EndsWithNewline(bad);
  }

  /** The test input "ABC 123" and the London postcode "SW1A 1AA" are
      accepted. */
  lemma PostcodeAcceptsExamples()
    ensures PostcodeValidator("ABC 123") && PostcodeValidator("SW1A 1AA")
  {
    var s := "ABC 123";
    assert PostcodeValidator(s) by {
      PostcodeValidatorAccepts(s);
      forall i | 1 <= i < |s| - 1
        ensures IsPostcodeInner(s[i])
      {
        assert s[i] in s;
      }
    }
    var t := "SW1A 1AA";
    assert PostcodeValidator(t) by {
      PostcodeValidatorAccepts(t);
      forall i | 1 <= i < |t| - 1
        ensures IsPostcodeInner(t[i])
      {
        assert t[i] in t;
      }
    }
  }

  /** The test input "invalid_postcode" (sixteen characters) and a single
      character are rejected. */
  lemma PostcodeRejectsTestInputs()
    ensures !PostcodeValidator("invalid_postcode") && !PostcodeValidator("N")
  {
    PostcodeValidatorAccepts("invalid_postcode");
    PostcodeValidatorAccepts("N");
  }

  /** The test input "GB123456789" is accepted. */
  lemma VatAcceptsTestInput()
    ensures VatValidator("GB123456789")
  {
    var s := "GB123456789";
    VatValidatorAccepts(s);
    forall i | 2 <= i < |s|
      ensures IsDigit(s[i])
    {
      assert s[i] in s[2..];
    }
  }

  /** The twelve-digit form is accepted in lower case: "gb" followed by
      nine digits and the optional group of three. */
  lemma VatAcceptsLongLowerCase()
    ensures VatValidator("gb123456789012")
  {
    var nine, three := "123456789", "012";
    var t := "gb" + nine + three;
    assert t == "gb123456789012";
    VatValidatorAccepts(t);
    forall i | 2 <= i < |t|
      ensures IsDigit(t[i])
    {
      if i < 11 {
        assert t[i] == nine[i - 2] && nine[i - 2] in nine;
      } else {
        assert t[i] == three[i - 11] && three[i - 11] in three;
      }
    }
  }

  /** The test input "invalid" is rejected. */
  lemma VatRejectsTestInput()
    ensures !VatValidator("invalid")
  {
    VatValidatorAccepts("invalid");
  }
}
