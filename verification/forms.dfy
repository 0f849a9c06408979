/**
  The forms of website/forms.py: which submissions each form accepts, and
  the values its `clean_<field>` methods hand on to be saved.

  A `CharField` strips surrounding whitespace before anything else runs; an
  empty result fails as a required field; otherwise the field's validator
  sees the stripped text, and `clean_<field>` receives it. Because a final
  line feed is whitespace, the `$`-before-a-final-newline case of the
  validators cannot arise through a form. The column caps of the model are
  checked on the cleaned values afterwards.
 */
module Forms {
  import opened Wrappers
  import opened Text
  import opened Validators
  import opened Models

  /** A required `CharField` with one validator. */
  predicate CharFieldAccepts(validator: string -> bool, raw: string)
  {
    Strip(raw) != [] && validator(Strip(raw))
  }

  lemma StrippedHasNoFinalNewline(raw: string)
    ensures !EndsWithNewline(Strip(raw))
  {
  }

  /** A stripped string is its own stripping. */
  lemma StripStable(t: string)
    requires t == [] || (!IsSpace(t[0]) && !IsSpace(t[|t| - 1]))
    ensures Strip(t) == t
  {
    assert StripLeft(t) == t;
  }

  // ---- the cleaners and the validators they must not break ----

  /** `.title()` keeps a letters-and-spaces value acceptable, a final line
      feed included: `title` leaves the line feed where it is. */
  lemma TitleKeepsLetterValidator(s: string)
    requires LetterValidator(s)
    ensures LetterValidator(Title(s))
  {
    var t := Title(s);
    TitleKeepsClasses(s);
    if LetterPattern(s) {
      OneOrMoreIff(IsLetterOrSpace, s);
      OneOrMoreIff(IsLetterOrSpace, t);
    } else {
      var n := |s|;
      var body, tbody := s[..n - 1], t[..n - 1];
      assert t[n - 1] == '\n';
      OneOrMoreIff(IsLetterOrSpace, body);
      forall i | 0 <= i < |tbody|
        ensures IsLetterOrSpace(tbody[i])
      {
        assert tbody[i] == t[i] && body[i] == s[i];
      }
      OneOrMoreIff(IsLetterOrSpace, tbody);
    }
  }

  /** `.title()` keeps a word-characters-and-whitespace value acceptable. */
  lemma TitleKeepsAlphanumericValidator(s: string)
    requires AlphanumericValidator(s)
    ensures AlphanumericValidator(Title(s))
  {
    AlphanumericValidatorAccepts(s);
    TitleKeepsClasses(s);
    AlphanumericValidatorAccepts(Title(s));
  }

  /** `.upper()` keeps a whole-string postcode match. */
  lemma UpperKeepsPostcodePattern(s: string)
    requires PostcodePattern(s)
    ensures PostcodePattern(Upper(s))
  {
    PostcodeValidatorAccepts(s);
    var u := Upper(s);
    forall i | 0 <= i < |s|
      ensures IsAlnum(u[i]) == IsAlnum(s[i]) && IsPostcodeInner(u[i]) == IsPostcodeInner(s[i])
    {
      CaseMapsKeepClasses(s[i]);
    }
    PostcodeValidatorAccepts(u);
  }

  /** `.upper()` keeps a postcode acceptable, a final line feed included:
      `upper` leaves the line feed where it is. */
  lemma UpperKeepsPostcodeValidator(s: string)
    requires PostcodeValidator(s)
    ensures PostcodeValidator(Upper(s))
  {
    if PostcodePattern(s) {
      UpperKeepsPostcodePattern(s);
    } else {
      var n := |s|;
      var body, u := s[..n - 1], Upper(s);
      UpperKeepsPostcodePattern(body);
      assert u[n - 1] == '\n';
      assert u[..n - 1] == Upper(body);
    }
  }

  /** `clean_vat_no`: the upper-cased number still passes the validator,
      starts with "GB", and upper-casing it again changes nothing. */
  lemma CleanVatKeepsValidator(s: string)
    requires !EndsWithNewline(s) && VatValidator(s)
    ensures VatValidator(Upper(s)) && Upper(s)[..2] == "GB" && (|Upper(s)| == 11 || |Upper(s)| == 14)
    ensures Upper(Upper(s)) == Upper(s)
  {
    VatValidatorAccepts(s);
    forall i | 0 <= i < |s| {
      CaseMapsKeepClasses(s[i]);
    }
    VatValidatorAccepts(Upper(s));
    UpperIdempotent(s);
  }

  /** A stripped value that is title-cased comes back unchanged from a second
      round of stripping and title-casing. */
  lemma TitleFieldStable(raw: string)
    ensures Title(Strip(Title(Strip(raw)))) == Title(Strip(raw))
    ensures |Title(Strip(raw))| == |Strip(raw)|
  {
    var s := Strip(raw);
    TitleKeepsClasses(s);
    StripStable(Title(s));
    TitleIdempotent(s);
  }

  /** The same for upper-casing. */
  lemma UpperFieldStable(raw: string)
    ensures Upper(Strip(Upper(Strip(raw)))) == Upper(Strip(raw))
  {
    var s := Strip(raw);
    if s != [] {
      CaseMapsKeepClasses(s[0]);
      CaseMapsKeepClasses(s[|s| - 1]);
    }
    StripStable(Upper(s));
    UpperIdempotent(s);
  }

  /** A letters-only field: the title-cased value still passes and is stable. */
  lemma LetterFieldCleans(raw: string)
    requires CharFieldAccepts(LetterValidator, raw)
    ensures LetterValidator(Title(Strip(raw)))
    ensures Title(Strip(Title(Strip(raw)))) == Title(Strip(raw))
  {
    StrippedHasNoFinalNewline(raw);
    TitleKeepsLetterValidator(Strip(raw));
    TitleFieldStable(raw);
  }

  /** A word-characters field: the title-cased value still passes and is stable. */
  lemma AlphanumericFieldCleans(raw: string)
    requires CharFieldAccepts(AlphanumericValidator, raw)
    ensures AlphanumericValidator(Title(Strip(raw)))
    ensures Title(Strip(Title(Strip(raw)))) == Title(Strip(raw))
  {
    TitleKeepsAlphanumericValidator(Strip(raw));
    TitleFieldStable(raw);
  }

  /** A postcode field: the upper-cased value still passes, keeps its length and is stable. */
  lemma PostcodeFieldCleans(raw: string)
    requires CharFieldAccepts(PostcodeValidator, raw)
    ensures PostcodeValidator(Upper(Strip(raw))) && 2 <= |Upper(Strip(raw))| <= 12
    ensures Upper(Strip(Upper(Strip(raw)))) == Upper(Strip(raw))
  {
    StrippedHasNoFinalNewline(raw);
    UpperKeepsPostcodeValidator(Strip(raw));
    PostcodeValidatorAccepts(Strip(raw));
    UpperFieldStable(raw);
  }

  /** A field saved as stripped. */
  lemma PlainFieldCleans(raw: string)
    ensures Strip(Strip(raw)) == Strip(raw)
  {
    StripStable(Strip(raw));
  }

  // ---- AddCustomerForm ----

  /** `AddCustomerForm.cleaned_data`: names, address, city and country
      title-cased, the postcode upper-cased, everything stripped. */
  function CleanCustomer(raw: Customer): Customer
  {
    Customer(
      Title(Strip(raw.firstName)), Title(Strip(raw.lastName)), Strip(raw.email), Strip(raw.phone),
      Title(Strip(raw.address)), Title(Strip(raw.city)), Title(Strip(raw.country)), Upper(Strip(raw.postcode)))
  }

  /** Whether `AddCustomerForm` accepts a submission (the e-mail syntax check
      of `EmailField` aside). */
  predicate CustomerFormAccepts(raw: Customer)
  {
    && CharFieldAccepts(LetterValidator, raw.firstName)
    && CharFieldAccepts(LetterValidator, raw.lastName)
    && Strip(raw.email) != []
    && CharFieldAccepts(PhoneValidator, raw.phone)
    && CharFieldAccepts(AlphanumericValidator, raw.address)
    && CharFieldAccepts(LetterValidator, raw.city)
    && CharFieldAccepts(LetterValidator, raw.country)
    && CharFieldAccepts(PostcodeValidator, raw.postcode)
    && CustomerFits(CleanCustomer(raw))
  }

  /** What an accepted customer form saves still passes every validator of
      the form and every column cap, so the postcode has at most 10 and the
      phone at most 15 characters; and cleaning it again changes nothing. */
  lemma CleanCustomerKeepsValidity(raw: Customer)
    requires CustomerFormAccepts(raw)
    ensures var c := CleanCustomer(raw);
      && LetterValidator(c.firstName) && LetterValidator(c.lastName)
      && PhoneValidator(c.phone) && AlphanumericValidator(c.address)
      && LetterValidator(c.city) && LetterValidator(c.country)
      && PostcodeValidator(c.postcode) && CustomerFits(c)
      && 2 <= |c.postcode| <= 10 && |c.phone| <= 15
    ensures CleanCustomer(CleanCustomer(raw)) == CleanCustomer(raw)
  {
    LetterFieldCleans(raw.firstName);
    LetterFieldCleans(raw.lastName);
    AlphanumericFieldCleans(raw.address);
    LetterFieldCleans(raw.city);
    LetterFieldCleans(raw.country);
    PostcodeFieldCleans(raw.postcode);
    PlainFieldCleans(raw.email);
    PlainFieldCleans(raw.phone);
  }

  // ---- AddSupplierForm ----

  function CleanSupplier(raw: SupplierFields): SupplierFields
  {
    SupplierFields(
      Title(Strip(raw.name)), Strip(raw.email), Strip(raw.phone),
      Title(Strip(raw.address)), Title(Strip(raw.city)), Title(Strip(raw.country)), Upper(Strip(raw.postcode)))
  }

  predicate SupplierFormAccepts(raw: SupplierFields)
  {
    && CharFieldAccepts(AlphanumericValidator, raw.name)
    && Strip(raw.email) != []
    && CharFieldAccepts(PhoneValidator, raw.phone)
    && CharFieldAccepts(AlphanumericValidator, raw.address)
    && CharFieldAccepts(LetterValidator, raw.city)
    && CharFieldAccepts(LetterValidator, raw.country)
    && CharFieldAccepts(PostcodeValidator, raw.postcode)
    && SupplierFits(CleanSupplier(raw))
  }

  /** What an accepted supplier form saves still passes every validator and
      cap, and cleaning it again changes nothing. */
  lemma CleanSupplierKeepsValidity(raw: SupplierFields)
    requires SupplierFormAccepts(raw)
    ensures var s := CleanSupplier(raw);
      && AlphanumericValidator(s.name) && PhoneValidator(s.phone)
      && AlphanumericValidator(s.address)
      && LetterValidator(s.city) && LetterValidator(s.country)
      && PostcodeValidator(s.postcode) && SupplierFits(s)
      && 2 <= |s.postcode| <= 10 && |s.phone| <= 15
    ensures CleanSupplier(CleanSupplier(raw)) == CleanSupplier(raw)
  {
    AlphanumericFieldCleans(raw.name);
    AlphanumericFieldCleans(raw.address);
    LetterFieldCleans(raw.city);
    LetterFieldCleans(raw.country);
    PostcodeFieldCleans(raw.postcode);
    PlainFieldCleans(raw.email);
    PlainFieldCleans(raw.phone);
  }

  // ---- AddDetailForm ----

  function CleanDetail(raw: DetailFields): DetailFields
  {
    DetailFields(raw.companyType, raw.legalForm, Upper(Strip(raw.vatNo)))
  }

  /** Both choices are required and must be listed; the VAT number must pass
      its validator. */
  predicate DetailFormAccepts(raw: DetailFields)
  {
    && raw.companyType in CompanyTypes
    && raw.legalForm in LegalForms
    && CharFieldAccepts(VatValidator, raw.vatNo)
    && DetailFits(CleanDetail(raw))
  }

  /** An accepted detail form saves an upper-case "GB" number of 11 or 14
      characters that still passes the validator. */
  lemma CleanDetailKeepsValidity(raw: DetailFields)
    requires DetailFormAccepts(raw)
    ensures var d := CleanDetail(raw);
      && VatValidator(d.vatNo) && d.vatNo[..2] == "GB" && (|d.vatNo| == 11 || |d.vatNo| == 14)
      && d.companyType in CompanyTypes && d.legalForm in LegalForms
    ensures CleanDetail(CleanDetail(raw)) == CleanDetail(raw)
  {
    StrippedHasNoFinalNewline(raw.vatNo);
    CleanVatKeepsValidator(Strip(raw.vatNo));
    UpperFieldStable(raw.vatNo);
  }

  /** The test submission: "Computers" and "test" are not choices and
      "invalid" is not a VAT number. */
  lemma DetailFormRejectsTestInput()
    ensures !DetailFormAccepts(DetailFields("Computers", "test", "invalid"))
  {
    ChoiceLists();
  }

  // ---- AddExclusionForm ----

  /** `days=365 * 10 + 3`. */
  const ExclusionWindowDays := 365 * 10 + 3

  /** A `ChoiceField(required=False)`: blank, or one of the choices. */
  predicate OptionalChoice(s: string, choices: seq<string>)
  {
    s == "" || s in choices
  }

  /** The `MinValueValidator`/`MaxValueValidator` pair on `exclusion_date`,
      whose bounds were computed from `loadDay`, the day the module was
      imported; a blank date skips both. */
  function ExclusionDateAccepted(date: Option<int>, loadDay: int): (ok: bool)
    ensures ok <==> date.None? || (loadDay - 3653 <= date.value && date.value <= loadDay)
  {
    match date
    case None => true
    case Some(d) => !(d > loadDay) && !(d < loadDay - ExclusionWindowDays)
  }

  /** The window for every load day: it is closed at both ends, the load
      day itself and the day 3653 days earlier are in it, the days just
      outside are not, and a blank date always passes. */
  lemma ExclusionWindowEdges(loadDay: int)
    ensures ExclusionDateAccepted(None, loadDay)
    ensures ExclusionDateAccepted(Some(loadDay), loadDay)
    ensures ExclusionDateAccepted(Some(loadDay - ExclusionWindowDays), loadDay)
    ensures !ExclusionDateAccepted(Some(loadDay + 1), loadDay)
    ensures !ExclusionDateAccepted(Some(loadDay - ExclusionWindowDays - 1), loadDay)
  {
  }

  /** The accepted dates form an interval: a day between two accepted days
      is accepted. */
  lemma ExclusionWindowIsInterval(a: int, b: int, c: int, loadDay: int)
    requires a <= b <= c
    requires ExclusionDateAccepted(Some(a), loadDay) && ExclusionDateAccepted(Some(c), loadDay)
    ensures ExclusionDateAccepted(Some(b), loadDay)
  {
  }

  /** Whether `AddExclusionForm` accepts a submission: the choice fields, the
      date window, and the model's own `clean`. */
  predicate ExclusionFormAccepts(raw: ExclusionFields, loadDay: int)
  {
    && OptionalChoice(raw.mandatory, MandatoryChoices)
    && OptionalChoice(raw.discretionary, DiscretionaryChoices)
    && ExclusionDateAccepted(raw.exclusionDate, loadDay)
    && ExclusionClean(raw).None?
    && ExclusionFits(raw)
  }

  /** With listed or blank choices, the form accepts exactly when the date
      lies in the window and is given if and only if some ground other than
      "None" is chosen. A blank choice counts as a ground, since it is not
      "None". */
  lemma ExclusionFormAcceptsIff(raw: ExclusionFields, loadDay: int)
    requires OptionalChoice(raw.mandatory, MandatoryChoices) && OptionalChoice(raw.discretionary, DiscretionaryChoices)
    ensures ExclusionFormAccepts(raw, loadDay) <==>
              && (raw.exclusionDate.Some? <==> (raw.mandatory != "None" || raw.discretionary != "None"))
              && (raw.exclusionDate.Some? ==> loadDay - 3653 <= raw.exclusionDate.value <= loadDay)
  {
  }

  /** The cross-field cases: a ground without a date, and a date without a
      ground, are both rejected; a ground with a date in the window is not.
      Blank choices are accepted, and need a date like any other ground. */
  lemma ExclusionFormExamples(loadDay: int)
    ensures !ExclusionFormAccepts(ExclusionFields("Theft", "None", None), loadDay)
    ensures !ExclusionFormAccepts(ExclusionFields("None", "None", Some(loadDay)), loadDay)
    ensures ExclusionFormAccepts(ExclusionFields("Theft", "None", Some(loadDay - 100)), loadDay)
    ensures !ExclusionFormAccepts(ExclusionFields("Theft", "None", Some(loadDay + 1)), loadDay)
    ensures !ExclusionFormAccepts(ExclusionFields("Theft", "None", Some(loadDay - 3654)), loadDay)
    ensures !ExclusionFormAccepts(ExclusionFields("John123", "Doe123", None), loadDay)
    ensures ExclusionFormAccepts(ExclusionFields("", "", Some(loadDay)), loadDay)
    ensures !ExclusionFormAccepts(ExclusionFields("", "", None), loadDay)
  {
  }

  // ---- SignupForm ----

  const EmailTakenMessage := "This email address is already registered."

  /** `User.objects.filter(email=email).exists()`: a scan over the e-mail
      addresses of the user rows, in table order. */
  function EmailExists(users: seq<string>, email: string): (b: bool)
    ensures b <==> email in users
  {
    if users == [] then false
    else users[0] == email || EmailExists(users[1..], email)
  }

  /** `SignupForm.clean_email` against the e-mail addresses of the existing
      users: the address passes unchanged exactly when no user has it. */
  function CleanEmail(email: string, users: seq<string>): (r: Result<string, string>)
    ensures r.Ok? <==> email !in users
    ensures r.Ok? ==> r.value == email
    ensures r.Err? ==> r.error == EmailTakenMessage
  {
    if EmailExists(users, email) then Err(EmailTakenMessage) else Ok(email)
  }

  /** Once a user registers with `e`, a second sign-up with `e` is refused,
      and every other address gets the answer it got before. */
  lemma RegisteringTakesEmail(users: seq<string>, e: string, x: string)
    ensures CleanEmail(e, users + [e]) == Err(EmailTakenMessage)
    ensures x != e ==> CleanEmail(x, users + [e]) == CleanEmail(x, users)
  {
    assert (users + [e])[|users|] == e;
    if x != e {
      assert x in users + [e] <==> x in users;
    }
  }
}
