/**
  The valid submissions of the repository's form tests
  (tests/tests.py:113-180), checked field by field against the models of
  the forms, and one postcode normalisation.
 */
module FormExamples {
  import opened Text
  import opened Validators
  import opened ValidatorExamples
  import opened Models
  import opened Forms

  /** A value with no surrounding whitespace that passes `validator` is
      accepted as it is by a required `CharField`. */
  lemma TrimmedFieldAccepted(validator: string -> bool, s: string)
    requires s != [] && !IsSpace(s[0]) && !IsSpace(s[|s| - 1]) && validator(s)
    ensures CharFieldAccepts(validator, s) && Strip(s) == s
  {
    StripStable(s);
  }

  /** A non-empty run of ASCII letters passes the letter field. */
  lemma LettersAccepted(s: string)
    requires s != [] && forall i :: 0 <= i < |s| ==> IsLetter(s[i])
    ensures CharFieldAccepts(LetterValidator, s) && Strip(s) == s
  {
    LetterValidatorAccepts(s);
    TrimmedFieldAccepted(LetterValidator, s);
  }

  lemma JohnIsLetters()
    ensures CharFieldAccepts(LetterValidator, "John") && Strip("John") == "John"
  {
    var s := "John";
    forall i | 0 <= i < |s|
      ensures IsLetter(s[i])
    {
      assert s[i] in s;
    }
    LettersAccepted(s);
  }

  lemma DoeIsLetters()
    ensures CharFieldAccepts(LetterValidator, "Doe") && Strip("Doe") == "Doe"
  {
    var s := "Doe";
    forall i | 0 <= i < |s|
      ensures IsLetter(s[i])
    {
      assert s[i] in s;
    }
    LettersAccepted(s);
  }

  lemma AnytownIsLetters()
    ensures CharFieldAccepts(LetterValidator, "Anytown") && Strip("Anytown") == "Anytown"
  {
    var s := "Anytown";
    forall i | 0 <= i < |s|
      ensures IsLetter(s[i])
    {
      assert s[i] in s;
    }
    LettersAccepted(s);
  }

  lemma UsaIsLetters()
    ensures CharFieldAccepts(LetterValidator, "USA") && Strip("USA") == "USA"
  {
    var s := "USA";
    forall i | 0 <= i < |s|
      ensures IsLetter(s[i])
    {
      assert s[i] in s;
    }
    LettersAccepted(s);
  }

  /** The non-letter fields of the valid customer and supplier tests. */
  lemma SharedFieldsAccepted()
    ensures CharFieldAccepts(PhoneValidator, "+1 123-456-7890") && Strip("+1 123-456-7890") == "+1 123-456-7890"
    ensures CharFieldAccepts(AlphanumericValidator, "123 Main St") && Strip("123 Main St") == "123 Main St"
    ensures CharFieldAccepts(PostcodeValidator, "ABC 123") && Strip("ABC 123") == "ABC 123"
    ensures Strip("john@example.com") == "john@example.com"
  {
    PhoneAcceptsExample();
    TrimmedFieldAccepted(PhoneValidator, "+1 123-456-7890");
    AlphanumericAcceptsAddress();
    TrimmedFieldAccepted(AlphanumericValidator, "123 Main St");
    PostcodeAcceptsExamples();
    TrimmedFieldAccepted(PostcodeValidator, "ABC 123");
    StripStable("john@example.com");
  }

  /** A customer whose fields are already trimmed, pass their validators
      and fit their columns is accepted. */
  lemma CustomerOfFields(firstName: string, lastName: string, email: string, phone: string,
                         address: string, city: string, country: string, postcode: string)
    requires CharFieldAccepts(LetterValidator, firstName) && Strip(firstName) == firstName && |firstName| <= 30
    requires CharFieldAccepts(LetterValidator, lastName) && Strip(lastName) == lastName && |lastName| <= 30
    requires email != [] && Strip(email) == email && |email| <= 100
    requires CharFieldAccepts(PhoneValidator, phone) && Strip(phone) == phone && |phone| <= 15
    requires CharFieldAccepts(AlphanumericValidator, address) && Strip(address) == address && |address| <= 50
    requires CharFieldAccepts(LetterValidator, city) && Strip(city) == city && |city| <= 50
    requires CharFieldAccepts(LetterValidator, country) && Strip(country) == country && |country| <= 50
    requires CharFieldAccepts(PostcodeValidator, postcode) && Strip(postcode) == postcode && |postcode| <= 10
    ensures CustomerFormAccepts(Customer(firstName, lastName, email, phone, address, city, country, postcode))
  {
  }

  /** The same for a supplier. */
  lemma SupplierOfFields(name: string, email: string, phone: string, address: string,
                         city: string, country: string, postcode: string)
    requires CharFieldAccepts(AlphanumericValidator, name) && Strip(name) == name && |name| <= 50
    requires email != [] && Strip(email) == email && |email| <= 100
    requires CharFieldAccepts(PhoneValidator, phone) && Strip(phone) == phone && |phone| <= 15
    requires CharFieldAccepts(AlphanumericValidator, address) && Strip(address) == address && |address| <= 50
    requires CharFieldAccepts(LetterValidator, city) && Strip(city) == city && |city| <= 50
    requires CharFieldAccepts(LetterValidator, country) && Strip(country) == country && |country| <= 50
    requires CharFieldAccepts(PostcodeValidator, postcode) && Strip(postcode) == postcode && |postcode| <= 10
    ensures SupplierFormAccepts(SupplierFields(name, email, phone, address, city, country, postcode))
  {
  }

  /** A detail with listed choices and a trimmed valid VAT number is
      accepted. */
  lemma TrimmedDetailAccepted(raw: DetailFields)
    requires raw.companyType in CompanyTypes && raw.legalForm in LegalForms
    requires CharFieldAccepts(VatValidator, raw.vatNo) && Strip(raw.vatNo) == raw.vatNo
    requires DetailFits(raw)
    ensures DetailFormAccepts(raw)
  {
  }

  /** The valid customer of the tests is accepted. */
  lemma CustomerTestInputAccepted()
    ensures CustomerFormAccepts(Customer("John", "Doe", "john@example.com", "+1 123-456-7890",
                                         "123 Main St", "Anytown", "USA", "ABC 123"))
  {
    JohnIsLetters();
    DoeIsLetters();
    AnytownIsLetters();
    UsaIsLetters();
    SharedFieldsAccepted();
    CustomerOfFields("John", "Doe", "john@example.com", "+1 123-456-7890",
                     "123 Main St", "Anytown", "USA", "ABC 123");
  }

  /** "John" passes the alphanumeric field as it is. */
  lemma JohnIsAlphanumeric()
    ensures CharFieldAccepts(AlphanumericValidator, "John") && Strip("John") == "John"
  {
    var s := "John";
    forall i | 0 <= i < |s|
      ensures IsWordChar(s[i]) || IsSpace(s[i])
    {
      assert s[i] in s;
    }
    AlphanumericValidatorAccepts(s);
    TrimmedFieldAccepted(AlphanumericValidator, s);
  }

  /** The valid supplier of the tests is accepted. */
  lemma SupplierTestInputAccepted()
    ensures SupplierFormAccepts(SupplierFields("John", "john@example.com", "+1 123-456-7890",
                                              "123 Main St", "Anytown", "USA", "ABC 123"))
  {
    JohnIsAlphanumeric();
    AnytownIsLetters();
    UsaIsLetters();
    SharedFieldsAccepted();
    SupplierOfFields("John", "john@example.com", "+1 123-456-7890",
                     "123 Main St", "Anytown", "USA", "ABC 123");
  }

  /** The valid detail of the tests is accepted. */
  lemma DetailTestInputAccepted()
    ensures DetailFormAccepts(DetailFields("Agricultural", "Charity", "GB123456789"))
  {
    VatAcceptsTestInput();
    TrimmedFieldAccepted(VatValidator, "GB123456789");
    assert CompanyTypes[0] == "Agricultural" && LegalForms[2] == "Charity";
    TrimmedDetailAccepted(DetailFields("Agricultural", "Charity", "GB123456789"));
  }

  /** A lower-case postcode is saved in upper case. */
  lemma PostcodeUpperCased()
    ensures Upper("sw1a 1aa") == "SW1A 1AA"
  {
    var s := "sw1a 1aa";
    var u := Upper(s);
    forall i | 0 <= i < |s|
      ensures u[i] == "SW1A 1AA"[i]
    {
      assert u[i] == ToUpper(s[i]);
    }
  }
}
