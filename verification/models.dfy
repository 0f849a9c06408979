/**
  The four entity kinds of website/models.py, their choice lists and column
  caps, `Customer.__str__` and the cross-field rule `Exclusion.clean`.
  Dates are day numbers; the `created_at` timestamps are left out.
 */
module Models {
  import opened Wrappers
  import opened Text

  /** A row's primary key. */
  type Id = nat

  datatype Customer = Customer(
    firstName: string, lastName: string, email: string, phone: string,
    address: string, city: string, country: string, postcode: string)

  datatype SupplierFields = SupplierFields(
    name: string, email: string, phone: string,
    address: string, city: string, country: string, postcode: string)

  datatype DetailFields = DetailFields(companyType: string, legalForm: string, vatNo: string)

  datatype ExclusionFields = ExclusionFields(mandatory: string, discretionary: string, exclusionDate: Option<int>)

  /** A row that belongs to exactly one parent row through its foreign key
      (`customer_id` of a Supplier, `supplier_id` of a Detail or Exclusion). */
  datatype Linked<F> = Linked(parent: Id, fields: F)

  type Supplier = Linked<SupplierFields>
  type Detail = Linked<DetailFields>
  type Exclusion = Linked<ExclusionFields>

  const CompanyTypes: seq<string> := [
    "Agricultural", "Automotive", "Clothing & Accessories", "Construction Materials",
    "Education & Training", "Financial Services", "Hospitality, Food & Beverage",
    "IT Services", "Medical Equipment", "Office Supplies"]

  const LegalForms: seq<string> := ["Sole Trader", "Limited Company", "Charity"]

  const MandatoryChoices: seq<string> := ["Theft", "Fraud", "Bribery", "None"]

  const DiscretionaryChoices: seq<string> := ["Bankruptcy", "Improper Procurement", "Breach of Contract", "None"]

  /** The choice lists: ten distinct company types, three legal forms, and
      "None" among the exclusion grounds; "Computers" and "test" are not
      choices. */
  lemma ChoiceLists()
    ensures |CompanyTypes| == 10 && forall i, j :: 0 <= i < j < 10 ==> CompanyTypes[i] != CompanyTypes[j]
    ensures |LegalForms| == 3 && "None" in MandatoryChoices && "None" in DiscretionaryChoices
    ensures "Computers" !in CompanyTypes && "test" !in LegalForms
  {
  }

  /** The `max_length` of every stored text column. */
  predicate CustomerFits(c: Customer)
  {
    && |c.firstName| <= 30 && |c.lastName| <= 30 && |c.email| <= 100 && |c.phone| <= 15
    && |c.address| <= 50 && |c.city| <= 50 && |c.country| <= 50 && |c.postcode| <= 10
  }

  predicate SupplierFits(s: SupplierFields)
  {
    && |s.name| <= 50 && |s.email| <= 100 && |s.phone| <= 15
    && |s.address| <= 50 && |s.city| <= 50 && |s.country| <= 50 && |s.postcode| <= 10
  }

  predicate DetailFits(d: DetailFields)
  {
    |d.companyType| <= 50 && |d.legalForm| <= 50 && |d.vatNo| <= 20
  }

  predicate ExclusionFits(e: ExclusionFields)
  {
    |e.mandatory| <= 50 && |e.discretionary| <= 50
  }

  /** `Customer.__str__`: "<last_name>, <first_name>". */
  function CustomerLabel(c: Customer): string
  {
    c.lastName + ", " + c.firstName
  }

  /** The label reads back: when the last name has no comma (the letter
      validator guarantees that), the text before the first comma is the
      last name and the text after ", " is the first name. */
  lemma CustomerLabelReadsBack(c: Customer)
    requires ',' !in c.lastName
    ensures BeforeFirst(CustomerLabel(c), ',') == c.lastName
    ensures CustomerLabel(c)[|c.lastName| + 2..] == c.firstName
  {
    assert CustomerLabel(c) == c.lastName + [','] + (" " + c.firstName);
    BeforeFirstOfJoin(c.lastName, ',', " " + c.firstName);
  }

  const DateRequiredMessage := "Exclusion date is required if either mandatory or discretionary option is selected."
  const DateNotAllowedMessage := "Exclusion date is not required if both mandatory and discretionary fields are None."

  /** `Exclusion.clean`: `None` when the record passes, otherwise the message
      of the `ValidationError` it raises. */
  function ExclusionClean(e: ExclusionFields): (r: Option<string>)
    ensures r.None? <==> (e.exclusionDate.Some? <==> (e.mandatory != "None" || e.discretionary != "None"))
    ensures r == Some(DateRequiredMessage) <==> (e.mandatory != "None" || e.discretionary != "None") && e.exclusionDate.None?
    ensures r == Some(DateNotAllowedMessage) <==> e.mandatory == "None" && e.discretionary == "None" && e.exclusionDate.Some?
  {
    if (e.mandatory != "None" || e.discretionary != "None") && e.exclusionDate.None? then
      Some(DateRequiredMessage)
    else if e.mandatory == "None" && e.discretionary == "None" && e.exclusionDate.Some? then
      Some(DateNotAllowedMessage)
    else
      None
  }
}
