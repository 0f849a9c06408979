/**
  `MyWizardView.done` (website/views.py:270-300): a fold over the validated
  forms of the wizard, in order, that saves each one and links it to the
  parent carried in the session, then drops the carried keys and
  redirects home.

  The session holds the saved Customer under "customer" and the saved
  Supplier under "supplier"; a row is carried by its key, and a saved row
  is always truthy. The loop dispatches on the form's prefix; because
  Python's `prefix == "detail" or "exclusion"` is true for every prefix,
  its final error branch can never be taken.
 */
module Wizard {
  import opened Wrappers
  import opened Models
  import opened Db

  /** A validated form of the wizard, holding the row it saves. */
  datatype Form =
    | CustomerForm(customer: Customer)
    | SupplierForm(supplier: SupplierFields)
    | DetailForm(detail: DetailFields)
    | ExclusionForm(exclusion: ExclusionFields)

  /** The step name paired with each form class in `FORMS`. */
  function Prefix(f: Form): string
  {
    match f
    case CustomerForm(_) => "customer"
    case SupplierForm(_) => "supplier"
    case DetailForm(_) => "detail"
    case ExclusionForm(_) => "exclusion"
  }

  /** Python truthiness of a string. */
  predicate Truthy(s: string) { s != [] }

  /** `prefix == "detail" or "exclusion"`: when the comparison is false,
      `or` yields the string "exclusion", which is truthy. */
  predicate DetailOrExclusion(prefix: string)
  {
    prefix == "detail" || Truthy("exclusion")
  }

  /** The four arms of the `if`/`elif` chain in `done`. */
  datatype Branch = CustomerBranch | SupplierBranch | ChildBranch | ErrorBranch

  /** The arm a prefix takes: every prefix but "customer" and "supplier"
      lands in the detail-or-exclusion arm, so the error arm is dead. */
  function BranchOf(prefix: string): (b: Branch)
    ensures b == CustomerBranch <==> prefix == "customer"
    ensures b == SupplierBranch <==> prefix == "supplier"
    ensures b == ChildBranch <==> prefix != "customer" && prefix != "supplier"
    ensures b != ErrorBranch
  {
    if prefix == "customer" then CustomerBranch
    else if prefix == "supplier" then SupplierBranch
    else if DetailOrExclusion(prefix) then ChildBranch
    else ErrorBranch
  }

  /** The part of `request.session` that `done` reads and writes. */
  type Session = map<string, Id>

  /** Every key but "customer" and "supplier" keeps its value. */
  ghost predicate OtherKeysUnchanged(before: Session, after: Session)
  {
    forall k :: k != "customer" && k != "supplier" ==>
      (k in after <==> k in before) && (k in before ==> after[k] == before[k])
  }

  datatype State = State(db: Db, session: Session)

  /** How `done` ends: a redirect home, a step back to the form (the error
      arm), or an exception from the database. */
  datatype Outcome = Redirected | WentBack | Raised(error: DbError)

  datatype StepResult = Continue(state: State) | Stop(outcome: Outcome, state: State)

  /** `form.save()` with the foreign key set to `parent`; a Customer has no
      foreign key and ignores it. */
  function Save(db: Db, f: Form, parent: Id): Result<(Db, Id), DbError>
  {
    match f
    case CustomerForm(c) => Ok(SaveCustomer(db, c))
    case SupplierForm(s) => SaveSupplier(db, parent, s)
    case DetailForm(d) => SaveDetail(db, parent, d)
    case ExclusionForm(e) => SaveExclusion(db, parent, e)
  }

  /** One pass of the loop body. A Supplier form with no Customer carried,
      or a Detail or Exclusion form with no Supplier carried, is skipped
      without a word; a refused save stops the loop with nothing changed. */
  function Step(st: State, f: Form): (r: StepResult)
    ensures r.Stop? ==> r.outcome.Raised? && r.state == st
    ensures OtherKeysUnchanged(st.session, r.state.session)
    ensures Owned(st.db) ==> Owned(r.state.db)
    ensures f.SupplierForm? && "customer" !in st.session ==> r == Continue(st)
    ensures (f.DetailForm? || f.ExclusionForm?) && "supplier" !in st.session ==> r == Continue(st)
    ensures f.CustomerForm? ==> r.Continue? && r.state.session == st.session["customer" := st.db.customers.next]
  {
    var b := BranchOf(Prefix(f));
    if b == CustomerBranch then
      match Save(st.db, f, 0)
      case Ok((db, id)) => Continue(State(db, st.session["customer" := id]))
      case Err(e) => Stop(Raised(e), st)
    else if b == SupplierBranch then
      if "customer" !in st.session then Continue(st)
      else
        match Save(st.db, f, st.session["customer"])
        case Ok((db, id)) => Continue(State(db, st.session["supplier" := id]))
        case Err(e) => Stop(Raised(e), st)
    else if b == ChildBranch then
      if "supplier" !in st.session then Continue(st)
      else
        match Save(st.db, f, st.session["supplier"])
        case Ok((db, _)) => Continue(State(db, st.session))
        case Err(e) => Stop(Raised(e), st)
    else
      assert false;
      Stop(WentBack, st)
  }

  /** The `for form in form_list` loop. */
  function Loop(st: State, forms: seq<Form>): (r: StepResult)
    ensures r.Stop? ==> r.outcome.Raised?
    ensures OtherKeysUnchanged(st.session, r.state.session)
    ensures Owned(st.db) ==> Owned(r.state.db)
    decreases |forms|
  {
    if forms == [] then Continue(st)
    else
      match Step(st, forms[0])
      case Continue(next) => Loop(next, forms[1..])
      case Stop(o, s) => Stop(o, s)
  }

  /** Deleting the carried keys after the loop. */
  function RemoveCarried(session: Session): (r: Session)
    ensures "customer" !in r && "supplier" !in r
    ensures OtherKeysUnchanged(session, r)
  {
    session - {"customer", "supplier"}
  }

  datatype DoneResult = DoneResult(outcome: Outcome, state: State)

  /** `done`: never goes back to a step; on the redirect neither carried
      key is left in the session; no other session key changes; and the
      ownership shape of the database is kept. */
  function Done(st: State, forms: seq<Form>): (r: DoneResult)
    ensures r.outcome != WentBack
    ensures r.outcome == Redirected ==> "customer" !in r.state.session && "supplier" !in r.state.session
    ensures OtherKeysUnchanged(st.session, r.state.session)
    ensures Owned(st.db) ==> Owned(r.state.db)
  {
    match Loop(st, forms)
    case Continue(s) => DoneResult(Redirected, State(s.db, RemoveCarried(s.session)))
    case Stop(o, s) => DoneResult(o, s)
  }

  lemma StepCustomer(st: State, c: Customer)
    ensures Step(st, CustomerForm(c)) == Continue(State(SaveCustomer(st.db, c).0, st.session["customer" := st.db.customers.next]))
  {
  }

  lemma StepSupplier(st: State, s: SupplierFields)
    requires "customer" in st.session && st.session["customer"] in Ids(st.db.customers.rows)
    ensures Step(st, SupplierForm(s)) ==
              Continue(State(SaveSupplier(st.db, st.session["customer"], s).value.0, st.session["supplier" := st.db.suppliers.next]))
  {
  }

  lemma StepDetail(st: State, d: DetailFields)
    requires "supplier" in st.session && st.session["supplier"] in Ids(st.db.suppliers.rows)
    requires st.session["supplier"] !in Parents(st.db.details.rows)
    ensures Step(st, DetailForm(d)) == Continue(State(SaveDetail(st.db, st.session["supplier"], d).value.0, st.session))
  {
  }

  lemma StepExclusion(st: State, e: ExclusionFields)
    requires "supplier" in st.session && st.session["supplier"] in Ids(st.db.suppliers.rows)
    ensures Step(st, ExclusionForm(e)) == Continue(State(SaveExclusion(st.db, st.session["supplier"], e).value.0, st.session))
  {
  }

  /** The customer and supplier steps of the wizard's form list: a new
      Customer, a new Supplier of it, and both carried on. */
  lemma ParentSteps(st: State, c: Customer, s: SupplierFields, rest: seq<Form>)
    requires Owned(st.db)
    ensures var cid := st.db.customers.next;
            var sid := st.db.suppliers.next;
            var db := SaveCustomer(st.db, c).0;
            var db' := db.(suppliers := Insert(db.suppliers, Linked(cid, s)));
            && Owned(db') && sid !in Parents(db'.details.rows) && sid in Ids(db'.suppliers.rows)
            && Loop(st, [CustomerForm(c), SupplierForm(s)] + rest)
               == Loop(State(db', st.session["customer" := cid]["supplier" := sid]), rest)
  {
    var forms := [CustomerForm(c), SupplierForm(s)] + rest;
    var cid := st.db.customers.next;
    StepCustomer(st, c);
    var s1 := State(SaveCustomer(st.db, c).0, st.session["customer" := cid]);
    assert Loop(st, forms) == Loop(s1, forms[1..]);
    StepSupplier(s1, s);
    assert forms[1..][1..] == rest;
  }

  /** The detail and exclusion steps with a fresh Supplier carried: one row
      each, linked to it. */
  lemma ChildSteps(st: State, d: DetailFields, e: ExclusionFields)
    requires Owned(st.db) && "supplier" in st.session
    requires st.session["supplier"] in Ids(st.db.suppliers.rows) && st.session["supplier"] !in Parents(st.db.details.rows)
    ensures var sid := st.session["supplier"];
            var db := st.db.(details := Insert(st.db.details, Linked(sid, d)));
            var db' := db.(exclusions := Insert(db.exclusions, Linked(sid, e)));
            Loop(st, [DetailForm(d), ExclusionForm(e)]) == Continue(State(db', st.session))
  {
    var forms := [DetailForm(d), ExclusionForm(e)];
    var sid := st.session["supplier"];
    StepDetail(st, d);
    var s1 := State(SaveDetail(st.db, sid, d).value.0, st.session);
    assert Loop(st, forms) == Loop(s1, forms[1..]);
    StepExclusion(s1, e);
    assert forms[1..][1..] == [];
  }

  /** The wizard's own form list, customer, supplier, detail, exclusion,
      saves exactly one row in each table, the Supplier linked to the new
      Customer and the Detail and Exclusion to the new Supplier, whatever the
      session carried before. */
  lemma StandardRun(st: State, c: Customer, s: SupplierFields, d: DetailFields, e: ExclusionFields)
    requires Owned(st.db)
    ensures var r := Done(st, [CustomerForm(c), SupplierForm(s), DetailForm(d), ExclusionForm(e)]);
            var cid := st.db.customers.next;
            var sid := st.db.suppliers.next;
            && r.outcome == Redirected
            && r.state.db.customers.rows == st.db.customers.rows + [Row(cid, c)]
            && r.state.db.suppliers.rows == st.db.suppliers.rows + [Row(sid, Linked(cid, s))]
            && r.state.db.details.rows == st.db.details.rows + [Row(st.db.details.next, Linked(sid, d))]
            && r.state.db.exclusions.rows == st.db.exclusions.rows + [Row(st.db.exclusions.next, Linked(sid, e))]
  {
    var rest := [DetailForm(d), ExclusionForm(e)];
    assert [CustomerForm(c), SupplierForm(s), DetailForm(d), ExclusionForm(e)] == [CustomerForm(c), SupplierForm(s)] + rest;
    ParentSteps(st, c, s, rest);
    var cid := st.db.customers.next;
    var sid := st.db.suppliers.next;
    var db := SaveCustomer(st.db, c).0;
    var db' := db.(suppliers := Insert(db.suppliers, Linked(cid, s)));
    ChildSteps(State(db', st.session["customer" := cid]["supplier" := sid]), d, e);
  }

  /** Submitting the same four forms twice saves two Customers: `done`
      does not look for an existing row with the same fields. */
  lemma NoDeduplication(st: State, c: Customer, s: SupplierFields, d: DetailFields, e: ExclusionFields)
    requires Owned(st.db)
    ensures var forms := [CustomerForm(c), SupplierForm(s), DetailForm(d), ExclusionForm(e)];
            var once := Done(st, forms).state;
            var twice := Done(once, forms).state;
            |twice.db.customers.rows| == |st.db.customers.rows| + 2
            && twice.db.customers.rows[|st.db.customers.rows|].val == c
            && twice.db.customers.rows[|st.db.customers.rows| + 1].val == c
  {
    var forms := [CustomerForm(c), SupplierForm(s), DetailForm(d), ExclusionForm(e)];
    StandardRun(st, c, s, d, e);
    var once := Done(st, forms).state;
    StandardRun(once, c, s, d, e);
  }

  /** With no Customer saved in this run or carried in, nothing is saved:
      every Supplier, Detail and Exclusion form is skipped. */
  lemma {:induction false} NoParentNoSave(st: State, forms: seq<Form>)
    requires "customer" !in st.session && "supplier" !in st.session
    requires forall i :: 0 <= i < |forms| ==> !forms[i].CustomerForm?
    ensures Loop(st, forms) == Continue(st)
    ensures Done(st, forms) == DoneResult(Redirected, State(st.db, RemoveCarried(st.session)))
    decreases |forms|
  {
    if forms != [] {
      NoParentNoSave(st, forms[1..]);
    }
  }
}
