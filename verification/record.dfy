/**
  `customer_record` (website/views.py:149-173): a Customer, its Suppliers,
  and two lists aligned with the Suppliers holding each one's first Detail
  and first Exclusion, or nothing.
 */
module CustomerView {
  import opened Wrappers
  import opened Models
  import opened Db

  /** Why the page is not shown: nobody is logged in (a redirect home), or
      no Customer has the key (`Customer.DoesNotExist`). */
  datatype ViewError = NotLoggedIn | DoesNotExist

  datatype Record = Record(
    customer: Row<Customer>, suppliers: seq<Row<Supplier>>,
    details: seq<Option<Row<Detail>>>, exclusions: seq<Option<Row<Exclusion>>>)

  /** `objects.get(id=pk)` on a table whose keys are distinct. */
  function Find<T>(rows: seq<Row<T>>, id: Id): (r: Option<Row<T>>)
    ensures r.None? <==> id !in Ids(rows)
    ensures r.Some? ==> r.value in rows && r.value.id == id
  {
    if rows == [] then None
    else if rows[0].id == id then Some(rows[0])
    else Find(rows[1..], id)
  }

  /** `objects.filter(supplier_id=parent).first()`: the row of `parent` with
      the smallest key, when there is one. */
  function FirstChild<F(!new)>(rows: seq<Row<Linked<F>>>, parent: Id): (r: Option<Row<Linked<F>>>)
    ensures r.None? <==> parent !in Parents(rows)
    ensures r.Some? ==> r.value in rows && r.value.val.parent == parent
    ensures r.Some? && Ascending(rows) ==> forall x :: x in rows && x.val.parent == parent ==> r.value.id <= x.id
  {
    if rows == [] then None
    else if rows[0].val.parent == parent then
      assert Ascending(rows) ==> forall x :: x in rows[1..] ==> rows[0].id < x.id by {
        if Ascending(rows) {
          forall x | x in rows[1..] ensures rows[0].id < x.id {
            var m :| 0 <= m < |rows| - 1 && rows[1..][m] == x;
            assert rows[m + 1] == x;
          }
        }
      }
      Some(rows[0])
    else
      FirstChild(rows[1..], parent)
  }

  /** Where each Supplier has at most one Detail, the first Detail of a
      Supplier is its only one. */
  lemma FirstChildIsOnlyChild<F(!new)>(rows: seq<Row<Linked<F>>>, x: Row<Linked<F>>)
    requires UniqueParents(rows) && x in rows
    ensures FirstChild(rows, x.val.parent) == Some(x)
  {
    var y := FirstChild(rows, x.val.parent).value;
    var a :| 0 <= a < |rows| && rows[a] == x;
    var b :| 0 <= b < |rows| && rows[b] == y;
    assert a == b;
  }

  /** The view. The Suppliers are exactly those of the Customer, in table
      order; `details[i]` and `exclusions[i]` belong to `suppliers[i]`. */
  method CustomerRecord(db: Db, authenticated: bool, pk: Id) returns (r: Result<Record, ViewError>)
    ensures !authenticated <==> r == Err(NotLoggedIn)
    ensures authenticated && pk !in Ids(db.customers.rows) <==> r == Err(DoesNotExist)
    ensures r.Ok? ==> r.value.customer in db.customers.rows && r.value.customer.id == pk
    ensures r.Ok? ==> forall x :: x in r.value.suppliers <==> x in db.suppliers.rows && x.val.parent == pk
    ensures r.Ok? && Ascending(db.suppliers.rows) ==> Ascending(r.value.suppliers)
    ensures r.Ok? ==> |r.value.details| == |r.value.suppliers| && |r.value.exclusions| == |r.value.suppliers|
    ensures r.Ok? ==> forall i :: 0 <= i < |r.value.suppliers| ==>
              && r.value.details[i] == FirstChild(db.details.rows, r.value.suppliers[i].id)
              && r.value.exclusions[i] == FirstChild(db.exclusions.rows, r.value.suppliers[i].id)
  {
    if !authenticated {
      return Err(NotLoggedIn);
    }
    var customer := Find(db.customers.rows, pk);
    if customer.None? {
      return Err(DoesNotExist);
    }
    var suppliers := Filter(db.suppliers.rows, (x: Row<Supplier>) => x.val.parent == pk);
    var details, exclusions := FirstChildren(db, suppliers);
    return Ok(Record(customer.value, suppliers, details, exclusions));
  }

  /** The `for supplier in suppliers` loop: one entry per Supplier, in
      order, in each list. */
  method FirstChildren(db: Db, suppliers: seq<Row<Supplier>>)
    returns (details: seq<Option<Row<Detail>>>, exclusions: seq<Option<Row<Exclusion>>>)
    ensures |details| == |suppliers| && |exclusions| == |suppliers|
    ensures forall i :: 0 <= i < |suppliers| ==>
              && details[i] == FirstChild(db.details.rows, suppliers[i].id)
              && exclusions[i] == FirstChild(db.exclusions.rows, suppliers[i].id)
  {
    details := [];
    exclusions := [];
    var i := 0;
    while i < |suppliers|
      invariant 0 <= i <= |suppliers| && |details| == i && |exclusions| == i
      invariant forall j :: 0 <= j < i ==> details[j] == FirstChild(db.details.rows, suppliers[j].id)
      invariant forall j :: 0 <= j < i ==> exclusions[j] == FirstChild(db.exclusions.rows, suppliers[j].id)
    {
      details := details + [FirstChild(db.details.rows, suppliers[i].id)];
      exclusions := exclusions + [FirstChild(db.exclusions.rows, suppliers[i].id)];
      i := i + 1;
    }
  }

  /** In an owned database every Supplier of the record is the Customer's,
      and its Detail entry is its one Detail exactly when it has one. */
  lemma RecordDetailIsTheDetail(db: Db, rec: Record, i: nat, x: Row<Detail>)
    requires Owned(db) && i < |rec.suppliers| && |rec.details| == |rec.suppliers|
    requires rec.details[i] == FirstChild(db.details.rows, rec.suppliers[i].id)
    requires x in db.details.rows
    ensures x.val.parent == rec.suppliers[i].id <==> rec.details[i] == Some(x)
  {
    if x.val.parent == rec.suppliers[i].id {
      FirstChildIsOnlyChild(db.details.rows, x);
    }
  }
}
