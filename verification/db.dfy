/**
  The four tables of website/models.py and the ownership shape their keys
  give them: every Supplier points at one Customer (`customer_id`, a foreign
  key), every Detail and Exclusion at one Supplier (`supplier_id`), a
  Supplier has at most one Detail (`OneToOneField`), and deleting a row
  deletes what points at it (`on_delete=CASCADE`).

  A table is its rows in ascending primary-key order plus the next key to
  hand out. `.first()` orders by primary key, so it sees this order. A
  query without an ordering may come back in any order; the model returns
  it in this one.
 */
module Db {
  import opened Wrappers
  import opened Models

  datatype Row<T> = Row(id: Id, val: T)

  datatype Table<T> = Table(rows: seq<Row<T>>, next: Id)

  predicate Ascending<T>(rows: seq<Row<T>>)
  {
    forall i, j :: 0 <= i < j < |rows| ==> rows[i].id < rows[j].id
  }

  predicate TableValid<T>(t: Table<T>)
  {
    Ascending(t.rows) && forall i :: 0 <= i < |t.rows| ==> t.rows[i].id < t.next
  }

  function Ids<T(==)>(rows: seq<Row<T>>): set<Id>
  {
    set r | r in rows :: r.id
  }

  /** The parents the rows of a child table point at. */
  function Parents<F(==)>(rows: seq<Row<Linked<F>>>): set<Id>
  {
    set r | r in rows :: r.val.parent
  }

  /** `save()` of a new row: it gets the next key, which no row has yet, and
      every earlier row stays as it was. */
  function Insert<T>(t: Table<T>, v: T): (r: Table<T>)
    ensures TableValid(t) ==> TableValid(r) && t.next !in Ids(t.rows)
    ensures Ids(r.rows) == Ids(t.rows) + {t.next}
    ensures |r.rows| == |t.rows| + 1 && r.rows[..|t.rows|] == t.rows && r.rows[|t.rows|] == Row(t.next, v)
  {
    Table(t.rows + [Row(t.next, v)], t.next + 1)
  }

  /** The rows satisfying `keep`, in their original order. */
  function Filter<T(!new,==)>(rows: seq<Row<T>>, keep: Row<T> -> bool): (r: seq<Row<T>>)
    ensures forall x :: x in r <==> x in rows && keep(x)
    ensures Ascending(rows) ==> Ascending(r)
    ensures |r| <= |rows|
  {
    if rows == [] then []
    else if keep(rows[0]) then
      var rest := Filter(rows[1..], keep);
      PrependAscending(rows, rest);
      [rows[0]] + rest
    else Filter(rows[1..], keep)
  }

  /** The first of ascending rows may go in front of any ascending pick
      from the others. */
  lemma PrependAscending<T>(rows: seq<Row<T>>, rest: seq<Row<T>>)
    requires rows != [] && forall x :: x in rest ==> x in rows[1..]
    ensures Ascending(rows) && Ascending(rest) ==> Ascending([rows[0]] + rest)
  {
    if Ascending(rows) && Ascending(rest) {
      forall k | 0 <= k < |rest|
        ensures rows[0].id < rest[k].id
      {
        assert rest[k] in rows[1..];
        var m :| 0 <= m < |rows| - 1 && rows[1..][m] == rest[k];
        assert rows[m + 1] == rest[k];
      }
      var s := [rows[0]] + rest;
      forall i, j | 0 <= i < j < |s|
        ensures s[i].id < s[j].id
      {
        if i > 0 {
          assert s[i] == rest[i - 1] && s[j] == rest[j - 1];
        }
      }
    }
  }

  /** No two rows share a parent. */
  predicate UniqueParents<F>(rows: seq<Row<Linked<F>>>)
  {
    forall i, j :: 0 <= i < j < |rows| ==> rows[i].val.parent != rows[j].val.parent
  }

  /** Rows picked in ascending order out of rows with unique parents still
      have unique parents. */
  lemma UniqueParentsOfSubset<F>(big: seq<Row<Linked<F>>>, small: seq<Row<Linked<F>>>)
    requires UniqueParents(big) && Ascending(small)
    requires forall x :: x in small ==> x in big
    ensures UniqueParents(small)
  {
    forall i, j | 0 <= i < j < |small|
      ensures small[i].val.parent != small[j].val.parent
    {
      assert small[i] in big && small[j] in big;
      var a :| 0 <= a < |big| && big[a] == small[i];
      var b :| 0 <= b < |big| && big[b] == small[j];
      assert a != b;
    }
  }

  datatype Db = Db(
    customers: Table<Customer>, suppliers: Table<Supplier>,
    details: Table<Detail>, exclusions: Table<Exclusion>)

  /** The ownership shape: valid tables, every foreign key pointing at an
      existing row, at most one Detail per Supplier. */
  predicate Owned(db: Db)
  {
    && TableValid(db.customers) && TableValid(db.suppliers)
    && TableValid(db.details) && TableValid(db.exclusions)
    && Parents(db.suppliers.rows) <= Ids(db.customers.rows)
    && Parents(db.details.rows) <= Ids(db.suppliers.rows)
    && Parents(db.exclusions.rows) <= Ids(db.suppliers.rows)
    && UniqueParents(db.details.rows)
  }

  const EmptyDb := Db(Table([], 1), Table([], 1), Table([], 1), Table([], 1))

  lemma EmptyDbOwned()
    ensures Owned(EmptyDb)
  {
  }

  /** The database refuses a row: a foreign key naming no row, or a second
      Detail for one Supplier. */
  datatype DbError = IntegrityError

  /** Saving a new Customer always succeeds and keeps the shape. */
  function SaveCustomer(db: Db, c: Customer): (r: (Db, Id))
    ensures r.1 == db.customers.next && r.1 in Ids(r.0.customers.rows)
    ensures Owned(db) ==> Owned(r.0) && r.1 !in Ids(db.customers.rows)
    ensures r.0.suppliers == db.suppliers && r.0.details == db.details && r.0.exclusions == db.exclusions
    ensures r.0.customers.rows == db.customers.rows + [Row(r.1, c)]
  {
    (db.(customers := Insert(db.customers, c)), db.customers.next)
  }

  /** Saving a new Supplier of `parent`: refused exactly when no Customer
      has that key. */
  function SaveSupplier(db: Db, parent: Id, s: SupplierFields): (r: Result<(Db, Id), DbError>)
    ensures r.Ok? <==> parent in Ids(db.customers.rows)
    ensures r.Ok? ==> && r.value.1 == db.suppliers.next
                      && r.value.0.suppliers.rows == db.suppliers.rows + [Row(r.value.1, Linked(parent, s))]
                      && r.value.0.customers == db.customers && r.value.0.details == db.details
                      && r.value.0.exclusions == db.exclusions
    ensures r.Ok? && Owned(db) ==> Owned(r.value.0)
  {
    if parent !in Ids(db.customers.rows) then Err(IntegrityError)
    else Ok((db.(suppliers := Insert(db.suppliers, Linked(parent, s))), db.suppliers.next))
  }

  /** Saving a new Detail of `parent`: refused exactly when no Supplier has
      that key or it has a Detail already. */
  function SaveDetail(db: Db, parent: Id, d: DetailFields): (r: Result<(Db, Id), DbError>)
    ensures r.Ok? <==> parent in Ids(db.suppliers.rows) && parent !in Parents(db.details.rows)
    ensures r.Ok? ==> && r.value.1 == db.details.next
                      && r.value.0.details.rows == db.details.rows + [Row(r.value.1, Linked(parent, d))]
                      && r.value.0.customers == db.customers && r.value.0.suppliers == db.suppliers
                      && r.value.0.exclusions == db.exclusions
    ensures r.Ok? && Owned(db) ==> Owned(r.value.0)
  {
    if parent !in Ids(db.suppliers.rows) || parent in Parents(db.details.rows) then Err(IntegrityError)
    else
      var t := Insert(db.details, Linked(parent, d));
      assert forall i :: 0 <= i < |db.details.rows| ==> db.details.rows[i] in db.details.rows;
      Ok((db.(details := t), db.details.next))
  }

  /** Saving a new Exclusion of `parent`: refused exactly when no Supplier
      has that key. */
  function SaveExclusion(db: Db, parent: Id, e: ExclusionFields): (r: Result<(Db, Id), DbError>)
    ensures r.Ok? <==> parent in Ids(db.suppliers.rows)
    ensures r.Ok? ==> && r.value.1 == db.exclusions.next
                      && r.value.0.exclusions.rows == db.exclusions.rows + [Row(r.value.1, Linked(parent, e))]
                      && r.value.0.customers == db.customers && r.value.0.suppliers == db.suppliers
                      && r.value.0.details == db.details
    ensures r.Ok? && Owned(db) ==> Owned(r.value.0)
  {
    if parent !in Ids(db.suppliers.rows) then Err(IntegrityError)
    else Ok((db.(exclusions := Insert(db.exclusions, Linked(parent, e))), db.exclusions.next))
  }

  /** Deleting a Customer: the cascade removes its Suppliers and, with them,
      their Details and Exclusions; every other row stays. */
  function DeleteCustomer(db: Db, id: Id): (r: Db)
    ensures id !in Ids(r.customers.rows) && id !in Parents(r.suppliers.rows)
    ensures forall x :: x in r.customers.rows <==> x in db.customers.rows && x.id != id
    ensures forall x :: x in r.suppliers.rows <==> x in db.suppliers.rows && x.val.parent != id
    ensures forall x :: x in r.details.rows <==> x in db.details.rows && x.val.parent in Ids(r.suppliers.rows)
    ensures forall x :: x in r.exclusions.rows <==> x in db.exclusions.rows && x.val.parent in Ids(r.suppliers.rows)
    ensures Owned(db) ==> Owned(r)
  {
    var customers := Filter(db.customers.rows, (x: Row<Customer>) => x.id != id);
    var suppliers := Filter(db.suppliers.rows, (x: Row<Supplier>) => x.val.parent != id);
    var kept := Ids(suppliers);
    var details := Filter(db.details.rows, (x: Row<Detail>) => x.val.parent in kept);
    var exclusions := Filter(db.exclusions.rows, (x: Row<Exclusion>) => x.val.parent in kept);
    var r := Db(
      db.customers.(rows := customers), db.suppliers.(rows := suppliers),
      db.details.(rows := details), db.exclusions.(rows := exclusions));
    DeleteKeepsOwned(db, id, r);
    r
  }

  lemma DeleteKeepsOwned(db: Db, id: Id, r: Db)
    requires forall x :: x in r.customers.rows <==> x in db.customers.rows && x.id != id
    requires forall x :: x in r.suppliers.rows <==> x in db.suppliers.rows && x.val.parent != id
    requires forall x :: x in r.details.rows <==> x in db.details.rows && x.val.parent in Ids(r.suppliers.rows)
    requires forall x :: x in r.exclusions.rows <==> x in db.exclusions.rows && x.val.parent in Ids(r.suppliers.rows)
    requires r.customers.next == db.customers.next && r.suppliers.next == db.suppliers.next
    requires r.details.next == db.details.next && r.exclusions.next == db.exclusions.next
    requires Ascending(db.details.rows) ==> Ascending(r.details.rows)
    requires Ascending(db.customers.rows) ==> Ascending(r.customers.rows)
    requires Ascending(db.suppliers.rows) ==> Ascending(r.suppliers.rows)
    requires Ascending(db.exclusions.rows) ==> Ascending(r.exclusions.rows)
    ensures Owned(db) ==> Owned(r)
  {
    if Owned(db) {
      forall x | x in r.suppliers.rows
        ensures x.val.parent in Ids(r.customers.rows)
      {
        assert x.val.parent in Parents(db.suppliers.rows);
        var y :| y in db.customers.rows && y.id == x.val.parent;
        assert y in r.customers.rows;
      }
      forall x | x in r.details.rows
        ensures x.val.parent in Ids(r.suppliers.rows)
      {
      }
      forall x | x in r.exclusions.rows
        ensures x.val.parent in Ids(r.suppliers.rows)
      {
      }
      assert forall i :: 0 <= i < |r.customers.rows| ==> r.customers.rows[i] in r.customers.rows;
      assert forall i :: 0 <= i < |r.suppliers.rows| ==> r.suppliers.rows[i] in r.suppliers.rows;
      assert forall i :: 0 <= i < |r.details.rows| ==> r.details.rows[i] in r.details.rows;
      assert forall i :: 0 <= i < |r.exclusions.rows| ==> r.exclusions.rows[i] in r.exclusions.rows;
      UniqueParentsOfSubset(db.details.rows, r.details.rows);
    }
  }
}
