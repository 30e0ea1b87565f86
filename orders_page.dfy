/**
 * The orders page: the local list of fetched orders, the search box, the
 * status badge and the two-state status toggle.
 */
module OrdersPage {
  import opened Wrappers
  import opened Lists
  import opened Store
  import ListPage

  /** The two status values the page knows: "completed" and "in progress". */
  const Completed: string := "مكتمل"
  const InProgress: string := "قيد التنفيذ"

  /** A stored status that is exactly one of the two known values. */
  predicate IsKnownStatus(status: Option<Value>) {
    status == Some(Str(Completed)) || status == Some(Str(InProgress))
  }

  /** The status the toggle writes: back to in-progress from completed, otherwise completed
      (free text and a missing status included). */
  function NewStatus(current: Option<Value>): (r: string)
    ensures r == InProgress <==> current == Some(Str(Completed))
    ensures r == Completed <==> current != Some(Str(Completed))
  {
    if current == Some(Str(Completed)) then InProgress else Completed
  }

  /** Two toggles restore a known status; from any other value they end at in-progress. */
  lemma ToggleTwice(current: Option<Value>)
    ensures IsKnownStatus(current) ==> Some(Str(NewStatus(Some(Str(NewStatus(current)))))) == current
    ensures !IsKnownStatus(current) ==> NewStatus(Some(Str(NewStatus(current)))) == InProgress
  {
  }

  /** The colour of the status cell. */
  datatype Badge = CompletedBadge | InProgressBadge | UnknownBadge

  /** Completed and in-progress each have their badge; every other value is unknown. */
  function StatusBadge(status: Option<Value>): (b: Badge)
    ensures b == CompletedBadge <==> status == Some(Str(Completed))
    ensures b == InProgressBadge <==> status == Some(Str(InProgress))
    ensures b == UnknownBadge <==> !IsKnownStatus(status)
  {
    if status == Some(Str(Completed)) then CompletedBadge
    else if status == Some(Str(InProgress)) then InProgressBadge
    else UnknownBadge
  }

  /** The toggle button leads back to in-progress exactly on a completed badge, and
      whatever was shown before, the toggled status always has a known badge. */
  lemma ToggleAgreesWithBadge(status: Option<Value>)
    ensures NewStatus(status) == InProgress <==> StatusBadge(status) == CompletedBadge
    ensures StatusBadge(Some(Str(NewStatus(status)))) != UnknownBadge
  {
  }

  /** The local list after a successful status write: each order carrying that id gets the
      new status, every other order stays as it was, and the order of the list is kept. */
  function WithStatus(orders: seq<Fields>, orderId: string, status: string): (r: seq<Fields>)
    ensures |r| == |orders|
    ensures forall i :: 0 <= i < |orders| && !HasId(orders[i], orderId) ==> r[i] == orders[i]
    ensures forall i :: 0 <= i < |orders| && HasId(orders[i], orderId) ==>
      && r[i].Keys == orders[i].Keys + {"status"}
      && r[i]["status"] == Str(status)
      && HasId(r[i], orderId)
      && (forall f :: f in orders[i] && f != "status" ==> r[i][f] == orders[i][f])
  {
    seq(|orders|, i requires 0 <= i < |orders| =>
      if HasId(orders[i], orderId) then orders[i]["status" := Str(status)] else orders[i])
  }

  /** Writing a status twice for one order is writing the second one. */
  lemma WithStatusTwice(orders: seq<Fields>, orderId: string, s1: string, s2: string)
    ensures WithStatus(WithStatus(orders, orderId, s1), orderId, s2) == WithStatus(orders, orderId, s2)
  {
    var a := WithStatus(WithStatus(orders, orderId, s1), orderId, s2);
    var b := WithStatus(orders, orderId, s2);
    assert |a| == |b|;
    forall i | 0 <= i < |a| ensures a[i] == b[i] {
      if HasId(orders[i], orderId) {
        assert a[i].Keys == b[i].Keys;
      }
    }
  }

  /** The search box matches the name, the id or the phone number, ignoring case. */
  predicate OrderMatches(order: Fields, q: string) {
    FieldIncludes(order, "name", q) || FieldIncludes(order, "id", q) || FieldIncludes(order, "phoneNumber", q)
  }

  /** `filteredOrders`: the matching orders, in list order. */
  function FilteredOrders(orders: seq<Fields>, q: string): (r: seq<Fields>)
    ensures forall o :: o in r <==> o in orders && OrderMatches(o, q)
    ensures forall o :: multiset(r)[o] == if OrderMatches(o, q) then multiset(orders)[o] else 0
    ensures Subseq(r, orders)
  {
    Filter(orders, (o: Fields) => OrderMatches(o, q))
  }

  /** An empty search shows every fetched order, since each row carries its document id. */
  lemma EmptySearchKeepsAllOrders(docs: seq<Doc>)
    requires forall i :: 0 <= i < |docs| ==> "id" !in docs[i].data || docs[i].data["id"].Str?
    ensures FilteredOrders(Rows(docs), "") == Rows(docs)
  {
    var rows := Rows(docs);
    forall o | o in rows ensures OrderMatches(o, "") {
      var i :| 0 <= i < |rows| && rows[i] == o;
      ListPage.FetchedRowMatchesEmptyQuery(docs[i]);
    }
    FilterKeepsAll(rows, (o: Fields) => OrderMatches(o, ""));
  }

  /** The page's state: the fetched orders, the loading flag and the search text. */
  class OrdersPage {
    var orders: seq<Fields>
    var loading: bool
    var search: string

    constructor ()
      ensures orders == [] && loading && search == ""
    {
      orders := [];
      loading := true;
      search := "";
    }

    /** What the table shows: the rows that match the search, in list order. */
    function Shown(): (r: seq<Fields>)
      reads this
      ensures forall x :: x in r <==> x in orders && OrderMatches(x, search)
      ensures forall x :: multiset(r)[x] == if OrderMatches(x, search) then multiset(orders)[x] else 0
      ensures Subseq(r, orders)
    {
      FilteredOrders(orders, search)
    }

    /** `fetchOrders`: replaces the list with the fetched rows; a failed read keeps the old list. */
    method FetchOrders(db: Firebase, ok: bool) returns (ghost snapshot: seq<Doc>)
      modifies this, db`log
      ensures db.log == old(db.log) + [GetReq("orders")]
      ensures ok ==> IsSnapshot(snapshot, Coll(db.docs, "orders")) && orders == Rows(snapshot)
      ensures !ok ==> orders == old(orders)
      ensures !loading && search == old(search)
    {
      loading := true;
      snapshot := [];
      var r := db.GetDocs("orders", ok);
      if r.Some? {
        snapshot := r.value;
        orders := Rows(r.value);
      }
      loading := false;
    }

    /** `toggleOrderStatus`: writes the new status first and updates the local list only
        once the write succeeded. */
    method ToggleOrderStatus(db: Firebase, orderId: string, currentStatus: Option<Value>, ok: bool)
      modifies this, db
      ensures var patch := map["status" := Str(NewStatus(currentStatus))];
        db.log == old(db.log) + [UpdateReq("orders", orderId, patch)]
      ensures var status := NewStatus(currentStatus);
        var written := ok && orderId in Coll(old(db.docs), "orders");
        && db.docs == (if written then Updated(old(db.docs), "orders", orderId, map["status" := Str(status)]) else old(db.docs))
        && orders == (if written then WithStatus(old(orders), orderId, status) else old(orders))
      ensures loading == old(loading) && search == old(search)
    {
      var newStatus := NewStatus(currentStatus);
      var written := db.UpdateDoc("orders", orderId, map["status" := Str(newStatus)], ok);
      if written {
        orders := WithStatus(orders, orderId, newStatus);
      }
    }
  }
}
