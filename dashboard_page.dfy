/**
 * The dashboard's statistics: how many orders, products and categories are
 * stored, and the revenue summed over the orders' totals.
 */
module DashboardPage {
  import opened Wrappers
  import opened Store
  import opened Lists

  /** The total an order contributes: its stored number, and zero when the total is missing or falsy. */
  function TotalOf(d: Doc): (r: int)
    ensures !Truthy(Field(d.data, "total")) ==> r == 0
    ensures Field(d.data, "total").Some? && Field(d.data, "total").value.Num? ==> r == Field(d.data, "total").value.n
    ensures !(Field(d.data, "total").Some? && Field(d.data, "total").value.Num?) ==> r == 0
  {
    match Field(d.data, "total")
    case Some(Num(n)) => n
    case _ => 0
  }

  /** The revenue of a sequence of order documents: the sum of their totals. */
  function Revenue(docs: seq<Doc>): (r: int)
    ensures docs == [] ==> r == 0
  {
    if docs == [] then 0 else Revenue(docs[..|docs| - 1]) + TotalOf(docs[|docs| - 1])
  }

  /** Revenue is additive over concatenation. */
  lemma {:induction false} RevenueAppend(a: seq<Doc>, b: seq<Doc>)
    ensures Revenue(a + b) == Revenue(a) + Revenue(b)
    decreases |b|
  {
    if b == [] {
      assert a + b == a;
    } else {
      var front := b[..|b| - 1];
      RevenueAppend(a, front);
      assert (a + b)[..|a + b| - 1] == a + front;
    }
  }

  /** Orders without a total contribute nothing. */
  lemma {:induction false} RevenueWithoutTotals(docs: seq<Doc>)
    requires forall i :: 0 <= i < |docs| ==> !Truthy(Field(docs[i].data, "total"))
    ensures Revenue(docs) == 0
  {
    if docs != [] {
      RevenueWithoutTotals(docs[..|docs| - 1]);
    }
  }

  /** One more order adds its total. */
  lemma RevenueSnoc(a: seq<Doc>, x: Doc)
    ensures Revenue(a + [x]) == Revenue(a) + TotalOf(x)
  {
    assert (a + [x])[..|a|] == a;
  }

  /** An order in the middle contributes its total. */
  lemma RevenueSplit(front: seq<Doc>, x: Doc, back: seq<Doc>)
    ensures Revenue((front + [x]) + back) == Revenue(front + back) + TotalOf(x)
  {
    RevenueAppend(front + [x], back);
    RevenueSnoc(front, x);
    RevenueAppend(front, back);
  }

  /** Taking one order out of a sequence takes its total out of the revenue. */
  lemma RevenueRemoveAt(b: seq<Doc>, j: nat)
    requires j < |b|
    ensures Revenue(b) == Revenue(b[..j] + b[j + 1..]) + TotalOf(b[j])
  {
    SplitAt(b, j);
    RevenueSplit(b[..j], b[j], b[j + 1..]);
  }

  /** Taking one element out of a sequence takes it out of its multiset. */
  lemma MultisetRemoveAt(b: seq<Doc>, j: nat)
    requires j < |b|
    ensures multiset(b[..j] + b[j + 1..]) == multiset(b) - multiset{b[j]}
  {
    SplitAt(b, j);
  }

  /** Revenue does not depend on the order of the documents. */
  lemma {:induction false} RevenuePermutation(a: seq<Doc>, b: seq<Doc>)
    requires multiset(a) == multiset(b)
    ensures Revenue(a) == Revenue(b)
    decreases |a|
  {
    if a == [] {
      assert |b| == |multiset(b)| == 0;
    } else {
      var x := a[|a| - 1];
      var front := a[..|a| - 1];
      assert a == front + [x];
      assert multiset(front) == multiset(a) - multiset{x};
      assert x in multiset(b);
      var j :| 0 <= j < |b| && b[j] == x;
      MultisetRemoveAt(b, j);
      RevenuePermutation(front, b[..j] + b[j + 1..]);
      RevenueRemoveAt(b, j);
    }
  }

  /** Whatever order the store returns the orders in, the revenue is the same. */
  lemma SnapshotRevenue(a: seq<Doc>, b: seq<Doc>, orders: Collection)
    requires IsSnapshot(a, orders) && IsSnapshot(b, orders)
    ensures Revenue(a) == Revenue(b)
  {
    SnapshotsArePermutations(a, b, orders);
    RevenuePermutation(a, b);
  }

  /** The loop over the orders snapshot that adds up each order's total. */
  method SumTotals(docs: seq<Doc>) returns (revenue: int)
    ensures revenue == Revenue(docs)
  {
    revenue := 0;
    var i := 0;
    while i < |docs|
      invariant 0 <= i <= |docs|
      invariant revenue == Revenue(docs[..i])
    {
      assert docs[..i + 1][..i] == docs[..i];
      revenue := revenue + TotalOf(docs[i]);
      i := i + 1;
    }
    assert docs[..i] == docs;
  }

  /** `(await getDocs(collection(db, name))).size` */
  method CountDocs(db: Firebase, name: string, ok: bool) returns (count: Option<int>)
    modifies db`log
    ensures db.log == old(db.log) + [GetReq(name)]
    ensures count == if ok then Some(|Coll(db.docs, name)|) else None
  {
    var snapshot := db.GetDocs(name, ok);
    count := None;
    if snapshot.Some? {
      count := Some(|snapshot.value|);
    }
  }

  /** The orders part of `fetchStats`: the snapshot's size and the revenue summed over it. */
  method OrderStats(db: Firebase, ok: bool) returns (stats: Option<(int, int)>, ghost orders: seq<Doc>)
    modifies db`log
    ensures db.log == old(db.log) + [GetReq("orders")]
    ensures stats.Some? <==> ok
    ensures ok ==>
      && IsSnapshot(orders, Coll(db.docs, "orders"))
      && stats.value.0 == |Coll(db.docs, "orders")| && stats.value.1 == Revenue(orders)
  {
    orders := [];
    stats := None;
    var snapshot := db.GetDocs("orders", ok);
    if snapshot.Some? {
      orders := snapshot.value;
      var revenue := SumTotals(snapshot.value);
      stats := Some((|snapshot.value|, revenue));
    }
  }

  /** The dashboard's state. */
  class DashboardPage {
    var ordersCount: int
    var totalRevenue: int
    var productsCount: int
    var categoriesCount: int
    var loading: bool

    constructor ()
      ensures ordersCount == 0 && totalRevenue == 0 && productsCount == 0 && categoriesCount == 0
      ensures loading
    {
      ordersCount, totalRevenue, productsCount, categoriesCount := 0, 0, 0, 0;
      loading := true;
    }

    /** `fetchStats`: three reads in sequence. A failed read leaves its own count and every
        later one as they were, while the counts already set stay set; loading ends false. */
    method FetchStats(db: Firebase, ordersOk: bool, productsOk: bool, categoriesOk: bool) returns (ghost orders: seq<Doc>)
      modifies this, db`log
      ensures !loading
      ensures !ordersOk ==> db.log == old(db.log) + [GetReq("orders")]
      ensures ordersOk && !productsOk ==> db.log == old(db.log) + [GetReq("orders")] + [GetReq("products")]
      ensures ordersOk && productsOk ==> db.log == old(db.log) + [GetReq("orders")] + [GetReq("products")] + [GetReq("categories")]
      ensures ordersOk ==>
        && IsSnapshot(orders, Coll(db.docs, "orders"))
        && ordersCount == |Coll(db.docs, "orders")|
        && totalRevenue == Revenue(orders)
      ensures !ordersOk ==> ordersCount == old(ordersCount) && totalRevenue == old(totalRevenue)
      ensures ordersOk && productsOk ==> productsCount == |Coll(db.docs, "products")|
      ensures !(ordersOk && productsOk) ==> productsCount == old(productsCount)
      ensures ordersOk && productsOk && categoriesOk ==> categoriesCount == |Coll(db.docs, "categories")|
      ensures !(ordersOk && productsOk && categoriesOk) ==> categoriesCount == old(categoriesCount)
    {
      ghost var docs := db.docs;
      loading := true;
      var stats;
      stats, orders := OrderStats(db, ordersOk);
      if stats.None? {
        loading := false;
        assert db.docs == docs;
        return;
      }
      ordersCount, totalRevenue := stats.value.0, stats.value.1;
      var products := CountDocs(db, "products", productsOk);
      if products.None? {
        loading := false;
        assert db.docs == docs;
        return;
      }
      productsCount := products.value;
      var categories := CountDocs(db, "categories", categoriesOk);
      if categories.Some? {
        categoriesCount := categories.value;
      }
      loading := false;
      assert db.docs == docs;
    }
  }
}
