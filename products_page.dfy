/**
 * The products list page: fetched rows, the search box, the sizes cell and delete.
 */
module ProductsPage {
  import opened Wrappers
  import opened Lists
  import opened Store
  import Text
  import ListPage

  /** Shown in the sizes cell when a product has no sizes. */
  const NoSizesLabel: string := "لا توجد أحجام"

  /** The search box matches the name or the id, ignoring case. */
  predicate ProductMatches(product: Fields, q: string) {
    FieldIncludes(product, "name", q) || FieldIncludes(product, "id", q)
  }

  /** `filteredProducts`: the matching products, in list order. */
  function FilteredProducts(products: seq<Fields>, q: string): (r: seq<Fields>)
    ensures forall p :: p in r <==> p in products && ProductMatches(p, q)
    ensures forall p :: multiset(r)[p] == if ProductMatches(p, q) then multiset(products)[p] else 0
    ensures Subseq(r, products)
  {
    Filter(products, (p: Fields) => ProductMatches(p, q))
  }

  /** An empty search shows every fetched product, since each row carries its document id. */
  lemma EmptySearchKeepsAllProducts(docs: seq<Doc>)
    requires forall i :: 0 <= i < |docs| ==> "id" !in docs[i].data || docs[i].data["id"].Str?
    ensures FilteredProducts(Rows(docs), "") == Rows(docs)
  {
    var rows := Rows(docs);
    forall p | p in rows ensures ProductMatches(p, "") {
      var i :| 0 <= i < |rows| && rows[i] == p;
      ListPage.FetchedRowMatchesEmptyQuery(docs[i]);
    }
    FilterKeepsAll(rows, (p: Fields) => ProductMatches(p, ""));
  }

  /** The sizes cell: a non-empty list of sizes joined by a comma and a space, and the
      placeholder for a missing or falsy field and for any value whose length is not
      positive. `None` is a cell the browser cannot render: a non-empty text in `sizes` has a
      length but no `join`. */
  function SizesCell(sizes: Option<Value>): (r: Option<string>)
    ensures (sizes == None || sizes == Some(StrList([]))) ==> r == Some(NoSizesLabel)
    ensures sizes.Some? && (sizes.value.Num? || sizes.value == Str("")) ==> r == Some(NoSizesLabel)
    ensures sizes.Some? && sizes.value.StrList? && sizes.value.items != [] ==>
      r == Some(Text.Join(sizes.value.items, ", "))
    ensures r == None <==> sizes.Some? && sizes.value.Str? && sizes.value.s != ""
  {
    match sizes
    case Some(StrList(items)) => if |items| > 0 then Some(Text.Join(items, ", ")) else Some(NoSizesLabel)
    case Some(Str(s)) => if s != "" then None else Some(NoSizesLabel)
    case _ => Some(NoSizesLabel)
  }

  /** A product with sizes shows its first size at the start of the cell and its last at the end. */
  lemma SizesCellShowsEnds(items: seq<string>)
    requires items != []
    ensures var cell := SizesCell(Some(StrList(items))).value;
      && |cell| >= |items[0]| && cell[..|items[0]|] == items[0]
      && |cell| >= |items[|items| - 1]| && cell[|cell| - |items[|items| - 1]|..] == items[|items| - 1]
  {
    Text.JoinEnds(items, ", ");
  }

  /** The page's state: the fetched products, the loading flag and the search text. */
  class ProductsPage {
    var products: seq<Fields>
    var loading: bool
    var search: string

    constructor ()
      ensures products == [] && loading && search == ""
    {
      products := [];
      loading := true;
      search := "";
    }

    /** What the table shows: the rows that match the search, in list order. */
    function Shown(): (r: seq<Fields>)
      reads this
      ensures forall x :: x in r <==> x in products && ProductMatches(x, search)
      ensures forall x :: multiset(r)[x] == if ProductMatches(x, search) then multiset(products)[x] else 0
      ensures Subseq(r, products)
    {
      FilteredProducts(products, search)
    }

    /** `fetchProducts`: replaces the list with the fetched rows; a failed read keeps the old list. */
    method FetchProducts(db: Firebase, ok: bool) returns (ghost snapshot: seq<Doc>)
      modifies this, db`log
      ensures db.log == old(db.log) + [GetReq("products")]
      ensures ok ==> IsSnapshot(snapshot, Coll(db.docs, "products")) && products == Rows(snapshot)
      ensures !ok ==> products == old(products)
      ensures !loading && search == old(search)
    {
      loading := true;
      snapshot := [];
      var r := db.GetDocs("products", ok);
      if r.Some? {
        snapshot := r.value;
        products := Rows(r.value);
      }
      loading := false;
    }

    /** `handleDelete`: a declined confirmation does nothing; otherwise the document is deleted
        and, once that succeeded, the rows with that id leave the list. */
    method HandleDelete(db: Firebase, id: string, confirmed: bool, ok: bool)
      modifies this, db
      ensures !confirmed ==> db.log == old(db.log) && db.docs == old(db.docs) && products == old(products)
      ensures confirmed ==>
        && db.log == old(db.log) + [DeleteReq("products", id)]
        && db.docs == (if ok then Deleted(old(db.docs), "products", id) else old(db.docs))
        && products == (if ok then ListPage.WithoutId(old(products), id) else old(products))
      ensures loading == old(loading) && search == old(search)
    {
      if !confirmed {
        return;
      }
      var deleted := db.DeleteDoc("products", id, ok);
      if deleted {
        products := ListPage.WithoutId(products, id);
      }
    }
  }
}
