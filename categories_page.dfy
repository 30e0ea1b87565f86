/**
 * The categories list page: fetched rows, the search box and delete.
 */
module CategoriesPage {
  import opened Lists
  import opened Store
  import ListPage

  /** The search box matches the name or the id, ignoring case. */
  predicate CategoryMatches(category: Fields, q: string) {
    FieldIncludes(category, "name", q) || FieldIncludes(category, "id", q)
  }

  /** `filteredCategories`: the matching categories, in list order. */
  function FilteredCategories(categories: seq<Fields>, q: string): (r: seq<Fields>)
    ensures forall c :: c in r <==> c in categories && CategoryMatches(c, q)
    ensures forall c :: multiset(r)[c] == if CategoryMatches(c, q) then multiset(categories)[c] else 0
    ensures Subseq(r, categories)
  {
    Filter(categories, (c: Fields) => CategoryMatches(c, q))
  }

  /** An empty search shows every fetched category, since each row carries its document id. */
  lemma EmptySearchKeepsAllCategories(docs: seq<Doc>)
    requires forall i :: 0 <= i < |docs| ==> "id" !in docs[i].data || docs[i].data["id"].Str?
    ensures FilteredCategories(Rows(docs), "") == Rows(docs)
  {
    var rows := Rows(docs);
    forall c | c in rows ensures CategoryMatches(c, "") {
      var i :| 0 <= i < |rows| && rows[i] == c;
      ListPage.FetchedRowMatchesEmptyQuery(docs[i]);
    }
    FilterKeepsAll(rows, (c: Fields) => CategoryMatches(c, ""));
  }

  /** The page's state: the fetched categories, the loading flag and the search text. */
  class CategoriesPage {
    var categories: seq<Fields>
    var loading: bool
    var search: string

    constructor ()
      ensures categories == [] && loading && search == ""
    {
      categories := [];
      loading := true;
      search := "";
    }

    /** What the table shows: the rows that match the search, in list order. */
    function Shown(): (r: seq<Fields>)
      reads this
      ensures forall x :: x in r <==> x in categories && CategoryMatches(x, search)
      ensures forall x :: multiset(r)[x] == if CategoryMatches(x, search) then multiset(categories)[x] else 0
      ensures Subseq(r, categories)
    {
      FilteredCategories(categories, search)
    }

    /** `fetchCategories`: replaces the list with the fetched rows; a failed read keeps the old list. */
    method FetchCategories(db: Firebase, ok: bool) returns (ghost snapshot: seq<Doc>)
      modifies this, db`log
      ensures db.log == old(db.log) + [GetReq("categories")]
      ensures ok ==> IsSnapshot(snapshot, Coll(db.docs, "categories")) && categories == Rows(snapshot)
      ensures !ok ==> categories == old(categories)
      ensures !loading && search == old(search)
    {
      loading := true;
      snapshot := [];
      var r := db.GetDocs("categories", ok);
      if r.Some? {
        snapshot := r.value;
        categories := Rows(r.value);
      }
      loading := false;
    }

    /** `handleDelete`: a declined confirmation does nothing; otherwise the category document is
        deleted and, once that succeeded, the rows with that id leave the list. Products and
        brands that name the category are not touched. */
    method HandleDelete(db: Firebase, id: string, confirmed: bool, ok: bool)
      modifies this, db
      ensures !confirmed ==> db.log == old(db.log) && db.docs == old(db.docs) && categories == old(categories)
      ensures confirmed ==>
        && db.log == old(db.log) + [DeleteReq("categories", id)]
        && db.docs == (if ok then Deleted(old(db.docs), "categories", id) else old(db.docs))
        && categories == (if ok then ListPage.WithoutId(old(categories), id) else old(categories))
      ensures SameExcept(db.docs, old(db.docs), "categories")
      ensures loading == old(loading) && search == old(search)
    {
      if !confirmed {
        return;
      }
      var deleted := db.DeleteDoc("categories", id, ok);
      if deleted {
        categories := ListPage.WithoutId(categories, id);
      }
    }
  }
}
