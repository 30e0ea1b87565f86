/**
 * The promotional images list page: fetched rows, the search box and delete.
 */
module PromoImagesPage {
  import opened Lists
  import opened Store
  import ListPage

  /** The search box matches the title or the id, ignoring case. */
  predicate ImageMatches(image: Fields, q: string) {
    FieldIncludes(image, "title", q) || FieldIncludes(image, "id", q)
  }

  /** `filteredImages`: the matching images, in list order. */
  function FilteredImages(images: seq<Fields>, q: string): (r: seq<Fields>)
    ensures forall img :: img in r <==> img in images && ImageMatches(img, q)
    ensures forall img :: multiset(r)[img] == if ImageMatches(img, q) then multiset(images)[img] else 0
    ensures Subseq(r, images)
  {
    Filter(images, (img: Fields) => ImageMatches(img, q))
  }

  /** An empty search shows every fetched image, since each row carries its document id. */
  lemma EmptySearchKeepsAllImages(docs: seq<Doc>)
    requires forall i :: 0 <= i < |docs| ==> "id" !in docs[i].data || docs[i].data["id"].Str?
    ensures FilteredImages(Rows(docs), "") == Rows(docs)
  {
    var rows := Rows(docs);
    forall img | img in rows ensures ImageMatches(img, "") {
      var i :| 0 <= i < |rows| && rows[i] == img;
      ListPage.FetchedRowMatchesEmptyQuery(docs[i]);
    }
    FilterKeepsAll(rows, (img: Fields) => ImageMatches(img, ""));
  }

  /** The page's state: the fetched images, the loading flag and the search text. */
  class PromoImagesPage {
    var promoImages: seq<Fields>
    var loading: bool
    var search: string

    constructor ()
      ensures promoImages == [] && loading && search == ""
    {
      promoImages := [];
      loading := true;
      search := "";
    }

    /** What the table shows: the rows that match the search, in list order. */
    function Shown(): (r: seq<Fields>)
      reads this
      ensures forall x :: x in r <==> x in promoImages && ImageMatches(x, search)
      ensures forall x :: multiset(r)[x] == if ImageMatches(x, search) then multiset(promoImages)[x] else 0
      ensures Subseq(r, promoImages)
    {
      FilteredImages(promoImages, search)
    }

    /** `fetchPromoImages`: replaces the list with the fetched rows; a failed read keeps the old list. */
    method FetchPromoImages(db: Firebase, ok: bool) returns (ghost snapshot: seq<Doc>)
      modifies this, db`log
      ensures db.log == old(db.log) + [GetReq("promo-images")]
      ensures ok ==> IsSnapshot(snapshot, Coll(db.docs, "promo-images")) && promoImages == Rows(snapshot)
      ensures !ok ==> promoImages == old(promoImages)
      ensures !loading && search == old(search)
    {
      loading := true;
      snapshot := [];
      var r := db.GetDocs("promo-images", ok);
      if r.Some? {
        snapshot := r.value;
        promoImages := Rows(r.value);
      }
      loading := false;
    }

    /** `handleDelete`: a declined confirmation does nothing; otherwise the document is deleted
        and, once that succeeded, the rows with that id leave the list. */
    method HandleDelete(db: Firebase, id: string, confirmed: bool, ok: bool)
      modifies this, db
      ensures !confirmed ==> db.log == old(db.log) && db.docs == old(db.docs) && promoImages == old(promoImages)
      ensures confirmed ==>
        && db.log == old(db.log) + [DeleteReq("promo-images", id)]
        && db.docs == (if ok then Deleted(old(db.docs), "promo-images", id) else old(db.docs))
        && promoImages == (if ok then ListPage.WithoutId(old(promoImages), id) else old(promoImages))
      ensures loading == old(loading) && search == old(search)
    {
      if !confirmed {
        return;
      }
      var deleted := db.DeleteDoc("promo-images", id, ok);
      if deleted {
        promoImages := ListPage.WithoutId(promoImages, id);
      }
    }
  }
}
