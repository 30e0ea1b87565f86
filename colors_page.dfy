/**
 * The colours list page: fetched colours with defaulted fields, the search box and delete.
 */
module ColorsPage {
  import opened Wrappers
  import opened Lists
  import opened Store
  import Text

  /** A colour as the page keeps it. */
  datatype ColorRow = ColorRow(id: string, name: string, colorCode: string)

  /** The row kept for a fetched colour: the document id, and the stored name and colour code
      with "" in place of a missing or falsy field. */
  function ColorFromDoc(d: Doc): (c: ColorRow)
    ensures c.id == d.id
    ensures !Truthy(Field(d.data, "name")) ==> c.name == ""
    ensures !Truthy(Field(d.data, "colorCode")) ==> c.colorCode == ""
    ensures Field(d.data, "name").Some? && Field(d.data, "name").value.Str? ==> c.name == Field(d.data, "name").value.s
    ensures Field(d.data, "colorCode").Some? && Field(d.data, "colorCode").value.Str? ==>
      c.colorCode == Field(d.data, "colorCode").value.s
    ensures !(Field(d.data, "name").Some? && Field(d.data, "name").value.Str?) ==> c.name == ""
    ensures !(Field(d.data, "colorCode").Some? && Field(d.data, "colorCode").value.Str?) ==> c.colorCode == ""
  {
    ColorRow(d.id, TextOr(d.data, "name"), TextOr(d.data, "colorCode"))
  }

  /** The colours of a whole snapshot, in snapshot order. */
  function ColorsFromDocs(docs: seq<Doc>): (r: seq<ColorRow>)
    ensures |r| == |docs|
    ensures forall i :: 0 <= i < |docs| ==> r[i] == ColorFromDoc(docs[i])
  {
    seq(|docs|, i requires 0 <= i < |docs| => ColorFromDoc(docs[i]))
  }

  /** The search box matches the name or the colour code, ignoring case; the id is not searched. */
  predicate ColorMatches(c: ColorRow, q: string) {
    Text.IncludesIgnoringCase(c.name, q) || Text.IncludesIgnoringCase(c.colorCode, q)
  }

  /** `filteredColors`: the matching colours, in list order. */
  function FilteredColors(colors: seq<ColorRow>, q: string): (r: seq<ColorRow>)
    ensures forall c :: c in r <==> c in colors && ColorMatches(c, q)
    ensures forall c :: multiset(r)[c] == if ColorMatches(c, q) then multiset(colors)[c] else 0
    ensures Subseq(r, colors)
  {
    Filter(colors, (c: ColorRow) => ColorMatches(c, q))
  }

  /** An empty search shows every colour: both searched fields are always text. */
  lemma EmptySearchKeepsAllColors(colors: seq<ColorRow>)
    ensures FilteredColors(colors, "") == colors
  {
    forall c | c in colors ensures ColorMatches(c, "") {
      Text.EmptyQueryIncluded(c.name);
    }
    FilterKeepsAll(colors, (c: ColorRow) => ColorMatches(c, ""));
  }

  /** The list after a successful delete: every colour with that id is dropped, the rest keep their order. */
  function WithoutColor(colors: seq<ColorRow>, id: string): (r: seq<ColorRow>)
    ensures forall c :: c in r <==> c in colors && c.id != id
    ensures forall c :: multiset(r)[c] == if c.id == id then 0 else multiset(colors)[c]
    ensures Subseq(r, colors)
  {
    Filter(colors, (c: ColorRow) => c.id != id)
  }

  /** The page's state: the fetched colours, the loading flag and the search text. */
  class ColorsPage {
    var colors: seq<ColorRow>
    var loading: bool
    var search: string

    constructor ()
      ensures colors == [] && loading && search == ""
    {
      colors := [];
      loading := true;
      search := "";
    }

    /** What the table shows: the rows that match the search, in list order, all of them
        while the search box is empty. */
    function Shown(): (r: seq<ColorRow>)
      reads this
      ensures forall x :: x in r <==> x in colors && ColorMatches(x, search)
      ensures forall x :: multiset(r)[x] == if ColorMatches(x, search) then multiset(colors)[x] else 0
      ensures Subseq(r, colors)
      ensures search == "" ==> r == colors
    {
      EmptySearchKeepsAllColors(colors);
      FilteredColors(colors, search)
    }

    /** `fetchColors`: replaces the list with the fetched colours; a failed read keeps the old list. */
    method FetchColors(db: Firebase, ok: bool) returns (ghost snapshot: seq<Doc>)
      modifies this, db`log
      ensures db.log == old(db.log) + [GetReq("colors")]
      ensures ok ==> IsSnapshot(snapshot, Coll(db.docs, "colors")) && colors == ColorsFromDocs(snapshot)
      ensures !ok ==> colors == old(colors)
      ensures !loading && search == old(search)
    {
      loading := true;
      snapshot := [];
      var r := db.GetDocs("colors", ok);
      if r.Some? {
        snapshot := r.value;
        colors := ColorsFromDocs(r.value);
      }
      loading := false;
    }

    /** `handleDelete`: a declined confirmation does nothing; otherwise the colour document is
        deleted and, once that succeeded, it leaves the list. The products that name the colour
        keep their `color` field. */
    method HandleDelete(db: Firebase, id: string, confirmed: bool, ok: bool)
      modifies this, db
      ensures !confirmed ==> db.log == old(db.log) && db.docs == old(db.docs) && colors == old(colors)
      ensures confirmed ==>
        && db.log == old(db.log) + [DeleteReq("colors", id)]
        && db.docs == (if ok then Deleted(old(db.docs), "colors", id) else old(db.docs))
        && colors == (if ok then WithoutColor(old(colors), id) else old(colors))
      ensures SameExcept(db.docs, old(db.docs), "colors")
      ensures loading == old(loading) && search == old(search)
    {
      if !confirmed {
        return;
      }
      var deleted := db.DeleteDoc("colors", id, ok);
      if deleted {
        colors := WithoutColor(colors, id);
      }
    }
  }
}
