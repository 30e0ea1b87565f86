/**
 * The settings page: the social links with defaulted fields, the search box and delete.
 */
module SettingsPage {
  import opened Wrappers
  import opened Lists
  import opened Store
  import Text

  /** A social link as the page keeps it (`type` is a Dafny keyword, hence `linkType`). */
  datatype SocialLink = SocialLink(id: string, linkType: string, url: string)

  /** The row kept for a fetched link: the document id, and the stored type and URL with ""
      in place of a missing or falsy field. */
  function LinkFromDoc(d: Doc): (l: SocialLink)
    ensures l.id == d.id
    ensures !Truthy(Field(d.data, "type")) ==> l.linkType == ""
    ensures !Truthy(Field(d.data, "url")) ==> l.url == ""
    ensures Field(d.data, "type").Some? && Field(d.data, "type").value.Str? ==> l.linkType == Field(d.data, "type").value.s
    ensures Field(d.data, "url").Some? && Field(d.data, "url").value.Str? ==> l.url == Field(d.data, "url").value.s
    ensures !(Field(d.data, "type").Some? && Field(d.data, "type").value.Str?) ==> l.linkType == ""
    ensures !(Field(d.data, "url").Some? && Field(d.data, "url").value.Str?) ==> l.url == ""
  {
    SocialLink(d.id, TextOr(d.data, "type"), TextOr(d.data, "url"))
  }

  /** The links of a whole snapshot, in snapshot order. */
  function LinksFromDocs(docs: seq<Doc>): (r: seq<SocialLink>)
    ensures |r| == |docs|
    ensures forall i :: 0 <= i < |docs| ==> r[i] == LinkFromDoc(docs[i])
  {
    seq(|docs|, i requires 0 <= i < |docs| => LinkFromDoc(docs[i]))
  }

  /** The search box matches the type or the URL, ignoring case; the id is not searched. */
  predicate LinkMatches(l: SocialLink, q: string) {
    Text.IncludesIgnoringCase(l.linkType, q) || Text.IncludesIgnoringCase(l.url, q)
  }

  /** `filteredLinks`: the matching links, in list order. */
  function FilteredLinks(links: seq<SocialLink>, q: string): (r: seq<SocialLink>)
    ensures forall l :: l in r <==> l in links && LinkMatches(l, q)
    ensures forall l :: multiset(r)[l] == if LinkMatches(l, q) then multiset(links)[l] else 0
    ensures Subseq(r, links)
  {
    Filter(links, (l: SocialLink) => LinkMatches(l, q))
  }

  /** An empty search shows every link: both searched fields are always text. */
  lemma EmptySearchKeepsAllLinks(links: seq<SocialLink>)
    ensures FilteredLinks(links, "") == links
  {
    forall l | l in links ensures LinkMatches(l, "") {
      Text.EmptyQueryIncluded(l.linkType);
    }
    FilterKeepsAll(links, (l: SocialLink) => LinkMatches(l, ""));
  }

  /** The list after a successful delete: every link with that id is dropped, the rest keep their order. */
  function WithoutLink(links: seq<SocialLink>, id: string): (r: seq<SocialLink>)
    ensures forall l :: l in r <==> l in links && l.id != id
    ensures forall l :: multiset(r)[l] == if l.id == id then 0 else multiset(links)[l]
    ensures Subseq(r, links)
  {
    Filter(links, (l: SocialLink) => l.id != id)
  }

  /** The page's state: the fetched links, the loading flag and the search text. */
  class SettingsPage {
    var links: seq<SocialLink>
    var loading: bool
    var search: string

    constructor ()
      ensures links == [] && loading && search == ""
    {
      links := [];
      loading := true;
      search := "";
    }

    /** What the table shows: the rows that match the search, in list order, all of them
        while the search box is empty. */
    function Shown(): (r: seq<SocialLink>)
      reads this
      ensures forall x :: x in r <==> x in links && LinkMatches(x, search)
      ensures forall x :: multiset(r)[x] == if LinkMatches(x, search) then multiset(links)[x] else 0
      ensures Subseq(r, links)
      ensures search == "" ==> r == links
    {
      EmptySearchKeepsAllLinks(links);
      FilteredLinks(links, search)
    }

    /** `fetchLinks`: replaces the list with the fetched links; a failed read keeps the old list. */
    method FetchLinks(db: Firebase, ok: bool) returns (ghost snapshot: seq<Doc>)
      modifies this, db`log
      ensures db.log == old(db.log) + [GetReq("socialLinks")]
      ensures ok ==> IsSnapshot(snapshot, Coll(db.docs, "socialLinks")) && links == LinksFromDocs(snapshot)
      ensures !ok ==> links == old(links)
      ensures !loading && search == old(search)
    {
      loading := true;
      snapshot := [];
      var r := db.GetDocs("socialLinks", ok);
      if r.Some? {
        snapshot := r.value;
        links := LinksFromDocs(r.value);
      }
      loading := false;
    }

    /** `handleDelete`: a declined confirmation does nothing; otherwise the link document is
        deleted and, once that succeeded, it leaves the list. */
    method HandleDelete(db: Firebase, id: string, confirmed: bool, ok: bool)
      modifies this, db
      ensures !confirmed ==> db.log == old(db.log) && db.docs == old(db.docs) && links == old(links)
      ensures confirmed ==>
        && db.log == old(db.log) + [DeleteReq("socialLinks", id)]
        && db.docs == (if ok then Deleted(old(db.docs), "socialLinks", id) else old(db.docs))
        && links == (if ok then WithoutLink(old(links), id) else old(links))
      ensures loading == old(loading) && search == old(search)
    {
      if !confirmed {
        return;
      }
      var deleted := db.DeleteDoc("socialLinks", id, ok);
      if deleted {
        links := WithoutLink(links, id);
      }
    }
  }
}
