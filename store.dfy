/**
 * The hosted document store, seen from the dashboard: named collections of
 * documents, each document a flat map from field name to value. Every remote
 * call (read a collection, add, update or delete a document, upload a file)
 * is a method of `Firebase` that takes the call's outcome as a parameter.
 */
module Store {
  import opened Wrappers
  import opened Lists
  import Text

  /** A stored field value. Prices and totals are integers in this model. */
  datatype Value = Str(s: string) | Num(n: int) | StrList(items: seq<string>)

  type Fields = map<string, Value>

  /** One collection: document id to document fields. */
  type Collection = map<string, Fields>

  /** The whole store: collection name to collection. */
  type Db = map<string, Collection>

  /** One document of a query snapshot: its id and its `data()`. */
  datatype Doc = Doc(id: string, data: Fields)

  /** A collection nobody has written to yet reads as empty. */
  function Coll(db: Db, name: string): Collection {
    if name in db then db[name] else map[]
  }

  /** Two stores agree on every collection other than `name`. */
  ghost predicate SameExcept(db1: Db, db2: Db, name: string) {
    forall other :: other != name ==> Coll(db1, other) == Coll(db2, other)
  }

  /** The store after `addDoc(collection(db, name), data)` created document `id`. */
  function Added(db: Db, name: string, id: string, data: Fields): (r: Db)
    ensures Coll(r, name).Keys == Coll(db, name).Keys + {id}
    ensures Coll(r, name)[id] == data
    ensures forall k :: k in Coll(db, name) && k != id ==> Coll(r, name)[k] == Coll(db, name)[k]
    ensures SameExcept(r, db, name)
  {
    db[name := Coll(db, name)[id := data]]
  }

  /** The store after `updateDoc(doc(db, name, id), patch)`: the patch's fields overwrite
      the document's, the other fields stay; a missing document makes the update fail. */
  function Updated(db: Db, name: string, id: string, patch: Fields): (r: Db)
    ensures Coll(r, name).Keys == Coll(db, name).Keys
    ensures id in Coll(db, name) ==>
      Coll(r, name)[id].Keys == Coll(db, name)[id].Keys + patch.Keys
      && (forall f :: f in patch ==> Coll(r, name)[id][f] == patch[f])
      && (forall f :: f in Coll(db, name)[id] && f !in patch ==> Coll(r, name)[id][f] == Coll(db, name)[id][f])
    ensures forall k :: k in Coll(db, name) && k != id ==> Coll(r, name)[k] == Coll(db, name)[k]
    ensures id !in Coll(db, name) ==> r == db
    ensures SameExcept(r, db, name)
  {
    if id in Coll(db, name) then db[name := Coll(db, name)[id := Coll(db, name)[id] + patch]] else db
  }

  /** The store after `deleteDoc(doc(db, name, id))`; deleting a missing document is not an error. */
  function Deleted(db: Db, name: string, id: string): (r: Db)
    ensures Coll(r, name).Keys == Coll(db, name).Keys - {id}
    ensures forall k :: k in Coll(r, name) ==> Coll(r, name)[k] == Coll(db, name)[k]
    ensures SameExcept(r, db, name)
  {
    db[name := Coll(db, name) - {id}]
  }

  /** `{ id, ...data }`: the object literal puts `id` first, so an `id` field of `data` wins. */
  function WithIdDefault(id: string, data: Fields): (r: Fields)
    ensures r.Keys == data.Keys + {"id"}
    ensures forall f :: f in data ==> r[f] == data[f]
    ensures "id" !in data ==> r["id"] == Str(id)
  {
    map["id" := Str(id)] + data
  }

  /** The row a list page keeps for a fetched document: `{ id: doc.id, ...doc.data() }`. */
  function Row(d: Doc): (r: Fields)
    ensures r.Keys == d.data.Keys + {"id"}
    ensures forall f :: f in d.data ==> r[f] == d.data[f]
    ensures "id" !in d.data ==> HasId(r, d.id)
  {
    WithIdDefault(d.id, d.data)
  }

  /** The rows of a whole snapshot, in snapshot order. */
  function Rows(docs: seq<Doc>): (r: seq<Fields>)
    ensures |r| == |docs|
    ensures forall i :: 0 <= i < |docs| ==> r[i] == Row(docs[i])
  {
    seq(|docs|, i requires 0 <= i < |docs| => Row(docs[i]))
  }

  /** The row's field `key`, when present. */
  function Field(row: Fields, key: string): Option<Value> {
    if key in row then Some(row[key]) else None
  }

  /** JavaScript truthiness of a (possibly absent) field. */
  predicate Truthy(v: Option<Value>) {
    match v
    case None => false
    case Some(Str(s)) => s != ""
    case Some(Num(n)) => n != 0
    case Some(StrList(_)) => true
  }

  /** A text field with a default: the stored text, and the empty string when the field is falsy or absent. */
  function TextOr(row: Fields, key: string): (r: string)
    ensures !Truthy(Field(row, key)) ==> r == ""
    ensures Field(row, key).Some? && Field(row, key).value.Str? ==> r == Field(row, key).value.s
    ensures !(Field(row, key).Some? && Field(row, key).value.Str?) ==> r == ""
  {
    match Field(row, key)
    case Some(Str(s)) => s
    case _ => ""
  }

  /** The row's `id` field is the text `id`. */
  predicate HasId(row: Fields, id: string) {
    Field(row, "id") == Some(Str(id))
  }

  /** The search on one field: its text contains the query, ignoring case; an absent field does not match. */
  predicate FieldIncludes(row: Fields, key: string, q: string) {
    key in row && row[key].Str? && Text.IncludesIgnoringCase(row[key].s, q)
  }

  /** `docs` lists collection `c`, one document per id, each with its stored fields, in some order. */
  ghost predicate IsSnapshot(docs: seq<Doc>, c: Collection) {
    && |docs| == |c|
    && (forall i :: 0 <= i < |docs| ==> docs[i].id in c && c[docs[i].id] == docs[i].data)
    && (forall i, j :: 0 <= i < j < |docs| ==> docs[i].id != docs[j].id)
    && (forall k :: k in c ==> exists i :: 0 <= i < |docs| && docs[i].id == k)
  }

  /** `docs` lists, once each and with their stored fields, exactly the documents of `c`
      whose ids are not in `remaining`. */
  ghost predicate PartialSnapshot(docs: seq<Doc>, c: Collection, remaining: set<string>) {
    && remaining <= c.Keys
    && (forall i :: 0 <= i < |docs| ==> docs[i].id in c && docs[i].id !in remaining && c[docs[i].id] == docs[i].data)
    && (forall i, j :: 0 <= i < j < |docs| ==> docs[i].id != docs[j].id)
    && (forall k :: k in c && k !in remaining ==> exists i :: 0 <= i < |docs| && docs[i].id == k)
    && |docs| + |remaining| == |c.Keys|
  }

  /** Listing one more remaining document keeps a partial snapshot partial. */
  lemma PartialSnapshotStep(docs: seq<Doc>, c: Collection, remaining: set<string>, k: string)
    requires PartialSnapshot(docs, c, remaining) && k in remaining
    ensures PartialSnapshot(docs + [Doc(k, c[k])], c, remaining - {k})
  {
    var next := docs + [Doc(k, c[k])];
    forall k' | k' in c && k' !in remaining - {k} ensures exists i :: 0 <= i < |next| && next[i].id == k' {
      if k' == k {
        assert next[|docs|].id == k;
      } else {
        var i :| 0 <= i < |docs| && docs[i].id == k';
        assert next[i].id == k';
      }
    }
  }

  /** The documents of a collection as `getDocs` returns them; the order is the store's choice. */
  method SnapshotOf(c: Collection) returns (docs: seq<Doc>)
    ensures IsSnapshot(docs, c)
  {
    var remaining := c.Keys;
    docs := [];
    while remaining != {}
      invariant PartialSnapshot(docs, c, remaining)
      decreases |remaining|
    {
      var k :| k in remaining;
      PartialSnapshotStep(docs, c, remaining, k);
      docs := docs + [Doc(k, c[k])];
      remaining := remaining - {k};
    }
  }

  /** A snapshot holds each document of the collection exactly once and nothing else. */
  lemma SnapshotCount(docs: seq<Doc>, c: Collection, x: Doc)
    requires IsSnapshot(docs, c)
    ensures multiset(docs)[x] == if x.id in c && c[x.id] == x.data then 1 else 0
  {
    assert NoDup(docs) by {
      forall i, j | 0 <= i < j < |docs| ensures docs[i] != docs[j] {
        assert docs[i].id != docs[j].id;
      }
    }
    NoDupCountsOnce(docs, x);
    if x.id in c && c[x.id] == x.data {
      var i :| 0 <= i < |docs| && docs[i].id == x.id;
      assert docs[i] == x;
    }
  }

  /** Two snapshots of one collection hold the same documents, possibly in another order. */
  lemma SnapshotsArePermutations(a: seq<Doc>, b: seq<Doc>, c: Collection)
    requires IsSnapshot(a, c) && IsSnapshot(b, c)
    ensures multiset(a) == multiset(b)
  {
    forall x ensures multiset(a)[x] == multiset(b)[x] {
      SnapshotCount(a, c, x);
      SnapshotCount(b, c, x);
    }
  }

  /** A remote call, as the store sees it. */
  datatype Request =
    | GetReq(collection: string)
    | AddReq(collection: string, data: Fields)
    | UpdateReq(collection: string, id: string, patch: Fields)
    | DeleteReq(collection: string, id: string)
    | UploadReq

  /** What the user picked in a form's file input: nothing, or a file whose upload
      yields a download URL or fails (either `uploadBytes` or `getDownloadURL`). */
  datatype ImageChoice = NoFile | File(downloadUrl: Option<string>)

  /** The image URL a form stores: the empty string when no file was chosen, the download
      URL when the upload succeeded, and nothing (the upload threw) otherwise. */
  function ImageUrl(choice: ImageChoice): (r: Option<string>)
    ensures choice.NoFile? ==> r == Some("")
    ensures choice.File? ==> r == choice.downloadUrl
  {
    match choice
    case NoFile => Some("")
    case File(url) => url
  }

  /** The remote backend: the document store and its object storage.
      `log` records every call in the order it was issued. */
  class Firebase {
    var docs: Db
    ghost var log: seq<Request>

    constructor (initial: Db)
      ensures docs == initial && log == []
    {
      docs := initial;
      log := [];
    }

    /** `getDocs(collection(db, name))`, which fails when `ok` is false. */
    method GetDocs(name: string, ok: bool) returns (r: Option<seq<Doc>>)
      modifies this`log
      ensures log == old(log) + [GetReq(name)]
      ensures r.Some? <==> ok
      ensures r.Some? ==> IsSnapshot(r.value, Coll(docs, name))
    {
      log := log + [GetReq(name)];
      if ok {
        var snapshot := SnapshotOf(Coll(docs, name));
        r := Some(snapshot);
      } else {
        r := None;
      }
    }

    /** `addDoc(collection(db, name), data)`; `newId` is the fresh id the store generates. */
    method AddDoc(name: string, data: Fields, newId: string, ok: bool) returns (r: Option<string>)
      requires newId !in Coll(docs, name)
      modifies this
      ensures log == old(log) + [AddReq(name, data)]
      ensures r == if ok then Some(newId) else None
      ensures docs == if ok then Added(old(docs), name, newId, data) else old(docs)
    {
      log := log + [AddReq(name, data)];
      if ok {
        docs := Added(docs, name, newId, data);
        r := Some(newId);
      } else {
        r := None;
      }
    }

    /** `updateDoc(doc(db, name, id), patch)`: fails when `ok` is false or the document does not exist. */
    method UpdateDoc(name: string, id: string, patch: Fields, ok: bool) returns (success: bool)
      modifies this
      ensures log == old(log) + [UpdateReq(name, id, patch)]
      ensures success == (ok && id in Coll(old(docs), name))
      ensures docs == if success then Updated(old(docs), name, id, patch) else old(docs)
    {
      log := log + [UpdateReq(name, id, patch)];
      success := ok && id in Coll(docs, name);
      if success {
        docs := Updated(docs, name, id, patch);
      }
    }

    /** `deleteDoc(doc(db, name, id))` */
    method DeleteDoc(name: string, id: string, ok: bool) returns (success: bool)
      modifies this
      ensures log == old(log) + [DeleteReq(name, id)]
      ensures success == ok
      ensures docs == if ok then Deleted(old(docs), name, id) else old(docs)
    {
      log := log + [DeleteReq(name, id)];
      success := ok;
      if ok {
        docs := Deleted(docs, name, id);
      }
    }

    /** `uploadBytes` then `getDownloadURL` for a chosen file. */
    method Upload(downloadUrl: Option<string>) returns (url: Option<string>)
      modifies this`log
      ensures log == old(log) + [UploadReq]
      ensures url == downloadUrl
    {
      log := log + [UploadReq];
      url := downloadUrl;
    }

    /** The image URL a form stores: the empty text when no file was chosen, otherwise the
        download URL of the uploaded file. */
    method UploadChosen(choice: ImageChoice) returns (url: Option<string>)
      modifies this`log
      ensures log == old(log) + (if choice.File? then [UploadReq] else [])
      ensures url == ImageUrl(choice)
    {
      url := Some("");
      if choice.File? {
        url := Upload(choice.downloadUrl);
      }
    }
  }
}
