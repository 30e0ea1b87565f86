/**
 * The add-colour form: a category picker that loads that category's products,
 * a checkbox list of product ids, and a submit that creates the colour document
 * and then writes `color = <new colour id>` onto each selected product, one
 * update after the other.
 */
module AddColorPage {
  import opened Wrappers
  import opened Lists
  import opened Store
  import Text

  /** A product offered as a checkbox: its id and its name. */
  datatype ProductChoice = ProductChoice(id: string, name: string)

  /** The selection after clicking the checkbox of `id`: every copy of it is removed when it
      was selected, otherwise it is appended at the end. */
  function Toggled(prev: seq<string>, id: string): (r: seq<string>)
    ensures id in prev ==> id !in r && Subseq(r, prev) && (forall x :: x != id ==> (x in r <==> x in prev))
    ensures id in prev ==> forall x :: multiset(r)[x] == if x == id then 0 else multiset(prev)[x]
    ensures id !in prev ==> r == prev + [id]
  {
    if id in prev then Filter(prev, (x: string) => x != id) else prev + [id]
  }

  /** Toggling keeps a duplicate-free selection duplicate-free. */
  lemma ToggleKeepsNoDup(prev: seq<string>, id: string)
    requires NoDup(prev)
    ensures NoDup(Toggled(prev, id))
  {
    if id in prev {
      FilterNoDup(prev, (x: string) => x != id);
    } else {
      var r := prev + [id];
      forall i, j | 0 <= i < j < |r| ensures r[i] != r[j] {
        if j == |prev| {
          assert r[i] == prev[i];
        }
      }
    }
  }

  /** Toggling the same id twice restores the set of selected ids. */
  lemma ToggleTwiceRestoresMembership(prev: seq<string>, id: string)
    ensures forall x :: x in Toggled(Toggled(prev, id), id) <==> x in prev
  {
  }

  /** From a selection without `id`, toggling it twice restores the selection exactly. */
  lemma ToggleTwiceFromUnselected(prev: seq<string>, id: string)
    requires id !in prev
    ensures Toggled(Toggled(prev, id), id) == prev
  {
    var p := (x: string) => x != id;
    assert id in prev + [id];
    FilterAppend(prev, [id], p);
    FilterKeepsAll(prev, p);
    assert Filter([id], p) == [];
  }

  /** The product document names the chosen category in its `categoryId` field. */
  predicate InCategory(d: Doc, categoryId: string) {
    Field(d.data, "categoryId") == Some(Str(categoryId))
  }

  /** The checkbox entry for a product document: its id and its name, "" when the name is missing or falsy. */
  function Choice(d: Doc): (c: ProductChoice)
    ensures c.id == d.id
    ensures Field(d.data, "name").Some? && Field(d.data, "name").value.Str? ==> c.name == Field(d.data, "name").value.s
    ensures !(Field(d.data, "name").Some? && Field(d.data, "name").value.Str?) ==> c.name == ""
  {
    ProductChoice(d.id, TextOr(d.data, "name"))
  }

  /** Every document of a snapshot as a checkbox, in snapshot order. */
  function Choices(docs: seq<Doc>): (r: seq<ProductChoice>)
    ensures |r| == |docs|
    ensures forall i :: 0 <= i < |docs| ==> r[i] == Choice(docs[i])
  {
    seq(|docs|, i requires 0 <= i < |docs| => Choice(docs[i]))
  }

  /** The candidate products: none while no category is chosen, otherwise exactly the fetched
      products of that category, in fetched order. */
  function CandidateProducts(docs: seq<Doc>, categoryId: string): (r: seq<ProductChoice>)
    ensures categoryId == "" ==> r == []
    ensures forall p :: p in r <==> categoryId != "" && exists d :: d in docs && InCategory(d, categoryId) && p == Choice(d)
    ensures Subseq(r, Choices(docs))
  {
    if categoryId == "" || docs == [] then []
    else
      var rest := CandidateProducts(docs[1..], categoryId);
      assert docs == [docs[0]] + docs[1..];
      assert Choices(docs)[1..] == Choices(docs[1..]);
      if InCategory(docs[0], categoryId) then
        assert ([Choice(docs[0])] + rest)[1..] == rest;
        [Choice(docs[0])] + rest
      else
        rest
  }

  /** A colour document with the given field texts. */
  function ColorFields(name: string, code: string, category: string): (r: Fields)
    ensures r.Keys == {"name", "colorCode", "categoryId"}
    ensures r["name"] == Str(name) && r["colorCode"] == Str(code) && r["categoryId"] == Str(category)
  {
    map["name" := Str(name), "colorCode" := Str(code), "categoryId" := Str(category)]
  }

  /** The colour document: name, code and category id, each trimmed. */
  function ColorRecord(colorName: string, colorCode: string, categoryId: string): (r: Fields)
    ensures r.Keys == {"name", "colorCode", "categoryId"}
    ensures r["name"] == Str(Text.Trim(colorName))
    ensures r["colorCode"] == Str(Text.Trim(colorCode))
    ensures r["categoryId"] == Str(Text.Trim(categoryId))
  {
    ColorFields(Text.Trim(colorName), Text.Trim(colorCode), Text.Trim(categoryId))
  }

  /** A colour that passed the guard is stored with a non-empty name, and every stored text
      field is already trimmed. */
  lemma ColorRecordIsTrimmed(colorName: string, colorCode: string, categoryId: string)
    requires !Text.IsBlank(colorName)
    ensures var r := ColorRecord(colorName, colorCode, categoryId);
      && r["name"].s != ""
      && Text.Trim(r["name"].s) == r["name"].s
      && Text.Trim(r["colorCode"].s) == r["colorCode"].s
      && Text.Trim(r["categoryId"].s) == r["categoryId"].s
  {
    Text.TrimIdempotent(colorName);
    Text.TrimIdempotent(colorCode);
    Text.TrimIdempotent(categoryId);
  }

  /** The patch each selected product receives: `{ color: colorId }`. */
  function ColorPatch(colorId: string): Fields {
    map["color" := Str(colorId)]
  }

  /** The products collection after one successful `updateDoc(doc(db, "products", id), { color: colorId })`. */
  function SetColor(products: Collection, id: string, colorId: string): (r: Collection)
    ensures r.Keys == products.Keys
    ensures id in products ==> r[id] == products[id]["color" := Str(colorId)]
    ensures forall k :: k in products && k != id ==> r[k] == products[k]
  {
    if id in products then
      assert products[id] + ColorPatch(colorId) == products[id]["color" := Str(colorId)];
      products[id := products[id] + ColorPatch(colorId)]
    else products
  }

  /** The products collection after the updates for `ids`, in order, all succeeded: every
      selected product has `color == colorId`, every other product is as it was. */
  function AssignColor(products: Collection, ids: seq<string>, colorId: string): (r: Collection)
    ensures r.Keys == products.Keys
    ensures forall k :: k in products && k in ids ==> r[k] == products[k]["color" := Str(colorId)]
    ensures forall k :: k in products && k !in ids ==> r[k] == products[k]
    decreases |ids|
  {
    if ids == [] then products
    else
      var front := ids[..|ids| - 1];
      var prev := AssignColor(products, front, colorId);
      var id := ids[|ids| - 1];
      var r := SetColor(prev, id, colorId);
      assert forall k :: k in ids <==> k in front || k == id;
      assert forall k :: k in products && k in front ==>
        prev[k]["color" := Str(colorId)] == products[k]["color" := Str(colorId)];
      r
  }

  /** No product loses a colour: one that had a `color` field still has one, either the old
      value or the new colour. */
  lemma AssignNeverClears(products: Collection, ids: seq<string>, colorId: string, k: string)
    requires k in products && "color" in products[k]
    ensures var r := AssignColor(products, ids, colorId);
      "color" in r[k] && (r[k]["color"] == products[k]["color"] || r[k]["color"] == Str(colorId))
  {
  }

  /** Membership in the selection alone decides whether a product is updated, whatever its
      category: an id chosen under an earlier category is updated too, and the update leaves
      its category and every other field as they were. */
  lemma StaleSelectionStillAssigned(products: Collection, ids: seq<string>, colorId: string, k: string)
    requires k in products && k in ids
    ensures AssignColor(products, ids, colorId)[k]["color"] == Str(colorId)
    ensures forall f :: f != "color" ==> Field(AssignColor(products, ids, colorId)[k], f) == Field(products[k], f)
  {
  }

  /** Updating is idempotent: assigning the colour again changes nothing. */
  lemma AssignColorTwice(products: Collection, ids: seq<string>, colorId: string)
    ensures AssignColor(AssignColor(products, ids, colorId), ids, colorId) == AssignColor(products, ids, colorId)
  {
    var once := AssignColor(products, ids, colorId);
    var twice := AssignColor(once, ids, colorId);
    forall k | k in twice ensures twice[k] == once[k] {
      if k in ids {
        assert once[k]["color" := Str(colorId)] == once[k];
      }
    }
  }

  /** How many updates succeed before the first failure. An update fails when its outcome is
      false or when the product document does not exist; the key set never changes meanwhile. */
  function LeadingSuccesses(keys: set<string>, ids: seq<string>, oks: seq<bool>): (n: nat)
    requires |oks| == |ids|
    ensures n <= |ids|
    ensures forall i :: 0 <= i < n ==> oks[i] && ids[i] in keys
    ensures n < |ids| ==> !(oks[n] && ids[n] in keys)
  {
    if ids == [] || !(oks[0] && ids[0] in keys) then 0
    else 1 + LeadingSuccesses(keys, ids[1..], oks[1..])
  }

  /** One more success before the first failure. */
  lemma LeadingSuccessesNext(keys: set<string>, ids: seq<string>, oks: seq<bool>, n: nat)
    requires |oks| == |ids| && n < |ids| && n <= LeadingSuccesses(keys, ids, oks)
    requires oks[n] && ids[n] in keys
    ensures n < LeadingSuccesses(keys, ids, oks)
  {
  }

  /** How many updates are issued: the successful ones and the one that failed, if any. */
  function Attempted(n: nat, total: nat): nat {
    if n < total then n + 1 else n
  }

  /** The update requests for `ids`, in order. */
  function UpdateRequests(ids: seq<string>, colorId: string): (r: seq<Request>)
    ensures |r| == |ids|
    ensures forall i :: 0 <= i < |ids| ==> r[i] == UpdateReq("products", ids[i], ColorPatch(colorId))
  {
    seq(|ids|, i requires 0 <= i < |ids| => UpdateReq("products", ids[i], ColorPatch(colorId)))
  }

  /** A successful update of product `id` with the colour patch is a `SetColor` on the products collection. */
  lemma UpdatedIsSetColor(docs: Db, id: string, colorId: string)
    ensures Coll(Updated(docs, "products", id, ColorPatch(colorId)), "products") == SetColor(Coll(docs, "products"), id, colorId)
  {
  }

  /** One more update request at the end of the log. */
  lemma UpdateRequestsSnoc(log: seq<Request>, ids: seq<string>, n: nat, colorId: string)
    requires n < |ids|
    ensures log + UpdateRequests(ids[..n + 1], colorId) == log + UpdateRequests(ids[..n], colorId) + [UpdateReq("products", ids[n], ColorPatch(colorId))]
  {
    assert UpdateRequests(ids[..n + 1], colorId) == UpdateRequests(ids[..n], colorId) + [UpdateReq("products", ids[n], ColorPatch(colorId))];
  }

  /** The store after `updateDoc(doc(db, "products", id), { color: colorId })` for each id in
      turn: the products collection is `AssignColor` of the old one, the rest is unchanged. */
  function UpdatedAll(docs: Db, ids: seq<string>, colorId: string): (r: Db)
    ensures Coll(r, "products") == AssignColor(Coll(docs, "products"), ids, colorId)
    ensures SameExcept(r, docs, "products")
    decreases |ids|
  {
    if ids == [] then docs
    else
      var prev := UpdatedAll(docs, ids[..|ids| - 1], colorId);
      UpdatedIsSetColor(prev, ids[|ids| - 1], colorId);
      Updated(prev, "products", ids[|ids| - 1], ColorPatch(colorId))
  }

  /** Updating along one more selected id is one more `Updated`. */
  lemma UpdatedAllSnoc(docs: Db, ids: seq<string>, n: nat, colorId: string)
    requires n < |ids|
    ensures UpdatedAll(docs, ids[..n + 1], colorId) == Updated(UpdatedAll(docs, ids[..n], colorId), "products", ids[n], ColorPatch(colorId))
  {
    assert ids[..n + 1][..n] == ids[..n];
  }

  /** One iteration of that loop: the update of the `n`-th selected product. It succeeds when the
      outcome is success and the product document exists. */
  method UpdateNext(db: Firebase, ghost start: Db, ids: seq<string>, n: nat, colorId: string, ok: bool) returns (updated: bool)
    requires n < |ids|
    requires db.docs == UpdatedAll(start, ids[..n], colorId)
    modifies db
    ensures db.log == old(db.log) + [UpdateReq("products", ids[n], ColorPatch(colorId))]
    ensures updated == (ok && ids[n] in Coll(start, "products"))
    ensures db.docs == if updated then UpdatedAll(start, ids[..n + 1], colorId) else old(db.docs)
  {
    UpdatedAllSnoc(start, ids, n, colorId);
    updated := db.UpdateDoc("products", ids[n], ColorPatch(colorId), ok);
  }

  /** The loop of `handleSubmit`: `updateDoc` on each selected product in order, stopping at the
      first failure, which the surrounding `catch` then reports. Returns how many succeeded. */
  method UpdateSelected(db: Firebase, ids: seq<string>, colorId: string, oks: seq<bool>) returns (n: nat)
    requires |oks| == |ids|
    modifies db
    ensures n == LeadingSuccesses(Coll(old(db.docs), "products").Keys, ids, oks)
    ensures db.docs == UpdatedAll(old(db.docs), ids[..n], colorId)
    ensures db.log == old(db.log) + UpdateRequests(ids[..Attempted(n, |ids|)], colorId)
  {
    ghost var keys := Coll(db.docs, "products").Keys;
    ghost var total := LeadingSuccesses(keys, ids, oks);
    n := 0;
    while n < |ids|
      invariant n <= total
      invariant db.docs == UpdatedAll(old(db.docs), ids[..n], colorId)
      invariant db.log == old(db.log) + UpdateRequests(ids[..n], colorId)
    {
      UpdateRequestsSnoc(old(db.log), ids, n, colorId);
      var updated := UpdateNext(db, old(db.docs), ids, n, colorId, oks[n]);
      if !updated {
        return;
      }
      LeadingSuccessesNext(keys, ids, oks, n);
      n := n + 1;
    }
    assert ids[..n] == ids;
  }

  /** What saving a colour does to the store and the request log: a failed `addDoc` writes
      nothing; a successful one adds the colour document and then updates the selected products
      in order up to the first failure, which is the last request issued; no other collection
      changes. */
  ghost predicate SavedColor(before: Db, after: Db, logBefore: seq<Request>, logAfter: seq<Request>,
                             record: Fields, newColorId: string, addOk: bool, ids: seq<string>, oks: seq<bool>)
    requires |oks| == |ids|
  {
    var orig := Coll(before, "products");
    var n := LeadingSuccesses(orig.Keys, ids, oks);
    && (!addOk ==> after == before && logAfter == logBefore + [AddReq("colors", record)])
    && (addOk ==>
      && Coll(after, "colors") == Coll(before, "colors")[newColorId := record]
      && Coll(after, "products") == AssignColor(orig, ids[..n], newColorId)
      && (forall other :: other != "colors" && other != "products" ==> Coll(after, other) == Coll(before, other))
      && logAfter == logBefore + [AddReq("colors", record)] + UpdateRequests(ids[..Attempted(n, |ids|)], newColorId))
  }

  /** The remote part of `handleSubmit` once the guard passed: `addDoc` of the colour, then,
      only if it succeeded, the updates of the selected products. */
  method SaveColor(db: Firebase, record: Fields, newColorId: string, addOk: bool, ids: seq<string>, oks: seq<bool>)
    requires |oks| == |ids|
    requires newColorId !in Coll(db.docs, "colors")
    modifies db
    ensures SavedColor(old(db.docs), db.docs, old(db.log), db.log, record, newColorId, addOk, ids, oks)
  {
    var added := db.AddDoc("colors", record, newColorId, addOk);
    if added.None? {
      return;
    }
    ghost var afterAdd := db.docs;
    assert Coll(afterAdd, "colors") == Coll(old(db.docs), "colors")[newColorId := record];
    var _ := UpdateSelected(db, ids, added.value, oks);
  }

  /** The form's state. */
  class AddColorPage {
    var colorName: string
    var colorCode: string
    var loading: bool
    var selectedCategoryId: string
    var products: seq<ProductChoice>
    var selectedProductIds: seq<string>

    constructor ()
      ensures colorName == "" && colorCode == "" && !loading
      ensures selectedCategoryId == "" && products == [] && selectedProductIds == []
    {
      colorName, colorCode, loading := "", "", false;
      selectedCategoryId, products, selectedProductIds := "", [], [];
    }

    /** `toggleProductSelection` */
    method ToggleProductSelection(productId: string)
      modifies this
      ensures selectedProductIds == Toggled(old(selectedProductIds), productId)
      ensures colorName == old(colorName) && colorCode == old(colorCode) && loading == old(loading)
      ensures selectedCategoryId == old(selectedCategoryId) && products == old(products)
    {
      selectedProductIds := Toggled(selectedProductIds, productId);
    }

    /** Choosing a category, and the effect that then reloads the candidate products. The
        selection is left as it was. */
    method SelectCategory(db: Firebase, categoryId: string, ok: bool) returns (ghost snapshot: seq<Doc>)
      modifies this, db`log
      ensures selectedCategoryId == categoryId
      ensures selectedProductIds == old(selectedProductIds)
      ensures colorName == old(colorName) && colorCode == old(colorCode) && loading == old(loading)
      ensures categoryId == "" ==> products == [] && db.log == old(db.log)
      ensures categoryId != "" ==> db.log == old(db.log) + [GetReq("products")]
      ensures categoryId != "" && ok ==>
        IsSnapshot(snapshot, Coll(db.docs, "products")) && products == CandidateProducts(snapshot, categoryId)
      ensures categoryId != "" && !ok ==> products == old(products)
    {
      selectedCategoryId := categoryId;
      snapshot := [];
      if categoryId == "" {
        products := [];
        return;
      }
      var r := db.GetDocs("products", ok);
      if r.Some? {
        snapshot := r.value;
        products := CandidateProducts(r.value, categoryId);
      }
    }

    /** `handleSubmit`. A blank name is rejected before any call. Otherwise the colour document
        is added; if that succeeded, the selected products are updated one after the other
        until the first failure, and the loading flag is cleared at the end either way. */
    method HandleSubmit(db: Firebase, newColorId: string, addOk: bool, updateOks: seq<bool>)
      requires |updateOks| == |selectedProductIds|
      requires newColorId !in Coll(db.docs, "colors")
      modifies this, db
      ensures colorName == old(colorName) && colorCode == old(colorCode)
      ensures selectedCategoryId == old(selectedCategoryId) && products == old(products)
      ensures selectedProductIds == old(selectedProductIds)
      ensures Text.IsBlank(colorName) ==> db.docs == old(db.docs) && db.log == old(db.log) && loading == old(loading)
      ensures !Text.IsBlank(colorName) ==> !loading
      ensures !Text.IsBlank(colorName) ==>
        SavedColor(old(db.docs), db.docs, old(db.log), db.log,
                   ColorRecord(colorName, colorCode, selectedCategoryId), newColorId, addOk, selectedProductIds, updateOks)
    {
      if Text.IsBlank(colorName) {
        return;
      }
      loading := true;
      SaveColor(db, ColorRecord(colorName, colorCode, selectedCategoryId), newColorId, addOk, selectedProductIds, updateOks);
      loading := false;
    }
  }
}
