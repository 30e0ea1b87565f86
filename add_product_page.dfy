/**
 * The add-product form: an editable list of sizes and the product record that
 * the submit handler writes.
 */
module AddProductPage {
  import opened Wrappers
  import opened Lists
  import opened Store
  import Text

  /** The sizes after `handleAddSize` with input `newSize`: its trimmed text is appended,
      even when that size is already listed, unless it is blank. */
  function SizesAfterAdd(sizes: seq<string>, newSize: string): (r: seq<string>)
    ensures Text.IsBlank(newSize) ==> r == sizes
    ensures !Text.IsBlank(newSize) ==> |r| == |sizes| + 1 && r[..|sizes|] == sizes && r[|sizes|] == Text.Trim(newSize)
  {
    if Text.IsBlank(newSize) then sizes else sizes + [Text.Trim(newSize)]
  }

  /** The sizes after `handleRemoveSize(size)`: every entry equal to `size` is dropped, the
      others are kept in order. */
  function SizesAfterRemove(sizes: seq<string>, size: string): (r: seq<string>)
    ensures forall x :: x in r <==> x in sizes && x != size
    ensures forall x :: multiset(r)[x] == if x == size then 0 else multiset(sizes)[x]
    ensures Subseq(r, sizes)
  {
    Filter(sizes, (x: string) => x != size)
  }

  /** Adding a size that is already listed appends a second copy of it. */
  lemma DuplicateSizeAppended(sizes: seq<string>, newSize: string)
    requires !Text.IsBlank(newSize) && Text.Trim(newSize) in sizes
    ensures multiset(SizesAfterAdd(sizes, newSize))[Text.Trim(newSize)] >= 2
  {
    var t := Text.Trim(newSize);
    assert multiset(sizes + [t]) == multiset(sizes) + multiset{t};
  }

  /** Adding a size that was not listed and then removing it restores the list. */
  lemma AddThenRemoveRestores(sizes: seq<string>, newSize: string)
    requires !Text.IsBlank(newSize) && Text.Trim(newSize) !in sizes
    ensures SizesAfterRemove(SizesAfterAdd(sizes, newSize), Text.Trim(newSize)) == sizes
  {
    var t := Text.Trim(newSize);
    var p := (x: string) => x != t;
    FilterAppend(sizes, [t], p);
    FilterKeepsAll(sizes, p);
    assert Filter([t], p) == [];
  }

  /** Every listed size is non-empty and has no surrounding white space. */
  predicate CleanSizes(sizes: seq<string>) {
    forall i :: 0 <= i < |sizes| ==> sizes[i] != "" && Text.Trim(sizes[i]) == sizes[i]
  }

  /** Adding keeps the list clean. */
  lemma AddKeepsClean(sizes: seq<string>, newSize: string)
    requires CleanSizes(sizes)
    ensures CleanSizes(SizesAfterAdd(sizes, newSize))
  {
    Text.TrimIdempotent(newSize);
  }

  /** Removing keeps the list clean. */
  lemma RemoveKeepsClean(sizes: seq<string>, size: string)
    requires CleanSizes(sizes)
    ensures CleanSizes(SizesAfterRemove(sizes, size))
  {
    var r := SizesAfterRemove(sizes, size);
    forall i | 0 <= i < |r| ensures r[i] != "" && Text.Trim(r[i]) == r[i] {
      assert r[i] in sizes;
    }
  }

  /** The product document: exactly these six fields. The discounted price is not among them. */
  function ProductRecord(name: string, price: int, discount: int, sizes: seq<string>, imageUrl: string, categoryId: string): (r: Fields)
    ensures r.Keys == {"name", "price", "discount", "sizes", "imageURL", "categoryId"}
    ensures r["name"] == Str(name) && r["price"] == Num(price) && r["discount"] == Num(discount)
    ensures r["sizes"] == StrList(sizes) && r["imageURL"] == Str(imageUrl) && r["categoryId"] == Str(categoryId)
  {
    map["name" := Str(name), "price" := Num(price), "discount" := Num(discount),
        "sizes" := StrList(sizes), "imageURL" := Str(imageUrl), "categoryId" := Str(categoryId)]
  }

  /** The form's state. */
  class AddProductPage {
    var name: string
    var price: int
    var discount: int
    var sizes: seq<string>
    var newSize: string
    var imageFile: ImageChoice
    var selectedCategoryId: string
    var loading: bool

    constructor ()
      ensures name == "" && price == 0 && discount == 0 && sizes == [] && newSize == ""
      ensures imageFile == NoFile && selectedCategoryId == "" && !loading
    {
      name, price, discount, sizes, newSize := "", 0, 0, [], "";
      imageFile, selectedCategoryId, loading := NoFile, "", false;
    }

    /** `handleAddSize`: the input is cleared exactly when a size was appended. */
    method HandleAddSize()
      modifies this
      ensures sizes == SizesAfterAdd(old(sizes), old(newSize))
      ensures newSize == if Text.IsBlank(old(newSize)) then old(newSize) else ""
      ensures name == old(name) && price == old(price) && discount == old(discount)
      ensures imageFile == old(imageFile) && selectedCategoryId == old(selectedCategoryId) && loading == old(loading)
    {
      if !Text.IsBlank(newSize) {
        sizes := sizes + [Text.Trim(newSize)];
        newSize := "";
      }
    }

    /** `handleRemoveSize` */
    method HandleRemoveSize(sizeToRemove: string)
      modifies this`sizes
      ensures sizes == SizesAfterRemove(old(sizes), sizeToRemove)
    {
      sizes := SizesAfterRemove(sizes, sizeToRemove);
    }

    /** `handleAddProduct`: uploads the chosen image, if any, then adds the product document;
        a failed upload means no document is written, and the loading flag ends cleared. */
    method HandleAddProduct(db: Firebase, newId: string, addOk: bool)
      requires newId !in Coll(db.docs, "products")
      modifies this`loading, db
      ensures !loading
      ensures ImageUrl(imageFile).None? ==>
        db.docs == old(db.docs) && db.log == old(db.log) + [UploadReq]
      ensures ImageUrl(imageFile).Some? ==>
        var record := ProductRecord(name, price, discount, sizes, ImageUrl(imageFile).value, selectedCategoryId);
        && db.log == old(db.log) + (if imageFile.File? then [UploadReq] else []) + [AddReq("products", record)]
        && db.docs == if addOk then Added(old(db.docs), "products", newId, record) else old(db.docs)
    {
      loading := true;
      var url := db.UploadChosen(imageFile);
      if url.Some? {
        var record := ProductRecord(name, price, discount, sizes, url.value, selectedCategoryId);
        var _ := db.AddDoc("products", record, newId, addOk);
      }
      loading := false;
    }
  }
}
