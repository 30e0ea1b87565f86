/**
 * The add-brand form: a brand must name a category; its image is optional.
 */
module AddBrandPage {
  import opened Wrappers
  import opened Store

  /** The brand document: the name as typed (not trimmed), the image URL and the chosen category. */
  function BrandRecord(name: string, imageUrl: string, categoryId: string): (r: Fields)
    ensures r.Keys == {"name", "imageUrl", "categoryId"}
    ensures r["name"] == Str(name) && r["imageUrl"] == Str(imageUrl) && r["categoryId"] == Str(categoryId)
  {
    map["name" := Str(name), "imageUrl" := Str(imageUrl), "categoryId" := Str(categoryId)]
  }

  /** A stored brand always names a category, since the form refuses an empty selection. */
  lemma StoredBrandHasCategory(name: string, imageUrl: string, selectedCategory: string)
    requires selectedCategory != ""
    ensures BrandRecord(name, imageUrl, selectedCategory)["categoryId"] != Str("")
  {
  }

  /** The form's state. */
  class AddBrandPage {
    var name: string
    var imageFile: ImageChoice
    var selectedCategory: string
    var loading: bool

    constructor ()
      ensures name == "" && imageFile == NoFile && selectedCategory == "" && !loading
    {
      name, imageFile, selectedCategory, loading := "", NoFile, "", false;
    }

    /** `handleSubmit`. Without a category nothing happens: no upload, no write, and the
        loading flag is not touched. Otherwise the image is uploaded if one was chosen, the brand
        is added if the upload did not fail, and the loading flag ends cleared. */
    method HandleSubmit(db: Firebase, newId: string, addOk: bool)
      requires newId !in Coll(db.docs, "brands")
      modifies this`loading, db
      ensures selectedCategory == "" ==> db.docs == old(db.docs) && db.log == old(db.log) && loading == old(loading)
      ensures selectedCategory != "" ==> !loading
      ensures selectedCategory != "" && ImageUrl(imageFile).None? ==>
        db.docs == old(db.docs) && db.log == old(db.log) + [UploadReq]
      ensures selectedCategory != "" && ImageUrl(imageFile).Some? ==>
        var record := BrandRecord(name, ImageUrl(imageFile).value, selectedCategory);
        && db.log == old(db.log) + (if imageFile.File? then [UploadReq] else []) + [AddReq("brands", record)]
        && db.docs == if addOk then Added(old(db.docs), "brands", newId, record) else old(db.docs)
    {
      if selectedCategory == "" {
        return;
      }
      loading := true;
      var imageUrl := db.UploadChosen(imageFile);
      if imageUrl.Some? {
        var _ := db.AddDoc("brands", BrandRecord(name, imageUrl.value, selectedCategory), newId, addOk);
      }
      loading := false;
    }
  }
}
