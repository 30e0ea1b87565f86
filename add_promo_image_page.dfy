/**
 * The add-promotional-image form: a titled image, the title required and stored trimmed.
 */
module AddPromoImagePage {
  import opened Wrappers
  import opened Store
  import Text

  /** A promotional image document with the given title and URL. */
  function PromoImageFields(title: string, imageUrl: string): (r: Fields)
    ensures r.Keys == {"title", "imageUrl"}
    ensures r["title"] == Str(title) && r["imageUrl"] == Str(imageUrl)
  {
    map["title" := Str(title), "imageUrl" := Str(imageUrl)]
  }

  /** The promotional image document: the trimmed title and the image URL. */
  function PromoImageRecord(title: string, imageUrl: string): (r: Fields)
    ensures r.Keys == {"title", "imageUrl"}
    ensures r["title"] == Str(Text.Trim(title)) && r["imageUrl"] == Str(imageUrl)
  {
    PromoImageFields(Text.Trim(title), imageUrl)
  }

  /** A title that passed the guard is stored non-empty and without surrounding white space. */
  lemma StoredTitleIsClean(title: string, imageUrl: string)
    requires !Text.IsBlank(title)
    ensures var t := PromoImageRecord(title, imageUrl)["title"].s;
      t != "" && Text.Trim(t) == t
  {
    Text.TrimIdempotent(title);
  }

  /** The form's state. */
  class AddPromoImagePage {
    var title: string
    var imageFile: ImageChoice
    var loading: bool

    constructor ()
      ensures title == "" && imageFile == NoFile && !loading
    {
      title, imageFile, loading := "", NoFile, false;
    }

    /** `handleAddPromoImage`. A blank title is rejected before any upload or write. Otherwise
        the image is uploaded if one was chosen, the document is added if the upload did not
        fail, and the loading flag ends cleared. */
    method HandleAddPromoImage(db: Firebase, newId: string, addOk: bool)
      requires newId !in Coll(db.docs, "promo-images")
      modifies this`loading, db
      ensures Text.IsBlank(title) ==> db.docs == old(db.docs) && db.log == old(db.log) && loading == old(loading)
      ensures !Text.IsBlank(title) ==> !loading
      ensures !Text.IsBlank(title) && ImageUrl(imageFile).None? ==>
        db.docs == old(db.docs) && db.log == old(db.log) + [UploadReq]
      ensures !Text.IsBlank(title) && ImageUrl(imageFile).Some? ==>
        var record := PromoImageRecord(title, ImageUrl(imageFile).value);
        && db.log == old(db.log) + (if imageFile.File? then [UploadReq] else []) + [AddReq("promo-images", record)]
        && db.docs == if addOk then Added(old(db.docs), "promo-images", newId, record) else old(db.docs)
    {
      if Text.IsBlank(title) {
        return;
      }
      loading := true;
      var downloadUrl := db.UploadChosen(imageFile);
      if downloadUrl.Some? {
        var _ := db.AddDoc("promo-images", PromoImageRecord(title, downloadUrl.value), newId, addOk);
      }
      loading := false;
    }
  }
}
