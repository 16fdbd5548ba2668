/** The edit-only book form (src/components/EditBookForm.tsx). It shares the book form's data
    model and field rules, except that an empty price passes; its file check is a list of
    allowed MIME types; its `onFinish` uploads an attached file before submitting and submits
    nothing when the upload throws; and its preview's remove button also clears `imageUrl`. */
module EditBookForm {
  import opened Common
  import BookForm

  /** The MIME types `validateImageFile` allows. */
  const AllowedTypes: seq<string> := ["image/jpeg", "image/jpg", "image/png", "image/gif", "image/webp"]

  const TypeNotAllowedMessage: string := "Tipo de archivo no permitido. Solo se permiten: JPG, PNG, GIF, WebP"
  const FileTooLargeMessage: string := "El archivo es demasiado grande. Tamaño máximo: 5MB"

  /** `validateImageFile(file)`: the error text, `None` for an acceptable file. */
  function ValidateImageFile(file: BookForm.File): Option<string> {
    if file.mimeType !in AllowedTypes then Some(TypeNotAllowedMessage)
    else if file.size > BookForm.MaxImageSize then Some(FileTooLargeMessage)
    else None
  }

  /** A file passes exactly when its type is one of the five and it holds at most 5 MiB; the
      type is checked first, so an oversized file of a wrong type reports the type. */
  lemma ImageFileRule(file: BookForm.File)
    ensures ValidateImageFile(file).None? <==> file.mimeType in AllowedTypes && file.size <= 5242880
    ensures file.mimeType !in AllowedTypes ==> ValidateImageFile(file) == Some(TypeNotAllowedMessage)
    ensures file.mimeType in AllowedTypes && file.size > 5242880 ==> ValidateImageFile(file) == Some(FileTooLargeMessage)
    ensures ValidateImageFile(BookForm.File("image/svg+xml", 1)) == Some(TypeNotAllowedMessage)
  {
    assert "image/svg+xml" != AllowedTypes[0] && "image/svg+xml" != AllowedTypes[4];
  }

  /** Every type this form allows is one the book form's `image/` check lets through too. */
  lemma AllowedTypesAreImages(file: BookForm.File)
    requires ValidateImageFile(file).None?
    ensures BookForm.FileProblem(file).None?
  {
    var k :| 0 <= k < |AllowedTypes| && AllowedTypes[k] == file.mimeType;
    assert AllowedTypes[k][..6] == "image/";
  }

  /** `validateField` of this form: as the book form's, except that the price is checked only
      when it is neither `null` nor `undefined`. */
  function ValidateField(name: string, value: BookForm.Value): BookForm.Verdict {
    if name == "price" then
      if !value.Absent? && !value.NullValue? && (!value.Number? || value.n < 0) then BookForm.Failed(BookForm.PriceMessage)
      else BookForm.Passed
    else BookForm.ValidateField(name, value)
  }

  /** An empty price passes; any other price must be a number that is not negative. */
  lemma NullablePrice(value: BookForm.Value)
    ensures ValidateField("price", value).Failed? <==> !value.Absent? && !value.NullValue? && (!value.Number? || value.n < 0)
    ensures ValidateField("price", BookForm.Absent) == BookForm.Passed && ValidateField("price", BookForm.NullValue) == BookForm.Passed
    ensures ValidateField("price", BookForm.Number(0)) == BookForm.Passed
    ensures BookForm.ValidateField("price", BookForm.Absent) == BookForm.Failed(BookForm.PriceMessage)
  {
  }

  /** The text fields and the skipped fields follow the book form's rules exactly. */
  lemma SameRulesAsBookForm(name: string, value: BookForm.Value)
    requires name != "price"
    ensures ValidateField(name, value) == BookForm.ValidateField(name, value)
  {
  }

  /** The upload control's `onChange`: a rejected file only sets the image error; an accepted
      one clears it and becomes the image; no file empties the image and clears the error. */
  function AfterUpload(f: BookForm.Fields, file: Option<BookForm.File>): (r: BookForm.Fields)
    ensures file.Some? && ValidateImageFile(file.value).Some? ==>
      r.data == f.data && Lookup(r.errors, "image") == Some(ValidateImageFile(file.value))
    ensures file.Some? && ValidateImageFile(file.value).None? ==>
      Lookup(r.data, "image") == Some(BookForm.FileValue(file.value)) && Lookup(r.errors, "image") == Some(None)
    ensures file.None? ==> Lookup(r.data, "image") == Some(BookForm.Absent) && Lookup(r.errors, "image") == Some(None)
    ensures forall k :: k != "image" ==> Lookup(r.data, k) == Lookup(f.data, k)
    ensures forall k :: k != "image" ==> Lookup(r.errors, k) == Lookup(f.errors, k)
  {
    match file
    case None =>
      var changed := BookForm.AfterChange(f, "image", BookForm.Absent);
      BookForm.Fields(changed.data, Assign(changed.errors, "image", None))
    case Some(x) =>
      match ValidateImageFile(x)
      case Some(m) => BookForm.Fields(f.data, Assign(f.errors, "image", Some(m)))
      case None => BookForm.AfterChange(BookForm.Fields(f.data, Assign(f.errors, "image", None)), "image", BookForm.FileValue(x))
  }

  /** The remove button of the preview: no image, an empty `imageUrl` and no image error. */
  function AfterRemovePreview(f: BookForm.Fields): (r: BookForm.Fields)
    ensures Lookup(r.data, "image") == Some(BookForm.Absent) && Lookup(r.data, "imageUrl") == Some(BookForm.Text([]))
    ensures Lookup(r.errors, "image") == Some(None)
    ensures forall k :: k != "image" && k != "imageUrl" ==> Lookup(r.data, k) == Lookup(f.data, k)
    ensures forall k :: k != "image" && k != "imageUrl" ==> Lookup(r.errors, k) == Lookup(f.errors, k)
  {
    var once := BookForm.AfterChange(f, "image", BookForm.Absent);
    var twice := BookForm.AfterChange(once, "imageUrl", BookForm.Text([]));
    BookForm.Fields(twice.data, Assign(twice.errors, "image", None))
  }

  /** What `onFinish` did: the file it sent to `uploadImageOnly`, if any, and the data it
      handed to `onSubmit`, `None` when an exception was caught first. */
  datatype Finished = Finished(uploaded: Option<BookForm.File>, submitted: Option<BookForm.FormData>)

  /** `onFinish(values)`: an attached file is checked and uploaded (`upload`: the URL
      `uploadImageOnly` returns, `None` when it throws) before anything is submitted; its
      URL replaces `imageUrl` and the file is removed from the data. A file that fails the
      check, a value that is not a file, or a failed upload submits nothing. */
  function Finish(data: BookForm.FormData, values: BookForm.FormData, upload: Option<CodeUnits>): Finished {
    var merged := Spread(data, values);
    var image := BookForm.FieldValue(data, "image");
    if !BookForm.Present(image) then Finished(None, Some(merged))
    else if !image.FileValue? || ValidateImageFile(image.file).Some? then Finished(None, None)
    else
      match upload
      case None => Finished(Some(image.file), None)
      case Some(url) => Finished(Some(image.file), Some(Remove(Assign(merged, "imageUrl", BookForm.Text(url)), "image")))
  }

  /** The upload comes first: whatever is submitted with a file attached went through an
      upload of that very file, carries its URL and no longer carries the file; without an
      upload result nothing is submitted; without a file nothing is uploaded. */
  lemma UploadBeforeSubmit(data: BookForm.FormData, values: BookForm.FormData, upload: Option<CodeUnits>)
    requires UniqueKeys(values)
    ensures var r := Finish(data, values, upload);
      var image := BookForm.FieldValue(data, "image");
      (!BookForm.Present(image) ==> r.uploaded.None? && r.submitted == Some(Spread(data, values))) &&
      (BookForm.Present(image) && r.submitted.Some? ==>
         r.uploaded == Some(image.file) && upload.Some? &&
         Lookup(r.submitted.value, "imageUrl") == Some(BookForm.Text(upload.value)) &&
         Lookup(r.submitted.value, "image").None?) &&
      (BookForm.Present(image) && upload.None? ==> r.submitted.None?) &&
      (r.submitted.Some? ==> forall k :: k != "image" && k != "imageUrl" ==>
         Lookup(r.submitted.value, k) == (if Lookup(values, k).Some? then Lookup(values, k) else Lookup(data, k)))
  {
    var image := BookForm.FieldValue(data, "image");
    var r := Finish(data, values, upload);
    if BookForm.Present(image) && image.FileValue? && ValidateImageFile(image.file).None? && upload.Some? {
      var submitted := Remove(Assign(Spread(data, values), "imageUrl", BookForm.Text(upload.value)), "image");
      assert r == Finished(Some(image.file), Some(submitted));
    }
    forall k | r.submitted.Some? && k != "image" && k != "imageUrl" {
      FinishKeepsOthers(data, values, upload, k);
    }
  }

  /** A key other than the two image keys is submitted with its merged value. */
  lemma FinishKeepsOthers(data: BookForm.FormData, values: BookForm.FormData, upload: Option<CodeUnits>, k: string)
    requires UniqueKeys(values)
    requires Finish(data, values, upload).submitted.Some? && k != "image" && k != "imageUrl"
    ensures Lookup(Finish(data, values, upload).submitted.value, k) ==
      (if Lookup(values, k).Some? then Lookup(values, k) else Lookup(data, k))
  {
    SpreadLookup(data, values, k);
  }

  /** The edit form's state. */
  class Form {
    var data: BookForm.FormData
    var errors: BookForm.Errors
    var preview: Option<CodeUnits>
    var uploadingImage: bool

    function Current(): BookForm.Fields
      reads this
    {
      BookForm.Fields(data, errors)
    }

    constructor(book: BookForm.Book)
      ensures data == BookForm.InitialData(Some(book)) && errors == [] && preview == BookForm.InitialPreview(Some(book))
      ensures !uploadingImage
    {
      data := BookForm.InitialData(Some(book));
      errors := [];
      preview := BookForm.InitialPreview(Some(book));
      uploadingImage := false;
    }

    method HandleChange(name: string, value: BookForm.Value)
      modifies this
      ensures Current() == BookForm.AfterChange(old(Current()), name, value)
      ensures preview == old(preview) && uploadingImage == old(uploadingImage)
    {
      var shown := BookForm.ErrorShown(errors, name);
      data := Assign(data, name, value);
      if shown {
        errors := Assign(errors, name, None);
      }
    }

    /** `handleBlur(name)`; `threw` when the rule throws, in which case nothing changes. */
    method HandleBlur(name: string) returns (threw: bool)
      modifies this
      ensures var r := BookForm.ApplyVerdict(old(errors), name, ValidateField(name, BookForm.FieldValue(old(data), name)));
        threw == r.None? && errors == (if r.Some? then r.value else old(errors))
      ensures data == old(data) && preview == old(preview) && uploadingImage == old(uploadingImage)
    {
      var verdict := ValidateField(name, BookForm.FieldValue(data, name));
      threw := false;
      match verdict
      case Skipped =>
      case Passed => errors := Assign(errors, name, None);
      case Failed(m) => errors := Assign(errors, name, Some(m));
      case Throws => threw := true;
    }

    /** The upload control's `onChange`; an accepted file's preview arrives later through
        `PreviewLoaded`. */
    method UploadChanged(file: Option<BookForm.File>)
      modifies this
      ensures Current() == AfterUpload(old(Current()), file)
      ensures preview == (if file.None? then None else old(preview))
      ensures uploadingImage == old(uploadingImage)
    {
      if file.Some? {
        var problem := ValidateImageFile(file.value);
        if problem.Some? {
          errors := Assign(errors, "image", problem);
          return;
        }
        errors := Assign(errors, "image", None);
        HandleChange("image", BookForm.FileValue(file.value));
      } else {
        preview := None;
        HandleChange("image", BookForm.Absent);
        errors := Assign(errors, "image", None);
      }
    }

    method PreviewLoaded(dataUrl: CodeUnits)
      modifies this
      ensures preview == Some(dataUrl) && Current() == old(Current()) && uploadingImage == old(uploadingImage)
    {
      preview := Some(dataUrl);
    }

    method RemovePreview()
      modifies this
      ensures preview.None? && Current() == AfterRemovePreview(old(Current()))
      ensures uploadingImage == old(uploadingImage)
    {
      ghost var f := Current();
      preview := None;
      HandleChange("image", BookForm.Absent);
      ghost var once := Current();
      assert once == BookForm.AfterChange(f, "image", BookForm.Absent);
      HandleChange("imageUrl", BookForm.Text([]));
      ghost var twice := Current();
      assert twice == BookForm.AfterChange(once, "imageUrl", BookForm.Text([]));
      errors := Assign(errors, "image", None);
      assert Current() == BookForm.Fields(twice.data, Assign(twice.errors, "image", None));
    }

    /** `onFinish(values)`: the form's own state is left as it was, and the upload flag is
        down again once `handleImageUpload` settled. */
    method Submit(values: BookForm.FormData, upload: Option<CodeUnits>) returns (r: Finished)
      modifies this
      ensures r == Finish(old(data), values, upload)
      ensures Current() == old(Current()) && preview == old(preview)
      ensures uploadingImage == (if BookForm.Present(BookForm.FieldValue(old(data), "image")) then false else old(uploadingImage))
    {
      var finalData := Spread(data, values);
      var image := BookForm.FieldValue(data, "image");
      if !BookForm.Present(image) {
        return Finished(None, Some(finalData));
      }
      uploadingImage := true;
      if !image.FileValue? || ValidateImageFile(image.file).Some? {
        uploadingImage := false;
        return Finished(None, None);
      }
      if upload.None? {
        uploadingImage := false;
        return Finished(Some(image.file), None);
      }
      uploadingImage := false;
      finalData := Assign(finalData, "imageUrl", BookForm.Text(upload.value));
      finalData := Remove(finalData, "image");
      r := Finished(Some(image.file), Some(finalData));
    }
  }
}
