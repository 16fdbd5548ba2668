/** The book form used for creating and editing (src/components/BookForm.tsx): the field
    rules checked on blur, the edit handler that clears a field's error, the checks on a file
    chosen in the upload control, and what `onFinish` hands to `onSubmit` when a file is
    attached. The form data and the error map are plain objects with ordered keys. */
module BookForm {
  import opened Common

  /** A `File` from the upload control: its MIME type and its size in bytes. */
  datatype File = File(mimeType: string, size: int)

  /** A form field's value as the handlers see it: text (UTF-16 code units, as `trim` and
      `length` see it), a number, a flag, a file, `undefined` or `null`. */
  datatype Value =
    | Absent
    | NullValue
    | Text(units: CodeUnits)
    | Number(n: int)
    | Flag(b: bool)
    | FileValue(file: File)

  /** JavaScript truthiness of a field value. */
  predicate Present(v: Value) {
    match v
    case Absent => false
    case NullValue => false
    case Text(u) => u != []
    case Number(n) => n != 0
    case Flag(b) => b
    case FileValue(_) => true
  }

  /** `BookFormData`. */
  type FormData = seq<(string, Value)>

  /** `BookFormErrors`: `None` is a key that was set to `undefined`. */
  type Errors = seq<(string, Option<string>)>

  /** The form data and the error map together. */
  datatype Fields = Fields(data: FormData, errors: Errors)

  /** The book a form edits; a missing `imageUrl` or `description` is the empty text. */
  datatype Book = Book(id: string, title: CodeUnits, author: CodeUnits, publisher: CodeUnits,
                       price: int, availability: bool, genre: CodeUnits, imageUrl: CodeUnits,
                       description: CodeUnits)

  const TitleMessage: string := "El título debe tener al menos 2 caracteres"
  const AuthorMessage: string := "El autor debe tener al menos 2 caracteres"
  const PublisherMessage: string := "El editorial es requerido"
  const GenreMessage: string := "El género es requerido"
  const PriceMessage: string := "El precio debe ser un número positivo"
  const WrongTypeMessage: string := "Solo se permiten archivos de imagen"
  const TooLargeMessage: string := "La imagen no puede ser mayor a 5MB"

  /** The largest file the upload control takes: 5 MiB. */
  const MaxImageSize: int := 5 * 1024 * 1024

  /** The initial `formData`: the book's fields, or empty text, price 0 and available. */
  function InitialData(book: Option<Book>): (r: FormData)
    ensures Keys(r) == ["title", "author", "publisher", "price", "genre", "availability", "image", "imageUrl", "description"]
    ensures book.None? ==> r == [("title", Text([])), ("author", Text([])), ("publisher", Text([])),
                                 ("price", Number(0)), ("genre", Text([])), ("availability", Flag(true)),
                                 ("image", Absent), ("imageUrl", Text([])), ("description", Text([]))]
  {
    match book
    case None =>
      [("title", Text([])), ("author", Text([])), ("publisher", Text([])), ("price", Number(0)),
       ("genre", Text([])), ("availability", Flag(true)), ("image", Absent), ("imageUrl", Text([])),
       ("description", Text([]))]
    case Some(b) =>
      [("title", Text(b.title)), ("author", Text(b.author)), ("publisher", Text(b.publisher)),
       ("price", Number(b.price)), ("genre", Text(b.genre)), ("availability", Flag(b.availability)),
       ("image", Absent), ("imageUrl", Text(b.imageUrl)), ("description", Text(b.description))]
  }

  /** `book?.imageUrl || null`. */
  function InitialPreview(book: Option<Book>): Option<CodeUnits> {
    if book.Some? && book.value.imageUrl != [] then Some(book.value.imageUrl) else None
  }

  /** `formData[name]`. */
  function FieldValue(data: FormData, name: string): Value {
    match Lookup(data, name)
    case None => Absent
    case Some(v) => v
  }

  /** The outcome of `validateField(name, value)`: the field is not checked, it passes, it
      fails with a message, or the check throws (`value.trim` of a value that is not text). */
  datatype Verdict = Skipped | Passed | Failed(message: string) | Throws

  /** The rule `validateField` applies to one field. */
  function ValidateField(name: string, value: Value): Verdict {
    if name == "image" || name == "description" then Skipped
    else if name == "title" || name == "author" then
      if !Present(value) then Failed(if name == "title" then TitleMessage else AuthorMessage)
      else if !value.Text? then Throws
      else if |Trim(value.units)| < 2 then Failed(if name == "title" then TitleMessage else AuthorMessage)
      else Passed
    else if name == "publisher" || name == "genre" then
      if !Present(value) then Failed(if name == "publisher" then PublisherMessage else GenreMessage)
      else if !value.Text? then Throws
      else if |Trim(value.units)| == 0 then Failed(if name == "publisher" then PublisherMessage else GenreMessage)
      else Passed
    else if name == "price" then
      if !value.Number? || value.n < 0 then Failed(PriceMessage) else Passed
    else Passed
  }

  /** What a verdict does to the error map: a failure sets the message, a pass sets the key
      to `undefined`, a skipped field leaves the map alone; `None` is the exception escaping. */
  function ApplyVerdict(errors: Errors, name: string, verdict: Verdict): (r: Option<Errors>)
    ensures r.None? <==> verdict.Throws?
    ensures r.Some? ==> forall k :: k != name ==> Lookup(r.value, k) == Lookup(errors, k)
    ensures verdict.Failed? ==> r.Some? && Lookup(r.value, name) == Some(Some(verdict.message))
    ensures verdict.Passed? ==> r.Some? && Lookup(r.value, name) == Some(None)
    ensures verdict.Skipped? ==> r == Some(errors)
  {
    match verdict
    case Skipped => Some(errors)
    case Passed => Some(Assign(errors, name, None))
    case Failed(m) => Some(Assign(errors, name, Some(m)))
    case Throws => None
  }

  /** The title and the author fail exactly when absent or shorter than two code units once
      trimmed, with the field's own message, and throw for a truthy value that is not text. */
  lemma TitleAuthorRule(name: string, value: Value)
    requires name == "title" || name == "author"
    ensures ValidateField(name, value).Failed? <==> !Present(value) || (value.Text? && |Trim(value.units)| < 2)
    ensures ValidateField(name, value).Failed? ==>
      ValidateField(name, value).message == if name == "title" then TitleMessage else AuthorMessage
    ensures ValidateField(name, value).Throws? <==> Present(value) && !value.Text?
    ensures ValidateField(name, value).Passed? <==> value.Text? && |Trim(value.units)| >= 2
  {
  }

  /** The publisher and the genre fail exactly when absent or made only of white space. */
  lemma PublisherGenreRule(name: string, value: Value)
    requires name == "publisher" || name == "genre"
    ensures ValidateField(name, value).Failed? <==>
      !Present(value) || (value.Text? && forall i :: 0 <= i < |value.units| ==> IsTrimmable(value.units[i]))
    ensures ValidateField(name, value).Failed? ==>
      ValidateField(name, value).message == if name == "publisher" then PublisherMessage else GenreMessage
    ensures ValidateField(name, value).Throws? <==> Present(value) && !value.Text?
  {
    if value.Text? {
      TrimEmptyIff(value.units);
    }
  }

  /** The price fails exactly when it is not a number or is negative; 0 passes. */
  lemma PriceRule(value: Value)
    ensures ValidateField("price", value).Failed? <==> !value.Number? || value.n < 0
    ensures ValidateField("price", value).Failed? ==> ValidateField("price", value).message == PriceMessage
    ensures ValidateField("price", Number(0)) == Passed
  {
  }

  /** The image and the description are never checked: validating them leaves the errors. */
  lemma OptionalFieldsNeverFail(errors: Errors, name: string, value: Value)
    requires name == "image" || name == "description"
    ensures ValidateField(name, value) == Skipped
    ensures ApplyVerdict(errors, name, ValidateField(name, value)) == Some(errors)
  {
  }

  /** `if (errors[name])`: an error message is shown for the field. */
  predicate ErrorShown(errors: Errors, name: string) {
    var e := Lookup(errors, name);
    e.Some? && e.value.Some? && e.value.value != ""
  }

  /** `handleChange(name, value)`: the field takes the value and its shown error, if any, is
      cleared; every other field and every other error stays as it was. */
  function AfterChange(f: Fields, name: string, value: Value): (r: Fields)
    ensures Lookup(r.data, name) == Some(value)
    ensures forall k :: k != name ==> Lookup(r.data, k) == Lookup(f.data, k)
    ensures forall k :: k != name ==> Lookup(r.errors, k) == Lookup(f.errors, k)
    ensures !ErrorShown(r.errors, name)
    ensures !ErrorShown(f.errors, name) ==> r.errors == f.errors
    ensures Lookup(f.data, name).Some? ==> Keys(r.data) == Keys(f.data)
  {
    Fields(Assign(f.data, name, value),
           if ErrorShown(f.errors, name) then Assign(f.errors, name, None) else f.errors)
  }

  /** What is wrong with a chosen file, if anything: the type is checked before the size. */
  function FileProblem(file: File): Option<string> {
    if !StartsWith(file.mimeType, "image/") then Some(WrongTypeMessage)
    else if file.size > MaxImageSize then Some(TooLargeMessage)
    else None
  }

  /** A file is taken exactly when its type starts with `image/` and it holds at most 5 MiB;
      a file of exactly 5 MiB is taken, one byte more is not. */
  lemma FileAcceptance(file: File)
    ensures FileProblem(file).None? <==> StartsWith(file.mimeType, "image/") && file.size <= 5242880
    ensures !StartsWith(file.mimeType, "image/") ==> FileProblem(file) == Some(WrongTypeMessage)
    ensures FileProblem(File("image/png", 5242880)).None?
    ensures FileProblem(File("image/png", 5242881)) == Some(TooLargeMessage)
  {
  }

  /** The upload control's `onChange`: a rejected file sets the image error and leaves the
      data alone; an accepted one clears the error and becomes the image; no file empties
      the image. */
  function AfterUpload(f: Fields, file: Option<File>): (r: Fields)
    ensures file.Some? && FileProblem(file.value).Some? ==>
      r.data == f.data && Lookup(r.errors, "image") == Some(FileProblem(file.value))
    ensures file.Some? && FileProblem(file.value).None? ==>
      Lookup(r.data, "image") == Some(FileValue(file.value)) && Lookup(r.errors, "image") == Some(None)
    ensures file.None? ==> Lookup(r.data, "image") == Some(Absent) && !ErrorShown(r.errors, "image")
    ensures forall k :: k != "image" ==> Lookup(r.data, k) == Lookup(f.data, k)
    ensures forall k :: k != "image" ==> Lookup(r.errors, k) == Lookup(f.errors, k)
  {
    match file
    case None => AfterChange(f, "image", Absent)
    case Some(x) =>
      match FileProblem(x)
      case Some(m) => Fields(f.data, Assign(f.errors, "image", Some(m)))
      case None => AfterChange(Fields(f.data, Assign(f.errors, "image", None)), "image", FileValue(x))
  }

  /** The remove button of the preview: no image and no image error. */
  function AfterRemovePreview(f: Fields): (r: Fields)
    ensures Lookup(r.data, "image") == Some(Absent) && Lookup(r.errors, "image") == Some(None)
    ensures forall k :: k != "image" ==> Lookup(r.data, k) == Lookup(f.data, k)
    ensures forall k :: k != "image" ==> Lookup(r.errors, k) == Lookup(f.errors, k)
  {
    var changed := AfterChange(f, "image", Absent);
    Fields(changed.data, Assign(changed.errors, "image", None))
  }

  /** What `onFinish` ends in: an exception it caught before `onSubmit` (the upload threw),
      or the data and the separate image file it handed to `onSubmit`. Nothing escapes. */
  datatype Finished = Aborted | Submitted(data: FormData, imageFile: Value)

  /** Whether a file attached to the form is uploaded first: in edit mode with a book id. */
  predicate UploadsFirst(bookId: Option<string>) {
    bookId.Some? && bookId.value != ""
  }

  /** `onFinish(values)`: the form data overlaid with the form's values; an attached file is
      uploaded first (`upload`: the URL `uploadBookImage` returns, `None` when it throws) and
      its URL becomes `imageUrl` in edit mode, or is passed on as `imageFile` otherwise; either
      way the file itself is removed from the data. `bookId` is `None` without a book. */
  function Finish(data: FormData, values: FormData, bookId: Option<string>, upload: Option<CodeUnits>): Finished {
    var merged := Spread(data, values);
    var image := FieldValue(data, "image");
    if !Present(image) then Submitted(merged, Absent)
    else if UploadsFirst(bookId) then
      match upload
      case None => Aborted
      case Some(url) => Submitted(Remove(Assign(merged, "imageUrl", Text(url)), "image"), Absent)
    else Submitted(Remove(merged, "image"), image)
  }

  /** With a file attached, the submitted data never holds it: in edit mode its uploaded URL
      replaces `imageUrl` and no file is passed on, a failed upload submits nothing, and in
      create mode the file is passed separately. Every other field is the form's value when
      it has one, and the form data's otherwise. */
  lemma FinishImageHandling(data: FormData, values: FormData, bookId: Option<string>, upload: Option<CodeUnits>)
    requires UniqueKeys(values)
    ensures var r := Finish(data, values, bookId, upload);
      var image := FieldValue(data, "image");
      (Present(image) && UploadsFirst(bookId) && upload.None? <==> r.Aborted?) &&
      (r.Submitted? && Present(image) ==> Lookup(r.data, "image").None?) &&
      (r.Submitted? && Present(image) && UploadsFirst(bookId) ==>
         Lookup(r.data, "imageUrl") == Some(Text(upload.value)) && r.imageFile == Absent) &&
      (Present(image) && !UploadsFirst(bookId) ==> r.Submitted? && r.imageFile == image) &&
      (!Present(image) ==> r == Submitted(Spread(data, values), Absent)) &&
      (r.Submitted? ==> forall k :: k != "image" && k != "imageUrl" ==>
         Lookup(r.data, k) == (if Lookup(values, k).Some? then Lookup(values, k) else Lookup(data, k)))
  {
    forall k {
      SpreadLookup(data, values, k);
    }
  }

  /** The form's state. */
  class Form {
    /** `book?.id`, `None` without a book. */
    const bookId: Option<string>
    var data: FormData
    var errors: Errors
    var preview: Option<CodeUnits>
    var uploadingImage: bool

    function Current(): Fields
      reads this
    {
      Fields(data, errors)
    }

    constructor(book: Option<Book>)
      ensures bookId == (if book.Some? then Some(book.value.id) else None)
      ensures data == InitialData(book) && errors == [] && preview == InitialPreview(book) && !uploadingImage
    {
      bookId := if book.Some? then Some(book.value.id) else None;
      data := InitialData(book);
      errors := [];
      preview := InitialPreview(book);
      uploadingImage := false;
    }

    method HandleChange(name: string, value: Value)
      modifies this
      ensures Current() == AfterChange(old(Current()), name, value)
      ensures preview == old(preview) && uploadingImage == old(uploadingImage)
    {
      var shown := ErrorShown(errors, name);
      data := Assign(data, name, value);
      if shown {
        errors := Assign(errors, name, None);
      }
    }

    /** `handleBlur(name)`: the field's rule applied to its current value; `threw` when the
        rule throws, in which case nothing changes. */
    method HandleBlur(name: string) returns (threw: bool)
      modifies this
      ensures var r := ApplyVerdict(old(errors), name, ValidateField(name, FieldValue(old(data), name)));
        threw == r.None? && errors == (if r.Some? then r.value else old(errors))
      ensures data == old(data) && preview == old(preview) && uploadingImage == old(uploadingImage)
    {
      var verdict := ValidateField(name, FieldValue(data, name));
      threw := false;
      match verdict
      case Skipped =>
      case Passed => errors := Assign(errors, name, None);
      case Failed(m) => errors := Assign(errors, name, Some(m));
      case Throws => threw := true;
    }

    /** The upload control's `onChange`; no file also empties the preview, and an accepted
        file's preview arrives later through `PreviewLoaded`. */
    method UploadChanged(file: Option<File>)
      modifies this
      ensures Current() == AfterUpload(old(Current()), file)
      ensures preview == (if file.None? then None else old(preview))
      ensures uploadingImage == old(uploadingImage)
    {
      if file.Some? {
        var problem := FileProblem(file.value);
        if problem.Some? {
          errors := Assign(errors, "image", problem);
          return;
        }
        errors := Assign(errors, "image", None);
        HandleChange("image", FileValue(file.value));
      } else {
        preview := None;
        HandleChange("image", Absent);
      }
    }

    /** The `FileReader` callback: the data URL of the accepted file becomes the preview. */
    method PreviewLoaded(dataUrl: CodeUnits)
      modifies this
      ensures preview == Some(dataUrl) && Current() == old(Current()) && uploadingImage == old(uploadingImage)
    {
      preview := Some(dataUrl);
    }

    method RemovePreview()
      modifies this
      ensures preview.None? && Current() == AfterRemovePreview(old(Current()))
      ensures uploadingImage == old(uploadingImage)
    {
      preview := None;
      HandleChange("image", Absent);
      errors := Assign(errors, "image", None);
    }

    /** `onFinish(values)`: the form's own state is left as it was, and the upload flag is
        down again once an upload settled. */
    method Submit(values: FormData, upload: Option<CodeUnits>) returns (r: Finished)
      modifies this
      ensures r == Finish(old(data), values, bookId, upload)
      ensures Current() == old(Current()) && preview == old(preview)
      ensures uploadingImage == (if Present(FieldValue(old(data), "image")) && UploadsFirst(bookId) then false
                                 else old(uploadingImage))
    {
      var finalData := Spread(data, values);
      var imageFile := Absent;
      var image := FieldValue(data, "image");
      if Present(image) {
        if UploadsFirst(bookId) {
          uploadingImage := true;
          if upload.None? {
            uploadingImage := false;
            return Aborted;
          }
          finalData := Assign(finalData, "imageUrl", Text(upload.value));
          uploadingImage := false;
        } else {
          imageFile := image;
        }
        finalData := Remove(finalData, "image");
      }
      r := Submitted(finalData, imageFile);
    }
  }
}
