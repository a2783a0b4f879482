/** The dialog in which a teacher reports a found item
    (src/components/AddItemDialog.tsx): a form with three required text fields
    and an optional photo, an upload, then an insert. */
module AddItemDialog {
  import opened Types
  import opened ItemStore

  /** The photo ceiling: 5 MiB. */
  const MaxImageBytes: nat := 5 * 1024 * 1024

  /** A chosen file, reduced to what the dialog looks at. */
  datatype ImageFile = ImageFile(name: string, size: nat)

  /** The dialog's form state: the three text fields, the photo and its preview. */
  datatype FormState = FormState(
    description: string,
    location_found: string,
    collection_location: string,
    image: Option<ImageFile>,
    imagePreview: Option<string>)

  const EmptyForm := FormState("", "", "", None, None)

  /** The submit check: each field must be truthy, that is non-empty; there
      is no trimming, so a field of blanks passes. */
  predicate RequiredFieldsFilled(f: FormState)
  {
    f.description != "" && f.location_found != "" && f.collection_location != ""
  }

  /** The photo check rejects only sizes strictly above the ceiling. */
  predicate ImageSizeAccepted(size: nat)
  {
    !(size > MaxImageBytes)
  }

  lemma ImageCeilingIsInclusive()
    ensures ImageSizeAccepted(5 * 1024 * 1024)
    ensures !ImageSizeAccepted(5 * 1024 * 1024 + 1)
    ensures forall size: nat :: ImageSizeAccepted(size) <==> size <= 5242880
  {
  }

  /** The check passes exactly the forms whose three fields are non-empty,
      whatever they contain and whatever the photo is; blanks count as filled. */
  lemma BlankFieldsPassValidation(f: FormState)
    ensures RequiredFieldsFilled(f) <==> |f.description| > 0 && |f.location_found| > 0 && |f.collection_location| > 0
    ensures RequiredFieldsFilled(FormState(" ", " ", " ", f.image, f.imagePreview))
    ensures !RequiredFieldsFilled(f.(description := "")) && !RequiredFieldsFilled(f.(location_found := ""))
    ensures !RequiredFieldsFilled(f.(collection_location := ""))
  {
  }

  /** The record inserted for a filled form: new items start out available. */
  function InsertRecord(f: FormState, imageUrl: Option<string>, teacherId: Option<string>): (rec: NewItem)
    ensures rec.status == Available && rec.teacher_id == teacherId && rec.image_url == imageUrl
    ensures rec.description == f.description && rec.location_found == f.location_found
    ensures rec.collection_location == f.collection_location
  {
    NewItem(f.description, f.location_found, f.collection_location, imageUrl, teacherId, Available)
  }

  /** The row the store returns for a submitted form: available, not yet
      collected, created by the given teacher, with no image unless one was uploaded. */
  lemma AddedRowIsNew(f: FormState, imageUrl: Option<string>, teacherId: Option<string>, id: string, now: Time)
    ensures var row := Inserted(InsertRecord(f, imageUrl, teacherId), id, now);
      row.status == Available && row.collected_at == None && row.teacher_id == teacherId &&
      row.image_url == imageUrl && row.created_at == now && row.id == id &&
      row.description == f.description && row.location_found == f.location_found &&
      row.collection_location == f.collection_location
  {
  }

  datatype SubmitOutcome = MissingFields | UploadFailed | InsertFailed | Added(item: LostItem)

  class Dialog {
    var description: string
    var location_found: string
    var collection_location: string
    var image: Option<ImageFile>
    var imagePreview: Option<string>
    var loading: bool
    var open: bool

    function Form(): FormState
      reads this
    {
      FormState(description, location_found, collection_location, image, imagePreview)
    }

    constructor (open: bool)
      ensures Form() == EmptyForm && !loading && this.open == open
    {
      description, location_found, collection_location := "", "", "";
      image, imagePreview := None, None;
      loading := false;
      this.open := open;
    }

    /** `handleSubmit`. The signed-in teacher's id, whether the upload and the
        insert fail, the public URL of the upload and the id and time the
        store gives the new row are inputs. `uploaded` and `inserted` record
        what was sent to the store; an `Added` outcome carries the row handed
        to onItemAdded, after which the form is cleared and the dialog closed. */
    method HandleSubmit(teacherId: Option<string>, uploadFails: bool, publicUrl: string,
                        insertFails: bool, newId: string, now: Time)
      returns (uploaded: Option<ImageFile>, inserted: Option<NewItem>, outcome: SubmitOutcome)
      modifies this
      ensures !RequiredFieldsFilled(old(Form())) ==>
        outcome == MissingFields && uploaded == None && inserted == None &&
        Form() == old(Form()) && loading == old(loading) && open == old(open)
      ensures RequiredFieldsFilled(old(Form())) ==> uploaded == old(image) && !loading
      ensures RequiredFieldsFilled(old(Form())) && old(image).Some? && uploadFails ==>
        outcome == UploadFailed && inserted == None && Form() == old(Form()) && open == old(open)
      ensures RequiredFieldsFilled(old(Form())) && !(old(image).Some? && uploadFails) ==>
        inserted == Some(InsertRecord(old(Form()), if old(image).Some? then Some(publicUrl) else None, teacherId))
      ensures RequiredFieldsFilled(old(Form())) && !(old(image).Some? && uploadFails) && insertFails ==>
        outcome == InsertFailed && Form() == old(Form()) && open == old(open)
      ensures RequiredFieldsFilled(old(Form())) && !(old(image).Some? && uploadFails) && !insertFails ==>
        outcome == Added(Inserted(inserted.value, newId, now)) && Form() == EmptyForm && !open
    {
      if !RequiredFieldsFilled(Form()) {
        return None, None, MissingFields;
      }
      loading := true;
      var imageUrl: Option<string> := None;
      uploaded := image;
      inserted := None;
      if image.Some? {
        if uploadFails {
          loading := false;
          return uploaded, None, UploadFailed;
        }
        imageUrl := Some(publicUrl);
      }
      var rec := InsertRecord(Form(), imageUrl, teacherId);
      inserted := Some(rec);
      if insertFails {
        outcome := InsertFailed;
      } else {
        outcome := Added(Inserted(rec, newId, now));
        HandleClose();
      }
      loading := false;
    }

    /** `handleImageChange`: a file over the ceiling is refused and the form
        kept; an accepted file becomes the photo, with `preview` (the file
        reader's data URL) as its preview. No file chosen changes nothing. */
    method HandleImageChange(file: Option<ImageFile>, preview: string) returns (rejected: bool)
      modifies this
      ensures rejected <==> file.Some? && !ImageSizeAccepted(file.value.size)
      ensures Form() == if file.Some? && !rejected then old(Form()).(image := file, imagePreview := Some(preview))
                        else old(Form())
      ensures loading == old(loading) && open == old(open)
    {
      rejected := false;
      if file.Some? {
        if file.value.size > MaxImageBytes {
          return true;
        }
        image := file;
        imagePreview := Some(preview);
      }
    }

    /** `removeImage`: only the photo and its preview are cleared. */
    method RemoveImage()
      modifies this
      ensures Form() == old(Form()).(image := None, imagePreview := None)
      ensures loading == old(loading) && open == old(open)
    {
      image, imagePreview := None, None;
    }

    /** `handleClose`: every field is reset and the dialog closes. */
    method HandleClose()
      modifies this
      ensures Form() == EmptyForm && !open && loading == old(loading)
    {
      description, location_found, collection_location := "", "", "";
      image, imagePreview := None, None;
      open := false;
    }
  }
}
