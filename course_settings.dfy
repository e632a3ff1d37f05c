/** The course image step (course-settings.jsx): checking a chosen image, uploading it, removing it. */
module CourseSettings {
  import opened Wrappers
  import opened Text
  import opened Js
  import opened Instructor
  import CourseCurriculum

  /** The chosen file, as far as the checks read it. */
  datatype SelectedFile = SelectedFile(mimeType: string, size: nat)

  /** 5 MB as the source writes it: 5 * 1024 * 1024 bytes. */
  const MaxImageSize: nat := 5 * 1024 * 1024

  /** Where `handleImageUploadChange` stops or goes on to upload. */
  datatype ImageCheck = NoFile | NotAnImage | TooLarge | Accepted

  /** The checks of 27-38, in their order: a file, then its type, then its size. */
  function CheckImage(file: Option<SelectedFile>): (c: ImageCheck)
    ensures c == Accepted <==>
      file.Some? && StartsWith(file.value.mimeType, "image/") && file.value.size <= MaxImageSize
    ensures c == NotAnImage <==> file.Some? && !StartsWith(file.value.mimeType, "image/")
    ensures c == NoFile <==> file.None?
  {
    match file
    case None => NoFile
    case Some(f) =>
      if !StartsWith(f.mimeType, "image/") then NotAnImage
      else if f.size > MaxImageSize then TooLarge
      else Accepted
  }

  /** Exactly 5 MiB is accepted and one byte more is rejected; a non-image is rejected at any size. */
  lemma SizeBoundary(t: string, size: nat)
    requires StartsWith(t, "image/")
    ensures CheckImage(Some(SelectedFile(t, 5242880))) == Accepted
    ensures CheckImage(Some(SelectedFile(t, 5242881))) == TooLarge
    ensures CheckImage(Some(SelectedFile("application/pdf", size))) == NotAnImage
  {
    assert "application/pdf"[0] != "image/"[0];
  }

  /** The form after the upload: a successful one sets `image` to the returned url, nothing else. */
  function WithImage(form: Form, o: CourseCurriculum.UploadOutcome): (r: Form)
    ensures o.Uploaded? ==> "image" in r && r["image"] == Str(o.url)
    ensures !o.Uploaded? ==> r == form
    ensures forall k :: k != "image" ==> Get(r, k) == Get(form, k)
  {
    if o.Uploaded? then form["image" := Str(o.url)] else form
  }

  /** `handleRemoveImage` (64-69): `image` becomes "", nothing else changes. */
  function WithoutImage(form: Form): (r: Form)
    ensures "image" in r && r["image"] == Str("")
    ensures forall k :: k != "image" ==> Get(r, k) == Get(form, k)
  {
    form["image" := Str("")]
  }

  /** Removing after a successful upload leaves the same form as removing straight away. */
  lemma RemoveUndoesUpload(form: Form, o: CourseCurriculum.UploadOutcome)
    ensures WithoutImage(WithImage(form, o)) == WithoutImage(form)
  {
  }

  class CourseSettingsPage {
    const ctx: InstructorContext

    constructor (ctx: InstructorContext)
      ensures this.ctx == ctx
    {
      this.ctx := ctx;
    }

    /**
     * `handleImageUploadChange` (24-62): a rejected file stops before the upload and changes
     * nothing; an accepted one is uploaded with the upload flag raised and cleared whatever the
     * outcome. `o` is what `mediaUploadService` produced.
     */
    method HandleImageUploadChange(file: Option<SelectedFile>, o: CourseCurriculum.UploadOutcome)
      returns (check: ImageCheck)
      modifies ctx
      ensures check == CheckImage(file)
      ensures check == Accepted ==> ctx.landing == WithImage(old(ctx.landing), o) && !ctx.uploading
      ensures check != Accepted ==> ctx.landing == old(ctx.landing) && ctx.uploading == old(ctx.uploading)
      ensures ctx.curriculum == old(ctx.curriculum) && ctx.editedCourseId == old(ctx.editedCourseId)
    {
      if file.None? {
        return NoFile;
      }
      var selected := file.value;
      if !StartsWith(selected.mimeType, "image/") {
        return NotAnImage;
      }
      if selected.size > 5 * 1024 * 1024 {
        return TooLarge;
      }
      ctx.uploading := true;
      match o {
        case Uploaded(url, _) =>
          ctx.landing := ctx.landing["image" := Str(url)];
        case NotSuccessful =>
        case UploadThrew =>
      }
      ctx.uploading := false;
      return Accepted;
    }

    method HandleRemoveImage()
      modifies ctx
      ensures ctx.landing == WithoutImage(old(ctx.landing))
      ensures ctx.curriculum == old(ctx.curriculum) && ctx.editedCourseId == old(ctx.editedCourseId)
      ensures ctx.uploading == old(ctx.uploading)
    {
      ctx.landing := ctx.landing["image" := Str("")];
    }
  }
}
