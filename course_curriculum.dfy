/**
 * The curriculum editor of the add-course page (course-curriculum.jsx): an ordered list of
 * lectures in the shared instructor context, a position-keyed map of expanded lectures, and the
 * shared upload flag. Remote uploads and deletes are not performed: their outcomes are parameters.
 * Every handler is one atomic step on the state it read.
 */
module CourseCurriculum {
  import opened Wrappers
  import Text
  import opened Config
  import opened Instructor
  import opened Js

  // ---------- remote outcomes ----------

  /** What `mediaUploadService` produced: a successful response with its url and public id, a response without `success`, or a thrown error. */
  datatype UploadOutcome = Uploaded(url: string, publicId: string) | NotSuccessful | UploadThrew

  /** What `mediaDeleteService` produced: `success` set, `success` unset, or a thrown error. */
  datatype DeleteOutcome = Deleted | NotDeleted | DeleteThrew

  /** What `deleteMedia` reports, with whether it called the service and whether it raised an alert. */
  datatype DeleteReport = DeleteReport(success: bool, serviceCalled: bool, alerted: bool)

  // ---------- the pairing invariant ----------

  /** A media id that `!public_id` treats as absent: missing or "". */
  predicate Blank(s: Option<string>) {
    s == None || s == Some("")
  }

  /** The video url and its public id are both set or both empty; the same for the note. */
  predicate Paired(l: Lecture) {
    (l.videoUrl == "") == (l.publicId == "") && Blank(l.noteUrl) == Blank(l.notePublicId)
  }

  predicate AllPaired(s: seq<Lecture>) {
    forall i :: 0 <= i < |s| ==> Paired(s[i])
  }

  /** An upload response whose url and public id are both set or both empty. */
  predicate PairedResponse(o: UploadOutcome) {
    o.Uploaded? ==> (o.url == "") == (o.publicId == "")
  }

  /** `r` and `s` have the same length and agree everywhere except possibly at position `i`. */
  predicate SameExcept(r: seq<Lecture>, s: seq<Lecture>, i: nat) {
    |r| == |s| && forall j :: 0 <= j < |s| && j != i ==> r[j] == s[j]
  }

  // ---------- the transitions, on values ----------

  /** The title given to the lecture added at position `n`: "Lecture n+1". */
  function LectureTitle(n: nat): string {
    "Lecture " + Text.NatToString(n + 1)
  }

  /** The record `handleNewLecture` appends at position `n`: the template with a fresh title and empty media. */
  function NewLecture(n: nat): Lecture {
    FloorLecture.(title := LectureTitle(n), videoUrl := "", publicId := "", noteUrl := Some(""), notePublicId := Some(""))
  }

  /** `handleNewLecture` (49-60): one blank lecture appended, every earlier one kept. */
  function Appended(s: seq<Lecture>): (r: seq<Lecture>)
    ensures |r| == |s| + 1 && r[..|s|] == s
    ensures r[|s|].title == LectureTitle(|s|) && !r[|s|].freePreview
    ensures r[|s|].videoUrl == "" && r[|s|].publicId == "" && r[|s|].noteUrl == Some("") && r[|s|].notePublicId == Some("")
  {
    s + [NewLecture(|s|)]
  }

  /** `handleCourseTitleChange` (69-73): only the title of lecture `i` changes. */
  function WithTitle(s: seq<Lecture>, i: nat, title: string): (r: seq<Lecture>)
    requires i < |s|
    ensures SameExcept(r, s, i) && r[i].title == title
    ensures r[i].(title := s[i].title) == s[i]
  {
    s[i := s[i].(title := title)]
  }

  /** `handleFreePreviewChange` (75-79): only the preview flag of lecture `i` changes. */
  function WithFreePreview(s: seq<Lecture>, i: nat, flag: bool): (r: seq<Lecture>)
    requires i < |s|
    ensures SameExcept(r, s, i) && r[i].freePreview == flag
    ensures r[i].(freePreview := s[i].freePreview) == s[i]
  {
    s[i := s[i].(freePreview := flag)]
  }

  /**
   * The curriculum after `handleSingleLectureUpload` (81-105): on a successful response, the video
   * url and public id of lecture `i` are written together from it; otherwise nothing changes.
   */
  function WithUploadedVideo(s: seq<Lecture>, i: nat, o: UploadOutcome): (r: seq<Lecture>)
    requires i < |s|
    ensures SameExcept(r, s, i)
    ensures o.Uploaded? ==> r[i] == s[i].(videoUrl := o.url, publicId := o.publicId)
    ensures !o.Uploaded? ==> r == s
  {
    match o
    case Uploaded(url, id) => s[i := s[i].(videoUrl := url, publicId := id)]
    case _ => s
  }

  /** The curriculum after `handleSingleLectureNoteUpload` (107-131): the same, for the note url and id. */
  function WithUploadedNote(s: seq<Lecture>, i: nat, o: UploadOutcome): (r: seq<Lecture>)
    requires i < |s|
    ensures SameExcept(r, s, i)
    ensures o.Uploaded? ==> r[i] == s[i].(noteUrl := Some(o.url), notePublicId := Some(o.publicId))
    ensures !o.Uploaded? ==> r == s
  {
    match o
    case Uploaded(url, id) => s[i := s[i].(noteUrl := Some(url), notePublicId := Some(id))]
    case _ => s
  }

  /** `updateLectureState(i, { videoUrl: "", public_id: "" })` (166, 174): the video slot cleared as a pair. */
  function WithoutVideo(s: seq<Lecture>, i: nat): (r: seq<Lecture>)
    requires i < |s|
    ensures SameExcept(r, s, i) && r[i] == s[i].(videoUrl := "", publicId := "")
  {
    s[i := s[i].(videoUrl := "", publicId := "")]
  }

  /** `updateLectureState(i, { noteUrl: "", note_public_id: "" })` (182, 190): the note slot cleared as a pair. */
  function WithoutNote(s: seq<Lecture>, i: nat): (r: seq<Lecture>)
    requires i < |s|
    ensures SameExcept(r, s, i) && r[i] == s[i].(noteUrl := Some(""), notePublicId := Some(""))
  {
    s[i := s[i].(noteUrl := Some(""), notePublicId := Some(""))]
  }

  /**
   * The list `handleDeleteLecture` installs (209-210): lecture `i` removed and the others kept in
   * order; a list that would be empty is replaced by the one-record template.
   */
  function Removed(s: seq<Lecture>, i: nat): (r: seq<Lecture>)
    requires i < |s|
    ensures |r| >= 1
    ensures |s| == 1 ==> r == [FloorLecture]
    ensures |s| > 1 ==> |r| == |s| - 1
    ensures |s| > 1 ==> forall j :: 0 <= j < i ==> r[j] == s[j]
    ensures |s| > 1 ==> forall j :: i <= j < |r| ==> r[j] == s[j + 1]
  {
    var kept := s[..i] + s[i + 1..];
    if |kept| > 0 then kept else CurriculumInitialFormData
  }

  /** `deleteMedia` (142-160): an absent id succeeds without a call; otherwise the service decides, and a failure alerts. */
  function DeleteMedia(id: Option<string>, o: DeleteOutcome): (r: DeleteReport)
    ensures Blank(id) ==> r == DeleteReport(true, false, false)
    ensures !Blank(id) ==> r.serviceCalled && (r.success <==> o == Deleted) && r.alerted == !r.success
  {
    if Blank(id) then DeleteReport(true, false, false)
    else match o
      case Deleted => DeleteReport(true, true, false)
      case NotDeleted => DeleteReport(false, true, true)
      case DeleteThrew => DeleteReport(false, true, true)
  }

  // ---------- properties of the transitions ----------

  /** Every transition keeps every lecture paired, given an upload response that is paired itself. */
  lemma TransitionsKeepPairing(s: seq<Lecture>, i: nat, t: string, b: bool, o: UploadOutcome)
    requires AllPaired(s) && i < |s| && PairedResponse(o)
    ensures AllPaired(Appended(s))
    ensures AllPaired(WithTitle(s, i, t)) && AllPaired(WithFreePreview(s, i, b))
    ensures AllPaired(WithUploadedVideo(s, i, o)) && AllPaired(WithUploadedNote(s, i, o))
    ensures AllPaired(WithoutVideo(s, i)) && AllPaired(WithoutNote(s, i))
    ensures AllPaired(Removed(s, i))
  {
    var r := Removed(s, i);
    if |s| > 1 {
      forall j | 0 <= j < |r| ensures Paired(r[j]) {
        if j < i { assert r[j] == s[j]; } else { assert r[j] == s[j + 1]; }
      }
    }
  }

  /** Replacing and deleting a video, or a note, are the same step: on success the slot is empty as a pair, on failure the list is untouched. */
  lemma ClearingNeedsDeletion(s: seq<Lecture>, i: nat, o: DeleteOutcome)
    requires i < |s|
    ensures var rep := DeleteMedia(Some(s[i].publicId), o);
      !rep.success ==> s[i].publicId != "" && o != Deleted
    ensures var rep := DeleteMedia(s[i].notePublicId, o);
      !rep.success ==> !Blank(s[i].notePublicId) && o != Deleted
    ensures s[i].publicId == "" ==> DeleteMedia(Some(s[i].publicId), o).success
  {
  }

  /**
   * The expansion map is keyed by position and is not reindexed on delete: after lecture `i` is
   * removed, position `j >= i` shows the lecture that was at `j + 1` but keeps the flag that
   * position `j` had (none at all at `i`).
   */
  lemma {:induction false} ExpansionMisattributedAfterDelete(s: seq<Lecture>, m: map<int, bool>, i: nat, j: nat)
    requires i <= j && j + 1 < |s|
    ensures Removed(s, i)[j] == s[j + 1]
    ensures j == i ==> j !in m - {i}
    ensures j > i ==> (j in m - {i} <==> j in m) && (j in m ==> (m - {i})[j] == m[j])
  {
  }

  /** Deleting the only lecture leaves exactly the template, whatever it held. */
  lemma DeleteLastGivesTemplate(l: Lecture)
    ensures Removed([l], 0) == CurriculumInitialFormData
    ensures Removed([l], 0)[0].title == "" && !Removed([l], 0)[0].freePreview
  {
  }

  /** Two lectures added one after the other get consecutive titles "Lecture n+1" and "Lecture n+2". */
  lemma AddedTitlesFollowLength(s: seq<Lecture>)
    ensures Appended(Appended(s))[|s|].title == LectureTitle(|s|)
    ensures Appended(Appended(s))[|s| + 1].title == LectureTitle(|s| + 1)
  {
    assert Appended(Appended(s))[..|s| + 1] == Appended(s);
  }

  // ---------- the editor ----------

  class CurriculumEditor {
    /** The shared context whose `curriculum` and `uploading` the editor writes. */
    const ctx: InstructorContext
    /** `expandedLectures`: position -> expanded. */
    var expanded: map<int, bool>

    constructor (ctx: InstructorContext)
      ensures this.ctx == ctx && expanded == map[]
    {
      this.ctx := ctx;
      expanded := map[];
    }

    method ToggleLectureExpansion(i: int)
      modifies this`expanded
      ensures expanded == Toggled(old(expanded), i)
    {
      expanded := expanded[i := !(i in expanded && expanded[i])];
    }

    method HandleNewLecture()
      modifies ctx, this`expanded
      ensures ctx.curriculum == Appended(old(ctx.curriculum))
      ensures expanded == old(expanded)[|old(ctx.curriculum)| := true]
      ensures ctx.landing == old(ctx.landing) && ctx.editedCourseId == old(ctx.editedCourseId)
      ensures ctx.uploading == old(ctx.uploading)
    {
      var n := |ctx.curriculum|;
      ctx.curriculum := ctx.curriculum + [NewLecture(n)];
      expanded := expanded[n := true];
    }

    method HandleCourseTitleChange(title: string, i: nat)
      requires i < |ctx.curriculum|
      modifies ctx
      ensures ctx.curriculum == WithTitle(old(ctx.curriculum), i, title)
      ensures ctx.landing == old(ctx.landing) && ctx.editedCourseId == old(ctx.editedCourseId)
      ensures ctx.uploading == old(ctx.uploading)
    {
      var copy := ctx.curriculum;
      copy := copy[i := copy[i].(title := title)];
      ctx.curriculum := copy;
    }

    method HandleFreePreviewChange(flag: bool, i: nat)
      requires i < |ctx.curriculum|
      modifies ctx
      ensures ctx.curriculum == WithFreePreview(old(ctx.curriculum), i, flag)
      ensures ctx.landing == old(ctx.landing) && ctx.editedCourseId == old(ctx.editedCourseId)
      ensures ctx.uploading == old(ctx.uploading)
    {
      var copy := ctx.curriculum;
      copy := copy[i := copy[i].(freePreview := flag)];
      ctx.curriculum := copy;
    }

    /** With no file selected nothing happens; otherwise the flag is raised for the upload and cleared in every case. */
    method HandleSingleLectureUpload(fileSelected: bool, i: nat, o: UploadOutcome)
      requires i < |ctx.curriculum|
      modifies ctx
      ensures ctx.curriculum == if fileSelected then WithUploadedVideo(old(ctx.curriculum), i, o) else old(ctx.curriculum)
      ensures ctx.uploading == if fileSelected then false else old(ctx.uploading)
      ensures ctx.landing == old(ctx.landing) && ctx.editedCourseId == old(ctx.editedCourseId)
    {
      if !fileSelected { return; }
      ctx.uploading := true;
      if o.Uploaded? {
        var copy := ctx.curriculum;
        copy := copy[i := copy[i].(videoUrl := o.url, publicId := o.publicId)];
        ctx.curriculum := copy;
      }
      ctx.uploading := false;
    }

    method HandleSingleLectureNoteUpload(fileSelected: bool, i: nat, o: UploadOutcome)
      requires i < |ctx.curriculum|
      modifies ctx
      ensures ctx.curriculum == if fileSelected then WithUploadedNote(old(ctx.curriculum), i, o) else old(ctx.curriculum)
      ensures ctx.uploading == if fileSelected then false else old(ctx.uploading)
      ensures ctx.landing == old(ctx.landing) && ctx.editedCourseId == old(ctx.editedCourseId)
    {
      if !fileSelected { return; }
      ctx.uploading := true;
      if o.Uploaded? {
        var copy := ctx.curriculum;
        copy := copy[i := copy[i].(noteUrl := Some(o.url), notePublicId := Some(o.publicId))];
        ctx.curriculum := copy;
      }
      ctx.uploading := false;
    }

    method HandleDeleteVideo(i: nat, o: DeleteOutcome) returns (report: DeleteReport)
      requires i < |ctx.curriculum|
      modifies ctx
      ensures report == DeleteMedia(Some(old(ctx.curriculum)[i].publicId), o)
      ensures ctx.curriculum == if report.success then WithoutVideo(old(ctx.curriculum), i) else old(ctx.curriculum)
      ensures ctx.landing == old(ctx.landing) && ctx.editedCourseId == old(ctx.editedCourseId)
      ensures ctx.uploading == old(ctx.uploading)
    {
      report := DeleteMedia(Some(ctx.curriculum[i].publicId), o);
      if report.success {
        var copy := ctx.curriculum;
        copy := copy[i := copy[i].(videoUrl := "", publicId := "")];
        ctx.curriculum := copy;
      }
    }

    /** `handleReplaceVideo` has the same body as `handleDeleteVideo`. */
    method HandleReplaceVideo(i: nat, o: DeleteOutcome) returns (report: DeleteReport)
      requires i < |ctx.curriculum|
      modifies ctx
      ensures report == DeleteMedia(Some(old(ctx.curriculum)[i].publicId), o)
      ensures ctx.curriculum == if report.success then WithoutVideo(old(ctx.curriculum), i) else old(ctx.curriculum)
      ensures ctx.landing == old(ctx.landing) && ctx.editedCourseId == old(ctx.editedCourseId)
      ensures ctx.uploading == old(ctx.uploading)
    {
      report := HandleDeleteVideo(i, o);
    }

    method HandleDeleteLectureNote(i: nat, o: DeleteOutcome) returns (report: DeleteReport)
      requires i < |ctx.curriculum|
      modifies ctx
      ensures report == DeleteMedia(old(ctx.curriculum)[i].notePublicId, o)
      ensures ctx.curriculum == if report.success then WithoutNote(old(ctx.curriculum), i) else old(ctx.curriculum)
      ensures ctx.landing == old(ctx.landing) && ctx.editedCourseId == old(ctx.editedCourseId)
      ensures ctx.uploading == old(ctx.uploading)
    {
      report := DeleteMedia(ctx.curriculum[i].notePublicId, o);
      if report.success {
        var copy := ctx.curriculum;
        copy := copy[i := copy[i].(noteUrl := Some(""), notePublicId := Some(""))];
        ctx.curriculum := copy;
      }
    }

    /** `handleReplaceLectureNote` has the same body as `handleDeleteLectureNote`. */
    method HandleReplaceLectureNote(i: nat, o: DeleteOutcome) returns (report: DeleteReport)
      requires i < |ctx.curriculum|
      modifies ctx
      ensures report == DeleteMedia(old(ctx.curriculum)[i].notePublicId, o)
      ensures ctx.curriculum == if report.success then WithoutNote(old(ctx.curriculum), i) else old(ctx.curriculum)
      ensures ctx.landing == old(ctx.landing) && ctx.editedCourseId == old(ctx.editedCourseId)
      ensures ctx.uploading == old(ctx.uploading)
    {
      report := HandleDeleteLectureNote(i, o);
    }

    /**
     * Both media deletes are attempted, video first, whatever the first reports; the lecture is
     * then removed regardless, and its expansion key dropped without shifting the others.
     */
    method HandleDeleteLecture(i: nat, videoOutcome: DeleteOutcome, noteOutcome: DeleteOutcome)
      returns (videoReport: DeleteReport, noteReport: DeleteReport)
      requires i < |ctx.curriculum|
      modifies ctx, this`expanded
      ensures videoReport == DeleteMedia(Some(old(ctx.curriculum)[i].publicId), videoOutcome)
      ensures noteReport == DeleteMedia(old(ctx.curriculum)[i].notePublicId, noteOutcome)
      ensures ctx.curriculum == Removed(old(ctx.curriculum), i)
      ensures expanded == old(expanded) - {i}
      ensures ctx.landing == old(ctx.landing) && ctx.editedCourseId == old(ctx.editedCourseId)
      ensures ctx.uploading == old(ctx.uploading)
    {
      var lecture := ctx.curriculum[i];
      videoReport := DeleteMedia(Some(lecture.publicId), videoOutcome);
      noteReport := DeleteMedia(lecture.notePublicId, noteOutcome);
      var updated := ctx.curriculum[..i] + ctx.curriculum[i + 1..];
      ctx.curriculum := if |updated| > 0 then updated else CurriculumInitialFormData;
      expanded := expanded - {i};
    }
  }
}
