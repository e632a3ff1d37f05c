/**
 * The curriculum editor as written, where lecture records are shared objects.
 *
 * `handleCourseTitleChange` and `handleFreePreviewChange` copy the array but assign to the record
 * object in place (course-curriculum.jsx:70-71, 76-77). Config's `courseCurriculumInitialFormData`
 * array itself is installed as the curriculum by the Create New Course buttons
 * (courses/index.jsx:77, 305), after a successful submit (add-new-course.jsx:94) and when
 * `handleDeleteLecture` empties the list (line 210). Its record IS then the template object, and an
 * in-place edit changes the template. A new lecture spreads that template (line 53) and so
 * inherits its `freePreview`, and the next install shows the edited title. Edits that spread into
 * a new object (uploads, clears) end the sharing.
 *
 * The draft below follows the list as values plus what the shared template object holds and
 * whether position 0 currently is that object.
 */
module TemplateAliasing {
  import opened Wrappers
  import opened Config
  import CourseCurriculum

  datatype SharedDraft = SharedDraft(lectures: seq<Lecture>, template: Lecture, holdsTemplate: bool)

  /** Position 0 is the template object only when the list is non-empty and shows its contents. */
  predicate Consistent(d: SharedDraft) {
    d.holdsTemplate ==> |d.lectures| >= 1 && d.lectures[0] == d.template
  }

  /** `cpy[i].title = title` as written: the template object changes with it when it is the record at 0. */
  function EditTitleInPlace(d: SharedDraft, i: nat, title: string): (r: SharedDraft)
    requires Consistent(d) && i < |d.lectures|
    ensures Consistent(r)
    ensures r.lectures == CourseCurriculum.WithTitle(d.lectures, i, title)
    ensures r.template == if d.holdsTemplate && i == 0 then d.template.(title := title) else d.template
  {
    var lectures := d.lectures[i := d.lectures[i].(title := title)];
    if d.holdsTemplate && i == 0 then SharedDraft(lectures, d.template.(title := title), true)
    else SharedDraft(lectures, d.template, d.holdsTemplate)
  }

  /** `cpy[i].freePreview = flag` as written. */
  function EditPreviewInPlace(d: SharedDraft, i: nat, flag: bool): (r: SharedDraft)
    requires Consistent(d) && i < |d.lectures|
    ensures Consistent(r)
    ensures r.lectures == CourseCurriculum.WithFreePreview(d.lectures, i, flag)
    ensures r.template == if d.holdsTemplate && i == 0 then d.template.(freePreview := flag) else d.template
  {
    var lectures := d.lectures[i := d.lectures[i].(freePreview := flag)];
    if d.holdsTemplate && i == 0 then SharedDraft(lectures, d.template.(freePreview := flag), true)
    else SharedDraft(lectures, d.template, d.holdsTemplate)
  }

  /** `handleNewLecture` as written: the new record spreads the current template object. */
  function AddAsWritten(d: SharedDraft): (r: SharedDraft)
    requires Consistent(d)
    ensures Consistent(r) && |r.lectures| == |d.lectures| + 1 && r.lectures[..|d.lectures|] == d.lectures
    ensures r.lectures[|d.lectures|].freePreview == d.template.freePreview
  {
    var n := |d.lectures|;
    var added := d.template.(title := CourseCurriculum.LectureTitle(n), videoUrl := "", publicId := "",
                             noteUrl := Some(""), notePublicId := Some(""));
    SharedDraft(d.lectures + [added], d.template, d.holdsTemplate)
  }

  /** `handleDeleteLecture` as written: an emptied list becomes the template array, sharing its object. */
  function DeleteAsWritten(d: SharedDraft, i: nat): (r: SharedDraft)
    requires Consistent(d) && i < |d.lectures|
    ensures Consistent(r)
    ensures |d.lectures| == 1 ==> r.lectures == [d.template] && r.holdsTemplate
  {
    var kept := d.lectures[..i] + d.lectures[i + 1..];
    if |kept| > 0 then SharedDraft(kept, d.template, d.holdsTemplate && i != 0)
    else SharedDraft([d.template], d.template, true)
  }

  /**
   * `cpy[i] = { ...cpy[i], ... }` as in the upload and clear handlers (93-97, 119-123, 135-138):
   * the record at `i` becomes a new object, so position 0 stops being the template.
   */
  function RespreadAsWritten(d: SharedDraft, i: nat, record: Lecture): (r: SharedDraft)
    requires Consistent(d) && i < |d.lectures|
    ensures Consistent(r) && r.template == d.template
    ensures r.lectures == d.lectures[i := record]
    ensures r.holdsTemplate == (d.holdsTemplate && i != 0)
  {
    SharedDraft(d.lectures[i := record], d.template, d.holdsTemplate && i != 0)
  }

  /** The draft of an editor holding a lecture `l` of its own, such as a course loaded for editing. */
  function Initial(l: Lecture): SharedDraft {
    SharedDraft([l], FloorLecture, false)
  }

  /**
   * `setCourseCurriculumFormData(courseCurriculumInitialFormData)` as written (courses/index.jsx:77,
   * 305; add-new-course.jsx:94): whatever the draft held, the list becomes the template array, whose
   * one record is the template object with every edit made to it so far.
   */
  function InstallAsWritten(d: SharedDraft): (r: SharedDraft)
    ensures Consistent(r) && r.holdsTemplate && r.template == d.template
    ensures r.lectures == [d.template]
  {
    SharedDraft([d.template], d.template, true)
  }

  /** The first Create New Course of a session: config's template has not been written yet. */
  const FirstNewCourse: SharedDraft := InstallAsWritten(Initial(FloorLecture))

  /**
   * Counterexample on the everyday path: create a new course, tick lecture 1 as a free preview and
   * add two lectures. As written both added lectures are free previews; in the value model,
   * where Create New Course installs the blank template, neither is.
   */
  lemma NewCoursePreviewSpreads()
    ensures var d := AddAsWritten(AddAsWritten(EditPreviewInPlace(FirstNewCourse, 0, true)));
      |d.lectures| == 3 && d.lectures[1].freePreview && d.lectures[2].freePreview
    ensures var s := CourseCurriculum.Appended(CourseCurriculum.Appended(
      CourseCurriculum.WithFreePreview(CurriculumInitialFormData, 0, true)));
      |s| == 3 && !s[1].freePreview && !s[2].freePreview
  {
    var d1 := EditPreviewInPlace(FirstNewCourse, 0, true);
    assert d1.template.freePreview;
    var d2 := AddAsWritten(d1);
    assert d2.template == d1.template;
  }

  /**
   * Counterexample across courses: create a new course, title lecture 1 "Intro", then create the
   * next new course (or submit the first one, which installs the template too). As written the
   * next course starts with a lecture titled "Intro"; in the value model it starts blank.
   */
  lemma TitleCarriesToNextCourse()
    ensures InstallAsWritten(EditTitleInPlace(FirstNewCourse, 0, "Intro")).lectures ==
      [FloorLecture.(title := "Intro")]
    ensures CurriculumInitialFormData == [FloorLecture] && FloorLecture.title == ""
  {
    assert EditTitleInPlace(FirstNewCourse, 0, "Intro").template == FloorLecture.(title := "Intro");
  }

  /**
   * Counterexample: delete the only lecture, switch the floor record to free preview, add a
   * lecture. As written the new lecture is a free preview; in the editor's value model it is not.
   */
  lemma NewLectureInheritsPreview(l: Lecture)
    ensures var d := AddAsWritten(EditPreviewInPlace(DeleteAsWritten(Initial(l), 0), 0, true));
      d.lectures[1].freePreview
    ensures !CourseCurriculum.Appended(
      CourseCurriculum.WithFreePreview(CourseCurriculum.Removed([l], 0), 0, true))[1].freePreview
  {
    var d0 := DeleteAsWritten(Initial(l), 0);
    assert d0.holdsTemplate && d0.lectures == [FloorLecture];
    var d1 := EditPreviewInPlace(d0, 0, true);
    assert d1.template.freePreview;
  }

  /**
   * Counterexample: delete the only lecture, retitle the floor record "Intro", add a lecture,
   * delete both. As written the floor record is titled "Intro"; in the value model it is blank.
   */
  lemma FloorKeepsEditedTitle(l: Lecture)
    ensures var d1 := EditTitleInPlace(DeleteAsWritten(Initial(l), 0), 0, "Intro");
      var d2 := AddAsWritten(d1);
      var d3 := DeleteAsWritten(d2, 1);
      var d4 := DeleteAsWritten(d3, 0);
      d4.lectures == [FloorLecture.(title := "Intro")]
    ensures var s1 := CourseCurriculum.WithTitle(CourseCurriculum.Removed([l], 0), 0, "Intro");
      var s2 := CourseCurriculum.Appended(s1);
      var s4 := CourseCurriculum.Removed(CourseCurriculum.Removed(s2, 1), 0);
      s4 == [FloorLecture]
  {
    var d0 := DeleteAsWritten(Initial(l), 0);
    var d1 := EditTitleInPlace(d0, 0, "Intro");
    assert d1.template == FloorLecture.(title := "Intro");
    var d2 := AddAsWritten(d1);
    var d3 := DeleteAsWritten(d2, 1);
    assert |d3.lectures| == 1;
    var s1 := CourseCurriculum.WithTitle(CourseCurriculum.Removed([l], 0), 0, "Intro");
    var s2 := CourseCurriculum.Appended(s1);
    assert |CourseCurriculum.Removed(s2, 1)| == 1;
  }

  /** While the template is not shared, the as-written steps change the same lectures as the value model. */
  lemma {:induction false} UnsharedAgrees(d: SharedDraft, i: nat)
    requires Consistent(d) && !d.holdsTemplate && |d.lectures| > 1 && i < |d.lectures|
    ensures DeleteAsWritten(d, i).lectures == CourseCurriculum.Removed(d.lectures, i)
    ensures !DeleteAsWritten(d, i).holdsTemplate && DeleteAsWritten(d, i).template == d.template
  {
  }
}
