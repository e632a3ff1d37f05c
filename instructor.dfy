/**
 * The instructor's shared form state (the `InstructorContext` the add-course page and its three
 * editors read and write): the landing-page form, the curriculum, the id of the course being
 * edited and the single media-upload flag.
 */
module Instructor {
  import opened Wrappers
  import opened Js
  import opened Config

  /** An enrolled student as a course document lists it. */
  datatype Student = Student(studentName: string, studentEmail: string, enrollmentDate: Option<string>)

  /**
   * A course of the instructor's list, as far as the list and the dashboard read it. `id` is the
   * `id` property, which a course document need not carry (its key is `_id`, here `key`); a
   * missing `pricing` or `students` is `None`. Prices are integers.
   */
  datatype CourseRecord = CourseRecord(
    key: string,
    id: Option<string>,
    title: string,
    category: Option<string>,
    pricing: Option<int>,
    students: Option<seq<Student>>)

  class InstructorContext {
    var landing: Form
    var curriculum: seq<Lecture>
    var editedCourseId: Option<string>
    var uploading: bool

    /** The context starts from the configured initial form data, editing no course. */
    constructor ()
      ensures landing == LandingInitialFormData && curriculum == CurriculumInitialFormData
      ensures editedCourseId == None && !uploading
    {
      landing := LandingInitialFormData;
      curriculum := CurriculumInitialFormData;
      editedCourseId := None;
      uploading := false;
    }
  }
}
