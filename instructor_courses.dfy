/** The instructor's course list (components/instructor-view/courses/index.jsx). */
module InstructorCourses {
  import opened Wrappers
  import opened Seqs
  import opened Text
  import opened Config
  import opened Instructor

  /** `course?.pricing || 0`: the price, a missing one counting as 0. */
  function PriceOrZero(c: CourseRecord): (p: int)
    ensures c.pricing.Some? ==> p == c.pricing.value
    ensures c.pricing.None? ==> p == 0
  {
    match c.pricing
    case None => 0
    case Some(p) => p
  }

  /** `course?.students?.length || 0`. */
  function StudentCountOrZero(c: CourseRecord): (n: int)
    ensures n >= 0
    ensures c.students.Some? ==> n == |c.students.value|
  {
    match c.students
    case None => 0
    case Some(s) => |s|
  }

  /** The revenue cell of a row (237): nothing is earned without a price or without students. */
  function RowRevenue(c: CourseRecord): (r: int)
    ensures c.pricing.None? || c.students.None? || c.students == Some([]) ==> r == 0
    ensures PriceOrZero(c) >= 0 ==> r >= 0
  {
    PriceOrZero(c) * StudentCountOrZero(c)
  }

  /** `totalRevenue` (54-56): the reduce from 0 over the list is the sum of the revenue cells. */
  function TotalRevenue(courses: seq<CourseRecord>): (r: int)
    ensures r == SumOf(courses, RowRevenue)
  {
    FoldSumIsSum(0, courses, RowRevenue);
    FoldSum(0, courses, RowRevenue)
  }

  /** The Total Students card (120-123): the sum of the per-course counts, never negative. */
  function TotalStudents(courses: seq<CourseRecord>): (r: int)
    ensures r == SumOf(courses, StudentCountOrZero) && r >= 0
  {
    FoldSumIsSum(0, courses, StudentCountOrZero);
    SumOfNonNegative(courses, StudentCountOrZero);
    FoldSum(0, courses, StudentCountOrZero)
  }

  /** The revenue cells of the table add up to the total revenue card, and likewise for appending lists. */
  lemma RowsAddUpToTotal(courses: seq<CourseRecord>, more: seq<CourseRecord>)
    ensures TotalRevenue(courses) == SumOf(courses, RowRevenue)
    ensures TotalRevenue(courses + more) == TotalRevenue(courses) + TotalRevenue(more)
    ensures TotalStudents(courses + more) == TotalStudents(courses) + TotalStudents(more)
  {
    FoldSumIsSum(0, courses, RowRevenue);
    FoldSumIsSum(0, more, RowRevenue);
    FoldSumIsSum(0, courses + more, RowRevenue);
    SumOfAppend(courses, more, RowRevenue);
    FoldSumIsSum(0, courses, StudentCountOrZero);
    FoldSumIsSum(0, more, StudentCountOrZero);
    FoldSumIsSum(0, courses + more, StudentCountOrZero);
    SumOfAppend(courses, more, StudentCountOrZero);
  }

  /** With no negative price, neither total is negative. */
  lemma TotalsNonNegative(courses: seq<CourseRecord>)
    requires forall c :: c in courses ==> PriceOrZero(c) >= 0
    ensures TotalRevenue(courses) >= 0 && TotalStudents(courses) >= 0
  {
    FoldSumIsSum(0, courses, RowRevenue);
    FoldSumIsSum(0, courses, StudentCountOrZero);
    SumOfNonNegative(courses, RowRevenue);
    SumOfNonNegative(courses, StudentCountOrZero);
  }

  /**
   * The search of 59-62: the title, or the category when there is one, contains the term. The
   * empty term matches every course, and a match needs a field at least as long as the term.
   */
  predicate MatchesTerm(c: CourseRecord, term: string)
    ensures term == "" ==> MatchesTerm(c, term)
    ensures MatchesTerm(c, term) ==> |term| <= |c.title| || (c.category.Some? && |term| <= |c.category.value|)
  {
    ContainsIgnoringCaseEmpty(c.title);
    ContainsIgnoringCase(c.title, term) || (c.category.Some? && ContainsIgnoringCase(c.category.value, term))
  }

  function FilteredCourses(courses: seq<CourseRecord>, term: string): (r: seq<CourseRecord>)
    ensures forall c :: c in r <==> c in courses && MatchesTerm(c, term)
  {
    Filter(courses, c => MatchesTerm(c, term))
  }

  /** The search keeps the list order, and an empty term keeps every course. */
  lemma FilteredCoursesSpec(courses: seq<CourseRecord>, term: string)
    ensures IsSubsequence(FilteredCourses(courses, term), courses)
    ensures term == "" ==> FilteredCourses(courses, term) == courses
  {
    FilterIsSubsequence(courses, c => MatchesTerm(c, term));
    if term == "" {
      forall c | c in courses ensures MatchesTerm(c, term) { ContainsIgnoringCaseEmpty(c.title); }
      FilterAll(courses, c => MatchesTerm(c, term));
    }
  }

  class InstructorCoursesView {
    const ctx: InstructorContext
    var isDeleting: Option<string>

    constructor (ctx: InstructorContext)
      ensures this.ctx == ctx && isDeleting == None
    {
      this.ctx := ctx;
      isDeleting := None;
    }

    /** The two Create New Course buttons (74-78, 302-305): no course edited, both forms reset. */
    method CreateNewCourse()
      modifies ctx
      ensures ctx.editedCourseId == None
      ensures ctx.landing == LandingInitialFormData && ctx.curriculum == CurriculumInitialFormData
      ensures ctx.uploading == old(ctx.uploading)
    {
      ctx.editedCourseId := None;
      ctx.landing := LandingInitialFormData;
      ctx.curriculum := CurriculumInitialFormData;
    }

    /**
     * `handleDelete` (44-46): only the deleting marker is set; the course list is the caller's and
     * is not touched (the method modifies nothing else).
     */
    method HandleDelete(courseId: string)
      modifies this`isDeleting
      ensures isDeleting == Some(courseId)
    {
      isDeleting := Some(courseId);
    }

    /** The timer of 47-50, which only clears the marker again. */
    method DeleteTimerFired()
      modifies this`isDeleting
      ensures isDeleting == None
    {
      isDeleting := None;
    }
  }
}
