/** The instructor dashboard (components/instructor-view/dashboard/index.jsx). */
module Dashboard {
  import opened Wrappers
  import opened Seqs
  import opened Text
  import opened Instructor
  import opened InstructorCourses

  /** The dashboard reads `course.students.length` and `course.pricing` without a guard. */
  predicate Complete(c: CourseRecord) {
    c.students.Some? && c.pricing.Some?
  }

  predicate AllComplete(courses: seq<CourseRecord>) {
    forall i :: 0 <= i < |courses| ==> Complete(courses[i])
  }

  /** One entry of `studentList`. */
  datatype StudentRow = StudentRow(
    courseTitle: string,
    courseId: Option<string>,
    studentName: string,
    studentEmail: string,
    enrollmentDate: string)

  /** The fallback for a missing enrollment date (32). */
  const DefaultEnrollmentDate: string := "2023-10-15"

  /** The entry pushed for `student` of `c` (27-33). */
  function RowFor(c: CourseRecord, s: Student): (r: StudentRow)
    ensures r.courseTitle == c.title && r.courseId == c.id
    ensures r.studentName == s.studentName && r.studentEmail == s.studentEmail
    ensures r.enrollmentDate ==
      if s.enrollmentDate.Some? && s.enrollmentDate.value != "" then s.enrollmentDate.value else DefaultEnrollmentDate
  {
    var date := match s.enrollmentDate
      case None => DefaultEnrollmentDate
      case Some(d) => if d != "" then d else DefaultEnrollmentDate;
    StudentRow(c.title, c.id, s.studentName, s.studentEmail, date)
  }

  /** The entries of one course: one per student, each naming the course. */
  function RowsOf(c: CourseRecord): (r: seq<StudentRow>)
    requires Complete(c)
    ensures |r| == |c.students.value|
    ensures forall row :: row in r ==> row.courseTitle == c.title && row.courseId == c.id
  {
    var students := c.students.value;
    seq(|students|, j requires 0 <= j < |students| => RowFor(c, students[j]))
  }

  /**
   * `studentList`: the entries of each course's students, course by course; one entry per enrolled
   * student, so its length is the student total.
   */
  function StudentRows(courses: seq<CourseRecord>): (r: seq<StudentRow>)
    requires AllComplete(courses)
    ensures |r| == SumOf(courses, StudentCountOrZero)
  {
    if courses == [] then [] else RowsOf(courses[0]) + StudentRows(courses[1..])
  }

  /** `course.students.forEach(student => acc.studentList.push(...))` (26-34): one entry per student, in order. */
  method PushRows(before: seq<StudentRow>, course: CourseRecord) returns (list: seq<StudentRow>)
    requires Complete(course)
    ensures list == before + RowsOf(course)
  {
    var students := course.students.value;
    ghost var rows := RowsOf(course);
    list := before;
    for j := 0 to |students|
      invariant list == before + rows[..j]
    {
      assert rows[..j + 1] == rows[..j] + [RowFor(course, students[j])];
      list := list + [RowFor(course, students[j])];
    }
    assert rows[..|students|] == rows;
  }

  /**
   * `calculateTotalStudentsAndProfit` (19-50): a reduce over the courses that adds each course's
   * student count and `pricing * count` to the totals and pushes one entry per student.
   */
  method CalculateTotalStudentsAndProfit(courses: seq<CourseRecord>)
    returns (totalStudents: int, totalProfit: int, studentList: seq<StudentRow>)
    requires AllComplete(courses)
    ensures totalStudents == SumOf(courses, StudentCountOrZero)
    ensures totalProfit == SumOf(courses, RowRevenue)
    ensures studentList == StudentRows(courses)
  {
    totalStudents, totalProfit, studentList := 0, 0, [];
    for i := 0 to |courses|
      invariant totalStudents + SumOf(courses[i..], StudentCountOrZero) == SumOf(courses, StudentCountOrZero)
      invariant totalProfit + SumOf(courses[i..], RowRevenue) == SumOf(courses, RowRevenue)
      invariant studentList + StudentRows(courses[i..]) == StudentRows(courses)
    {
      var course := courses[i];
      RestStep(courses, i);
      var students := course.students.value;
      var studentCount := |students|;
      totalStudents := totalStudents + studentCount;
      totalProfit := totalProfit + course.pricing.value * studentCount;
      ghost var prev := studentList;
      studentList := PushRows(studentList, course);
      assert studentList + StudentRows(courses[i + 1..]) == prev + StudentRows(courses[i..]);
    }
    assert courses[|courses|..] == [];
  }

  /** Taking one course off the front of the rest of the list, for the reduce's step. */
  lemma RestStep(courses: seq<CourseRecord>, i: nat)
    requires AllComplete(courses) && i < |courses|
    ensures StudentRows(courses[i..]) == RowsOf(courses[i]) + StudentRows(courses[i + 1..])
    ensures SumOf(courses[i..], StudentCountOrZero) == |courses[i].students.value| + SumOf(courses[i + 1..], StudentCountOrZero)
    ensures SumOf(courses[i..], RowRevenue) ==
      courses[i].pricing.value * |courses[i].students.value| + SumOf(courses[i + 1..], RowRevenue)
  {
    assert courses[i..][0] == courses[i] && courses[i..][1..] == courses[i + 1..];
  }

  /** `r` is the entry of student `j` of course `i`. */
  predicate EntryOf(courses: seq<CourseRecord>, r: StudentRow)
    requires AllComplete(courses)
  {
    exists i, j :: 0 <= i < |courses| && 0 <= j < |courses[i].students.value| &&
      r == RowFor(courses[i], courses[i].students.value[j])
  }

  /** Every entry is the entry of one student of one listed course. */
  lemma {:induction false} StudentRowsFromCourses(courses: seq<CourseRecord>)
    requires AllComplete(courses)
    ensures forall r :: r in StudentRows(courses) ==> EntryOf(courses, r)
  {
    if courses != [] {
      StudentRowsFromCourses(courses[1..]);
      forall r | r in StudentRows(courses) ensures EntryOf(courses, r) {
        if r in RowsOf(courses[0]) {
          var j :| 0 <= j < |RowsOf(courses[0])| && RowsOf(courses[0])[j] == r;
          assert r == RowFor(courses[0], courses[0].students.value[j]);
        } else {
          assert r in StudentRows(courses[1..]);
          assert EntryOf(courses[1..], r);
          var i, j :| 0 <= i < |courses[1..]| && 0 <= j < |courses[1..][i].students.value| &&
            r == RowFor(courses[1..][i], courses[1..][i].students.value[j]);
          assert courses[1..][i] == courses[i + 1];
        }
      }
    }
  }

  /** The entries come course by course: the list of two lists of courses is the two lists of entries. */
  lemma {:induction false} StudentRowsAppend(a: seq<CourseRecord>, b: seq<CourseRecord>)
    requires AllComplete(a) && AllComplete(b)
    ensures AllComplete(a + b)
    ensures StudentRows(a + b) == StudentRows(a) + StudentRows(b)
  {
    if a == [] {
      assert a + b == b;
    } else {
      assert (a + b)[1..] == a[1..] + b;
      StudentRowsAppend(a[1..], b);
    }
  }

  /** On the courses the dashboard can show, its totals are the cards of the course list. */
  lemma TotalsAgreeWithCourseList(courses: seq<CourseRecord>)
    requires AllComplete(courses)
    ensures SumOf(courses, StudentCountOrZero) == TotalStudents(courses)
    ensures SumOf(courses, RowRevenue) == TotalRevenue(courses)
  {
    FoldSumIsSum(0, courses, StudentCountOrZero);
    FoldSumIsSum(0, courses, RowRevenue);
  }

  // ---------- search and course filter ----------

  /** The search test of 56-61: course title, student name or student email contains the term. */
  predicate RowMatches(r: StudentRow, term: string) {
    || ContainsIgnoringCase(r.courseTitle, term)
    || ContainsIgnoringCase(r.studentName, term)
    || ContainsIgnoringCase(r.studentEmail, term)
  }

  /** The search effect (54-66): the whole list for an empty term, otherwise the matching entries. */
  function SearchedRows(rows: seq<StudentRow>, term: string): (r: seq<StudentRow>)
    ensures term == "" ==> r == rows
    ensures term != "" ==> forall x :: x in r <==> x in rows && RowMatches(x, term)
  {
    if term != "" then Filter(rows, x => RowMatches(x, term)) else rows
  }

  /** The empty-term branch is the filter itself, since every string contains "": the result always keeps the order. */
  lemma SearchIsFilter(rows: seq<StudentRow>, term: string)
    ensures SearchedRows(rows, term) == Filter(rows, x => RowMatches(x, term))
    ensures IsSubsequence(SearchedRows(rows, term), rows)
  {
    if term == "" {
      forall x | x in rows ensures RowMatches(x, term) { ContainsIgnoringCaseEmpty(x.courseTitle); }
      FilterAll(rows, x => RowMatches(x, term));
    }
    FilterIsSubsequence(rows, x => RowMatches(x, term));
  }

  /** A tab of the course filter: its id (`course.id`, possibly missing) and its label. */
  datatype CourseFilter = CourseFilter(id: Option<string>, name: string)

  const AllFilterId: Option<string> := Some("all")

  /** `courseFilters` (69-72): "all" first, then one tab per course in list order. */
  function CourseFilters(courses: seq<CourseRecord>): (r: seq<CourseFilter>)
    ensures |r| == |courses| + 1
    ensures r[0] == CourseFilter(AllFilterId, "All Courses")
    ensures forall i :: 0 <= i < |courses| ==> r[i + 1] == CourseFilter(courses[i].id, courses[i].title)
  {
    [CourseFilter(AllFilterId, "All Courses")] +
      seq(|courses|, i requires 0 <= i < |courses| => CourseFilter(courses[i].id, courses[i].title))
  }

  /** The list `handleFilterChange` (74-82) shows: everything for "all", else the entries with that course id. */
  function RowsForFilter(rows: seq<StudentRow>, id: Option<string>): (r: seq<StudentRow>)
    ensures id == AllFilterId ==> r == rows
    ensures id != AllFilterId ==> forall x :: x in r <==> x in rows && x.courseId == id
  {
    if id == AllFilterId then rows else Filter(rows, (x: StudentRow) => x.courseId == id)
  }

  /**
   * The tabs use `course.id`, not the document key: when no listed course carries an `id`, every
   * tab, each course's included, shows every student.
   */
  lemma MissingIdsSelectEverything(courses: seq<CourseRecord>, k: nat)
    requires AllComplete(courses) && k < |courses| + 1
    requires forall i :: 0 <= i < |courses| ==> courses[i].id.None?
    ensures RowsForFilter(StudentRows(courses), CourseFilters(courses)[k].id) == StudentRows(courses)
  {
    if k == 0 {
      assert CourseFilters(courses)[0].id == AllFilterId;
    } else {
      CourseTabId(courses, k);
      NoIdFilterKeepsAll(courses);
    }
  }

  /** The tab after "all" at position `k` carries the id of course `k - 1`. */
  lemma CourseTabId(courses: seq<CourseRecord>, k: nat)
    requires 0 < k < |courses| + 1
    ensures CourseFilters(courses)[k].id == courses[k - 1].id
  {
    assert CourseFilters(courses)[(k - 1) + 1] == CourseFilter(courses[k - 1].id, courses[k - 1].title);
  }

  /** With no course id, no entry has one, so the tab test `courseId === undefined` keeps every entry. */
  lemma NoIdFilterKeepsAll(courses: seq<CourseRecord>)
    requires AllComplete(courses)
    requires forall i :: 0 <= i < |courses| ==> courses[i].id.None?
    ensures RowsForFilter(StudentRows(courses), None) == StudentRows(courses)
  {
    var rows := StudentRows(courses);
    StudentRowsFromCourses(courses);
    forall x | x in rows ensures x.courseId == None {
      assert EntryOf(courses, x);
      var i, j :| 0 <= i < |courses| && 0 <= j < |courses[i].students.value| &&
        x == RowFor(courses[i], courses[i].students.value[j]);
    }
    var p := (x: StudentRow) => x.courseId == None;
    assert forall x :: x in rows ==> p(x);
    FilterAll(rows, p);
  }

  class DashboardView {
    var searchTerm: string
    var activeFilter: Option<string>
    var filteredStudents: seq<StudentRow>

    constructor ()
      ensures searchTerm == "" && activeFilter == AllFilterId && filteredStudents == []
    {
      searchTerm := "";
      activeFilter := AllFilterId;
      filteredStudents := [];
    }

    method SetSearchTerm(term: string)
      modifies this`searchTerm
      ensures searchTerm == term
    {
      searchTerm := term;
    }

    /** The search effect (54-66) run on the current student list; it ignores the active course filter. */
    method SearchEffect(rows: seq<StudentRow>)
      modifies this`filteredStudents
      ensures filteredStudents == SearchedRows(rows, searchTerm)
    {
      var term := searchTerm;
      if term != "" {
        filteredStudents := Filter(rows, x => RowMatches(x, term));
      } else {
        filteredStudents := rows;
      }
    }

    /** `handleFilterChange` (74-82): the tab becomes active either way; the search term is ignored. */
    method HandleFilterChange(rows: seq<StudentRow>, courseId: Option<string>)
      modifies this`activeFilter, this`filteredStudents
      ensures activeFilter == courseId
      ensures filteredStudents == RowsForFilter(rows, courseId)
    {
      activeFilter := courseId;
      if courseId == AllFilterId {
        filteredStudents := rows;
      } else {
        filteredStudents := Filter(rows, (x: StudentRow) => x.courseId == courseId);
      }
    }
  }
}
