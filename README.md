# Course marketplace client: a Dafny model

This project models the client side of a course marketplace. Instructors build courses and
students browse and buy them. The model covers:

- the instructor's add-course page, with its three editors:
  - the curriculum editor, holding lectures with a video, an optional note and a free-preview flag;
  - the landing-page form, with its completion meter;
  - the settings tab, with the course image;
- the instructor's course list and dashboard: totals, search, per-course filters;
- the student pages: the course catalogue with its filters, its query string and its search; the
  course details page with its free previews and payment payload; the header's initials;
- the sign-in and sign-up validity checks;
- the configuration they share: form templates, form controls and filter sections.

Each page's state is a class. Every event handler is a method that states the page's whole new
state in terms of a pure function of the old state, and lemmas prove properties of those
functions. The instructor's shared form state (`Instructor.InstructorContext`) is one object that
the add-course page and its three editors all write. Remote services (media upload and delete,
course create/update/fetch, purchase checks, payment creation) are not called; their responses
are parameters of the handlers.

JavaScript values that matter are modelled explicitly, in `Js.Value`:

- the difference between a missing key, `""`, `null`, `0` and `false`, and JavaScript truthiness;
- `String.prototype.split`, `join` and `includes`, and ASCII `toLowerCase`/`toUpperCase`, in `Text`;
- `encodeURIComponent` over UTF-8, with a decoder, in `Uri`.

## Model

| member | source | states |
|---|---|---|
| Instructor.InstructorContext.constructor | client/src/config/index.js:157-177 | the shared context starts from the configured landing and curriculum templates, editing no course, not uploading |
| Js.Toggled | client/src/components/instructor-view/courses/add-new-course/course-curriculum.jsx:40-45 | the toggled key holds the negation of its old truthiness (missing counts as false), every other key keeps its value, and the key set grows by that key |
| Js.ToggledTwice | client/src/pages/student/courses/index.jsx:103-108 | toggling a present key twice restores the map |
| CourseCurriculum.Appended | client/src/components/instructor-view/courses/add-new-course/course-curriculum.jsx:49-60 | one lecture is appended titled "Lecture n+1" with empty media and no preview; every earlier lecture is kept |
| CourseCurriculum.WithTitle | client/src/components/instructor-view/courses/add-new-course/course-curriculum.jsx:69-73 | only lecture i changes, and only its title |
| CourseCurriculum.WithFreePreview | client/src/components/instructor-view/courses/add-new-course/course-curriculum.jsx:75-79 | only lecture i changes, and only its free-preview flag |
| CourseCurriculum.WithUploadedVideo | client/src/components/instructor-view/courses/add-new-course/course-curriculum.jsx:81-105 | a successful upload sets lecture i's video url and public id from the response; a failed or thrown upload changes nothing |
| CourseCurriculum.WithUploadedNote | client/src/components/instructor-view/courses/add-new-course/course-curriculum.jsx:107-131 | the same for the note url and note public id |
| CourseCurriculum.WithoutVideo | client/src/components/instructor-view/courses/add-new-course/course-curriculum.jsx:133-140 | lecture i's video url and public id become empty; nothing else changes |
| CourseCurriculum.WithoutNote | client/src/components/instructor-view/courses/add-new-course/course-curriculum.jsx:186-192 | lecture i's note url and note public id become empty; nothing else changes |
| CourseCurriculum.Removed | client/src/components/instructor-view/courses/add-new-course/course-curriculum.jsx:203-216 | lecture i is removed and the others keep their order; a list that would be empty becomes the one-record template |
| CourseCurriculum.DeleteMedia | client/src/components/instructor-view/courses/add-new-course/course-curriculum.jsx:142-160 | an absent id succeeds without calling the service; otherwise success is exactly the service's success, and a failure raises an alert |
| CourseCurriculum.TransitionsKeepPairing | client/src/components/instructor-view/courses/add-new-course/course-curriculum.jsx:49-216 | every transition keeps each lecture's url and public id set together or empty together |
| CourseCurriculum.ClearingNeedsDeletion | client/src/components/instructor-view/courses/add-new-course/course-curriculum.jsx:162-192 | a replace or delete fails only when there was media to delete and the service did not delete it |
| CourseCurriculum.ExpansionMisattributedAfterDelete | client/src/components/instructor-view/courses/add-new-course/course-curriculum.jsx:212-214 | after a delete, the expansion flags stay keyed by the old positions, so a moved lecture shows its predecessor's flag |
| CourseCurriculum.DeleteLastGivesTemplate | client/src/components/instructor-view/courses/add-new-course/course-curriculum.jsx:209-210 | deleting the only lecture leaves exactly the blank template |
| CourseCurriculum.AddedTitlesFollowLength | client/src/components/instructor-view/courses/add-new-course/course-curriculum.jsx:49-56 | two added lectures get consecutive numbered titles |
| CourseCurriculum.CurriculumEditor.constructor | client/src/components/instructor-view/courses/add-new-course/course-curriculum.jsx:29-38 | the editor works on the given shared context and starts with no lecture expanded |
| CourseCurriculum.CurriculumEditor.ToggleLectureExpansion | client/src/components/instructor-view/courses/add-new-course/course-curriculum.jsx:40-45 | the expansion map becomes its toggle at i; the curriculum is unchanged |
| CourseCurriculum.CurriculumEditor.HandleNewLecture | client/src/components/instructor-view/courses/add-new-course/course-curriculum.jsx:49-67 | the curriculum becomes Appended of the old one, and the new lecture is expanded |
| CourseCurriculum.CurriculumEditor.HandleCourseTitleChange | client/src/components/instructor-view/courses/add-new-course/course-curriculum.jsx:69-73 | the curriculum becomes WithTitle of the old one |
| CourseCurriculum.CurriculumEditor.HandleFreePreviewChange | client/src/components/instructor-view/courses/add-new-course/course-curriculum.jsx:75-79 | the curriculum becomes WithFreePreview of the old one |
| CourseCurriculum.CurriculumEditor.HandleSingleLectureUpload | client/src/components/instructor-view/courses/add-new-course/course-curriculum.jsx:81-105 | the curriculum becomes WithUploadedVideo of the old one and the upload flag ends cleared |
| CourseCurriculum.CurriculumEditor.HandleSingleLectureNoteUpload | client/src/components/instructor-view/courses/add-new-course/course-curriculum.jsx:107-131 | the curriculum becomes WithUploadedNote of the old one and the upload flag ends cleared |
| CourseCurriculum.CurriculumEditor.HandleDeleteVideo | client/src/components/instructor-view/courses/add-new-course/course-curriculum.jsx:170-176 | the video is cleared exactly when the media delete succeeds |
| CourseCurriculum.CurriculumEditor.HandleReplaceVideo | client/src/components/instructor-view/courses/add-new-course/course-curriculum.jsx:162-168 | the video is cleared exactly when the media delete succeeds |
| CourseCurriculum.CurriculumEditor.HandleDeleteLectureNote | client/src/components/instructor-view/courses/add-new-course/course-curriculum.jsx:186-192 | the note is cleared exactly when the media delete succeeds |
| CourseCurriculum.CurriculumEditor.HandleReplaceLectureNote | client/src/components/instructor-view/courses/add-new-course/course-curriculum.jsx:178-184 | the note is cleared exactly when the media delete succeeds |
| CourseCurriculum.CurriculumEditor.HandleDeleteLecture | client/src/components/instructor-view/courses/add-new-course/course-curriculum.jsx:203-216 | both media are deleted first; the curriculum becomes Removed of the old one and position i leaves the expansion map |
| TemplateAliasing.EditTitleInPlace | client/src/components/instructor-view/courses/add-new-course/course-curriculum.jsx:69-73 | the in-place title edit changes the list like WithTitle, and also the shared template when position 0 is that object |
| TemplateAliasing.EditPreviewInPlace | client/src/components/instructor-view/courses/add-new-course/course-curriculum.jsx:75-79 | the same for the in-place free-preview edit |
| TemplateAliasing.AddAsWritten | client/src/components/instructor-view/courses/add-new-course/course-curriculum.jsx:49-60 | the appended lecture copies the shared template's current free-preview flag |
| TemplateAliasing.DeleteAsWritten | client/src/components/instructor-view/courses/add-new-course/course-curriculum.jsx:203-216 | deleting the last lecture installs the template object itself as the only record |
| TemplateAliasing.RespreadAsWritten | client/src/components/instructor-view/courses/add-new-course/course-curriculum.jsx:93-97 | a spread replacement gives position i a fresh object, so it stops sharing the template |
| TemplateAliasing.NewLectureInheritsPreview | client/src/components/instructor-view/courses/add-new-course/course-curriculum.jsx:75-79 | after delete-to-floor and a preview toggle, a new lecture is a free preview as written, and is not one in the value model |
| TemplateAliasing.FloorKeepsEditedTitle | client/src/components/instructor-view/courses/add-new-course/course-curriculum.jsx:69-73 | an edited title survives into a later delete-to-floor as written; in the value model the floor record stays blank |
| TemplateAliasing.UnsharedAgrees | client/src/components/instructor-view/courses/add-new-course/course-curriculum.jsx:209-210 | while nothing shares the template, the as-written delete matches the value model |
| TemplateAliasing.InstallAsWritten | client/src/components/instructor-view/courses/index.jsx:73-78 | installing the template array makes its record, with every edit made to it so far, the only lecture, shared with the template |
| TemplateAliasing.NewCoursePreviewSpreads | client/src/components/instructor-view/courses/add-new-course/course-curriculum.jsx:49-79 | in a new course whose lecture 1 is ticked as a free preview, every added lecture is a free preview as written; in the value model none is |
| TemplateAliasing.TitleCarriesToNextCourse | client/src/pages/instructor/add-new-course.jsx:92-95 | a title typed into a new course's lecture 1 reappears in the next course the template is installed for; in the value model that course starts blank |
| CourseLanding.CalculateCompletion | client/src/components/instructor-view/courses/add-new-course/course-landing.jsx:14-23 | no form gives 0; otherwise the result is the rounded percentage of filled values over the six controls |
| CourseLanding.TotalFieldsIsSix | client/src/config/index.js:84-155 | the landing form has six controls |
| CourseLanding.FillingNeverLowers | client/src/components/instructor-view/courses/add-new-course/course-landing.jsx:18-20 | filling a field never lowers the completion |
| CourseLanding.SevenFilledGive117 | client/src/components/instructor-view/courses/add-new-course/course-landing.jsx:14-23 | seven filled values show 117 percent |
| CourseLanding.CompleteFormExceedsHundred | client/src/components/instructor-view/courses/add-new-course/course-landing.jsx:14-23 | a fully filled ten-field form shows 167 percent |
| CourseLanding.LandingKeyCount | client/src/config/index.js:157-168 | the landing template has ten keys |
| CourseLanding.MoreThanSixFilledExceedsHundred | client/src/components/instructor-view/courses/add-new-course/course-landing.jsx:14-23 | more filled values than controls show over 100 percent |
| CourseSettings.CheckImage | client/src/components/instructor-view/courses/add-new-course/course-settings.jsx:27-38 | a file is accepted exactly when its type starts with "image/" and it is at most 5 MiB; no file and a non-image type are told apart from a file that is too large |
| CourseSettings.SizeBoundary | client/src/components/instructor-view/courses/add-new-course/course-settings.jsx:33-37 | exactly 5 MiB is accepted, one byte more is too large, a PDF is not an image |
| CourseSettings.WithImage | client/src/components/instructor-view/courses/add-new-course/course-settings.jsx:49-54 | a successful upload sets only the image key to the uploaded url |
| CourseSettings.WithoutImage | client/src/components/instructor-view/courses/add-new-course/course-settings.jsx:64-69 | only the image key becomes "" |
| CourseSettings.RemoveUndoesUpload | client/src/components/instructor-view/courses/add-new-course/course-settings.jsx:49-69 | removing after an upload leaves the form as removing before it would |
| CourseSettings.CourseSettingsPage.constructor | client/src/components/instructor-view/courses/add-new-course/course-settings.jsx:12-21 | the page works on the given shared context |
| CourseSettings.CourseSettingsPage.HandleImageUploadChange | client/src/components/instructor-view/courses/add-new-course/course-settings.jsx:24-62 | a rejected file changes nothing; an accepted one sets the form to WithImage of the old one and clears the upload flag |
| CourseSettings.CourseSettingsPage.HandleRemoveImage | client/src/components/instructor-view/courses/add-new-course/course-settings.jsx:64-69 | the form becomes WithoutImage of the old one |
| AddNewCourse.IsEmpty | client/src/pages/instructor/add-new-course.jsx:38-44 | arrays are empty when they have no elements; other values when they are "", null or missing |
| AddNewCourse.EmptinessIsNotFalsiness | client/src/pages/instructor/add-new-course.jsx:38-44 | 0 and false are not empty, while [] is empty and truthy |
| AddNewCourse.ValidateFormData | client/src/pages/instructor/add-new-course.jsx:46-70 | the result is true exactly when no landing value is empty, every lecture has a title and a video, and some lecture is a free preview |
| AddNewCourse.ProgressPercentage | client/src/pages/instructor/add-new-course.jsx:128-129 | the progress is 100 exactly when no landing value is "", null, missing or an empty array, every lecture has a title, a video url and a video id, and some lecture is a free preview; otherwise 65 |
| AddNewCourse.EmptyCurriculumInvalid | client/src/pages/instructor/add-new-course.jsx:55-69 | a course with no lectures is never valid |
| AddNewCourse.EditsKeepHidden | client/src/config/index.js:84-168 | edits to controls and the image never touch the three fields without a control |
| AddNewCourse.FilledControlsNeverValidate | client/src/pages/instructor/add-new-course.jsx:46-54 | starting from the template, no edits to controls and the image make the course valid; progress stays at 65 |
| AddNewCourse.CourseDocumentOf | client/src/pages/instructor/add-new-course.jsx:74-82 | the document holds the landing fields except the trailing keys it overrides, the curriculum, an empty student list and published set; the instructor id and name come from the form when it has them, otherwise from the signed-in user |
| AddNewCourse.DocumentOfConfiguredForm | client/src/pages/instructor/add-new-course.jsx:74-82 | a document built from the template has each of its ten fields |
| AddNewCourse.MergeWithDefaults | client/src/pages/instructor/add-new-course.jsx:107-113 | the merged form has exactly the template's keys, each holding the fetched value when truthy and the template's value otherwise |
| AddNewCourse.ZeroPricingIsLost | client/src/pages/instructor/add-new-course.jsx:107-113 | a fetched price of 0 loads as "" |
| AddNewCourse.TabIndex | client/src/pages/instructor/add-new-course.jsx:229-230 | each tab has its own position among the three |
| AddNewCourse.Previous | client/src/pages/instructor/add-new-course.jsx:228-232 | the tab before the current one, staying on the first |
| AddNewCourse.Next | client/src/pages/instructor/add-new-course.jsx:241-245 | the tab after the current one, staying on the last |
| AddNewCourse.StepsUndoEachOther | client/src/pages/instructor/add-new-course.jsx:228-245 | Next after Previous, and Previous after Next, return to the tab off the boundary |
| AddNewCourse.AddNewCoursePage.constructor | client/src/pages/instructor/add-new-course.jsx:35-36 | the page works on the given shared context and starts on the curriculum tab, not submitting |
| AddNewCourse.AddNewCoursePage.ClickPrevious | client/src/pages/instructor/add-new-course.jsx:228-232 | the tab becomes Previous of the old one |
| AddNewCourse.AddNewCoursePage.ClickNext | client/src/pages/instructor/add-new-course.jsx:241-245 | the tab becomes Next of the old one |
| AddNewCourse.AddNewCoursePage.HandleCreateCourse | client/src/pages/instructor/add-new-course.jsx:72-99 | it sends CourseDocumentOf the context, by update exactly when a course is being edited; on success both forms return to their templates and no course is edited; on an unsuccessful answer or a rejection the forms and the edited id are kept; submitting ends false except after a rejection, where it stays true |
| AddNewCourse.AddNewCoursePage.RouteCourseId | client/src/pages/instructor/add-new-course.jsx:124-126 | a non-empty route id becomes the edited course id; otherwise it is kept; the forms are unchanged |
| AddNewCourse.AddNewCoursePage.FetchCurrentCourseDetails | client/src/pages/instructor/add-new-course.jsx:101-122 | a successful fetch sets the landing form to MergeWithDefaults of the document and the curriculum to its lectures; a failed one changes nothing |
| InstructorCourses.StudentCountOrZero | client/src/components/instructor-view/courses/index.jsx:120-123 | the count is never negative, and is the length of the student list when there is one |
| InstructorCourses.PriceOrZero | client/src/components/instructor-view/courses/index.jsx:54 | the price, or 0 when the course has none |
| InstructorCourses.RowRevenue | client/src/components/instructor-view/courses/index.jsx:237 | a course without a price or without students earns 0, and a non-negative price earns a non-negative amount |
| InstructorCourses.TotalRevenue | client/src/components/instructor-view/courses/index.jsx:53-55 | the reduce from 0 equals the sum of the revenue cells |
| InstructorCourses.TotalStudents | client/src/components/instructor-view/courses/index.jsx:120-123 | the reduce from 0 equals the sum of the per-course counts and is never negative |
| InstructorCourses.RowsAddUpToTotal | client/src/components/instructor-view/courses/index.jsx:54-56 | the reduce total equals the sum of the rows' revenue |
| InstructorCourses.TotalsNonNegative | client/src/components/instructor-view/courses/index.jsx:54-56 | with non-negative prices, revenue and student totals are non-negative |
| InstructorCourses.FilteredCourses | client/src/components/instructor-view/courses/index.jsx:59-62 | the shown courses are those whose title or category contains the term, ignoring case |
| InstructorCourses.MatchesTerm | client/src/components/instructor-view/courses/index.jsx:58-62 | the empty term matches every course, and a match needs the title or the category to be at least as long as the term |
| InstructorCourses.FilteredCoursesSpec | client/src/components/instructor-view/courses/index.jsx:59-62 | the filter keeps order and an empty term shows every course |
| InstructorCourses.InstructorCoursesView.constructor | client/src/components/instructor-view/courses/index.jsx:36-42 | the view works on the given shared context and is deleting nothing |
| InstructorCourses.InstructorCoursesView.CreateNewCourse | client/src/components/instructor-view/courses/index.jsx:74-78 | both forms return to their templates and the edited id is cleared; the same handler is repeated at lines 302-305 |
| InstructorCourses.InstructorCoursesView.HandleDelete | client/src/components/instructor-view/courses/index.jsx:44-46 | the course id is marked as being deleted |
| InstructorCourses.InstructorCoursesView.DeleteTimerFired | client/src/components/instructor-view/courses/index.jsx:47-50 | the deleting mark is cleared |
| Dashboard.RowFor | client/src/components/instructor-view/dashboard/index.jsx:27-33 | a row names the student, their email, the course title and id, and the enrollment date or the fixed default |
| Dashboard.RowsOf | client/src/components/instructor-view/dashboard/index.jsx:26-34 | one entry per student of the course, each carrying the course title and id |
| Dashboard.StudentRows | client/src/components/instructor-view/dashboard/index.jsx:19-50 | the student list has one entry per enrolled student, so its length is the total student count |
| Dashboard.PushRows | client/src/components/instructor-view/dashboard/index.jsx:26-34 | the forEach appends exactly the course's entries, in student order, after the list so far |
| Dashboard.CalculateTotalStudentsAndProfit | client/src/components/instructor-view/dashboard/index.jsx:19-50 | the totals are the sum of the courses' student counts and of price times count, and the list is one row per enrolled student in course order |
| Dashboard.StudentRowsFromCourses | client/src/components/instructor-view/dashboard/index.jsx:27-33 | every row comes from a student enrolled in one of the courses |
| Dashboard.TotalsAgreeWithCourseList | client/src/components/instructor-view/dashboard/index.jsx:19-50 | the dashboard's totals equal the course list's revenue and student totals |
| Dashboard.SearchedRows | client/src/components/instructor-view/dashboard/index.jsx:54-66 | an empty term keeps all rows; otherwise the rows whose course title, student name or email contains the term, ignoring case |
| Dashboard.SearchIsFilter | client/src/components/instructor-view/dashboard/index.jsx:54-66 | the search result is an in-order subsequence of the rows |
| Dashboard.CourseFilters | client/src/components/instructor-view/dashboard/index.jsx:69-72 | one "all" tab followed by one tab per course, in order |
| Dashboard.RowsForFilter | client/src/components/instructor-view/dashboard/index.jsx:74-82 | the "all" tab shows every row; another tab shows the rows whose course id equals its id |
| Dashboard.MissingIdsSelectEverything | client/src/components/instructor-view/dashboard/index.jsx:69-82 | when no course carries an `id`, every course tab shows all rows |
| Dashboard.DashboardView.constructor | client/src/components/instructor-view/dashboard/index.jsx:15-17 | empty search, the "all" filter, no rows shown |
| Dashboard.DashboardView.SetSearchTerm | client/src/components/instructor-view/dashboard/index.jsx:15 | only the search term changes |
| Dashboard.DashboardView.SearchEffect | client/src/components/instructor-view/dashboard/index.jsx:54-66 | the shown rows become SearchedRows of the student list |
| Dashboard.DashboardView.HandleFilterChange | client/src/components/instructor-view/dashboard/index.jsx:74-82 | the filter is set and the shown rows become RowsForFilter |
| StudentCourses.ToggledList | client/src/pages/student/courses/index.jsx:72-81 | an absent option is appended; for a present one, exactly its first occurrence is spliced out and the rest keep their order |
| StudentCourses.ToggleOption | client/src/pages/student/courses/index.jsx:65-83 | a new section holds just the option; in an existing section the option is added or removed; every other section is unchanged |
| StudentCourses.ToggleFlipsMembership | client/src/pages/student/courses/index.jsx:65-83 | toggling flips whether the option is chosen in that section |
| StudentCourses.ToggleTwiceAbsentSection | client/src/pages/student/courses/index.jsx:65-83 | toggling twice in a new section leaves it present and empty |
| StudentCourses.ToggleTwiceUnchosen | client/src/pages/student/courses/index.jsx:65-83 | toggling an unchosen option twice restores the filters |
| StudentCourses.ToggleTwiceChosen | client/src/pages/student/courses/index.jsx:65-83 | toggling a chosen option twice, in a duplicate-free section, moves it to the end of that section |
| StudentCourses.CountActiveFilters | client/src/pages/student/courses/index.jsx:111-117 | the count is the total number of chosen options over all sections |
| StudentCourses.ToggleChangesCountByOne | client/src/pages/student/courses/index.jsx:65-117 | a toggle changes the count by exactly one in the matching direction |
| StudentCourses.ClearedCountIsZero | client/src/pages/student/courses/index.jsx:85-88 | cleared filters count zero |
| StudentCourses.CreateSearchParamsHelper | client/src/pages/student/courses/index.jsx:36-45 | the query joins `key=encoded(values joined by ",")` with "&" for each non-empty section, in order |
| StudentCourses.ParsePairRoundTrip | client/src/pages/student/courses/index.jsx:36-45 | one pair parses back to its section |
| StudentCourses.ParsePairsRoundTrip | client/src/pages/student/courses/index.jsx:36-45 | a list of pairs parses back to its sections |
| StudentCourses.QueryRoundTrip | client/src/pages/student/courses/index.jsx:36-45 | parsing the query gives back exactly the non-empty sections, for keys without "&" or "=" and options without "," |
| StudentCourses.QueryPairsHaveEquals | client/src/pages/student/courses/index.jsx:40-42 | every pair contains "=" |
| StudentCourses.FilteredCourses | client/src/pages/student/courses/index.jsx:166-170 | the shown courses are those whose title, instructor name or description contains the query, ignoring case |
| StudentCourses.FilteredCoursesInOrder | client/src/pages/student/courses/index.jsx:166-170 | the search keeps catalogue order |
| StudentCourses.EmptySearchKeepsAll | client/src/pages/student/courses/index.jsx:166-170 | an empty query shows every course |
| StudentCourses.PurchasedIdsSpec | client/src/pages/student/courses/index.jsx:147-161 | a course id is listed exactly when that course is owned, in catalogue order |
| StudentCourses.StudentCoursesPage.constructor | client/src/pages/student/courses/index.jsx:124-133 | the saved filters are restored, or none; every configured filter section starts expanded; nothing is purchased and the search params are empty |
| StudentCourses.StudentCoursesPage.HandleFilterOnChange | client/src/pages/student/courses/index.jsx:65-83 | the filters become ToggleOption of the old ones |
| StudentCourses.StudentCoursesPage.ClearFilters | client/src/pages/student/courses/index.jsx:85-88 | the filters become empty |
| StudentCourses.StudentCoursesPage.ToggleFilterSection | client/src/pages/student/courses/index.jsx:103-108 | the section's expansion flag flips |
| StudentCourses.StudentCoursesPage.SyncSearchParams | client/src/pages/student/courses/index.jsx:119-122 | the search params become the query string of the filters |
| StudentCourses.StudentCoursesPage.CheckPurchasedCourses | client/src/pages/student/courses/index.jsx:147-161 | for a non-empty catalogue and a signed-in user the purchased list becomes the ids of the owned courses in order; otherwise it is kept |
| CourseDetails.FreePreviewIndex | client/src/pages/student/course-details/index.jsx:131-136 | -1 when no lecture is a free preview, otherwise the first free preview's position |
| CourseDetails.FindFreePreview | client/src/pages/student/course-details/index.jsx:131-136 | the first free-preview lecture, or none |
| CourseDetails.FreePreviews | client/src/pages/student/course-details/index.jsx:252-254 | the previewable lectures, in order |
| CourseDetails.FreePreviewsStartAtIndex | client/src/pages/student/course-details/index.jsx:131-136 | the list of previews starts with the lecture at the preview index |
| CourseDetails.PaymentPayloadOf | client/src/pages/student/course-details/index.jsx:63-79 | the payload is a pending PayPal order with an initiated payment and empty payment and payer ids; userId, userName and userEmail are the user's, and all absent without a user; instructorId, instructorName, courseImage, courseTitle, courseId and coursePricing are the details', and all absent without details |
| CourseDetails.PayloadSeparates | client/src/pages/student/course-details/index.jsx:63-79 | the user fields and the course fields are read independently of each other |
| CourseDetails.CourseDetailsPage.constructor | client/src/pages/student/course-details/index.jsx:36-38 | no details loaded and loading, no preview shown |
| CourseDetails.CourseDetailsPage.FetchCompleted | client/src/pages/student/course-details/index.jsx:44-56 | the details become the fetched course, or none after a failed fetch; loading ends either way |
| CourseDetails.CourseDetailsPage.HandleSetFreePreview | client/src/pages/student/course-details/index.jsx:58-60 | the displayed video becomes the lecture's url and the dialog opens |
| CourseDetails.CourseDetailsPage.ClickCurriculumItem | client/src/pages/student/course-details/index.jsx:190-194 | a free preview is displayed; any other lecture changes nothing |
| CourseDetails.CourseDetailsPage.CloseDialog | client/src/pages/student/course-details/index.jsx:230-233 | the dialog closes and the displayed video is cleared |
| CourseDetails.CourseDetailsPage.RouteId | client/src/pages/student/course-details/index.jsx:100-102 | a non-empty route id becomes the current course id; otherwise it is kept |
| CourseDetails.CourseDetailsPage.PathChanged | client/src/pages/student/course-details/index.jsx:104-108 | a path outside the details page clears the details and the id; on the details page nothing changes |
| Header.Heads | client/src/components/student-view/header.jsx:31-36 | one initial per non-empty word |
| Header.FirstChars | client/src/components/student-view/header.jsx:33-35 | mapping the parts to their first characters gives at most one character per part |
| Header.UserInitials | client/src/components/student-view/header.jsx:31-37 | "ST" without a name; otherwise the upper-cased first letters of the space-separated words, no longer than the name |
| Header.InitialsAreHeads | client/src/components/student-view/header.jsx:33-35 | skipping empty words gives the same initials as mapping them to nothing |
| Header.InitialsNoLongerThanName | client/src/components/student-view/header.jsx:31-37 | initials are never longer than the name |
| Header.SingleWordName | client/src/components/student-view/header.jsx:31-37 | a one-word name gives its upper-cased first letter |
| Header.IsActive | client/src/components/student-view/header.jsx:68-70 | a link can be active only on a path at least as long as its href, and an empty href is active everywhere |
| Header.ActiveLinks | client/src/components/student-view/header.jsx:68-70 | a link is active on every path that holds its href anywhere, and never on a path shorter than the href |
| Auth.IsButtonDisabled | client/src/pages/auth/index.jsx:162-189 | on the sign-in tab the button is disabled exactly when there is no form or its email or password is exactly ""; on the sign-up tab, the same over the user name, email and password |
| Auth.SignInValid | client/src/pages/auth/index.jsx:38-44 | no form is invalid; with string email and password it is valid exactly when both are non-empty; a form without either key passes |
| Auth.SignUpValid | client/src/pages/auth/index.jsx:46-53 | no form is invalid; with string name, email and password it is valid exactly when all are non-empty; a valid sign-up form passes sign-in |
| Auth.ValidOnStrings | client/src/pages/auth/index.jsx:38-53 | string forms are valid exactly when the required fields are non-empty; no form is never valid |
| Auth.SignUpImpliesSignIn | client/src/pages/auth/index.jsx:38-53 | a valid sign-up form also passes the sign-in check |
| Auth.OtherFieldsIgnored | client/src/pages/auth/index.jsx:38-53 | keys other than the required ones do not affect either check |
| Auth.NoFormatCheck | client/src/pages/auth/index.jsx:38-53 | a form with none of its keys passes both checks |

## Left out

- Upload progress percentages and overlapping uploads: each handler is one atomic step, and the shared upload flag is only set and cleared.
- The bulk lecture upload and the PDF note preview of the curriculum editor: they are user interface only.
- Network services (media upload and delete, course create, update and fetch, purchase check, payment creation): their responses are handler parameters.
- sessionStorage, navigation, `alert`, console logging and `setTimeout` are not modelled. The saved filters and the timer firing are parameters or separate handlers.
- The `date: new Date()` field of the course document (pages/instructor/add-new-course.jsx:77) and the `orderDate` field of the payment payload (pages/student/course-details/index.jsx:70) read the clock; both fields are left out of the records.
- The course-list fetch runs `URLSearchParams` with a sort key over the filters. This is not modelled; only the filter query string is.
- Filter sections holding a non-array value, which only a corrupted saved filter can produce, are not modelled.
- Case folding covers ASCII letters only. Non-ASCII letters keep their case.
- `encodeURIComponent` on lone surrogates throws in JavaScript. A Dafny `char` cannot hold one, so that error path does not exist here.
- Prices are integers. String prices, NaN and JavaScript's numeric coercion are not modelled.
- Dashboard.CalculateTotalStudentsAndProfit: requires every course to carry a price and a student list. The source would produce NaN or throw without them.
- The misspelled `isPublised` key of the course document is kept as written.
- The instructor and student context providers are not part of this model. Their initial values are taken as the configured templates, no details and loading.
- The common form components (`FormControls`, `CommonForm`) are not part of this model; an edit is a key and value written into the form.
- React's render scheduling is not modelled. In particular, the dashboard's search effect depends on a student list rebuilt on every render, so it can overwrite a chosen course filter on the next render. Effects here are explicit calls.
- The server files (media controller, routes, cloudinary helper) and the student home page are not part of this model.
- CourseLanding.CalculateCompletion: states the rounding as bounds on the fraction. JavaScript's `Math.round` on the floating-point quotient is taken to round halves up, as exact arithmetic does.

## Findings

| source | as written | input that shows it | evidently intended | confidence | as-written member | corrected member |
|---|---|---|---|---|---|---|
| client/src/components/instructor-view/courses/add-new-course/course-curriculum.jsx:69-79, 209-210; client/src/components/instructor-view/courses/index.jsx:77, 305; client/src/pages/instructor/add-new-course.jsx:94; client/src/config/index.js:170-177 | the title and free-preview handlers assign into the lecture object in place; the Create New Course buttons, a successful submit and deleting the last lecture all install the configured template array, whose record then is the lecture being edited | create a new course, tick free preview on lecture 1, add two lectures: both are free previews. Create a new course, title lecture 1 "Intro", create the next new course: its lecture 1 is titled "Intro". Delete the only lecture, tick free preview, add a lecture: the new lecture is a free preview | each edit changes only the lecture edited, and the template stays blank | not executed | TemplateAliasing.NewCoursePreviewSpreads, TemplateAliasing.TitleCarriesToNextCourse, TemplateAliasing.NewLectureInheritsPreview, TemplateAliasing.FloorKeepsEditedTitle | CourseCurriculum.Appended, CourseCurriculum.Removed, InstructorCourses.InstructorCoursesView.CreateNewCourse, AddNewCourse.AddNewCoursePage.HandleCreateCourse |
