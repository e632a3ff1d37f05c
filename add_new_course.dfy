/**
 * The add/edit course page (pages/instructor/add-new-course.jsx): submission validation, the
 * course document it sends, loading a course into the forms, and the tab stepping.
 * The create/update/fetch services are not called: their results are parameters.
 */
module AddNewCourse {
  import opened Wrappers
  import opened Js
  import opened Config
  import opened Instructor

  // ---------- isEmpty and validateFormData ----------

  /** `isEmpty` (38-44): an empty array, "", null or undefined. */
  function IsEmpty(v: Value): (r: bool)
    ensures r <==> v == Arr([]) || v == Str("") || v == Null || v == Undefined
  {
    match v
    case Arr(items) => |items| == 0
    case Str(s) => s == ""
    case Null => true
    case Undefined => true
    case _ => false
  }

  /** `false` and `0` are falsy yet not empty, `[]` is empty yet truthy; every other empty value is falsy. */
  lemma EmptinessIsNotFalsiness(v: Value)
    ensures !IsEmpty(Bool(false)) && !Truthy(Bool(false))
    ensures !IsEmpty(Num(0)) && !Truthy(Num(0))
    ensures IsEmpty(Arr([])) && Truthy(Arr([]))
    ensures IsEmpty(v) && !v.Arr? ==> !Truthy(v)
  {
  }

  /** A lecture with a title, a video url and a video id; the note is not required. */
  predicate LectureComplete(l: Lecture) {
    !IsEmpty(Str(l.title)) && !IsEmpty(Str(l.videoUrl)) && !IsEmpty(Str(l.publicId))
  }

  /** What `validateFormData` accepts. */
  predicate ValidCourse(landing: Form, curriculum: seq<Lecture>) {
    && (forall k :: k in landing ==> !IsEmpty(landing[k]))
    && (forall i :: 0 <= i < |curriculum| ==> LectureComplete(curriculum[i]))
    && (exists i :: 0 <= i < |curriculum| && curriculum[i].freePreview)
  }

  /**
   * `validateFormData` (46-70): the landing keys are visited in any order and the first empty one
   * rejects; then the lectures in order, the first incomplete one rejecting, while a flag records
   * whether any is a free preview.
   */
  method ValidateFormData(landing: Form, curriculum: seq<Lecture>) returns (ok: bool)
    ensures ok == ValidCourse(landing, curriculum)
  {
    var keys := landing.Keys;
    while keys != {}
      invariant keys <= landing.Keys
      invariant forall k :: k in landing && k !in keys ==> !IsEmpty(landing[k])
      decreases keys
    {
      var k :| k in keys;
      if IsEmpty(landing[k]) {
        return false;
      }
      keys := keys - {k};
    }
    var hasFreePreview := false;
    for i := 0 to |curriculum|
      invariant forall j :: 0 <= j < i ==> LectureComplete(curriculum[j])
      invariant hasFreePreview <==> exists j :: 0 <= j < i && curriculum[j].freePreview
    {
      var item := curriculum[i];
      if IsEmpty(Str(item.title)) || IsEmpty(Str(item.videoUrl)) || IsEmpty(Str(item.publicId)) {
        return false;
      }
      if item.freePreview {
        hasFreePreview := true;
      }
    }
    return hasFreePreview;
  }

  /**
   * `progressPercentage` (128-129): 100 exactly when no landing value is empty, every lecture has
   * a title, a video url and a video id, and some lecture is a free preview; 65 otherwise.
   */
  function ProgressPercentage(landing: Form, curriculum: seq<Lecture>): (p: int)
    ensures p == 100 || p == 65
    ensures p == 100 <==>
      && (forall k :: k in landing ==> landing[k] !in {Str(""), Null, Undefined, Arr([])})
      && (forall i :: 0 <= i < |curriculum| ==>
            curriculum[i].title != "" && curriculum[i].videoUrl != "" && curriculum[i].publicId != "")
      && (exists i :: 0 <= i < |curriculum| && curriculum[i].freePreview)
  {
    if ValidCourse(landing, curriculum) then 100 else 65
  }

  /** An empty curriculum never validates: at least one free preview is required. */
  lemma EmptyCurriculumInvalid(landing: Form)
    ensures !ValidCourse(landing, [])
  {
  }

  /** The landing keys that have no form control: three fields the form cannot fill. */
  const HiddenFields: set<string> := {"primaryLanguage", "pricing", "objectives"}

  /** An edit of the landing form through a form control or the settings image: one key set. */
  function ApplyEdits(form: Form, edits: seq<(string, Value)>): Form
    decreases |edits|
  {
    if edits == [] then form else ApplyEdits(form[edits[0].0 := edits[0].1], edits[1..])
  }

  lemma {:induction false} EditsKeepHidden(form: Form, edits: seq<(string, Value)>, k: string)
    requires k in HiddenFields && k in form
    requires forall e :: e in edits ==> e.0 in LandingFormControls || e.0 == "image"
    ensures k in ApplyEdits(form, edits) && ApplyEdits(form, edits)[k] == form[k]
    decreases |edits|
  {
    if edits != [] {
      assert edits[0] in edits;
      assert edits[0].0 != k;
      forall e | e in edits[1..] ensures e.0 in LandingFormControls || e.0 == "image" {
        assert e in edits;
      }
      EditsKeepHidden(form[edits[0].0 := edits[0].1], edits[1..], k);
    }
  }

  /**
   * A new course's landing form can reach validity only through its three fields without a
   * control, so any form obtained from the initial data by those controls and the image stays
   * invalid and its progress stays at 65, whatever the curriculum.
   */
  lemma FilledControlsNeverValidate(edits: seq<(string, Value)>, curriculum: seq<Lecture>)
    requires forall e :: e in edits ==> e.0 in LandingFormControls || e.0 == "image"
    ensures !ValidCourse(ApplyEdits(LandingInitialFormData, edits), curriculum)
    ensures ProgressPercentage(ApplyEdits(LandingInitialFormData, edits), curriculum) == 65
  {
    assert "pricing" in LandingInitialFormData;
    EditsKeepHidden(LandingInitialFormData, edits, "pricing");
  }

  // ---------- the submitted document ----------

  /** The signed-in user, as far as the page reads it. */
  datatype User = User(id: string, userName: string)

  /** The course document `handleCreateCourse` sends. The `date` field is not modelled. */
  datatype CourseDocument = CourseDocument(
    instructorId: Value,
    instructorName: Value,
    fields: Form,
    students: seq<Value>,
    curriculum: seq<Lecture>,
    isPublised: bool)

  /** The keys written after the landing fields, which therefore win over landing keys of that name. */
  const TrailingKeys: set<string> := {"students", "curriculum", "isPublised"}

  function AuthField(user: Option<User>, id: bool): Value {
    match user
    case None => Undefined
    case Some(u) => Str(if id then u.id else u.userName)
  }

  /**
   * `courseFinalFormData` (74-82): the instructor fields, then every landing field (which wins
   * over an instructor field of the same name), then `students: []`, the curriculum and
   * `isPublised: true`.
   */
  function CourseDocumentOf(user: Option<User>, landing: Form, curriculum: seq<Lecture>): (d: CourseDocument)
    ensures d.fields.Keys == landing.Keys - TrailingKeys
    ensures forall k :: k in d.fields ==> d.fields[k] == landing[k]
    ensures d.students == [] && d.curriculum == curriculum && d.isPublised
    ensures d.instructorId == if "instructorId" in landing then landing["instructorId"] else AuthField(user, true)
    ensures d.instructorName == if "instructorName" in landing then landing["instructorName"] else AuthField(user, false)
  {
    CourseDocument(
      if "instructorId" in landing then landing["instructorId"] else AuthField(user, true),
      if "instructorName" in landing then landing["instructorName"] else AuthField(user, false),
      landing - TrailingKeys,
      [],
      curriculum,
      true)
  }

  /** A landing form with exactly the configured keys is carried over whole, and the instructor fields come from the user. */
  lemma DocumentOfConfiguredForm(user: User, landing: Form, curriculum: seq<Lecture>)
    requires landing.Keys == LandingInitialFormData.Keys
    ensures CourseDocumentOf(Some(user), landing, curriculum).fields == landing
    ensures CourseDocumentOf(Some(user), landing, curriculum).instructorId == Str(user.id)
  {
    assert forall k :: k in landing ==> k !in TrailingKeys && k != "instructorId" && k != "instructorName";
    assert landing - TrailingKeys == landing;
  }

  // ---------- loading a course ----------

  /** The landing value for `key` when merging fetched data with the defaults (110). */
  function MergedValue(data: Form, key: string): Value
    requires key in LandingInitialFormData
  {
    if Truthy(Get(data, key)) then Get(data, key) else LandingInitialFormData[key]
  }

  /**
   * The reduce of 107-113: over the configured keys in order, each takes the fetched value if it
   * is truthy and the default otherwise; fetched keys outside the configuration are dropped.
   */
  method MergeWithDefaults(data: Form) returns (form: Form)
    ensures form.Keys == LandingInitialFormData.Keys
    ensures forall k :: k in form ==> form[k] == MergedValue(data, k)
  {
    form := map[];
    for i := 0 to |LandingFields|
      invariant form.Keys == set j | 0 <= j < i :: LandingFields[j]
      invariant forall k :: k in form ==> k in LandingInitialFormData && form[k] == MergedValue(data, k)
    {
      var key := LandingFields[i];
      assert key in LandingFields;
      assert (set j | 0 <= j < i + 1 :: LandingFields[j]) == (set j | 0 <= j < i :: LandingFields[j]) + {key};
      form := form[key := if Truthy(Get(data, key)) then Get(data, key) else LandingInitialFormData[key]];
    }
    LandingKeysInOrder();
  }

  /** The configured keys are the landing fields, position by position. */
  lemma LandingKeysInOrder()
    ensures LandingInitialFormData.Keys == set j | 0 <= j < |LandingFields| :: LandingFields[j]
  {
    forall k | k in LandingInitialFormData ensures exists j :: 0 <= j < |LandingFields| && LandingFields[j] == k {
      assert k in LandingFields;
    }
  }

  /** A loaded course priced 0 gets the default "" back, so it no longer validates. */
  lemma ZeroPricingIsLost(data: Form, curriculum: seq<Lecture>, form: Form)
    requires Get(data, "pricing") == Num(0)
    requires form.Keys == LandingInitialFormData.Keys
    requires forall k :: k in form ==> form[k] == MergedValue(data, k)
    ensures form["pricing"] == Str("")
    ensures !ValidCourse(form, curriculum)
  {
    assert "pricing" in LandingInitialFormData;
  }

  /** The create or update service's answer: `success`, an answer without it, or a rejection. */
  datatype SubmitOutcome = Saved | NotSaved | SaveThrew

  /** A successful course fetch: the course's fields and its curriculum. */
  datatype FetchedCourse = FetchedCourse(data: Form, curriculum: seq<Lecture>)

  // ---------- tabs ----------

  datatype Tab = CurriculumTab | LandingTab | SettingsTab

  /** `["curriculum", "course-landing-page", "settings"]`. */
  const Tabs: seq<Tab> := [CurriculumTab, LandingTab, SettingsTab]

  /** `tabs.indexOf(tab)`. */
  function TabIndex(t: Tab): (i: nat)
    ensures i < |Tabs| && Tabs[i] == t
  {
    match t
    case CurriculumTab => 0
    case LandingTab => 1
    case SettingsTab => 2
  }

  /** The Previous button (228-232): one tab back, staying on the first. */
  function Previous(t: Tab): (r: Tab)
    ensures TabIndex(r) == if TabIndex(t) > 0 then TabIndex(t) - 1 else 0
  {
    var i := TabIndex(t);
    if i > 0 then Tabs[i - 1] else t
  }

  /** The Next button (241-245): one tab forward, staying on the last. */
  function Next(t: Tab): (r: Tab)
    ensures TabIndex(r) == if TabIndex(t) < |Tabs| - 1 then TabIndex(t) + 1 else |Tabs| - 1
  {
    var i := TabIndex(t);
    if i < |Tabs| - 1 then Tabs[i + 1] else t
  }

  /** Previous undoes Next except on the last tab, and Next undoes Previous except on the first. */
  lemma StepsUndoEachOther(t: Tab)
    ensures t != SettingsTab ==> Previous(Next(t)) == t
    ensures t != CurriculumTab ==> Next(Previous(t)) == t
  {
  }

  // ---------- the page ----------

  class AddNewCoursePage {
    const ctx: InstructorContext
    var activeTab: Tab
    var submitting: bool

    constructor (ctx: InstructorContext)
      ensures this.ctx == ctx && activeTab == CurriculumTab && !submitting
    {
      this.ctx := ctx;
      activeTab := CurriculumTab;
      submitting := false;
    }

    method ClickPrevious()
      modifies this`activeTab
      ensures activeTab == Previous(old(activeTab))
    {
      var i := TabIndex(activeTab);
      if i > 0 { activeTab := Tabs[i - 1]; }
    }

    method ClickNext()
      modifies this`activeTab
      ensures activeTab == Next(old(activeTab))
    {
      var i := TabIndex(activeTab);
      if i < |Tabs| - 1 { activeTab := Tabs[i + 1]; }
    }

    /**
     * `handleCreateCourse` (72-99): the document is sent to the update service when a course is
     * being edited and to the create service otherwise; on success both forms are reset and no
     * course is being edited any more, on an unsuccessful answer the forms are kept. The awaited
     * service call has no try/finally, so when it throws the handler stops there: the forms are
     * kept and `isSubmitting` stays true.
     */
    method HandleCreateCourse(user: Option<User>, outcome: SubmitOutcome) returns (sent: CourseDocument, usedUpdate: bool)
      modifies this`submitting, ctx
      ensures sent == CourseDocumentOf(user, old(ctx.landing), old(ctx.curriculum))
      ensures usedUpdate == old(ctx.editedCourseId).Some?
      ensures outcome == Saved ==> ctx.landing == LandingInitialFormData && ctx.curriculum == CurriculumInitialFormData
      ensures outcome == Saved ==> ctx.editedCourseId == None
      ensures outcome != Saved ==> ctx.landing == old(ctx.landing) && ctx.curriculum == old(ctx.curriculum)
      ensures outcome != Saved ==> ctx.editedCourseId == old(ctx.editedCourseId)
      ensures ctx.uploading == old(ctx.uploading)
      ensures submitting <==> outcome == SaveThrew
    {
      submitting := true;
      sent := CourseDocumentOf(user, ctx.landing, ctx.curriculum);
      usedUpdate := ctx.editedCourseId != None;
      if outcome == SaveThrew {
        return;
      }
      if outcome == Saved {
        ctx.landing := LandingInitialFormData;
        ctx.curriculum := CurriculumInitialFormData;
        ctx.editedCourseId := None;
      }
      submitting := false;
    }

    /** The route effect (124-126): a non-empty `courseId` route parameter selects that course for editing. */
    method RouteCourseId(courseId: Option<string>)
      modifies ctx
      ensures ctx.editedCourseId == if courseId.Some? && courseId.value != "" then courseId else old(ctx.editedCourseId)
      ensures ctx.landing == old(ctx.landing) && ctx.curriculum == old(ctx.curriculum)
      ensures ctx.uploading == old(ctx.uploading)
    {
      if courseId.Some? && courseId.value != "" {
        ctx.editedCourseId := courseId;
      }
    }

    /**
     * The fetch effect (101-122): only while a course is being edited; a successful response
     * replaces the landing form by the merge with the defaults and the curriculum by the fetched one.
     */
    method FetchCurrentCourseDetails(response: Option<FetchedCourse>)
      modifies ctx
      ensures old(ctx.editedCourseId).Some? && response.Some? ==>
        ctx.landing.Keys == LandingInitialFormData.Keys &&
        (forall k :: k in ctx.landing ==> ctx.landing[k] == MergedValue(response.value.data, k)) &&
        ctx.curriculum == response.value.curriculum
      ensures old(ctx.editedCourseId).None? || response.None? ==>
        ctx.landing == old(ctx.landing) && ctx.curriculum == old(ctx.curriculum)
      ensures ctx.editedCourseId == old(ctx.editedCourseId) && ctx.uploading == old(ctx.uploading)
    {
      if ctx.editedCourseId != None {
        match response {
          case Some(course) =>
            var form := MergeWithDefaults(course.data);
            ctx.landing := form;
            ctx.curriculum := course.curriculum;
          case None =>
        }
      }
    }
  }
}
