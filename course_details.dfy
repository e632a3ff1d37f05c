/**
 * The student course-details page (pages/student/course-details/index.jsx): the free-preview
 * selection, the preview dialog, the payment request and the handling of the details fetch.
 */
module CourseDetails {
  import opened Wrappers
  import opened Seqs
  import opened Text
  import opened Config

  /** The course details as far as the page reads them; a missing field is `None`. */
  datatype Details = Details(
    key: string,
    instructorId: Option<string>,
    instructorName: Option<string>,
    image: Option<string>,
    title: Option<string>,
    pricing: Option<int>,
    curriculum: seq<Lecture>)

  predicate IsFreePreview(l: Lecture) { l.freePreview }

  /** `getIndexOfFreePreviewUrl` (131-136): -1 without details, else `findIndex` of the first free preview. */
  function FreePreviewIndex(details: Option<Details>): (r: int)
    ensures details.None? ==> r == -1
    ensures details.Some? ==>
      var c := details.value.curriculum;
      -1 <= r < |c| &&
      (r == -1 <==> forall i :: 0 <= i < |c| ==> !c[i].freePreview) &&
      (r >= 0 ==> c[r].freePreview && forall i :: 0 <= i < r ==> !c[i].freePreview)
  {
    match details
    case None => -1
    case Some(d) => FindFreePreview(d.curriculum)
  }

  function FindFreePreview(c: seq<Lecture>): (r: int)
    ensures -1 <= r < |c|
    ensures r == -1 <==> forall i :: 0 <= i < |c| ==> !c[i].freePreview
    ensures r >= 0 ==> c[r].freePreview && forall i :: 0 <= i < r ==> !c[i].freePreview
  {
    if c == [] then -1
    else if c[0].freePreview then 0
    else
      var r := FindFreePreview(c[1..]);
      if r == -1 then -1 else r + 1
  }

  /** The lectures listed in the preview dialog (252-254). */
  function FreePreviews(curriculum: seq<Lecture>): (r: seq<Lecture>)
    ensures forall l :: l in r <==> l in curriculum && l.freePreview
  {
    Filter(curriculum, IsFreePreview)
  }

  /** The dialog lists the previews in curriculum order, and its first entry is the one `findIndex` finds. */
  lemma {:induction false} FreePreviewsStartAtIndex(curriculum: seq<Lecture>)
    ensures IsSubsequence(FreePreviews(curriculum), curriculum)
    ensures FindFreePreview(curriculum) >= 0 <==> |FreePreviews(curriculum)| > 0
    ensures FindFreePreview(curriculum) >= 0 ==> FreePreviews(curriculum)[0] == curriculum[FindFreePreview(curriculum)]
  {
    FilterIsSubsequence(curriculum, IsFreePreview);
    if curriculum != [] {
      FreePreviewsStartAtIndex(curriculum[1..]);
      if curriculum[0].freePreview {
        assert FreePreviews(curriculum) == [curriculum[0]] + FreePreviews(curriculum[1..]);
      } else {
        assert FreePreviews(curriculum) == FreePreviews(curriculum[1..]);
      }
    }
  }

  // ---------- the payment request ----------

  /** The signed-in user, as far as the payment reads it. */
  datatype Payer = Payer(id: string, userName: string, userEmail: string)

  datatype PaymentPayload = PaymentPayload(
    userId: Option<string>,
    userName: Option<string>,
    userEmail: Option<string>,
    orderStatus: string,
    paymentMethod: string,
    paymentStatus: string,
    paymentId: string,
    payerId: string,
    instructorId: Option<string>,
    instructorName: Option<string>,
    courseImage: Option<string>,
    courseTitle: Option<string>,
    courseId: Option<string>,
    coursePricing: Option<int>)

  /**
   * `paymentPayload` of `handleCreatePayment` (63-79): a pending, initiated PayPal order with
   * empty payment and payer ids, the user's fields and the course's fields. `orderDate` is the
   * clock and is not modelled.
   */
  function PaymentPayloadOf(user: Option<Payer>, details: Option<Details>): (p: PaymentPayload)
    ensures p.orderStatus == "pending" && p.paymentMethod == "paypal" && p.paymentStatus == "initiated"
    ensures p.paymentId == "" && p.payerId == ""
    ensures user.Some? ==>
      p.userId == Some(user.value.id) && p.userName == Some(user.value.userName) &&
      p.userEmail == Some(user.value.userEmail)
    ensures user.None? ==> p.userId.None? && p.userName.None? && p.userEmail.None?
    ensures details.Some? ==>
      p.instructorId == details.value.instructorId && p.instructorName == details.value.instructorName &&
      p.courseImage == details.value.image && p.courseTitle == details.value.title &&
      p.courseId == Some(details.value.key) && p.coursePricing == details.value.pricing
    ensures details.None? ==>
      p.instructorId.None? && p.instructorName.None? && p.courseImage.None? &&
      p.courseTitle.None? && p.courseId.None? && p.coursePricing.None?
  {
    PaymentPayload(
      if user.Some? then Some(user.value.id) else None,
      if user.Some? then Some(user.value.userName) else None,
      if user.Some? then Some(user.value.userEmail) else None,
      "pending", "paypal", "initiated", "", "",
      if details.Some? then details.value.instructorId else None,
      if details.Some? then details.value.instructorName else None,
      if details.Some? then details.value.image else None,
      if details.Some? then details.value.title else None,
      if details.Some? then Some(details.value.key) else None,
      if details.Some? then details.value.pricing else None)
  }

  /**
   * The user's fields and the course's fields are read independently: paying for course `d2` as
   * `u1` gives `u2`'s payload for `d2` with `u1`'s user fields put in.
   */
  lemma PayloadSeparates(u1: Option<Payer>, u2: Option<Payer>, d1: Option<Details>, d2: Option<Details>)
    ensures var p := PaymentPayloadOf(u1, d1);
      PaymentPayloadOf(u1, d2) ==
        PaymentPayloadOf(u2, d2).(userId := p.userId, userName := p.userName, userEmail := p.userEmail)
  {
  }

  // ---------- the page ----------

  class CourseDetailsPage {
    var details: Option<Details>
    var currentId: Option<string>
    var loading: bool
    var displayed: Option<string>
    var showDialog: bool

    /** The dialog is open exactly while a preview url is displayed. */
    predicate Valid()
      reads this
    {
      showDialog == displayed.Some?
    }

    /** The student context is not part of this model; it is taken to start with no details and loading. */
    constructor ()
      ensures Valid() && details.None? && currentId.None? && loading
      ensures displayed.None? && !showDialog
    {
      details := None;
      currentId := None;
      loading := true;
      displayed := None;
      showDialog := false;
    }

    /** `fetchStudentViewCourseDetails` (44-56): the details on success, none on failure; loading ends either way. */
    method FetchCompleted(response: Option<Details>)
      modifies this`details, this`loading
      ensures details == response && !loading
    {
      details := response;
      loading := false;
    }

    /**
     * `handleSetFreePreview` (58-60) followed by the effect of 92-94: the item's video is displayed
     * and the dialog opens.
     */
    method HandleSetFreePreview(item: Lecture)
      requires Valid()
      modifies this`displayed, this`showDialog
      ensures Valid()
      ensures displayed == Some(item.videoUrl) && showDialog
    {
      displayed := Some(item.videoUrl);
      if displayed != None {
        showDialog := true;
      }
    }

    /** A curriculum row (190-194): only a free-preview row has a click handler. */
    method ClickCurriculumItem(item: Lecture)
      requires Valid()
      modifies this`displayed, this`showDialog
      ensures Valid()
      ensures item.freePreview ==> displayed == Some(item.videoUrl) && showDialog
      ensures !item.freePreview ==> displayed == old(displayed) && showDialog == old(showDialog)
    {
      if item.freePreview {
        HandleSetFreePreview(item);
      }
    }

    /** `onOpenChange` of the dialog (230-233). */
    method CloseDialog()
      modifies this`displayed, this`showDialog
      ensures Valid() && !showDialog && displayed.None?
    {
      showDialog := false;
      displayed := None;
    }

    /** The route effect (100-102): a non-empty `id` parameter becomes the current course id. */
    method RouteId(id: Option<string>)
      modifies this`currentId
      ensures currentId == if id.Some? && id.value != "" then id else old(currentId)
    {
      if id.Some? && id.value != "" {
        currentId := id;
      }
    }

    /** The path effect (104-108): leaving a course-details path clears the details and the id. */
    method PathChanged(pathname: string)
      modifies this`details, this`currentId
      ensures !Contains(pathname, "course/details") ==> details.None? && currentId.None?
      ensures Contains(pathname, "course/details") ==> details == old(details) && currentId == old(currentId)
    {
      if !Contains(pathname, "course/details") {
        details := None;
        currentId := None;
      }
    }
  }
}
