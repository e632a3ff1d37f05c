/** The completion meter of the course landing form (course-landing.jsx). */
module CourseLanding {
  import opened Wrappers
  import opened Js
  import opened Config

  /** The filter of 18-20: anything but `undefined`, `null` and "" counts as filled, `0` and `false` included. */
  predicate Filled(v: Value) {
    v != Undefined && v != Null && v != Str("")
  }

  /** The keys of the form object whose values are filled; every key counts, with a control or not. */
  function FilledKeys(form: Form): set<string> {
    set k | k in form && Filled(form[k])
  }

  /** `courseLandingPageFormControls.length`, the denominator. */
  const TotalFields: nat := |LandingFormControls|

  /**
   * `calculateCompletion` (14-23): 0 without a form object, otherwise `Math.round` of
   * 100 * filled / total, computed exactly on integers as floor((200 * filled + total) / (2 * total)).
   */
  function CalculateCompletion(form: Option<Form>): (p: int)
    ensures form.None? ==> p == 0
    ensures form.Some? ==>
      var filled := |FilledKeys(form.value)|;
      2 * TotalFields * p - TotalFields <= 200 * filled < 2 * TotalFields * p + TotalFields
  {
    match form
    case None => 0
    case Some(f) => (200 * |FilledKeys(f)| + TotalFields) / (2 * TotalFields)
  }

  lemma TotalFieldsIsSix()
    ensures TotalFields == 6
  {
  }

  /** Filling one more field (or changing a value to a filled one) never lowers the percentage. */
  lemma FillingNeverLowers(form: Form, key: string, v: Value)
    requires Filled(v)
    ensures CalculateCompletion(Some(form)) <= CalculateCompletion(Some(form[key := v]))
  {
    assert FilledKeys(form) <= FilledKeys(form[key := v]);
    SubsetCardinality(FilledKeys(form), FilledKeys(form[key := v]));
  }

  lemma SubsetCardinality(a: set<string>, b: set<string>)
    requires a <= b
    ensures |a| <= |b|
  {
    assert b == a + (b - a);
  }

  /** The percentage is not clamped: seven filled values give 117. */
  lemma SevenFilledGive117(form: Form)
    requires |FilledKeys(form)| == 7
    ensures CalculateCompletion(Some(form)) == 117
  {
  }

  /**
   * The form object has ten keys against six controls, so a complete form shows 167, and any
   * form with more than six filled values shows more than 100.
   */
  lemma CompleteFormExceedsHundred(form: Form)
    requires form.Keys == LandingInitialFormData.Keys
    requires forall k :: k in form ==> Filled(form[k])
    ensures CalculateCompletion(Some(form)) == 167
  {
    assert FilledKeys(form) == form.Keys;
    LandingKeyCount();
  }

  /** The initial form object has exactly the written-out keys. */
  lemma LandingKeysListed()
    ensures LandingInitialFormData.Keys == LandingKeys
  {
    forall k | k in LandingInitialFormData.Keys ensures k in LandingKeys {
      assert k in LandingFields;
    }
    forall k | k in LandingKeys ensures k in LandingInitialFormData.Keys {
      assert k in LandingFields;
    }
  }

  /** The initial form object has ten distinct keys. */
  lemma LandingKeyCount()
    ensures |LandingInitialFormData.Keys| == 10
  {
    LandingKeysListed();
    LandingKeysCount();
  }

  lemma MoreThanSixFilledExceedsHundred(form: Form)
    requires |FilledKeys(form)| > TotalFields
    ensures CalculateCompletion(Some(form)) > 100
  {
  }
}
