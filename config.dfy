/** The constants of client/src/config/index.js that the core reads. */
module Config {
  import opened Wrappers
  import opened Js

  /**
   * One lecture of a curriculum. The note fields are optional: the curriculum template has none,
   * while a lecture added in the editor starts with both set to "".
   */
  datatype Lecture = Lecture(
    title: string,
    videoUrl: string,
    publicId: string,
    noteUrl: Option<string>,
    notePublicId: Option<string>,
    freePreview: bool)

  /** `courseCurriculumInitialFormData[0]`: empty title and video, no note fields, not a preview. */
  const FloorLecture: Lecture := Lecture("", "", "", None, None, false)

  /** `courseCurriculumInitialFormData`. */
  const CurriculumInitialFormData: seq<Lecture> := [FloorLecture]

  /** The `name`s of `courseLandingPageFormControls` (three more are commented out in the source). */
  const LandingFormControls: seq<string> :=
    ["title", "category", "level", "subtitle", "description", "welcomeMessage"]

  /** The keys of `courseLandingInitialFormData`, in declaration order. */
  const LandingFields: seq<string> :=
    ["title", "category", "level", "primaryLanguage", "subtitle", "description",
     "pricing", "objectives", "welcomeMessage", "image"]

  /** `courseLandingInitialFormData`: every field "". */
  const LandingInitialFormData: Form := map k | k in LandingFields :: Str("")

  /** The keys of `courseLandingInitialFormData`, written out as a set. */
  const LandingKeys: set<string> := {"title", "category", "level", "primaryLanguage", "subtitle",
                                     "description", "pricing", "objectives", "welcomeMessage", "image"}

  /** The ten keys are distinct. */
  lemma LandingKeysCount()
    ensures |LandingKeys| == 10
  {
  }

  /** The keys of `filterOptions`, in declaration order. */
  const FilterSections: seq<string> := ["category", "level"]
}
