/** The admin form's state and its edit operations: the text fields, the list
    of detail lines, the list of uploaded image ids, and what is submitted. */
module ProjectForm {
  import opened Wrappers
  import opened Text
  import opened Records
  import opened Cloudinary
  import ProjectsApi

  /** The category choices the form offers. */
  const Categories := [
    "Residential Construction",
    "Commercial Construction",
    "Renovations & Remodeling",
    "Land Subdivision",
    "Road Construction",
    "Landscaping & Outdoor Living"
  ]

  datatype FormData = FormData(
    title: string,
    category: string,
    description: string,
    completion: string,
    details: seq<string>,
    images: seq<string>)

  /** The four text inputs `handleInputChange` can set. */
  datatype Field = Title | Category | Description | Completion

  /** What the form hands to `onSubmit`. */
  datatype Submission = Submission(
    title: string,
    category: string,
    description: string,
    completion: string,
    details: seq<string>,
    images: seq<string>)

  /** The state the form starts in: the edited project's values, or empty
      fields, one empty detail line and no images for a new project. */
  function InitialForm(project: Option<Project>): (f: FormData)
    ensures project.None? ==> f == FormData("", "", "", "", [""], [])
    ensures project.Some? ==>
      && f.title == project.value.title && f.category == project.value.category
      && f.description == project.value.description && f.completion == project.value.completion
      && f.details == project.value.details && f.images == project.value.images
  {
    match project
    case None => FormData("", "", "", "", [""], [])
    case Some(p) => FormData(p.title, p.category, p.description, p.completion, p.details, p.images)
  }

  /** An edited project with no detail lines starts with none: an empty
      array is truthy, so the `['']` default does not apply. */
  lemma InitialKeepsEmptyDetails(p: Project)
    requires p.details == []
    ensures InitialForm(Some(p)).details == []
  {
  }

  /** `s.filter((_, k) => k !== i)`: every element except the one at index `i`. */
  function Without<T>(s: seq<T>, i: int): (r: seq<T>)
    ensures |r| == if 0 <= i < |s| then |s| - 1 else |s|
    decreases |s|
  {
    if s == [] then []
    else (if i == 0 then [] else [s[0]]) + Without(s[1..], i - 1)
  }

  /** `Without` removes exactly index `i` and keeps the rest in order. */
  lemma {:induction false} WithoutIsRemoval<T>(s: seq<T>, i: int)
    requires 0 <= i < |s|
    ensures Without(s, i) == s[..i] + s[i + 1..]
    decreases |s|
  {
    var tail := s[1..];
    if i == 0 {
      WithoutOutOfRange(tail, -1);
      assert Without(s, i) == tail;
    } else {
      WithoutIsRemoval(tail, i - 1);
      assert Without(s, i) == [s[0]] + (tail[..i - 1] + tail[i..]);
      assert s[..i] == [s[0]] + tail[..i - 1];
      assert s[i + 1..] == tail[i..];
    }
  }

  /** An index outside the sequence removes nothing. */
  lemma {:induction false} WithoutOutOfRange<T>(s: seq<T>, i: int)
    requires !(0 <= i < |s|)
    ensures Without(s, i) == s
    decreases |s|
  {
    if s != [] {
      WithoutOutOfRange(s[1..], i - 1);
      assert s == [s[0]] + s[1..];
    }
  }

  /** `handleInputChange(field, value)` */
  function HandleInputChange(f: FormData, field: Field, value: string): (g: FormData)
    ensures g.details == f.details && g.images == f.images
    ensures field == Title ==> g == f.(title := value)
    ensures field == Category ==> g == f.(category := value)
    ensures field == Description ==> g == f.(description := value)
    ensures field == Completion ==> g == f.(completion := value)
  {
    match field
    case Title => f.(title := value)
    case Category => f.(category := value)
    case Description => f.(description := value)
    case Completion => f.(completion := value)
  }

  /** `handleDetailChange(index, value)`; the form only passes indices of
      rendered detail lines. */
  function HandleDetailChange(f: FormData, index: int, value: string): (g: FormData)
    requires 0 <= index < |f.details|
    ensures |g.details| == |f.details| && g.details[index] == value
    ensures forall k | 0 <= k < |f.details| && k != index :: g.details[k] == f.details[k]
    ensures g == f.(details := g.details)
  {
    f.(details := f.details[index := value])
  }

  /** `addDetail()` */
  function AddDetail(f: FormData): (g: FormData)
    ensures |g.details| == |f.details| + 1 && g.details[..|f.details|] == f.details
    ensures g.details[|f.details|] == ""
    ensures g == f.(details := g.details)
  {
    f.(details := f.details + [""])
  }

  /** `removeDetail(index)`: never removes the last remaining line. */
  function RemoveDetail(f: FormData, index: int): (g: FormData)
    ensures |f.details| <= 1 ==> g == f
    ensures |f.details| > 1 ==> g == f.(details := Without(f.details, index))
    ensures |g.details| >= 1 <== |f.details| >= 1
  {
    if |f.details| > 1 then f.(details := Without(f.details, index)) else f
  }

  /** Removing a detail line keeps every other line, in order. */
  lemma RemoveDetailRemovesOne(f: FormData, index: int)
    requires |f.details| > 1 && 0 <= index < |f.details|
    ensures RemoveDetail(f, index).details == f.details[..index] + f.details[index + 1..]
  {
    WithoutIsRemoval(f.details, index);
  }

  /** The `info` of an upload-widget result. */
  datatype UploadInfo =
    | NoInfo                                // undefined, null or another falsy value
    | ScalarInfo                            // a truthy non-object, such as a string
    | ArrayInfo
    | ObjectInfo(publicId: Option<string>)

  datatype UploadResult = UploadResult(event: string, info: UploadInfo)

  /** The public id an upload result adds, if any. */
  function UploadedId(result: UploadResult): (id: Option<string>)
    ensures id.Some? <==> result.event == "success" && result.info.ObjectInfo? && Truthy(result.info.publicId)
    ensures id.Some? ==> id.value == result.info.publicId.value
  {
    if result.event == "success" && result.info.ObjectInfo? && Truthy(result.info.publicId) then
      Some(result.info.publicId.value)
    else None
  }

  /** `handleCloudinaryUpload(result)`: append the uploaded id to the images. */
  function HandleCloudinaryUpload(f: FormData, result: UploadResult): (g: FormData)
    ensures UploadedId(result).None? ==> g == f
    ensures UploadedId(result).Some? ==> g == f.(images := f.images + [UploadedId(result).value])
  {
    match UploadedId(result)
    case None => f
    case Some(id) => f.(images := f.images + [id])
  }

  /** `removeImage(index)` */
  function RemoveImage(f: FormData, index: int): (g: FormData)
    ensures g == f.(images := Without(f.images, index))
  {
    f.(images := Without(f.images, index))
  }

  /** Removing an image keeps every other image, in order. */
  lemma RemoveImageRemovesOne(f: FormData, index: int)
    requires 0 <= index < |f.images|
    ensures RemoveImage(f, index).images == f.images[..index] + f.images[index + 1..]
  {
    WithoutIsRemoval(f.images, index);
  }

  /** `handleSubmit`: the form's values with blank detail lines left out. */
  function HandleSubmit(f: FormData): (s: Submission)
    ensures s.title == f.title && s.category == f.category
    ensures s.description == f.description && s.completion == f.completion
    ensures s.images == f.images
    ensures s.details == NonBlank(f.details)
    ensures forall i | 0 <= i < |s.details| :: Trim(s.details[i]) != ""
    ensures forall d :: d in s.details <==> d in f.details && Trim(d) != ""
  {
    forall d ensures d in NonBlank(f.details) <==> d in f.details && Trim(d) != "" {
      NonBlankMembers(f.details, d);
    }
    Submission(f.title, f.category, f.description, f.completion, NonBlank(f.details), f.images)
  }

  /** `isFormValid` */
  predicate IsFormValid(f: FormData) {
    f.title != "" && f.category != "" && f.description != "" && f.completion != ""
  }

  /** `isCloudinaryImage(src)`, the form's own copy of the public-id test. */
  predicate IsCloudinaryImage(src: string) {
    !StartsWith(src, "/") && !StartsWith(src, "http") && !StartsWith(src, "blob:")
  }

  lemma IsCloudinaryImageAgrees(src: string)
    ensures IsCloudinaryImage(src) <==> IsCloudinaryPublicId(src)
  {
  }

  /** The request body a new project's submission is sent as (every field present). */
  function CreateBodyOf(s: Submission): (b: ProjectsApi.CreateBody)
    ensures b.details == Some(s.details) && b.images == Some(s.images)
  {
    ProjectsApi.CreateBody(Some(s.title), Some(s.category), Some(s.description), Some(s.completion),
                           Some(s.details), Some(s.images))
  }

  /** A valid form passes the server's required-field check, and the server's
      own blank-detail filter changes nothing in what the form submits. */
  lemma SubmissionSurvivesServerFilter(f: FormData, now: string)
    requires IsFormValid(f)
    ensures ProjectsApi.HasRequiredFields(CreateBodyOf(HandleSubmit(f)))
    ensures var p := ProjectsApi.NewProject(CreateBodyOf(HandleSubmit(f)), now);
      p.details == HandleSubmit(f).details && p.images == f.images && p.title == f.title
  {
    NonBlankIdempotent(f.details);
  }

  /** The form's validity test and the server's required-field check agree. */
  lemma ValidIffServerAccepts(f: FormData)
    ensures IsFormValid(f) <==> ProjectsApi.HasRequiredFields(CreateBodyOf(HandleSubmit(f)))
  {
  }
}
