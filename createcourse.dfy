/**
 * The "Create Course" form: its validation schema, the multipart payload built
 * on submit, the upload percentage and the submitting/progress/message state.
 */
module CreateCourse {
  import opened Optional
  import opened Seqs

  /** A file picked in a file input. */
  datatype File = File(name: string, size: nat)

  /** A file input's value: `null` until a file list is picked. */
  type FileInput = Option<seq<File>>

  /** The schema's file test `value && value.length > 0`. */
  predicate HasFile(f: FileInput) {
    f.Some? && |f.value| > 0
  }

  datatype Lesson = Lesson(title: string, content: string, duration: string, video: FileInput)

  /** The lesson that "Add Lesson" appends, and the form starts with. */
  const EmptyLesson: Lesson := Lesson("", "", "", None)

  /** The price after the schema's number cast: a number, or not one (an empty or unreadable field). */
  datatype Price = Number(amount: real) | NotANumber

  datatype CourseForm = CourseForm(
    title: string,
    description: string,
    categoryId: string,
    instructorId: string,
    price: Price,
    thumbnail: FileInput,
    lessons: seq<Lesson>)

  /** The form's default values. */
  const DefaultForm: CourseForm := CourseForm("", "", "", "", NotANumber, None, [EmptyLesson])

  /** The fields of a lesson. */
  datatype LessonField = TitleField | ContentField | DurationField | VideoField

  /** A lesson leaves `field` empty. */
  predicate Missing(l: Lesson, field: LessonField) {
    match field
    case TitleField => l.title == ""
    case ContentField => l.content == ""
    case DurationField => l.duration == ""
    case VideoField => !HasFile(l.video)
  }

  /** A violated schema rule; a lesson rule carries the lesson's index and the field. */
  datatype FieldError =
    | TitleRequired
    | DescriptionRequired
    | CategoryRequired
    | InstructorRequired
    | PriceNotANumber
    | ThumbnailRequired
    | NoLessons
    | LessonFieldRequired(index: nat, field: LessonField)

  /** The message shown under the field. */
  function Message(e: FieldError): string {
    match e
    case TitleRequired => "Title is required"
    case DescriptionRequired => "Description is required"
    case CategoryRequired => "Category is required"
    case InstructorRequired => "Instructor is required"
    case PriceNotANumber => "Price must be a number"
    case ThumbnailRequired => "Thumbnail is required"
    case NoLessons => "At least one lesson is required"
    case LessonFieldRequired(_, TitleField) => "Lesson title is required"
    case LessonFieldRequired(_, ContentField) => "Lesson content is required"
    case LessonFieldRequired(_, DurationField) => "Duration is required"
    case LessonFieldRequired(_, VideoField) => "Video is required"
  }

  function Check(ok: bool, e: FieldError): seq<FieldError> {
    if ok then [] else [e]
  }

  /** The violations of lesson `index`, field by field. */
  function OneLessonErrors(l: Lesson, index: nat): seq<FieldError> {
    Check(!Missing(l, TitleField), LessonFieldRequired(index, TitleField))
    + Check(!Missing(l, ContentField), LessonFieldRequired(index, ContentField))
    + Check(!Missing(l, DurationField), LessonFieldRequired(index, DurationField))
    + Check(!Missing(l, VideoField), LessonFieldRequired(index, VideoField))
  }

  /** The violations of the lessons from position `from` on. */
  function LessonErrors(lessons: seq<Lesson>, from: nat): seq<FieldError>
    requires from <= |lessons|
    decreases |lessons| - from
  {
    if from == |lessons| then []
    else OneLessonErrors(lessons[from], from) + LessonErrors(lessons, from + 1)
  }

  /** Every violation of `courseSchema`. */
  function Errors(f: CourseForm): seq<FieldError> {
    Check(f.title != "", TitleRequired)
    + Check(f.description != "", DescriptionRequired)
    + Check(f.categoryId != "", CategoryRequired)
    + Check(f.instructorId != "", InstructorRequired)
    + Check(f.price.Number?, PriceNotANumber)
    + Check(HasFile(f.thumbnail), ThumbnailRequired)
    + Check(|f.lessons| >= 1, NoLessons)
    + LessonErrors(f.lessons, 0)
  }

  /** The form passes the schema, so submission goes ahead. */
  predicate Valid(f: CourseForm) {
    Errors(f) == []
  }

  /** A lesson with a title, content, a duration and a picked video. */
  predicate LessonComplete(l: Lesson) {
    l.title != "" && l.content != "" && l.duration != "" && HasFile(l.video)
  }

  /** A lesson's errors are exactly its missing fields, under its own index. */
  lemma OneLessonErrorsSpec(l: Lesson, index: nat, e: FieldError)
    ensures e in OneLessonErrors(l, index) <==> e.LessonFieldRequired? && e.index == index && Missing(l, e.field)
    ensures OneLessonErrors(l, index) == [] <==> LessonComplete(l)
  {
  }

  /** A lesson rule is reported for lesson `i` exactly when lesson `i` leaves that field empty. */
  lemma {:induction false} LessonErrorsSpec(lessons: seq<Lesson>, from: nat, i: nat, field: LessonField)
    requires from <= |lessons|
    ensures LessonFieldRequired(i, field) in LessonErrors(lessons, from) <==> from <= i < |lessons| && Missing(lessons[i], field)
    decreases |lessons| - from
  {
    if from < |lessons| {
      OneLessonErrorsSpec(lessons[from], from, LessonFieldRequired(i, field));
      LessonErrorsSpec(lessons, from + 1, i, field);
    }
  }

  /** No lesson errors from position `from` on exactly when those lessons are all complete. */
  lemma {:induction false} LessonErrorsEmpty(lessons: seq<Lesson>, from: nat)
    requires from <= |lessons|
    ensures LessonErrors(lessons, from) == [] <==> forall i :: from <= i < |lessons| ==> LessonComplete(lessons[i])
    decreases |lessons| - from
  {
    if from < |lessons| {
      OneLessonErrorsSpec(lessons[from], from, NoLessons);
      LessonErrorsEmpty(lessons, from + 1);
      var one, rest := OneLessonErrors(lessons[from], from), LessonErrors(lessons, from + 1);
      assert LessonErrors(lessons, from) == one + rest;
      assert one + rest == [] <==> one == [] && rest == [];
    }
  }

  /**
   * The schema accepts a form exactly when title, description, category and
   * instructor are non-empty, the price is a number, a thumbnail is picked, and
   * there is at least one lesson and every lesson is complete.
   */
  lemma ValidIff(f: CourseForm)
    ensures Valid(f) <==>
      && f.title != "" && f.description != "" && f.categoryId != "" && f.instructorId != ""
      && f.price.Number? && HasFile(f.thumbnail) && |f.lessons| >= 1
      && forall i :: 0 <= i < |f.lessons| ==> LessonComplete(f.lessons[i])
  {
    LessonErrorsEmpty(f.lessons, 0);
  }

  /** A lesson field's error is reported against that lesson's index, and only there. */
  lemma LessonErrorIff(f: CourseForm, i: nat, field: LessonField)
    ensures LessonFieldRequired(i, field) in Errors(f) <==> i < |f.lessons| && Missing(f.lessons[i], field)
  {
    LessonErrorsSpec(f.lessons, 0, i, field);
  }

  /** The default form is rejected. */
  lemma DefaultFormInvalid()
    ensures !Valid(DefaultForm)
    ensures TitleRequired in Errors(DefaultForm) && LessonFieldRequired(0, VideoField) in Errors(DefaultForm)
  {
    LessonErrorIff(DefaultForm, 0, VideoField);
  }

  /** A lesson's metadata as sent: no video. */
  datatype LessonMeta = LessonMeta(title: string, content: string, duration: string)

  /** A multipart field: text, a number, a file, or the lessons' JSON metadata. */
  datatype PartValue = Text(text: string) | Num(amount: real) | Blob(file: File) | LessonsJson(lessons: seq<LessonMeta>)

  datatype Part = Part(name: string, value: PartValue)

  function Meta(l: Lesson): LessonMeta {
    LessonMeta(l.title, l.content, l.duration)
  }

  /** `lessonsToSend`. */
  function LessonsToSend(lessons: seq<Lesson>): seq<LessonMeta> {
    Map(lessons, Meta)
  }

  /** A lesson whose video input holds a file. */
  function HasVideo(l: Lesson): bool {
    HasFile(l.video)
  }

  /** The `videos` part of a lesson with a video: its first file. */
  function VideoPart(l: Lesson): Part
    requires HasVideo(l)
  {
    Part("videos", Blob(l.video.value[0]))
  }

  /** The `videos` parts, one per lesson with a video, in lesson order. */
  function VideoParts(lessons: seq<Lesson>): seq<Part> {
    if lessons == [] then []
    else (if HasVideo(lessons[0]) then [VideoPart(lessons[0])] else []) + VideoParts(lessons[1..])
  }

  /** The parts appended before the lessons: five scalars, then the first thumbnail file. */
  function ScalarParts(f: CourseForm): seq<Part>
    requires Valid(f)
  {
    ValidIff(f);
    [ Part("title", Text(f.title)),
      Part("description", Text(f.description)),
      Part("categoryId", Text(f.categoryId)),
      Part("instructorId", Text(f.instructorId)),
      Part("price", Num(f.price.amount)),
      Part("thumbnail", Blob(f.thumbnail.value[0])) ]
  }

  /** The whole multipart body, in append order. */
  function Payload(f: CourseForm): seq<Part>
    requires Valid(f)
  {
    ScalarParts(f) + [Part("lessons", LessonsJson(LessonsToSend(f.lessons)))] + VideoParts(f.lessons)
  }

  /** One lesson more at the end adds at most its own video part at the end. */
  lemma {:induction false} VideoPartsSnoc(lessons: seq<Lesson>, l: Lesson)
    ensures VideoParts(lessons + [l]) == VideoParts(lessons) + (if HasVideo(l) then [VideoPart(l)] else [])
  {
    var tail := if HasVideo(l) then [VideoPart(l)] else [];
    if lessons == [] {
      assert [l][1..] == [];
      assert VideoParts([l]) == tail + VideoParts([]);
    } else {
      var head := if HasVideo(lessons[0]) then [VideoPart(lessons[0])] else [];
      assert (lessons + [l])[0] == lessons[0];
      assert (lessons + [l])[1..] == lessons[1..] + [l];
      assert VideoParts(lessons + [l]) == head + VideoParts(lessons[1..] + [l]);
      VideoPartsSnoc(lessons[1..], l);
      assert VideoParts(lessons) == head + VideoParts(lessons[1..]);
      assert head + (VideoParts(lessons[1..]) + tail) == (head + VideoParts(lessons[1..])) + tail;
    }
  }

  /** The video parts are the first files of exactly the lessons that have a video, in lesson order. */
  lemma {:induction false} VideoPartsSpec(lessons: seq<Lesson>)
    ensures |VideoParts(lessons)| == |Filter(lessons, HasVideo)|
    ensures forall i :: 0 <= i < |VideoParts(lessons)| ==> VideoParts(lessons)[i] == VideoPart(Filter(lessons, HasVideo)[i])
  {
    if lessons != [] {
      VideoPartsSpec(lessons[1..]);
    }
  }

  /** The names of the parts before the videos, in append order. */
  const HeadNames: seq<string> := ["title", "description", "categoryId", "instructorId", "price", "thumbnail", "lessons"]

  /**
   * The payload starts with the scalar fields in the order title, description,
   * categoryId, instructorId, price and thumbnail, then one `lessons` part with the
   * metadata of every lesson, in order and without videos.
   */
  lemma PayloadSpec(f: CourseForm)
    requires Valid(f)
    ensures var p := Payload(f);
      && |p| >= 7
      && (forall i :: 0 <= i < 7 ==> p[i].name == HeadNames[i])
      && p[0].value == Text(f.title) && p[1].value == Text(f.description)
      && p[2].value == Text(f.categoryId) && p[3].value == Text(f.instructorId)
      && p[4].value == Num(f.price.amount) && p[5].value == Blob(f.thumbnail.value[0])
      && p[6].value.LessonsJson? && |p[6].value.lessons| == |f.lessons|
      && forall i :: 0 <= i < |f.lessons| ==>
           p[6].value.lessons[i] == LessonMeta(f.lessons[i].title, f.lessons[i].content, f.lessons[i].duration)
  {
    ValidIff(f);
  }

  /** After the first seven parts, a valid form's payload has one `videos` part per lesson, carrying its first video file. */
  lemma PayloadVideos(f: CourseForm)
    requires Valid(f)
    ensures var p := Payload(f);
      && |p| == 7 + |f.lessons|
      && forall i :: 0 <= i < |f.lessons| ==>
           HasFile(f.lessons[i].video) && p[7 + i] == Part("videos", Blob(f.lessons[i].video.value[0]))
  {
    ValidIff(f);
    VideoPartsSpec(f.lessons);
    assert forall i :: 0 <= i < |f.lessons| ==> HasVideo(f.lessons[i]);
    FilterAllPass(f.lessons, HasVideo);
    var p := Payload(f);
    assert p[7..] == VideoParts(f.lessons);
  }

  /**
   * `onSubmit`'s FormData, built by successive appends: the scalar fields, the
   * lessons' metadata, then a loop over the lessons appending each one's video.
   */
  method BuildFormData(f: CourseForm) returns (parts: seq<Part>)
    requires Valid(f)
    ensures parts == Payload(f)
  {
    ValidIff(f);
    parts := [];
    parts := parts + [Part("title", Text(f.title))];
    parts := parts + [Part("description", Text(f.description))];
    parts := parts + [Part("categoryId", Text(f.categoryId))];
    parts := parts + [Part("instructorId", Text(f.instructorId))];
    parts := parts + [Part("price", Num(f.price.amount))];
    parts := parts + [Part("thumbnail", Blob(f.thumbnail.value[0]))];
    parts := parts + [Part("lessons", LessonsJson(LessonsToSend(f.lessons)))];
    ghost var head := parts;
    var i := 0;
    while i < |f.lessons|
      invariant 0 <= i <= |f.lessons|
      invariant parts == head + VideoParts(f.lessons[..i])
    {
      var lesson := f.lessons[i];
      assert f.lessons[..i + 1] == f.lessons[..i] + [lesson];
      VideoPartsSnoc(f.lessons[..i], lesson);
      if lesson.video.Some? && |lesson.video.value| > 0 {
        parts := parts + [Part("videos", Blob(lesson.video.value[0]))];
      }
      i := i + 1;
    }
    assert f.lessons[..i] == f.lessons;
  }

  /**
   * The progress callback's `Math.round((loaded * 100) / (total || 1))`, for
   * non-negative byte counts: the nearest integer, halves rounded up.
   */
  function UploadPercent(loaded: nat, total: nat): (r: nat)
    ensures var t := if total == 0 then 1 else total;
      2 * r * t - t <= 200 * loaded < 2 * r * t + t
  {
    var t := if total == 0 then 1 else total;
    (200 * loaded + t) / (2 * t)
  }

  /** For a fixed total, more bytes sent never lowers the percentage. */
  lemma UploadPercentMonotone(loaded1: nat, loaded2: nat, total: nat)
    requires loaded1 <= loaded2
    ensures UploadPercent(loaded1, total) <= UploadPercent(loaded2, total)
  {
    var t := if total == 0 then 1 else total;
    var r1, r2 := UploadPercent(loaded1, total), UploadPercent(loaded2, total);
    if r1 > r2 {
      MulMonotone(r2 + 1, r1, 2 * t);
    }
  }

  lemma MulMonotone(a: nat, b: nat, c: nat)
    requires a <= b
    ensures a * c <= b * c
  {
  }

  /** With a known total, the percentage stays within 0..100 and is 100 once everything is sent. */
  lemma UploadPercentBounded(loaded: nat, total: nat)
    requires 0 < total && loaded <= total
    ensures UploadPercent(loaded, total) <= 100
    ensures loaded == total ==> UploadPercent(loaded, total) == 100
  {
    var r := UploadPercent(loaded, total);
    if r > 100 {
      MulMonotone(101, r, 2 * total);
      assert false;
    }
    if loaded == total && r < 100 {
      MulMonotone(r, 99, 2 * total);
      assert false;
    }
  }

  /** When the total is unknown (0), the percentage is `loaded * 100` and can pass 100. */
  lemma UnknownTotalOvershoots(loaded: nat)
    ensures UploadPercent(loaded, 0) == 100 * loaded
  {
  }

  const SuccessMessage: string := "\U{2705} Course created successfully!"
  const FailureMessage: string := "\U{274C} Failed to create course"
  const CreateCourseUrl: string := "http://localhost:8000/api/course/create-course"

  /** The state of the `CreateCoursePage` component, including the form's values. */
  class CreateCoursePage {
    var form: CourseForm
    var isSubmitting: bool
    var uploadProgress: nat
    var message: string
    var thumbnailPreview: Option<string>

    constructor ()
      ensures form == DefaultForm && !isSubmitting && uploadProgress == 0
      ensures message == "" && thumbnailPreview == None
    {
      form := DefaultForm;
      isSubmitting, uploadProgress, message, thumbnailPreview := false, 0, "", None;
    }

    /** The submit button is disabled exactly while a submission is running. */
    predicate SubmitDisabled()
      reads this
    {
      isSubmitting
    }

    function SubmitLabel(): string
      reads this
    {
      if isSubmitting then "Submitting..." else "Create Course"
    }

    /** The progress bar is shown while submitting. */
    predicate ShowsProgress()
      reads this
    {
      isSubmitting
    }

    /** "+ Add Lesson": one empty lesson more at the end. */
    method AppendLesson()
      modifies this
      ensures form == old(form).(lessons := old(form).lessons + [EmptyLesson])
      ensures isSubmitting == old(isSubmitting) && uploadProgress == old(uploadProgress)
      ensures message == old(message) && thumbnailPreview == old(thumbnailPreview)
    {
      form := form.(lessons := form.lessons + [EmptyLesson]);
    }

    /** "Remove Lesson" on lesson `index`: only that lesson goes, the others keep their order. */
    method RemoveLesson(index: nat)
      requires index < |form.lessons|
      modifies this
      ensures form == old(form).(lessons := old(form).lessons[..index] + old(form).lessons[index + 1..])
      ensures |form.lessons| == |old(form).lessons| - 1
      ensures forall i :: 0 <= i < index ==> form.lessons[i] == old(form).lessons[i]
      ensures forall i :: index <= i < |form.lessons| ==> form.lessons[i] == old(form).lessons[i + 1]
      ensures isSubmitting == old(isSubmitting) && uploadProgress == old(uploadProgress)
      ensures message == old(message) && thumbnailPreview == old(thumbnailPreview)
    {
      form := form.(lessons := form.lessons[..index] + form.lessons[index + 1..]);
    }

    /**
     * Typing into the registered inputs: new field values, the same lessons list
     * length. The thumbnail value is not among them: that input's own `onChange`
     * replaces the one `register` gives it, so the form value keeps what it had.
     */
    method EditFields(values: CourseForm)
      requires |values.lessons| == |form.lessons|
      modifies this
      ensures form == values.(thumbnail := old(form).thumbnail)
      ensures isSubmitting == old(isSubmitting) && uploadProgress == old(uploadProgress)
      ensures message == old(message) && thumbnailPreview == old(thumbnailPreview)
    {
      form := values.(thumbnail := form.thumbnail);
    }

    /** A category or instructor chosen in a dropdown (`setValue`). */
    method SetCategoryId(value: string)
      modifies this
      ensures form == old(form).(categoryId := value)
      ensures isSubmitting == old(isSubmitting) && uploadProgress == old(uploadProgress)
      ensures message == old(message) && thumbnailPreview == old(thumbnailPreview)
    {
      form := form.(categoryId := value);
    }

    method SetInstructorId(value: string)
      modifies this
      ensures form == old(form).(instructorId := value)
      ensures isSubmitting == old(isSubmitting) && uploadProgress == old(uploadProgress)
      ensures message == old(message) && thumbnailPreview == old(thumbnailPreview)
    {
      form := form.(instructorId := value);
    }

    /**
     * Picking a thumbnail, as written: a preview of its first file is shown, and
     * nothing else changes, the form value included. `objectUrl` stands for
     * `URL.createObjectURL`.
     */
    method PickThumbnail(files: seq<File>, objectUrl: string)
      modifies this
      ensures thumbnailPreview == if |files| > 0 then Some(objectUrl) else old(thumbnailPreview)
      ensures form == old(form) && isSubmitting == old(isSubmitting)
      ensures uploadProgress == old(uploadProgress) && message == old(message)
    {
      if |files| > 0 {
        thumbnailPreview := Some(objectUrl);
      }
    }

    /**
     * Picking a thumbnail as evidently intended: the preview as before, and the
     * picked files also become the form's thumbnail value, as the handler from
     * `register` would have made them.
     */
    method PickThumbnailRegistered(files: seq<File>, objectUrl: string)
      modifies this
      ensures thumbnailPreview == if |files| > 0 then Some(objectUrl) else old(thumbnailPreview)
      ensures form == old(form).(thumbnail := Some(files))
      ensures isSubmitting == old(isSubmitting)
      ensures uploadProgress == old(uploadProgress) && message == old(message)
    {
      form := form.(thumbnail := Some(files));
      if |files| > 0 {
        thumbnailPreview := Some(objectUrl);
      }
    }

    /**
     * `onSubmit` up to the upload: the form is marked as submitting and the
     * payload is built, to be posted to `CreateCourseUrl`.
     */
    method StartSubmit() returns (url: string, payload: seq<Part>)
      requires Valid(form)
      modifies this
      ensures form == old(form) && uploadProgress == old(uploadProgress)
      ensures isSubmitting && SubmitDisabled()
      ensures url == CreateCourseUrl
      ensures payload == Payload(form)
      ensures message == old(message) && thumbnailPreview == old(thumbnailPreview)
    {
      isSubmitting := true;
      url := CreateCourseUrl;
      payload := BuildFormData(form);
    }

    /** The upload's progress callback. */
    method ReportProgress(loaded: nat, total: nat)
      modifies this
      ensures uploadProgress == UploadPercent(loaded, total)
      ensures form == old(form) && isSubmitting == old(isSubmitting)
      ensures message == old(message) && thumbnailPreview == old(thumbnailPreview)
    {
      uploadProgress := UploadPercent(loaded, total);
    }

    /**
     * The end of `onSubmit`: on success the success message, progress back to 0 and
     * no preview; on failure only the failure message, progress left where it was;
     * in both cases the form is no longer submitting and its values are kept.
     */
    method FinishSubmit(succeeded: bool)
      modifies this
      ensures !isSubmitting && !SubmitDisabled()
      ensures message == if succeeded then SuccessMessage else FailureMessage
      ensures uploadProgress == if succeeded then 0 else old(uploadProgress)
      ensures thumbnailPreview == if succeeded then None else old(thumbnailPreview)
      ensures form == old(form)
    {
      if succeeded {
        message := SuccessMessage;
        uploadProgress := 0;
        thumbnailPreview := None;
      } else {
        message := FailureMessage;
      }
      isSubmitting := false;
    }
  }

  /** A form whose thumbnail value holds no file is refused, with "Thumbnail is required". */
  lemma MissingThumbnailRefused(f: CourseForm)
    requires !HasFile(f.thumbnail)
    ensures !Valid(f)
    ensures ThumbnailRequired in Errors(f)
  {
    ValidIff(f);
  }

  /** With a file in the thumbnail value, the form is accepted exactly when every other rule holds. */
  lemma PickedThumbnailValid(f: CourseForm, files: seq<File>)
    requires |files| > 0
    ensures Valid(f.(thumbnail := Some(files))) <==>
      && f.title != "" && f.description != "" && f.categoryId != "" && f.instructorId != ""
      && f.price.Number? && |f.lessons| >= 1
      && forall i :: 0 <= i < |f.lessons| ==> LessonComplete(f.lessons[i])
  {
    ValidIff(f.(thumbnail := Some(files)));
  }

  /**
   * As written: on a new page every field is filled in from a form the schema
   * accepts and a thumbnail is picked; the preview shows it, but the form value
   * still holds no thumbnail, so the form is refused and `onSubmit` never runs.
   */
  method PickThenSubmitAsWritten(values: CourseForm, files: seq<File>, objectUrl: string) returns (page: CreateCoursePage)
    requires Valid(values) && |values.lessons| == 1 && |files| > 0
    ensures page.thumbnailPreview == Some(objectUrl)
    ensures page.form == values.(thumbnail := None)
    ensures !Valid(page.form)
  {
    page := new CreateCoursePage();
    page.EditFields(values);
    page.PickThumbnail(files, objectUrl);
    MissingThumbnailRefused(page.form);
  }

  /**
   * As evidently intended: the same steps with the picked file reaching the form
   * value; the form is accepted and the payload carries the picked thumbnail.
   */
  method PickThenSubmit(values: CourseForm, files: seq<File>, objectUrl: string) returns (page: CreateCoursePage, payload: seq<Part>)
    requires Valid(values) && |values.lessons| == 1 && |files| > 0
    ensures page.form == values.(thumbnail := Some(files))
    ensures Valid(page.form) && page.isSubmitting
    ensures payload == Payload(page.form) && payload[5] == Part("thumbnail", Blob(files[0]))
  {
    page := new CreateCoursePage();
    page.EditFields(values);
    page.PickThumbnailRegistered(files, objectUrl);
    ValidIff(values);
    PickedThumbnailValid(page.form, files);
    var url;
    url, payload := page.StartSubmit();
    PayloadSpec(page.form);
  }
}
