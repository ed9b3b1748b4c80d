/**
 * The lecture form used to add or edit one lecture: a title and a duration,
 * checked on submit for a non-blank title.
 */
module LectureForm {
  import opened Optional
  import opened Text

  /** What the form hands to its `onSubmit` callback. */
  datatype LectureValues = LectureValues(title: string, duration: string)

  /** The result of pressing "Save": an alert, or the values passed to `onSubmit`. */
  datatype SubmitOutcome = Alerted(message: string) | Submitted(values: LectureValues)

  const TitleRequiredAlert: string := "Lecture title is required"

  /**
   * `handleSubmit`: a title that trims to nothing is refused with an alert; any
   * other title is submitted, with the duration, exactly as typed.
   */
  function HandleSubmit(title: string, duration: string): (r: SubmitOutcome)
    ensures r.Alerted? <==> AllWhitespace(title)
    ensures r.Alerted? ==> r.message == TitleRequiredAlert
    ensures r.Submitted? ==> r.values == LectureValues(title, duration)
  {
    TrimEmptyIff(title);
    if Trim(title) == "" then Alerted(TitleRequiredAlert)
    else Submitted(LectureValues(title, duration))
  }

  /** Surrounding spaces do not make a title acceptable, and are kept when it is accepted. */
  lemma PaddedTitleKept(title: string)
    requires !AllWhitespace(title)
    ensures HandleSubmit(" " + title + " ", "").Submitted?
    ensures HandleSubmit(" " + title + " ", "").values.title == " " + title + " "
    ensures HandleSubmit("   ", "").Alerted?
  {
    var i :| 0 <= i < |title| && !IsJsWhitespace(title[i]);
    assert (" " + title + " ")[i + 1] == title[i];
    assert "   "[0] == ' ' && "   "[1] == ' ' && "   "[2] == ' ';
  }

  /** The state of one `LectureForm`. */
  class LectureFormState {
    const initialValues: Option<LectureValues>
    var title: string
    var duration: string

    /** The fields start from `initialValues`, or empty. */
    constructor (initialValues: Option<LectureValues>)
      ensures this.initialValues == initialValues
      ensures title == (if initialValues.Some? then initialValues.value.title else "")
      ensures duration == (if initialValues.Some? then initialValues.value.duration else "")
    {
      this.initialValues := initialValues;
      title := if initialValues.Some? then initialValues.value.title else "";
      duration := if initialValues.Some? then initialValues.value.duration else "";
    }

    /** "Edit Lecture" when editing existing values, "Add New Lecture" otherwise. */
    function Heading(): (h: string)
      reads this
      ensures h == "Edit Lecture" <==> initialValues.Some?
      ensures h == "Add New Lecture" <==> initialValues.None?
    {
      if initialValues.Some? then "Edit Lecture" else "Add New Lecture"
    }

    method SetTitle(text: string)
      modifies this
      ensures title == text && duration == old(duration)
    {
      title := text;
    }

    method SetDuration(text: string)
      modifies this
      ensures duration == text && title == old(title)
    {
      duration := text;
    }

    /** Pressing "Save": the fields themselves are left as they are. */
    method Submit() returns (r: SubmitOutcome)
      ensures r == HandleSubmit(title, duration)
      ensures r.Submitted? <==> !AllWhitespace(title)
    {
      r := HandleSubmit(title, duration);
    }
  }
}
