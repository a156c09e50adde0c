/** The images, thoughts and opinions page (page 7). */
module SeventhForm {
  import opened Json
  import opened Events
  import Submission

  /** `handleChange`: checkbox first, then radio (`bothered` or an opinion), then
      the `otherThoughts` text, then any other text field by name. */
  function HandleChange(form: Value, e: InputEvent): (r: Value)
    requires form.Obj?
    ensures r.Obj?
    ensures e.kind == Checkbox ==>
      SetsOnlyMember(form, r, "thoughts", e.name, Bool(e.checked))
    ensures e.kind == Radio && e.name == "bothered" ==>
      SetsOnlyField(form, r, "botheredByThoughts", Bool(e.value == "Yes"))
    ensures e.kind == Radio && e.name != "bothered" ==>
      SetsOnlyMember(form, r, "opinionStatements", e.name, Str(e.value))
    ensures e.kind == TextEntry && e.name == "otherThoughts" ==>
      SetsOnlyMember(form, r, "thoughts", "otherThoughts", Str(e.value))
    ensures e.kind == TextEntry && e.name != "otherThoughts" ==>
      SetsOnlyField(form, r, e.name, Str(e.value))
  {
    match e.kind
    case Checkbox => WithIn(form, "thoughts", e.name, Bool(e.checked))
    case Radio =>
      if e.name == "bothered" then With(form, "botheredByThoughts", Bool(e.value == "Yes"))
      else WithIn(form, "opinionStatements", e.name, Str(e.value))
    case TextEntry =>
      if e.name == "otherThoughts" then WithIn(form, "thoughts", "otherThoughts", Str(e.value))
      else With(form, e.name, Str(e.value))
  }

  /** The checkbox list is drawn from every key of `thoughts`, `otherThoughts`
      included; ticking that box replaces the typed text with a boolean. */
  lemma OtherThoughtsCheckboxOverwritesText(form: Value, checked: bool, value: string, section: Option<string>)
    requires form.Obj?
    ensures Member(HandleChange(form, InputEvent(Checkbox, "otherThoughts", value, checked, section)),
                   "thoughts", "otherThoughts") == Some(Bool(checked))
  {
  }

  /** Each `mistakes` / `friendships` radio carries the stored answer as its
      value, so choosing one writes that answer back and changes nothing. */
  lemma {:induction false} OpinionRadioIsFixedPoint(form: Value, name: string, checked: bool, section: Option<string>)
    requires form.Obj? && name != "bothered"
    requires IsObject(Field(form, "opinionStatements"))
    requires Member(form, "opinionStatements", name).Some? && Member(form, "opinionStatements", name).value.Str?
    ensures var stored := Member(form, "opinionStatements", name).value.s;
      HandleChange(form, InputEvent(Radio, name, stored, checked, section)) == form
  {
    var opinions := Field(form, "opinionStatements").value;
    var stored := Member(form, "opinionStatements", name).value;
    WithSame(opinions, name);
    assert Obj(opinions.fields[name := stored]) == opinions;
    WithSame(form, "opinionStatements");
  }

  /** The high-school radios are named `date_highschool`: they add that key and
      never touch the `datingHighSchool` entry the state starts with. */
  lemma HighSchoolRadioMissesKey(form: Value, value: string, checked: bool, section: Option<string>)
    requires form.Obj? && IsObject(Field(form, "opinionStatements"))
    ensures var r := HandleChange(form, InputEvent(Radio, "date_highschool", value, checked, section));
      && Member(r, "opinionStatements", "date_highschool") == Some(Str(value))
      && Member(r, "opinionStatements", "datingHighSchool") == Member(form, "opinionStatements", "datingHighSchool")
  {
  }

  /** The record the page submits: page 7, with the submission date. */
  function SubmittedRecord(userId: string, form: Value, date: string): (r: Value)
    ensures r.Obj? && r.fields.Keys == {"userId", "pageNo", "questions", "date"}
    ensures Field(r, "pageNo") == Some(Num(7)) && Field(r, "userId") == Some(Str(userId))
    ensures Field(r, "questions") == Some(form) && Field(r, "date") == Some(Str(date))
  {
    Submission.Record(userId, 7, form, Some(date))
  }
}
