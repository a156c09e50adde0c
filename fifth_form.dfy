/** The talents, relaxation and feelings page (page 5). */
module FifthForm {
  import opened Json
  import opened Events
  import Submission

  /** `[e.target.dataset.section]` as a property key: a missing attribute is
      `undefined`, which becomes the key "undefined". */
  function SectionKey(e: InputEvent): (k: string)
    ensures e.section.Some? ==> k == e.section.value
    ensures e.section.None? ==> k == "undefined"
  {
    match e.section
    case Some(s) => s
    case None => "undefined"
  }

  /** `handleChange`: checkboxes tick `feelings`, the `troubleRelaxing` radios set
      `relaxationAndWishes.troubleRelaxing`, everything else sets
      `formData[section][name]`. */
  function HandleChange(form: Value, e: InputEvent): (r: Value)
    requires form.Obj?
    ensures r.Obj?
    ensures e.kind == Checkbox ==>
      SetsOnlyMember(form, r, "feelings", e.name, Bool(e.checked))
    ensures e.kind != Checkbox && e.name == "troubleRelaxing" ==>
      SetsOnlyMember(form, r, "relaxationAndWishes", "troubleRelaxing", Str(e.value))
    ensures e.kind != Checkbox && e.name != "troubleRelaxing" ==>
      SetsOnlyMember(form, r, SectionKey(e), e.name, Str(e.value))
  {
    if e.kind == Checkbox then
      WithIn(form, "feelings", e.name, Bool(e.checked))
    else if e.name == "troubleRelaxing" then
      WithIn(form, "relaxationAndWishes", "troubleRelaxing", Str(e.value))
    else
      WithIn(form, SectionKey(e), e.name, Str(e.value))
  }

  /** Answering "No" only hides the explanation box: the text typed there stays,
      and so do the two wishes. */
  lemma NoKeepsExplanation(form: Value, kind: InputKind, checked: bool, section: Option<string>)
    requires form.Obj? && kind != Checkbox
    requires IsObject(Field(form, "relaxationAndWishes"))
    ensures var r := HandleChange(form, InputEvent(kind, "troubleRelaxing", "No", checked, section));
      && Member(r, "relaxationAndWishes", "troubleRelaxing") == Some(Str("No"))
      && Member(r, "relaxationAndWishes", "troubleRelaxingExplanation") == Member(form, "relaxationAndWishes", "troubleRelaxingExplanation")
      && Member(r, "relaxationAndWishes", "twoWishes") == Member(form, "relaxationAndWishes", "twoWishes")
  {
  }

  /** The record `handleSubmit` builds: page 5, no date. */
  function SubmittedRecord(userId: string, form: Value): (r: Value)
    ensures r.Obj? && r.fields.Keys == {"userId", "pageNo", "questions"}
    ensures Field(r, "pageNo") == Some(Num(5)) && Field(r, "userId") == Some(Str(userId))
    ensures Field(r, "questions") == Some(form)
  {
    Submission.Record(userId, 5, form, None)
  }
}
