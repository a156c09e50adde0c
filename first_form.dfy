/** The patient information page (page 1): its change handlers, the approval
    boxes and the legacy-envelope submission. */
module FirstForm {
  import opened Json
  import opened Events
  import Submission

  /** The keys of the initial state that hold an empty string. */
  const TextFields: set<string> := {
    "name", "date", "address", "age", "occupation", "sex", "dateOfBirth",
    "placeOfBirth", "religion", "height", "weight", "weightFluctuate", "familyPhysician",
    "physicianTelephone", "referredBy", "maritalStatus", "maritalTimes", "livingIn",
    "otherLiving", "presentWork", "workSatisfaction", "workSatisfactionExplanation",
    "pastJobs", "therapyBefore", "hospitalizedBefore", "hospitalizationDetails",
    "attemptedSuicide", "familyEmotionalDisorder", "familySuicide"}

  /** The state the page starts with: every field an empty string, except the
      two phone numbers under `telephone` and the empty `livingWith` list. */
  function Initial(): (r: Value)
    ensures Shaped(r)
    ensures LivingWith(r) == Some([])
    ensures Member(r, "telephone", "day") == Some(Str("")) && Member(r, "telephone", "evening") == Some(Str(""))
    ensures forall k :: k in TextFields ==> Field(r, k) == Some(Str(""))
    ensures r.Obj? && r.fields.Keys == TextFields + {"telephone", "livingWith"}
    ensures Field(r, "telephone") == Some(Obj(map["day" := Str(""), "evening" := Str("")]))
  {
    assert "telephone" !in TextFields && "livingWith" !in TextFields;
    var texts := map k | k in TextFields :: Str("");
    Obj(texts["telephone" := Obj(map["day" := Str(""), "evening" := Str("")])]["livingWith" := Arr([])])
  }

  /** `formData.livingWith`, when it is a list. */
  function LivingWith(form: Value): Option<seq<Value>>
  {
    match Field(form, "livingWith")
    case Some(Arr(items)) => Some(items)
    case _ => None
  }

  /** The shape the handlers rely on: an object whose `livingWith` is a list and
      whose `telephone` is an object. */
  predicate Shaped(form: Value)
  {
    form.Obj? && LivingWith(form).Some? && IsObject(Field(form, "telephone"))
  }

  /** `a` keeps the elements of `b` in their order, possibly skipping some. */
  predicate IsSubsequence(a: seq<Value>, b: seq<Value>)
  {
    if a == [] then true
    else if b == [] then false
    else if a[0] == b[0] then IsSubsequence(a[1..], b[1..])
    else IsSubsequence(a, b[1..])
  }

  /** `after` is `before` without any copy of `x`, all other entries kept in order. */
  ghost predicate RemovedAll(before: seq<Value>, x: Value, after: seq<Value>)
  {
    && x !in after
    && IsSubsequence(after, before)
    && forall y :: y != x ==> multiset(after)[y] == multiset(before)[y]
  }

  /** `items.filter(item => item !== x)`. */
  function RemoveAll(items: seq<Value>, x: Value): (r: seq<Value>)
    ensures RemovedAll(items, x, r)
  {
    if items == [] then []
    else if items[0] == x then
      assert items == [items[0]] + items[1..];
      RemoveAll(items[1..], x)
    else
      var rest := RemoveAll(items[1..], x);
      assert ([items[0]] + rest)[1..] == rest;
      assert items == [items[0]] + items[1..];
      [items[0]] + rest
  }

  /** `handleChange`: a checkbox adds its name to `livingWith` or removes it;
      any other input sets the top-level field called `name`. */
  function HandleChange(form: Value, e: InputEvent): (r: Value)
    requires form.Obj?
    requires e.kind == Checkbox ==> LivingWith(form).Some?
    ensures r.Obj?
    ensures e.kind == Checkbox ==> LivingWith(r).Some?
    ensures e.kind == Checkbox ==> forall k :: k != "livingWith" ==> Field(r, k) == Field(form, k)
    ensures e.kind == Checkbox && e.checked ==>
      var before, after := LivingWith(form).value, LivingWith(r).value;
      |after| == |before| + 1 && after[..|before|] == before && after[|before|] == Str(e.name)
    ensures e.kind == Checkbox && !e.checked ==>
      RemovedAll(LivingWith(form).value, Str(e.name), LivingWith(r).value)
    ensures e.kind != Checkbox ==> SetsOnlyField(form, r, e.name, Str(e.value))
  {
    if e.kind == Checkbox then
      var items := LivingWith(form).value;
      With(form, "livingWith", Arr(if e.checked then items + [Str(e.name)] else RemoveAll(items, Str(e.name))))
    else
      With(form, e.name, Str(e.value))
  }

  /** Every handler keeps the shape unless an input named `livingWith` or
      `telephone` writes a string over the list or the object. */
  lemma HandleChangeKeepsShape(form: Value, e: InputEvent)
    requires Shaped(form)
    requires e.kind == Checkbox || (e.name != "livingWith" && e.name != "telephone")
    ensures Shaped(HandleChange(form, e))
  {
  }

  /** The details box is named `hospitalizedDetails`, while the initial state
      has `hospitalizationDetails`: typing adds a new key and leaves that one as it was. */
  lemma DetailsNameMismatch(value: string)
    ensures "hospitalizationDetails" in TextFields && "hospitalizedDetails" !in Initial().fields
    ensures var form := Initial();
      var r := HandleChange(form, InputEvent(TextEntry, "hospitalizedDetails", value, false, None));
      && Field(r, "hospitalizedDetails") == Some(Str(value))
      && Field(r, "hospitalizationDetails") == Field(form, "hospitalizationDetails")
  {
  }

  /** The day phone input: only `telephone.day` changes. */
  function SetDayPhone(form: Value, value: string): (r: Value)
    requires form.Obj?
    ensures Shaped(form) ==> Shaped(r)
    ensures SetsOnlyMember(form, r, "telephone", "day", Str(value))
  {
    WithIn(form, "telephone", "day", Str(value))
  }

  /** The evening phone input: only `telephone.evening` changes. */
  function SetEveningPhone(form: Value, value: string): (r: Value)
    requires form.Obj?
    ensures Shaped(form) ==> Shaped(r)
    ensures SetsOnlyMember(form, r, "telephone", "evening", Str(value))
  {
    WithIn(form, "telephone", "evening", Str(value))
  }

  /** The separate `approval` state of the two consent boxes. */
  datatype Approval = Approval(internalUse: bool, externalUse: bool)

  function ToggleInternalUse(a: Approval): (r: Approval)
    ensures r.internalUse != a.internalUse && r.externalUse == a.externalUse
  {
    a.(internalUse := !a.internalUse)
  }

  function ToggleExternalUse(a: Approval): (r: Approval)
    ensures r.externalUse != a.externalUse && r.internalUse == a.internalUse
  {
    a.(externalUse := !a.externalUse)
  }

  /** The record `handleSubmit` builds: page 1, no date. */
  function SubmittedRecord(userId: string, form: Value): (r: Value)
    ensures r.Obj? && r.fields.Keys == {"userId", "pageNo", "questions"}
    ensures Field(r, "pageNo") == Some(Num(1)) && Field(r, "userId") == Some(Str(userId))
    ensures Field(r, "questions") == Some(form)
  {
    Submission.Record(userId, 1, form, None)
  }
}
