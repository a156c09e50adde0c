/** The fears and physical sensations page (page 6). */
module SixthForm {
  import opened Json
  import opened Events
  import Submission

  /** `pat` occurs in `s` at position `i`. */
  predicate OccursAt(s: string, pat: string, i: int)
  {
    0 <= i && i + |pat| <= |s| && s[i..i + |pat|] == pat
  }

  /** The search a string-pattern `replace` makes, starting at `from`: the first
      position at or after `from` where `pat` occurs, or none. */
  function IndexOf(s: string, pat: string, from: nat): (r: Option<nat>)
    ensures r.Some? ==> from <= r.value && OccursAt(s, pat, r.value)
    ensures r.Some? ==> forall j :: from <= j < r.value ==> !OccursAt(s, pat, j)
    ensures r.None? ==> forall j :: from <= j ==> !OccursAt(s, pat, j)
    decreases |s| - from
  {
    if from + |pat| > |s| then None
    else if OccursAt(s, pat, from) then Some(from)
    else IndexOf(s, pat, from + 1)
  }

  /** `s.replace(pat, rep)` with a string pattern: the first occurrence only. */
  function ReplaceFirst(s: string, pat: string, rep: string): (r: string)
    ensures r == s || |r| == |s| - |pat| + |rep|
    ensures r == s || exists i :: OccursAt(s, pat, i) && r == s[..i] + rep + s[i + |pat|..]
  {
    match IndexOf(s, pat, 0)
    case None => s
    case Some(i) => s[..i] + rep + s[i + |pat|..]
  }

  /** Without an occurrence the text is returned unchanged. */
  lemma ReplaceFirstWithoutMatch(s: string, pat: string, rep: string)
    requires forall i :: 0 <= i <= |s| ==> !OccursAt(s, pat, i)
    ensures ReplaceFirst(s, pat, rep) == s
  {
  }

  /** Only the leftmost occurrence is replaced. */
  lemma ReplaceFirstAtLeftmost(s: string, pat: string, rep: string, i: int)
    requires OccursAt(s, pat, i)
    requires forall j :: 0 <= j < i ==> !OccursAt(s, pat, j)
    ensures ReplaceFirst(s, pat, rep) == s[..i] + rep + s[i + |pat|..]
  {
    var k := IndexOf(s, pat, 0);
    assert k.Some? && k.value == i;
  }

  /** The white space `parseInt` skips before the number. */
  predicate IsJsSpace(c: char)
  {
    c == ' ' || c == '\t' || c == '\n' || c == '\r' || c == '\U{B}' || c == '\U{C}'
    || c == '\U{A0}' || c == '\U{FEFF}' || c == '\U{1680}' || '\U{2000}' <= c <= '\U{200A}'
    || c == '\U{2028}' || c == '\U{2029}' || c == '\U{202F}' || c == '\U{205F}' || c == '\U{3000}'
  }

  predicate IsDigit(c: char)
  {
    '0' <= c <= '9'
  }

  /** `s` without its leading white space. */
  function TrimStart(s: string): (r: string)
    ensures |r| <= |s| && r == s[|s| - |r|..]
    ensures forall i :: 0 <= i < |s| - |r| ==> IsJsSpace(s[i])
    ensures r == [] || !IsJsSpace(r[0])
  {
    if s != [] && IsJsSpace(s[0]) then TrimStart(s[1..]) else s
  }

  /** The longest prefix made of decimal digits. */
  function DigitPrefix(s: string): (r: string)
    ensures |r| <= |s| && r == s[..|r|]
    ensures forall i :: 0 <= i < |r| ==> IsDigit(r[i])
    ensures |r| < |s| ==> !IsDigit(s[|r|])
  {
    if s != [] && IsDigit(s[0]) then [s[0]] + DigitPrefix(s[1..]) else []
  }

  function DigitsValue(ds: string): nat
    requires forall i :: 0 <= i < |ds| ==> IsDigit(ds[i])
  {
    if ds == [] then 0
    else
      var last := ds[|ds| - 1];
      assert IsDigit(last);
      10 * DigitsValue(ds[..|ds| - 1]) + (last as int - '0' as int)
  }

  /** The text after an optional leading sign. */
  function Unsigned(t: string): string
  {
    if t != [] && (t[0] == '-' || t[0] == '+') then t[1..] else t
  }

  /** `parseInt` after the white space: an optional sign, then the longest run
      of digits; `None` when there is no digit. */
  function ParseSigned(t: string): (r: Option<int>)
    ensures r.None? <==> Unsigned(t) == [] || !IsDigit(Unsigned(t)[0])
    ensures r.Some? && r.value < 0 ==> t[0] == '-'
  {
    var ds := DigitPrefix(Unsigned(t));
    if ds == [] then None
    else if t[0] == '-' then Some(0 - DigitsValue(ds))
    else Some(DigitsValue(ds))
  }

  /** `parseInt(s, 10)`; `None` is NaN. */
  function ParseInt(s: string): (r: Option<int>)
    ensures r.None? <==> Unsigned(TrimStart(s)) == [] || !IsDigit(Unsigned(TrimStart(s))[0])
    ensures r.Some? && r.value < 0 ==> TrimStart(s)[0] == '-'
  {
    ParseSigned(TrimStart(s))
  }

  /** Leading white space is exactly what `TrimStart` drops. */
  lemma {:induction false} TrimSpaces(ws: string, t: string)
    requires forall i :: 0 <= i < |ws| ==> IsJsSpace(ws[i])
    requires t == [] || !IsJsSpace(t[0])
    ensures TrimStart(ws + t) == t
    decreases |ws|
  {
    if ws == [] {
      assert ws + t == t;
    } else {
      assert (ws + t)[0] == ws[0] && (ws + t)[1..] == ws[1..] + t;
      TrimSpaces(ws[1..], t);
    }
  }

  /** Digits followed by a non-digit: the digits are the prefix `parseInt` reads. */
  lemma {:induction false} DigitPrefixOf(ds: string, rest: string)
    requires forall i :: 0 <= i < |ds| ==> IsDigit(ds[i])
    requires rest == [] || !IsDigit(rest[0])
    ensures DigitPrefix(ds + rest) == ds
    decreases |ds|
  {
    if ds == [] {
      assert ds + rest == rest;
    } else {
      assert (ds + rest)[0] == ds[0] && (ds + rest)[1..] == ds[1..] + rest;
      DigitPrefixOf(ds[1..], rest);
      assert ds == [ds[0]] + ds[1..];
    }
  }

  /** After leading white space, `parseInt` reads the rest as `ParseSigned` does. */
  lemma ParseAfterSpaces(ws: string, t: string)
    requires forall i :: 0 <= i < |ws| ==> IsJsSpace(ws[i])
    requires t == [] || !IsJsSpace(t[0])
    ensures ParseInt(ws + t) == ParseSigned(t)
  {
    TrimSpaces(ws, t);
  }

  /** At most one character, and that one a sign. */
  predicate IsSign(sign: string)
  {
    |sign| <= 1 && (sign != [] ==> sign[0] == '+' || sign[0] == '-')
  }

  /** White space, an optional sign and at least one digit: the signed value of
      the digits, whatever follows the first non-digit. */
  lemma ParseSignedDigits(ws: string, sign: string, ds: string, rest: string)
    requires forall i :: 0 <= i < |ws| ==> IsJsSpace(ws[i])
    requires IsSign(sign)
    requires ds != [] && forall i :: 0 <= i < |ds| ==> IsDigit(ds[i])
    requires rest == [] || !IsDigit(rest[0])
    ensures ParseInt(ws + (sign + (ds + rest))) ==
      Some(if sign != [] && sign[0] == '-' then 0 - DigitsValue(ds) else DigitsValue(ds))
  {
    var t := sign + (ds + rest);
    SignedDigits(sign, ds, rest);
    ParseAfterSpaces(ws, t);
  }

  lemma SignedDigits(sign: string, ds: string, rest: string)
    requires IsSign(sign)
    requires ds != [] && forall i :: 0 <= i < |ds| ==> IsDigit(ds[i])
    requires rest == [] || !IsDigit(rest[0])
    ensures var t := sign + (ds + rest);
      && !IsJsSpace(t[0])
      && ParseSigned(t) == Some(if sign != [] && sign[0] == '-' then 0 - DigitsValue(ds) else DigitsValue(ds))
  {
    var x := ds + rest;
    assert x[0] == ds[0] && IsDigit(ds[0]);
    SignPrefix(sign, x);
    DigitPrefixOf(ds, rest);
    DigitsAfterSign(sign + x, ds, rest);
  }

  /** A sign in front of a digit: not white space, and skipped by `Unsigned`. */
  lemma SignPrefix(sign: string, x: string)
    requires IsSign(sign) && x != [] && IsDigit(x[0])
    ensures var t := sign + x;
      && !IsJsSpace(t[0])
      && Unsigned(t) == x
      && (t[0] == '-' <==> sign != [] && sign[0] == '-')
  {
    var t := sign + x;
    if sign == [] {
      assert t == x;
    } else {
      assert t[0] == sign[0] && t[1..] == x;
    }
  }

  lemma DigitsAfterSign(t: string, ds: string, rest: string)
    requires t != [] && Unsigned(t) == ds + rest
    requires ds != [] && forall i :: 0 <= i < |ds| ==> IsDigit(ds[i])
    requires DigitPrefix(ds + rest) == ds
    ensures ParseSigned(t) == Some(if t[0] == '-' then 0 - DigitsValue(ds) else DigitsValue(ds))
  {
  }

  /** White space and an optional sign not followed by a digit: NaN. */
  lemma ParseNoDigits(ws: string, sign: string, rest: string)
    requires forall i :: 0 <= i < |ws| ==> IsJsSpace(ws[i])
    requires IsSign(sign)
    requires rest == [] || !IsDigit(rest[0])
    requires sign == [] ==> rest == [] || (!IsJsSpace(rest[0]) && rest[0] != '+' && rest[0] != '-')
    ensures ParseInt(ws + (sign + rest)) == None
  {
    var t := sign + rest;
    if sign == [] {
      assert t == rest;
    } else {
      assert t[1..] == rest;
    }
    ParseAfterSpaces(ws, t);
  }

  /** `parseInt(name.replace('fear', ''), 10) - 1`: the five inputs `fear1` ..
      `fear5` address `fears[0]` .. `fears[4]`. */
  function FearIndex(name: string): (r: Option<int>)
    ensures IsFearInput(name) ==> r == Some(name[4] as int - '1' as int)
  {
    FearInputParse(name);
    match ParseInt(ReplaceFirst(name, "fear", ""))
    case Some(n) => Some(n - 1)
    case None => None
  }

  /** "fear" followed by one digit from 1 to 5. */
  predicate IsFearInput(name: string)
  {
    |name| == 5 && name[..4] == "fear" && '1' <= name[4] <= '5'
  }

  lemma FearInputParse(name: string)
    ensures IsFearInput(name) ==>
      ParseInt(ReplaceFirst(name, "fear", "")) == Some(name[4] as int - '0' as int)
  {
    if IsFearInput(name) {
      var r := ReplaceFirst(name, "fear", "");
      assert r == [name[4]] by {
        assert OccursAt(name, "fear", 0);
        ReplaceFirstAtLeftmost(name, "fear", "", 0);
        assert name[..0] + "" + name[4..] == [name[4]];
      }
      OneDigitParses(name[4]);
    }
  }

  lemma OneDigitParses(d: char)
    requires IsDigit(d)
    ensures ParseInt([d]) == Some(d as int - '0' as int)
  {
    ParseSignedDigits("", "", [d], "");
    assert "" + ("" + ([d] + "")) == [d];
    assert DigitsValue([d]) == 10 * DigitsValue([]) + (d as int - '0' as int);
  }

  /** The `other` box has no `data-section` and no "fear" in its name: it reads as NaN. */
  lemma OtherInputHasNoIndex()
    ensures FearIndex("other") == None
  {
    var s := "other";
    forall i | 0 <= i <= |s| ensures !OccursAt(s, "fear", i) {
      if i + 4 <= |s| {
        assert s[i..i + 4][0] == s[i];
        assert s[i] != 'f';
      }
    }
    ReplaceFirstWithoutMatch(s, "fear", "");
    ParseNoDigits("", "", s);
    assert "" + ("" + s) == s;
  }

  /** `formData.fears`, when it is a list. */
  function Fears(form: Value): Option<seq<Value>>
  {
    match Field(form, "fears")
    case Some(Arr(items)) => Some(items)
    case _ => None
  }

  /** `dataset.section` is truthy: present and not empty. */
  predicate HasSection(e: InputEvent)
  {
    e.section.Some? && e.section.value != ""
  }

  /** `fears.map((fear, i) => i === index ? value : fear)`. */
  function ReplaceAt(items: seq<Value>, index: Option<int>, x: Value): (r: seq<Value>)
    ensures |r| == |items|
    ensures forall i :: 0 <= i < |r| ==> r[i] == if index == Some(i) then x else items[i]
  {
    seq(|items|, i requires 0 <= i < |items| => if index == Some(i) then x else items[i])
  }

  /** `handleChange`: checkboxes tick `physicalSensations`, an input with a
      `data-section` sets that top-level field, anything else is read as a fear index. */
  function HandleChange(form: Value, e: InputEvent): (r: Value)
    requires form.Obj?
    requires e.kind != Checkbox && !HasSection(e) ==> Fears(form).Some?
    ensures r.Obj?
    ensures e.kind == Checkbox ==>
      SetsOnlyMember(form, r, "physicalSensations", e.name, Bool(e.checked))
    ensures e.kind != Checkbox && HasSection(e) ==>
      SetsOnlyField(form, r, e.section.value, Str(e.value))
    ensures e.kind != Checkbox && !HasSection(e) ==>
      && Fears(r).Some?
      && |Fears(r).value| == |Fears(form).value|
      && (forall i :: 0 <= i < |Fears(r).value| ==>
            Fears(r).value[i] == if FearIndex(e.name) == Some(i) then Str(e.value) else Fears(form).value[i])
      && forall k :: k != "fears" ==> Field(r, k) == Field(form, k)
  {
    if e.kind == Checkbox then
      WithIn(form, "physicalSensations", e.name, Bool(e.checked))
    else if HasSection(e) then
      With(form, e.section.value, Str(e.value))
    else
      With(form, "fears", Arr(ReplaceAt(Fears(form).value, FearIndex(e.name), Str(e.value))))
  }

  /** A name whose index is NaN or outside the list changes nothing at all. */
  lemma {:induction false} UnmatchedNameIsInert(form: Value, e: InputEvent)
    requires form.Obj? && e.kind != Checkbox && !HasSection(e) && Fears(form).Some?
    requires forall i :: 0 <= i < |Fears(form).value| ==> FearIndex(e.name) != Some(i)
    ensures HandleChange(form, e) == form
  {
    var fears := Fears(form).value;
    assert ReplaceAt(fears, FearIndex(e.name), Str(e.value)) == fears;
    WithSame(form, "fears");
  }

  /** Typing in the `other` box leaves the whole state unchanged. */
  lemma OtherInputIsInert(form: Value, value: string)
    requires form.Obj? && Fears(form).Some?
    ensures HandleChange(form, InputEvent(TextEntry, "other", value, false, None)) == form
  {
    OtherInputHasNoIndex();
    UnmatchedNameIsInert(form, InputEvent(TextEntry, "other", value, false, None));
  }

  /** `fears` stays a list of five unless a `data-section` names it. */
  lemma FearsStayFive(form: Value, e: InputEvent)
    requires form.Obj? && Fears(form).Some? && |Fears(form).value| == 5
    requires e.kind == Checkbox || !HasSection(e) || e.section.value != "fears"
    ensures var r := HandleChange(form, e); Fears(r).Some? && |Fears(r).value| == 5
  {
  }

  /** The record the page submits: page 6, with the submission date. */
  function SubmittedRecord(userId: string, form: Value, date: string): (r: Value)
    ensures r.Obj? && r.fields.Keys == {"userId", "pageNo", "questions", "date"}
    ensures Field(r, "pageNo") == Some(Num(6)) && Field(r, "userId") == Some(Str(userId))
    ensures Field(r, "questions") == Some(form) && Field(r, "date") == Some(Str(date))
  {
    Submission.Record(userId, 6, form, Some(date))
  }
}
