/** JSON-like values standing for the plain JavaScript records the forms keep
    in React state, and the three object operations the change handlers use:
    property read, `{...v, [k]: x}` and the nested `{...v, [k]: {...v[k], [j]: x}}`. */
module Json {

  datatype Option<+T> = None | Some(value: T)

  /** A call that returns a value or throws; `description` is the text `${error}` gives. */
  datatype Result<+T> = Ok(value: T) | Err(description: string)

  datatype Value =
    | Null
    | Bool(b: bool)
    | Num(n: int)
    | Str(s: string)
    | Arr(items: seq<Value>)
    | Obj(fields: map<string, Value>)

  /** `v[k]`; `None` stands for `undefined` (a missing key, or `v` not an object). */
  function Field(v: Value, k: string): (r: Option<Value>)
    ensures r.Some? <==> v.Obj? && k in v.fields
    ensures r.Some? ==> r.value == v.fields[k]
  {
    if v.Obj? && k in v.fields then Some(v.fields[k]) else None
  }

  /** `v[k][j]`, undefined as soon as either step is. */
  function Member(v: Value, k: string, j: string): Option<Value>
  {
    match Field(v, k)
    case Some(inner) => Field(inner, j)
    case None => None
  }

  /** The properties `{...x}` copies: those of an object, none of `undefined`,
      `null`, a boolean or a number. */
  function Spread(x: Option<Value>): (m: map<string, Value>)
    ensures x.Some? && x.value.Obj? ==> m == x.value.fields
    ensures !(x.Some? && x.value.Obj?) ==> m == map[]
  {
    if x.Some? && x.value.Obj? then x.value.fields else map[]
  }

  /** `{...v, [k]: x}`: key `k` now holds `x`, every other key of the object is kept. */
  function With(v: Value, k: string, x: Value): (r: Value)
    ensures r.Obj?
    ensures Field(r, k) == Some(x)
    ensures v.Obj? ==> r.fields.Keys == v.fields.Keys + {k}
    ensures v.Obj? ==> forall j :: j != k ==> Field(r, j) == Field(v, j)
  {
    Obj(Spread(Some(v))[k := x])
  }

  /** `{...v, [k]: {...v[k], [j]: x}}`: only member `j` of section `k` changes. */
  function WithIn(v: Value, k: string, j: string, x: Value): (r: Value)
    ensures r.Obj?
    ensures Member(r, k, j) == Some(x)
    ensures v.Obj? ==> r.fields.Keys == v.fields.Keys + {k}
    ensures v.Obj? ==> forall i :: i != k ==> Field(r, i) == Field(v, i)
    ensures IsObject(Field(v, k)) ==> forall i :: i != j ==> Member(r, k, i) == Member(v, k, i)
    ensures !IsObject(Field(v, k)) ==> Field(r, k) == Some(Obj(map[j := x]))
  {
    With(v, k, Obj(Spread(Field(v, k))[j := x]))
  }

  /** `after` is `before` with top-level key `k` set to `x` and nothing else changed. */
  ghost predicate SetsOnlyField(before: Value, after: Value, k: string, x: Value)
  {
    && Field(after, k) == Some(x)
    && forall i :: i != k ==> Field(after, i) == Field(before, i)
  }

  /** `after` is `before` with member `j` of section `k` set to `x`: no other
      top-level key changes, and, when section `k` was an object, none of its
      other members does either. */
  ghost predicate SetsOnlyMember(before: Value, after: Value, k: string, j: string, x: Value)
  {
    && Member(after, k, j) == Some(x)
    && (forall i :: i != k ==> Field(after, i) == Field(before, i))
    && (IsObject(Field(before, k)) ==> forall i :: i != j ==> Member(after, k, i) == Member(before, k, i))
  }

  predicate IsObject(x: Option<Value>)
  {
    x.Some? && x.value.Obj?
  }

  /** Writing back what a key already holds leaves the object as it was. */
  lemma {:induction false} WithSame(v: Value, k: string)
    requires v.Obj? && k in v.fields
    ensures With(v, k, v.fields[k]) == v
  {
    assert v.fields[k := v.fields[k]] == v.fields;
  }
}
