/**
 The recursive matcher of `JsonValidator`: a document is walked once, every
 node is compared with the expectation in force at that point, and the walk
 stops at the first problem.

 The source iterates over Go maps, whose order is unspecified. The model
 visits an object's keys in an unspecified order too (`:|` picks the next
 key), so nothing proved here depends on which key comes first.
 */
module Validator {
  import opened JsonShapes

  /** The places where the source panics instead of returning an error. */
  datatype CrashCause =
    | ExpectationNotObject  // `expect.(D)` on something other than a `D`
    | WrapperNotObjects     // `.([]D)` on a slice of another element type
    | EmptyWrapper          // `[0]` on an empty `[]D`

  /** What one call of the matcher ends in. `Mismatch` and `Unknown` are the
      source's returned errors, reduced to the data their messages show;
      `Crash` is a panic. */
  datatype Outcome =
    | Ok
    | Mismatch(key: string, value: Json, expected: Expect)
    | Unknown(prop: string, parent: string)
    | Crash(cause: CrashCause)

  datatype Unwrapped = Unwrapped(exp: Expect) | UnwrapCrash(cause: CrashCause)

  /** The array-wrapper helper applied to an expectation looked up under a
      property name: a wrapper of objects yields its first object, any other
      node comes back unchanged. */
  function FirstObjectInArray(e: Expect): (r: Unwrapped)
    ensures !e.EArr? ==> r == Unwrapped(e)
    ensures e.EArr? && r.Unwrapped? ==> |e.items| > 0 && r.exp == e.items[0] && r.exp.EObj?
    ensures e.EArr? ==> (r.UnwrapCrash? <==>
      |e.items| == 0 || exists i | 0 <= i < |e.items| :: !e.items[i].EObj?)
    ensures r == UnwrapCrash(WrapperNotObjects) <==>
      e.EArr? && exists i | 0 <= i < |e.items| :: !e.items[i].EObj?
    ensures r == UnwrapCrash(EmptyWrapper) <==> e == EArr([])
  {
    match e
    case EArr(items) =>
      if exists i | 0 <= i < |items| :: !items[i].EObj? then UnwrapCrash(WrapperNotObjects)
      else if |items| == 0 then UnwrapCrash(EmptyWrapper)
      else Unwrapped(items[0])
    case _ => Unwrapped(e)
  }

  /** The required-property pass. It looks up each expected key but never
      reports a missing one: whatever the inputs, it lets the walk go on. */
  function RequiredPropertiesExist(key: string, fields: map<string, Json>, exp: Expect): (r: Outcome)
    ensures r == Ok
  {
    Ok
  }

  /** Checks `doc`, found under `key`, against `exp`. */
  ghost function Check(key: string, doc: Json, exp: Expect): (r: Outcome)
    ensures r.Mismatch? ==> ScalarAt(key, doc, r.key, r.value)
    ensures r.Unknown? ==> PropUnder(key, doc, r.prop, r.parent)
    decreases doc, 1
  {
    match doc
    case JString(s) =>
      if (exp == Leaf(StringTag) && |s| != 0) || exp == Leaf(StringEmptyTag) then Ok
      else Mismatch(key, doc, exp)
    case JBool(_) =>
      if exp != Leaf(BoolTag) then Mismatch(key, doc, exp) else Ok
    case JNull =>
      if exp != Leaf(NullTag) then Mismatch(key, doc, exp) else Ok
    case JNumber(n) =>
      if (exp == Leaf(NumberTag) && n != 0.0) || exp == Leaf(NumberZeroTag) then Ok
      else Mismatch(key, doc, exp)
    case JArray(vs) =>
      CheckElems(key, vs, exp)
    case JObject(m) =>
      var required := RequiredPropertiesExist(key, m, exp);
      if required != Ok then required
      else if m == map[] then Ok
      else if !exp.EObj? then Crash(ExpectationNotObject)
      else CheckProps(key, m, exp.props, m.Keys)
  }

  /** The array loop: every element is checked under the same key against
      the same, not unwrapped, expectation; the first failure is returned. */
  ghost function CheckElems(key: string, vs: seq<Json>, exp: Expect): (r: Outcome)
    ensures r == Ok <==> forall i | 0 <= i < |vs| :: Check(key, vs[i], exp) == Ok
    ensures r != Ok ==> exists i | 0 <= i < |vs| ::
      && r == Check(key, vs[i], exp)
      && forall j | 0 <= j < i :: Check(key, vs[j], exp) == Ok
    decreases vs, 1
  {
    if |vs| == 0 then Ok
    else
      var o := Check(key, vs[0], exp);
      if o != Ok then o else CheckElems(key, vs[1..], exp)
  }

  /** One turn of the object loop: the property `k` with value `v` of an
      object found under `parent`, against the object expectation `props`. */
  ghost function PropertyOutcome(parent: string, k: string, v: Json, props: map<string, Expect>): (r: Outcome)
    ensures r.Mismatch? ==> ScalarAt(k, v, r.key, r.value)
    ensures r.Unknown? ==> (r.prop == k && r.parent == parent) || PropUnder(k, v, r.prop, r.parent)
    decreases v, 2
  {
    if k !in props then Unknown(k, parent)
    else
      match FirstObjectInArray(props[k])
      case UnwrapCrash(cause) => Crash(cause)
      case Unwrapped(e) => Check(k, v, e)
  }

  /** The object loop over the keys in `todo`, taken in an unspecified order;
      the first property that does not pass ends it. */
  ghost function CheckProps(parent: string, fields: map<string, Json>, props: map<string, Expect>,
                            todo: set<string>): (r: Outcome)
    requires todo <= fields.Keys
    ensures r == Ok <==> forall k | k in todo :: PropertyOutcome(parent, k, fields[k], props) == Ok
    ensures r != Ok ==> exists k | k in todo :: r == PropertyOutcome(parent, k, fields[k], props)
    decreases JObject(fields), 0, todo
  {
    if todo == {} then Ok
    else
      var k :| k in todo;
      var o := PropertyOutcome(parent, k, fields[k], props);
      if o != Ok then o else CheckProps(parent, fields, props, todo - {k})
  }
}
