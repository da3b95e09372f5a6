/**
 A declarative account of when a document passes, independent of the order
 in which the matcher visits it, and the properties of the matcher that
 follow from it.
 */
module Conformance {
  import opened JsonShapes
  import opened Validator

  /** What each leaf tag admits of a scalar value. */
  predicate TagAccepts(tag: string, doc: Json) {
    match doc
    case JString(s) => tag == StringEmptyTag || (tag == StringTag && s != "")
    case JNumber(n) => tag == NumberZeroTag || (tag == NumberTag && n != 0.0)
    case JBool(_) => tag == BoolTag
    case JNull => tag == NullTag
    case _ => false
  }

  /** `doc` has the shape `exp` describes: scalars meet their leaf tag, every
      array element meets the same expectation, and every property of an
      object is expected and meets its (unwrapped) expectation. Expected
      properties the object lacks are not required. */
  ghost predicate Conforms(doc: Json, exp: Expect)
    decreases doc
  {
    match doc
    case JArray(vs) => forall i | 0 <= i < |vs| :: Conforms(vs[i], exp)
    case JObject(m) =>
      forall k | k in m ::
        && exp.EObj?
        && k in exp.props
        && FirstObjectInArray(exp.props[k]).Unwrapped?
        && Conforms(m[k], FirstObjectInArray(exp.props[k]).exp)
    case _ => exp.Leaf? && TagAccepts(exp.tag, doc)
  }

  /** The matcher passes exactly the conforming documents. */
  lemma {:induction false} CheckPassesIffConforms(key: string, doc: Json, exp: Expect)
    ensures Check(key, doc, exp) == Ok <==> Conforms(doc, exp)
    decreases doc, 0
  {
    match doc
    case JArray(vs) =>
      forall i | 0 <= i < |vs| {
        CheckPassesIffConforms(key, vs[i], exp);
      }
    case JObject(m) =>
      if m != map[] && exp.EObj? {
        forall k | k in m {
          PropertyPassesIffConforms(key, k, m[k], exp.props);
        }
      }
    case _ =>
  }

  lemma {:induction false} PropertyPassesIffConforms(parent: string, k: string, v: Json,
                                                    props: map<string, Expect>)
    ensures PropertyOutcome(parent, k, v, props) == Ok <==>
      && k in props
      && FirstObjectInArray(props[k]).Unwrapped?
      && Conforms(v, FirstObjectInArray(props[k]).exp)
    decreases v, 1
  {
    if k in props && FirstObjectInArray(props[k]).Unwrapped? {
      CheckPassesIffConforms(k, v, FirstObjectInArray(props[k]).exp);
    }
  }

  /** Whether a document passes does not depend on the key it is reported
      under: keys only label errors. */
  lemma {:induction false} VerdictIgnoresKey(key1: string, key2: string, doc: Json, exp: Expect)
    ensures Check(key1, doc, exp) == Ok <==> Check(key2, doc, exp) == Ok
  {
    CheckPassesIffConforms(key1, doc, exp);
    CheckPassesIffConforms(key2, doc, exp);
  }

  /** `r` is a genuine violation of `exp` by `doc` (found under `key`): a
      scalar that its expectation does not admit, reported with that
      expectation; a non-empty object against a non-object expectation; a
      property the object expectation lacks, under the enclosing key; a
      property whose expectation cannot be unwrapped; or, recursively, a
      violation inside an array element or a property value. */
  ghost predicate FailsAt(key: string, doc: Json, exp: Expect, r: Outcome)
    decreases doc
  {
    match doc
    case JArray(vs) => exists i | 0 <= i < |vs| :: FailsAt(key, vs[i], exp, r)
    case JObject(m) =>
      if !exp.EObj? then m != map[] && r == Crash(ExpectationNotObject)
      else exists p | p in m ::
        if p !in exp.props then r == Unknown(p, key)
        else if FirstObjectInArray(exp.props[p]).UnwrapCrash? then r == Crash(FirstObjectInArray(exp.props[p]).cause)
        else FailsAt(p, m[p], FirstObjectInArray(exp.props[p]).exp, r)
    case _ => r == Mismatch(key, doc, exp) && !(exp.Leaf? && TagAccepts(exp.tag, doc))
  }

  /** Every failure the matcher reports is a genuine violation at the place
      it names. */
  lemma {:induction false} FailureIsReal(key: string, doc: Json, exp: Expect)
    ensures Check(key, doc, exp) != Ok ==> FailsAt(key, doc, exp, Check(key, doc, exp))
    decreases doc
  {
    var r := Check(key, doc, exp);
    if r != Ok {
      match doc
      case JArray(vs) =>
        var i :| 0 <= i < |vs| && r == Check(key, vs[i], exp);
        FailureIsReal(key, vs[i], exp);
      case JObject(m) =>
        if exp.EObj? {
          var p :| p in m && r == PropertyOutcome(key, p, m[p], exp.props);
          if p in exp.props && FirstObjectInArray(exp.props[p]).Unwrapped? {
            FailureIsReal(p, m[p], FirstObjectInArray(exp.props[p]).exp);
          }
        }
      case _ =>
    }
  }

  /** Conversely, a genuine violation anywhere makes the whole check fail. */
  lemma {:induction false} RealFailureFails(key: string, doc: Json, exp: Expect, r: Outcome)
    requires FailsAt(key, doc, exp, r)
    ensures Check(key, doc, exp) != Ok
    decreases doc
  {
    CheckPassesIffConforms(key, doc, exp);
    match doc
    case JArray(vs) =>
      var i :| 0 <= i < |vs| && FailsAt(key, vs[i], exp, r);
      RealFailureFails(key, vs[i], exp, r);
      CheckPassesIffConforms(key, vs[i], exp);
    case JObject(m) =>
      if exp.EObj? {
        var p :| p in m &&
          if p !in exp.props then r == Unknown(p, key)
          else if FirstObjectInArray(exp.props[p]).UnwrapCrash? then r == Crash(FirstObjectInArray(exp.props[p]).cause)
          else FailsAt(p, m[p], FirstObjectInArray(exp.props[p]).exp, r);
        if p in exp.props && FirstObjectInArray(exp.props[p]).Unwrapped? {
          RealFailureFails(p, m[p], FirstObjectInArray(exp.props[p]).exp, r);
          CheckPassesIffConforms(p, m[p], FirstObjectInArray(exp.props[p]).exp);
        }
      }
    case _ =>
  }

  /** The entry point: the document is checked under the key "root". */
  ghost function CheckExpectedResponseFormat(doc: Json, exp: Expect): (r: Outcome)
    ensures r == Ok <==> Conforms(doc, exp)
    ensures r.Mismatch? ==> ScalarAt(RootKey, doc, r.key, r.value)
    ensures r.Unknown? ==> PropUnder(RootKey, doc, r.prop, r.parent)
    ensures r != Ok ==> FailsAt(RootKey, doc, exp, r)
  {
    CheckPassesIffConforms(RootKey, doc, exp);
    FailureIsReal(RootKey, doc, exp);
    Check(RootKey, doc, exp)
  }
}
