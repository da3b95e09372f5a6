/**
 Properties of the matcher, one node kind at a time: the leaf-tag rules,
 arrays, objects, the array-wrapper helper, and the consequences of the
 required-property pass never failing.
 */
module Properties {
  import opened JsonShapes
  import opened Validator
  import opened Conformance

  // ---------------------------------------------------------------- scalars

  /** A scalar passes exactly when the expectation is a leaf whose tag admits
      it; otherwise the error names the current key, the value and the
      expectation, whatever shape that expectation has. */
  lemma ScalarOutcome(key: string, doc: Json, exp: Expect)
    requires doc.IsScalar()
    ensures Check(key, doc, exp) == Ok <==> exp.Leaf? && TagAccepts(exp.tag, doc)
    ensures Check(key, doc, exp) != Ok ==> Check(key, doc, exp) == Mismatch(key, doc, exp)
  {
  }

  /** "string_empty" admits every string, the empty one included. */
  lemma StringEmptyAcceptsEveryString(key: string, s: string)
    ensures Check(key, JString(s), Leaf(StringEmptyTag)) == Ok
  {
  }

  /** "string" rejects the empty string and nothing else. */
  lemma StringRejectsExactlyEmpty(key: string, s: string)
    ensures Check(key, JString(s), Leaf(StringTag)) == Ok <==> s != ""
  {
  }

  /** "number_zero" admits every number, not just zero. */
  lemma NumberZeroAcceptsEveryNumber(key: string, n: real)
    ensures Check(key, JNumber(n), Leaf(NumberZeroTag)) == Ok
  {
  }

  /** "number" rejects zero and nothing else. */
  lemma NumberRejectsExactlyZero(key: string, n: real)
    ensures Check(key, JNumber(n), Leaf(NumberTag)) == Ok <==> n != 0.0
  {
  }

  /** A boolean passes only against "bool", null only against "null". */
  lemma BoolAndNullNeedTheirTag(key: string, b: bool, exp: Expect)
    ensures Check(key, JBool(b), exp) == Ok <==> exp == Leaf(BoolTag)
    ensures Check(key, JNull, exp) == Ok <==> exp == Leaf(NullTag)
  {
  }

  // ----------------------------------------------------------------- arrays

  /** The empty array passes against every expectation. */
  lemma EmptyArrayPassesAnything(key: string, exp: Expect)
    ensures Check(key, JArray([]), exp) == Ok
  {
  }

  /** Elements are checked against the expectation the array itself was
      given, not against what a wrapper holds: an array with a non-empty
      object element never passes against a wrapper. */
  lemma ArrayKeepsWrapper(key: string, vs: seq<Json>, items: seq<Expect>, i: nat)
    requires i < |vs| && vs[i].JObject? && vs[i].fields != map[]
    ensures Check(key, JArray(vs), EArr(items)) != Ok
  {
  }

  // ---------------------------------------------------------------- objects

  /** The empty object passes against every expectation, even a leaf: the
      object loop never runs, so nothing is looked up. */
  lemma EmptyObjectPassesAnything(key: string, exp: Expect)
    ensures Check(key, JObject(map[]), exp) == Ok
  {
  }

  /** A non-empty object crashes against anything but an object expectation;
      against one it passes iff every property passes, and a failure is the
      failure of one of its properties. */
  lemma ObjectOutcome(key: string, m: map<string, Json>, exp: Expect)
    requires m != map[]
    ensures !exp.EObj? ==> Check(key, JObject(m), exp) == Crash(ExpectationNotObject)
    ensures exp.EObj? ==>
      (Check(key, JObject(m), exp) == Ok <==>
         forall k | k in m :: PropertyOutcome(key, k, m[k], exp.props) == Ok)
    ensures exp.EObj? && Check(key, JObject(m), exp) != Ok ==>
      exists k | k in m :: Check(key, JObject(m), exp) == PropertyOutcome(key, k, m[k], exp.props)
  {
  }

  /** A property the expectation does not list makes the object fail; when
      every other property passes, the error is that property, reported
      under the key of the enclosing object. */
  lemma UnknownPropertyReported(key: string, m: map<string, Json>, props: map<string, Expect>, k: string)
    requires k in m && k !in props
    ensures Check(key, JObject(m), EObj(props)) != Ok
    ensures (forall k' | k' in m && k' != k :: PropertyOutcome(key, k', m[k'], props) == Ok) ==>
      Check(key, JObject(m), EObj(props)) == Unknown(k, key)
  {
  }

  /** A property's expectation is unwrapped when it is looked up, before its
      value is inspected: an empty wrapper crashes even for an empty array. */
  lemma EmptyWrapperCrashes(key: string, k: string, v: Json)
    ensures Check(key, JObject(map[k := v]), EObj(map[k := EArr([])])) == Crash(EmptyWrapper)
  {
    assert k in map[k := v];
    ObjectOutcome(key, map[k := v], EObj(map[k := EArr([])]));
  }

  // ------------------------------------------------- required properties

  /** Only the expectation entries for keys the document object has take
      part: two object expectations that agree on those keys give the same
      outcome, error included. */
  lemma OnlyPresentKeysMatter(key: string, m: map<string, Json>, props1: map<string, Expect>,
                              props2: map<string, Expect>)
    requires forall k | k in m :: (k in props1 <==> k in props2)
    requires forall k | k in m && k in props1 :: props1[k] == props2[k]
    ensures Check(key, JObject(m), EObj(props1)) == Check(key, JObject(m), EObj(props2))
  {
    if m != map[] {
      SameLoopOutcome(key, m, props1, props2, m.Keys);
    }
  }

  lemma {:induction false} SameLoopOutcome(parent: string, m: map<string, Json>, props1: map<string, Expect>,
                                          props2: map<string, Expect>, todo: set<string>)
    requires todo <= m.Keys
    requires forall k | k in m :: (k in props1 <==> k in props2)
    requires forall k | k in m && k in props1 :: props1[k] == props2[k]
    ensures CheckProps(parent, m, props1, todo) == CheckProps(parent, m, props2, todo)
    decreases todo
  {
    if todo != {} {
      forall k | k in todo
        ensures CheckProps(parent, m, props1, todo - {k}) == CheckProps(parent, m, props2, todo - {k})
      {
        SameLoopOutcome(parent, m, props1, props2, todo - {k});
      }
    }
  }

  /** Expected properties the document lacks are never reported. */
  lemma MissingPropertiesNotReported(key: string, m: map<string, Json>, props: map<string, Expect>)
    ensures Check(key, JObject(m), EObj(props))
         == Check(key, JObject(m), EObj(map k | k in props && k in m :: props[k]))
  {
    OnlyPresentKeysMatter(key, m, props, map k | k in props && k in m :: props[k]);
  }

  /** Expecting one more property the document does not have changes nothing. */
  lemma ExtraExpectedPropertyChangesNothing(key: string, m: map<string, Json>, props: map<string, Expect>,
                                            k: string, e: Expect)
    requires k !in m
    ensures Check(key, JObject(m), EObj(props[k := e])) == Check(key, JObject(m), EObj(props))
  {
    OnlyPresentKeysMatter(key, m, props[k := e], props);
  }

  /** `big` describes the same shape as `small` with possibly more
      properties expected at any depth. */
  ghost predicate Widens(small: Expect, big: Expect)
    decreases small
  {
    match small
    case Leaf(t) => big == Leaf(t)
    case EObj(ps) =>
      && big.EObj?
      && ps.Keys <= big.props.Keys
      && forall k | k in ps :: Widens(ps[k], big.props[k])
    case EArr(items) =>
      && big.EArr?
      && |big.items| == |items|
      && forall i | 0 <= i < |items| :: Widens(items[i], big.items[i])
  }

  lemma UnwrapWidens(small: Expect, big: Expect)
    requires Widens(small, big)
    requires FirstObjectInArray(small).Unwrapped?
    ensures FirstObjectInArray(big).Unwrapped?
    ensures Widens(FirstObjectInArray(small).exp, FirstObjectInArray(big).exp)
  {
  }

  /** Expecting more properties, anywhere in the tree, never turns a passing
      document into a failing one. */
  lemma {:induction false} WideningKeepsPass(doc: Json, small: Expect, big: Expect)
    requires Widens(small, big) && Conforms(doc, small)
    ensures Conforms(doc, big)
    decreases doc
  {
    match doc
    case JArray(vs) =>
      forall i | 0 <= i < |vs| ensures Conforms(vs[i], big) {
        WideningKeepsPass(vs[i], small, big);
      }
    case JObject(m) =>
      forall k | k in m
        ensures && big.EObj? && k in big.props
                && FirstObjectInArray(big.props[k]).Unwrapped?
                && Conforms(m[k], FirstObjectInArray(big.props[k]).exp)
      {
        UnwrapWidens(small.props[k], big.props[k]);
        WideningKeepsPass(m[k], FirstObjectInArray(small.props[k]).exp, FirstObjectInArray(big.props[k]).exp);
      }
    case _ =>
  }

  /** The same, stated of the matcher. */
  lemma WideningKeepsCheckPassing(key: string, doc: Json, small: Expect, big: Expect)
    requires Widens(small, big) && Check(key, doc, small) == Ok
    ensures Check(key, doc, big) == Ok
  {
    CheckPassesIffConforms(key, doc, small);
    WideningKeepsPass(doc, small, big);
    CheckPassesIffConforms(key, doc, big);
  }

  // ------------------------------------------------------- error labels

  /** The value a type error carries is always a scalar of the document. */
  lemma {:induction false} ScalarAtIsScalar(key: string, doc: Json, k: string, v: Json)
    requires ScalarAt(key, doc, k, v)
    ensures v.IsScalar()
    decreases doc
  {
    match doc
    case JArray(vs) =>
      var i :| 0 <= i < |vs| && ScalarAt(key, vs[i], k, v);
      ScalarAtIsScalar(key, vs[i], k, v);
    case JObject(m) =>
      var p :| p in m && ScalarAt(p, m[p], k, v);
      ScalarAtIsScalar(p, m[p], k, v);
    case _ =>
  }

  // --------------------------------------------------------- unwrapping

  /** Unwrapping happens once: what it yields unwraps to itself, and is
      never a wrapper. */
  lemma UnwrapOnce(e: Expect)
    requires FirstObjectInArray(e).Unwrapped?
    ensures !FirstObjectInArray(e).exp.EArr?
    ensures FirstObjectInArray(FirstObjectInArray(e).exp) == FirstObjectInArray(e)
  {
  }
}
