/**
 Concrete documents and expectations, each with the outcome the matcher
 gives them from the entry point.
 */
module Scenarios {
  import opened JsonShapes
  import opened Validator
  import opened Conformance
  import opened Properties

  const ExpectAB := EObj(map["a" := Leaf(NumberTag), "b" := Leaf(StringTag)])

  /** {"a": 1, "b": "x"} against {"a": "number", "b": "string"} passes. */
  lemma AllPropertiesPresentPasses()
    ensures CheckExpectedResponseFormat(JObject(map["a" := JNumber(1.0), "b" := JString("x")]), ExpectAB) == Ok
  {
  }

  /** {"a": 1, "c": "x"} against the same expectation reports "c" as an
      unknown property under "root". */
  lemma UnexpectedPropertyReported()
    ensures CheckExpectedResponseFormat(JObject(map["a" := JNumber(1.0), "c" := JString("x")]), ExpectAB)
         == Unknown("c", RootKey)
  {
    var m := map["a" := JNumber(1.0), "c" := JString("x")];
    assert PropertyOutcome(RootKey, "a", m["a"], ExpectAB.props) == Ok;
    UnknownPropertyReported(RootKey, m, ExpectAB.props, "c");
  }

  /** {"a": 1} against the same expectation passes although "b" is missing. */
  lemma MissingRequiredPropertyPasses()
    ensures CheckExpectedResponseFormat(JObject(map["a" := JNumber(1.0)]), ExpectAB) == Ok
  {
  }

  const ExpectA := EObj(map["a" := Leaf(NumberTag)])
  const Items := JArray([JObject(map["a" := JNumber(1.0)]), JObject(map["a" := JNumber(2.0)])])

  /** [{"a": 1}, {"a": 2}] against the wrapper [{"a": "number"}] at the top
      level crashes: the elements meet the wrapper itself, not the object in
      it. */
  lemma WrapperAtRootCrashes()
    ensures CheckExpectedResponseFormat(Items, EArr([ExpectA])) == Crash(ExpectationNotObject)
  {
    assert "a" in Items.elems[0].fields;
    assert Check(RootKey, Items.elems[0], EArr([ExpectA])) == Crash(ExpectationNotObject);
  }

  /** The same array under a property is unwrapped at lookup and passes. */
  lemma WrapperUnderPropertyPasses()
    ensures CheckExpectedResponseFormat(JObject(map["list" := Items]), EObj(map["list" := EArr([ExpectA])])) == Ok
  {
  }

  /** An error deep inside the document names only the innermost property,
      not a path to it. */
  lemma NestedErrorNamesInnermostProperty()
    ensures CheckExpectedResponseFormat(
              JObject(map["outer" := JObject(map["inner" := JString("")])]),
              EObj(map["outer" := EObj(map["inner" := Leaf(StringTag)])]))
         == Mismatch("inner", JString(""), Leaf(StringTag))
  {
    var inner := map["inner" := JString("")];
    assert "inner" in inner;
    ObjectOutcome("outer", inner, EObj(map["inner" := Leaf(StringTag)]));
    var outer := map["outer" := JObject(inner)];
    assert "outer" in outer;
    ObjectOutcome(RootKey, outer, EObj(map["outer" := EObj(map["inner" := Leaf(StringTag)])]));
  }

  /** A scalar document is reported under "root". */
  lemma ScalarAtRootReportedUnderRoot()
    ensures CheckExpectedResponseFormat(JString(""), Leaf(StringTag)) == Mismatch(RootKey, JString(""), Leaf(StringTag))
  {
  }
}
