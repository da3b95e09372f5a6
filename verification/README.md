# JSON response-shape matcher

A Dafny model of `JsonValidator` from the bchd RPC proxy. It checks that a decoded JSON document has the shape that a hand-built expectation tree describes.

The document is a string, number, bool, null, array or string-keyed object (`JsonShapes.Json`). The expectation tree (`JsonShapes.Expect`) is built from three kinds of node:

- leaf tags: `"string"`, `"string_empty"`, `"number"`, `"number_zero"`, `"bool"`, `"null"`;
- object descriptions;
- array wrappers (a Go slice whose first object is the element shape).

The matcher walks the document top-down. It starts under the key `"root"`. It stops at the first problem.

Files:

- `json.dfy` (module `JsonShapes`): the two trees, the tag vocabulary, and `ScalarAt`/`PropUnder`, which say where in a document an error's labels come from.
- `validator.dfy` (module `Validator`): the matcher. `Check` is the recursive walk. `CheckElems` is the array loop. `CheckProps` and `PropertyOutcome` are the object loop and one of its turns. `FirstObjectInArray` is the wrapper helper, and `RequiredPropertiesExist` is the required-property pass.
- `conformance.dfy` (module `Conformance`): `Conforms`, a declarative reference that does not depend on visiting order, and the proof that the matcher passes exactly the documents that conform. It also holds the entry point.
- `properties.dfy` (module `Properties`): per-kind rules, the consequences of the required-property pass never failing, and monotonicity under widening the expectation.
- `scenarios.dfy` (module `Scenarios`): concrete documents with their outcomes.

The outcome (`Validator.Outcome`) is one of:

- `Ok`;
- `Mismatch(key, value, expected)`: the "… prop does not meet expected type" errors;
- `Unknown(prop, parent)`: the "unknown … prop" errors;
- `Crash(cause)`: the source panics here instead of returning an error.

There are three crash causes:

- `expect.(D)` on an expectation that is not an object;
- `.([]D)` on a wrapper that is a slice of some other element type;
- `[0]` on an empty `[]D`.

Go visits map keys in an unspecified order. The model picks the next key with `:|`, so no lemma depends on which key comes first. Failures of objects are stated existentially: the outcome is the failure of *some* property.

Where the code and its doc comment (lines 20-29) disagree, the model follows the code:

- **`"string_empty"` accepts every string.** The doc comment says it means an empty string.
- **Missing expected properties are never reported.** The doc comment says they are checked, but the loop in `checkRequiredPropertiesExist` only breaks.

The doc comment agrees with the code on `"number_zero"`: it is a number that may be zero, and the code accepts every number under it. Only the tag's name suggests zero alone.

The doc comment says nothing about array wrappers. Two behaviours of the code are easy to miss:

- **Unwrapping happens only when a property's expectation is looked up.** A document property whose expectation is an empty wrapper crashes at the `[0]` index, whatever its value (`Properties.EmptyWrapperCrashes`). A wrapper reached any other way is never indexed. At the top level, `"x"` against an empty wrapper is an ordinary string mismatch, and `[]` passes.
- **Array elements are checked against the wrapper itself, not against the object inside it.** So a top-level wrapper never passes an array that holds a non-empty object (`Properties.ArrayKeepsWrapper`). The check crashes when the first failing element is a non-empty object (`Scenarios.WrapperAtRootCrashes`). An earlier scalar element, as in `[1, {"a": 1}]`, gives a mismatch instead. Empty objects, and so `[{}]` and `[]`, still pass, because no lookup happens for them. The same wrapper under a property is unwrapped at lookup, and then it works (`Scenarios.WrapperUnderPropertyPasses`).

## Model

| member | source | states |
|---|---|---|
| Validator.Check | bchrpc/proxy/jsonvalidator.go:31-98 | A type error carries a scalar that occurs in the document together with the key directly above it: the starting key if no object encloses it (arrays keep the key), otherwise the innermost enclosing property's name, never a joined path; an unknown-property error names a property of an object in the document together with the key that object was found under |
| Validator.CheckElems | bchrpc/proxy/jsonvalidator.go:55-62 | An array passes iff every element passes under the same key against the same, unchanged expectation; otherwise the outcome is that of the first failing element, all earlier ones having passed |
| Validator.PropertyOutcome | bchrpc/proxy/jsonvalidator.go:70-76 | A type error from one property turn carries a scalar of the property's value under its innermost key, which is the property name when no deeper object encloses it; an unknown-property error is either this property under the enclosing key, or one found inside the value with its own parent key |
| Validator.CheckProps | bchrpc/proxy/jsonvalidator.go:69-77 | The object loop passes iff every visited property passes; otherwise its outcome is the failure of some visited property, whichever order the keys are taken in |
| Validator.RequiredPropertiesExist | bchrpc/proxy/jsonvalidator.go:100-134 | The required-property pass never fails, whatever the document lacks; its effect on the walk is stated by Properties.MissingPropertiesNotReported and Properties.OnlyPresentKeysMatter |
| Validator.FirstObjectInArray | bchrpc/proxy/jsonvalidator.go:136-145 | A non-wrapper comes back unchanged; a wrapper yields its first item, which is an object; it crashes at the `.([]D)` assertion exactly when the wrapper holds a non-object, and at the `[0]` index exactly when it is empty |
| Conformance.CheckPassesIffConforms | bchrpc/proxy/jsonvalidator.go:31-98 | The matcher passes a document iff it conforms to the expectation in the order-independent sense of `Conforms`, in both directions |
| Conformance.PropertyPassesIffConforms | bchrpc/proxy/jsonvalidator.go:70-76 | A property passes iff it is expected, its expectation unwraps without crashing, and its value conforms to the unwrapped expectation |
| Conformance.VerdictIgnoresKey | bchrpc/proxy/jsonvalidator.go:31-98 | Whether a document passes does not depend on the key it is checked under; keys only label errors |
| Conformance.FailureIsReal | bchrpc/proxy/jsonvalidator.go:31-98 | Every reported failure is a genuine violation at the place it names. A type error carries a scalar with the expectation it fails there. An unknown property is one the enclosing object expectation lacks. A crash is a non-empty object against a non-object, or a property whose wrapper cannot be unwrapped. Violations inside arrays and property values are found recursively |
| Conformance.RealFailureFails | bchrpc/proxy/jsonvalidator.go:31-98 | Conversely, a genuine violation anywhere in the document makes the check fail |
| Conformance.CheckExpectedResponseFormat | bchrpc/proxy/jsonvalidator.go:16-18 | The entry point passes exactly the conforming documents; every failure it reports is a genuine violation under "root"; a type error carries a scalar of the document with "root" or its innermost enclosing property name, and an unknown-property error carries a document property with "root" or its enclosing property name |
| Properties.ScalarOutcome | bchrpc/proxy/jsonvalidator.go:32-54 | A scalar passes iff the expectation is a leaf whose tag admits it; otherwise, whatever the expectation's shape, the error is a mismatch carrying the current key, the value and the expectation |
| Properties.StringEmptyAcceptsEveryString | bchrpc/proxy/jsonvalidator.go:36-37 | "string_empty" accepts every string, the empty one included |
| Properties.StringRejectsExactlyEmpty | bchrpc/proxy/jsonvalidator.go:34-39 | "string" accepts a string iff it is non-empty |
| Properties.NumberZeroAcceptsEveryNumber | bchrpc/proxy/jsonvalidator.go:51-52 | "number_zero" accepts every number, not only zero |
| Properties.NumberRejectsExactlyZero | bchrpc/proxy/jsonvalidator.go:48-54 | "number" accepts a number iff it is not zero |
| Properties.BoolAndNullNeedTheirTag | bchrpc/proxy/jsonvalidator.go:40-47 | A boolean passes iff the expectation is "bool"; null passes iff it is "null" |
| Properties.EmptyArrayPassesAnything | bchrpc/proxy/jsonvalidator.go:55-62 | An empty array passes against every expectation |
| Properties.ArrayKeepsWrapper | bchrpc/proxy/jsonvalidator.go:57-61 | An array holding a non-empty object never passes against a wrapper, because elements meet the wrapper, not its content |
| Properties.EmptyObjectPassesAnything | bchrpc/proxy/jsonvalidator.go:63-77 | An empty object passes against every expectation, even a leaf, since no lookup happens |
| Properties.ObjectOutcome | bchrpc/proxy/jsonvalidator.go:63-77 | A non-empty object crashes against a non-object expectation; against an object expectation it passes iff every property passes, else the outcome is some property's failure |
| Properties.UnknownPropertyReported | bchrpc/proxy/jsonvalidator.go:70-73 | A property absent from the expectation makes the object fail; if it is the only failing property the error is Unknown(that property, enclosing key) |
| Properties.EmptyWrapperCrashes | bchrpc/proxy/jsonvalidator.go:136-141 | A property expected as an empty wrapper crashes, whatever its value, because unwrapping happens at lookup |
| Properties.OnlyPresentKeysMatter | bchrpc/proxy/jsonvalidator.go:100-134 | Two object expectations that agree on the document's keys give the same outcome, error included |
| Properties.SameLoopOutcome | bchrpc/proxy/jsonvalidator.go:69-77 | The object loop's outcome depends only on the expectation entries of the keys it visits |
| Properties.MissingPropertiesNotReported | bchrpc/proxy/jsonvalidator.go:100-134 | Dropping every expected property the document lacks leaves the outcome unchanged: a missing property is never reported |
| Properties.ExtraExpectedPropertyChangesNothing | bchrpc/proxy/jsonvalidator.go:100-134 | Adding to an object expectation a property the document lacks leaves the outcome unchanged |
| Properties.ScalarAtIsScalar | bchrpc/proxy/jsonvalidator.go:39-54 | The value a type error carries is always a scalar, as only the four scalar branches return that error |
| Properties.UnwrapWidens | bchrpc/proxy/jsonvalidator.go:136-145 | Unwrapping a widened expectation succeeds when unwrapping the original does, and the results are again in the widening relation |
| Properties.WideningKeepsPass | bchrpc/proxy/jsonvalidator.go:63-92 | A document conforming to an expectation conforms to every widening of it, one expecting more properties at any depth |
| Properties.WideningKeepsCheckPassing | bchrpc/proxy/jsonvalidator.go:63-92 | Expecting more properties anywhere never turns a pass into a failure |
| Properties.UnwrapOnce | bchrpc/proxy/jsonvalidator.go:136-145 | A successful unwrap never yields a wrapper, and unwrapping its result again changes nothing |
| Scenarios.AllPropertiesPresentPasses | bchrpc/proxy/jsonvalidator.go:63-77 | {"a": 1, "b": "x"} passes against {"a": "number", "b": "string"} |
| Scenarios.UnexpectedPropertyReported | bchrpc/proxy/jsonvalidator.go:69-73 | {"a": 1, "c": "x"} against the same expectation gives Unknown("c", "root") |
| Scenarios.MissingRequiredPropertyPasses | bchrpc/proxy/jsonvalidator.go:100-134 | {"a": 1} against the same expectation passes although "b" is missing |
| Scenarios.WrapperAtRootCrashes | bchrpc/proxy/jsonvalidator.go:57-70 | An array of non-empty objects against a top-level wrapper of objects crashes at the type assertion |
| Scenarios.WrapperUnderPropertyPasses | bchrpc/proxy/jsonvalidator.go:74 | The same array and wrapper under a property pass, since the lookup unwraps |
| Scenarios.NestedErrorNamesInnermostProperty | bchrpc/proxy/jsonvalidator.go:74 | An error two levels down carries only the innermost property name |
| Scenarios.ScalarAtRootReportedUnderRoot | bchrpc/proxy/jsonvalidator.go:17 | A failing scalar document is reported under "root" |

## Left out

- Message text: the `fmt.Sprintf` strings are reduced to the fields of `Mismatch` and `Unknown`. The two spellings "unknown interface{} prop" and "unknown D prop" become one variant.
- Diagnostic printing: the `fmt.Printf`/`fmt.Sprintf` calls in the default branches only log.
- The "unknown kind passes" default of the type switch. Once `Json` is a closed datatype, it cannot be reached.
- Floating point: numbers are `real`, and only the comparison with zero is modelled. NaN, which passes `"number"` in Go, and negative zero, which fails it, have no counterpart.
- Two Go map types: `map[string]interface{}` and `D` are one case, both in the document and in the expectation. In the source, a generic-map expectation crashes at the `expect.(D)` assertion (lines 70 and 85) when the document object is non-empty. A `D` document against a generic-map expectation that has at least one key crashes earlier, in the required-property pass (line 106), even if the document object is empty. After the merge neither case arises.
- Slice element types: a wrapper counts as a `[]D` exactly when all its items are objects. A Go `[]interface{}` that holds only `D` values therefore has no separate counterpart. In Go it panics at the `.([]D)` assertion (line 140). The model treats it as a `[]D`, so unwrapping succeeds.
- A `nil` expectation: `Expect` has no nil case. In Go, `reflect.TypeOf(nil).Kind()` would panic in the wrapper helper.
- `reflect`: the wrapper test is a match on `EArr`. The element type of a Go slice is represented by whether every item is an object.
- `NewValidator` and the empty `JsonValidator` struct: these are plumbing with no state.
- JSON decoding, the definition of `D`, and the surrounding proxy/RPC code are not part of this model.
- Which error is reported when several properties fail: Go leaves this to map iteration order, and the model states only that it is one of them.
- Properties.OnlyPresentKeysMatter: it compares the two runs when both visit keys in the same order. Go may pick different orders in two runs. For the pass/fail verdict alone, `Conformance.CheckPassesIffConforms` makes the order irrelevant.
