/**
 The two trees a response-shape check works on: an already-decoded JSON
 document and the hand-built expectation tree it is compared against.
 */
module JsonShapes {

  /** A decoded JSON document. The two Go map kinds a decoder can produce
      (a generic string map and the named map type `D`) are one case here,
      `JObject`; numbers are the decoder's floating-point values, of which
      only the comparison with zero matters. */
  datatype Json =
    | JString(s: string)
    | JNumber(n: real)
    | JBool(b: bool)
    | JNull
    | JArray(elems: seq<Json>)
    | JObject(fields: map<string, Json>)
  {
    /** True of the four kinds that carry no children. */
    predicate IsScalar() {
      JString? || JNumber? || JBool? || JNull?
    }
  }

  /** An expectation node: a leaf tag, an object description (the Go type
      `D`), or an array wrapper (a Go slice). A wrapper whose items are all
      objects stands for a `[]D`; any other item makes it a slice of some
      other element type. A Go `[]interface{}` holding only `D` values cannot
      be told apart from a `[]D` here. */
  datatype Expect =
    | Leaf(tag: string)
    | EObj(props: map<string, Expect>)
    | EArr(items: seq<Expect>)

  /** The leaf-tag vocabulary. Any other tag string matches nothing. */
  const StringTag := "string"
  const StringEmptyTag := "string_empty"
  const NumberTag := "number"
  const NumberZeroTag := "number_zero"
  const BoolTag := "bool"
  const NullTag := "null"

  /** The key the entry point reports for the document itself. */
  const RootKey := "root"

  /** The scalar `v` sits in `doc` (found under `key`) directly under the
      key `k`: `k` is `key` when `doc` is that scalar, the same key for an
      array element, and the name of the innermost property holding it. */
  ghost predicate ScalarAt(key: string, doc: Json, k: string, v: Json)
    decreases doc
  {
    match doc
    case JArray(vs) => exists i | 0 <= i < |vs| :: ScalarAt(key, vs[i], k, v)
    case JObject(m) => exists p | p in m :: ScalarAt(p, m[p], k, v)
    case _ => k == key && v == doc
  }

  /** `p` is a property of an object in `doc` (found under `key`), and
      `parent` is the key under which that object was found: `key` for
      `doc` itself or an element of it, else the enclosing property name. */
  ghost predicate PropUnder(key: string, doc: Json, p: string, parent: string)
    decreases doc
  {
    match doc
    case JArray(vs) => exists i | 0 <= i < |vs| :: PropUnder(key, vs[i], p, parent)
    case JObject(m) => (p in m && parent == key) || exists q | q in m :: PropUnder(q, m[q], p, parent)
    case _ => false
  }
}
