/** The tree of JSON-compatible values that the pretty-printer receives.
    Foundation's runtime classes (NSNull, NSNumber, NSString, NSArray,
    NSDictionary) become the constructors of one datatype. */
module Json {

  /** One JSON value. Numbers are integers; an object keeps its members in
      the order they were handed over, which carries no meaning. */
  datatype Value =
    | Null
    | Bool(b: bool)
    | Number(n: int)
    | Str(s: string)
    | Array(elems: seq<Value>)
    | Object(members: seq<Member>)

  /** One key/value member of an object. */
  datatype Member = Member(key: string, value: Value)

  /** Null, booleans, numbers and strings: values with no children. */
  predicate IsScalar(v: Value) {
    v.Null? || v.Bool? || v.Number? || v.Str?
  }

  /** The structural one-liner test: an array all of whose elements are
      scalars. The ordering lemmas do not depend on this choice; they hold
      for any one-liner predicate. */
  predicate IsOneLiner(elems: seq<Value>) {
    forall i :: 0 <= i < |elems| ==> IsScalar(elems[i])
  }
}
