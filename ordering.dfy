/** The key/value pairs an object's members are sorted by, and the default
    object-member ordering of the pretty-printer. */
module KeyOrdering {
  import opened Json
  import opened Sorting

  /** SDJSONKeyValuePair: a member's key, its value, and the depth in the
      value tree of the object the member belongs to. */
  datatype KeyValuePair = KeyValuePair(key: string, value: Value, depth: nat)

  /** The shape of objectSortingComparator. */
  type Comparator = (KeyValuePair, KeyValuePair) -> ComparisonResult

  /** Ordinal, case-sensitive comparison of two keys: character codes are
      compared left to right, and a proper prefix comes first. */
  function CompareStrings(a: string, b: string): (r: ComparisonResult)
    ensures r == OrderedSame <==> a == b
  {
    if a == [] && b == [] then OrderedSame
    else if a == [] then OrderedAscending
    else if b == [] then OrderedDescending
    else if a[0] < b[0] then OrderedAscending
    else if a[0] > b[0] then OrderedDescending
    else
      var r := CompareStrings(a[1..], b[1..]);
      assert r == OrderedSame ==> a == [a[0]] + a[1..] == [b[0]] + b[1..] == b;
      r
  }

  lemma {:induction false} CompareStringsAntisymmetric(a: string, b: string)
    ensures CompareStrings(a, b) == Flip(CompareStrings(b, a))
  {
    if a != [] && b != [] && a[0] == b[0] {
      CompareStringsAntisymmetric(a[1..], b[1..]);
    }
  }

  lemma {:induction false} CompareStringsTransitive(a: string, b: string, c: string)
    requires CompareStrings(a, b) != OrderedDescending
    requires CompareStrings(b, c) != OrderedDescending
    ensures CompareStrings(a, c) != OrderedDescending
  {
    if a != [] && b != [] && c != [] && a[0] == b[0] == c[0] {
      CompareStringsTransitive(a[1..], b[1..], c[1..]);
    }
  }

  /** Which key comes first: after a common prefix of length k, a key that
      ends there comes before a longer one, and otherwise the characters at
      position k decide. */
  lemma {:induction false} CompareStringsDecidedAt(a: string, b: string, k: nat)
    requires k <= |a| && k <= |b| && a[..k] == b[..k]
    ensures k == |a| && k < |b| ==> CompareStrings(a, b) == OrderedAscending
    ensures k < |a| && k == |b| ==> CompareStrings(a, b) == OrderedDescending
    ensures k < |a| && k < |b| && a[k] < b[k] ==> CompareStrings(a, b) == OrderedAscending
    ensures k < |a| && k < |b| && a[k] > b[k] ==> CompareStrings(a, b) == OrderedDescending
  {
    if k > 0 {
      assert a[0] == a[..k][0] && b[0] == b[..k][0];
      assert a[1..][..k - 1] == a[..k][1..] && b[1..][..k - 1] == b[..k][1..];
      CompareStringsDecidedAt(a[1..], b[1..], k - 1);
    }
  }

  /** The value is an array that the one-liner test accepts. */
  predicate IsOneLinerArray(oneLiner: seq<Value> -> bool, v: Value) {
    v.Array? && oneLiner(v.elems)
  }

  /** The value is an array printed as a block, one element per line. */
  predicate IsBlockArray(oneLiner: seq<Value> -> bool, v: Value) {
    v.Array? && !oneLiner(v.elems)
  }

  /** A boolean, number or string: the values no documented rule ranks. */
  predicate IsPrimitive(v: Value) {
    v.Bool? || v.Number? || v.Str?
  }

  /** The groups of the default ordering, first to last. */
  const OneLinerArrayTier: nat := 0
  const NullTier: nat := 1
  const ObjectTier: nat := 2
  const BlockArrayTier: nat := 3
  /** Booleans, numbers and strings are ranked by none of the documented
      rules; this model places them with the one-liner arrays, so that
      among single-line values only the key decides. */
  const ScalarTier: nat := 0

  /** The group of a member's value in the default ordering. */
  function Tier(oneLiner: seq<Value> -> bool, v: Value): nat {
    match v
    case Array(es) => if oneLiner(es) then OneLinerArrayTier else BlockArrayTier
    case Null => NullTier
    case Object(_) => ObjectTier
    case _ => ScalarTier
  }

  /** The default objectSortingComparator, for any one-liner test. */
  function DefaultCompare(oneLiner: seq<Value> -> bool, a: KeyValuePair, b: KeyValuePair): (r: ComparisonResult)
    // rule 1: a block array comes after any value that is not one, and the
    // other way round
    ensures IsBlockArray(oneLiner, a.value) && !IsBlockArray(oneLiner, b.value) ==> r == OrderedDescending
    ensures !IsBlockArray(oneLiner, a.value) && IsBlockArray(oneLiner, b.value) ==> r == OrderedAscending
    // rule 2, as read here: an object comes before a block array
    ensures a.value.Object? && IsBlockArray(oneLiner, b.value) ==> r == OrderedAscending
    // rule 3: null comes before an object, and the other way round
    ensures a.value.Null? && b.value.Object? ==> r == OrderedAscending
    ensures a.value.Object? && b.value.Null? ==> r == OrderedDescending
    // rule 4: a one-liner array comes before null, and the other way round
    ensures IsOneLinerArray(oneLiner, a.value) && b.value.Null? ==> r == OrderedAscending
    ensures a.value.Null? && IsOneLinerArray(oneLiner, b.value) ==> r == OrderedDescending
    // rule 5: values of one group are ordered by their keys
    ensures Tier(oneLiner, a.value) == Tier(oneLiner, b.value) ==> r == CompareStrings(a.key, b.key)
    ensures r == OrderedSame <==> a.key == b.key && Tier(oneLiner, a.value) == Tier(oneLiner, b.value)
  {
    var ta, tb := Tier(oneLiner, a.value), Tier(oneLiner, b.value);
    if ta < tb then OrderedAscending
    else if ta > tb then OrderedDescending
    else CompareStrings(a.key, b.key)
  }

  /** The default comparator as the value stored in objectSortingComparator. */
  function DefaultComparator(oneLiner: seq<Value> -> bool): Comparator {
    (a, b) => DefaultCompare(oneLiner, a, b)
  }

  lemma DefaultCompareAntisymmetric(oneLiner: seq<Value> -> bool, a: KeyValuePair, b: KeyValuePair)
    ensures DefaultCompare(oneLiner, a, b) == Flip(DefaultCompare(oneLiner, b, a))
  {
    CompareStringsAntisymmetric(a.key, b.key);
  }

  lemma DefaultCompareTransitive(oneLiner: seq<Value> -> bool, a: KeyValuePair, b: KeyValuePair, c: KeyValuePair)
    requires DefaultCompare(oneLiner, a, b) != OrderedDescending
    requires DefaultCompare(oneLiner, b, c) != OrderedDescending
    ensures DefaultCompare(oneLiner, a, c) != OrderedDescending
    ensures DefaultCompare(oneLiner, a, b) == OrderedAscending || DefaultCompare(oneLiner, b, c) == OrderedAscending
            ==> DefaultCompare(oneLiner, a, c) == OrderedAscending
  {
    if Tier(oneLiner, a.value) == Tier(oneLiner, b.value) == Tier(oneLiner, c.value) {
      CompareStringsTransitive(a.key, b.key, c.key);
      CompareStringsAntisymmetric(a.key, b.key);
      CompareStringsAntisymmetric(b.key, c.key);
    }
  }

  /** The default comparator is a total preorder, for every one-liner
      test, so sorting by it leaves members sorted. */
  lemma DefaultComparatorTotalPreorder(oneLiner: seq<Value> -> bool)
    ensures TotalPreorder(DefaultComparator(oneLiner))
  {
    var cmp := DefaultComparator(oneLiner);
    forall a, b ensures cmp(a, b) == Flip(cmp(b, a)) {
      DefaultCompareAntisymmetric(oneLiner, a, b);
    }
    forall a, b, c | cmp(a, b) != OrderedDescending && cmp(b, c) != OrderedDescending
      ensures cmp(a, c) != OrderedDescending
    {
      DefaultCompareTransitive(oneLiner, a, b, c);
    }
  }

  /** Members sorted by the default comparator: groups in ascending order,
      block arrays at the end, and keys ascending within a group, strictly
      between distinct keys. */
  lemma DefaultSortedLayout(oneLiner: seq<Value> -> bool, s: seq<KeyValuePair>)
    requires Sorted(DefaultComparator(oneLiner), s)
    ensures forall i, j :: 0 <= i < j < |s| ==> Tier(oneLiner, s[i].value) <= Tier(oneLiner, s[j].value)
    ensures forall i, j :: 0 <= i < j < |s| && IsBlockArray(oneLiner, s[i].value) ==> IsBlockArray(oneLiner, s[j].value)
    ensures forall i, j :: 0 <= i < j < |s| && Tier(oneLiner, s[i].value) == Tier(oneLiner, s[j].value)
                           ==> CompareStrings(s[i].key, s[j].key) != OrderedDescending
    ensures forall i, j :: (0 <= i < j < |s| && Tier(oneLiner, s[i].value) == Tier(oneLiner, s[j].value)
                            && s[i].key != s[j].key) ==> CompareStrings(s[i].key, s[j].key) == OrderedAscending
  {
    forall i, j | 0 <= i < j < |s|
      ensures Tier(oneLiner, s[i].value) <= Tier(oneLiner, s[j].value)
    {
      assert DefaultComparator(oneLiner)(s[i], s[j]) != OrderedDescending;
    }
  }

  /** Applied literally and in sequence, the five documented rules do not
      give an order: rule 4 puts a one-liner array before null, rule 3 puts
      null before an object, and rule 2 puts the object before the array.
      The default comparator therefore reads rule 2 as concerning block
      arrays only (its second clause). */
  function LiteralRuleCompare(oneLiner: seq<Value> -> bool, a: KeyValuePair, b: KeyValuePair): ComparisonResult {
    var va, vb := a.value, b.value;
    if IsBlockArray(oneLiner, va) && !IsBlockArray(oneLiner, vb) then OrderedDescending
    else if !IsBlockArray(oneLiner, va) && IsBlockArray(oneLiner, vb) then OrderedAscending
    else if va.Object? && vb.Array? then OrderedAscending
    else if va.Array? && vb.Object? then OrderedDescending
    else if va.Null? && vb.Object? then OrderedAscending
    else if va.Object? && vb.Null? then OrderedDescending
    else if va.Array? && vb.Null? then OrderedAscending
    else if va.Null? && vb.Array? then OrderedDescending
    else CompareStrings(a.key, b.key)
  }

  /** The cycle the literal reading produces. */
  lemma LiteralRulesCycle()
    ensures var a, n, o := KeyValuePair("a", Array([]), 0), KeyValuePair("n", Null, 0), KeyValuePair("o", Object([]), 0);
            && LiteralRuleCompare(IsOneLiner, a, n) == OrderedAscending
            && LiteralRuleCompare(IsOneLiner, n, o) == OrderedAscending
            && LiteralRuleCompare(IsOneLiner, a, o) == OrderedDescending
            && !Transitive((x, y) => LiteralRuleCompare(IsOneLiner, x, y))
  {
    var a, n, o := KeyValuePair("a", Array([]), 0), KeyValuePair("n", Null, 0), KeyValuePair("o", Object([]), 0);
    var cmp := (x, y) => LiteralRuleCompare(IsOneLiner, x, y);
    assert cmp(a, n) != OrderedDescending && cmp(n, o) != OrderedDescending && cmp(a, o) == OrderedDescending;
  }

  /** The default comparator departs from the literal reading on two kinds
      of pairs only: a one-liner array against an object, where the literal
      reading is cyclic, and a boolean, number or string against null or an
      object, which the literal reading orders by key and the default
      comparator by group. */
  lemma DefaultAgreesWithLiteralRules(oneLiner: seq<Value> -> bool, a: KeyValuePair, b: KeyValuePair)
    requires !(IsOneLinerArray(oneLiner, a.value) && b.value.Object?)
    requires !(a.value.Object? && IsOneLinerArray(oneLiner, b.value))
    requires !(IsPrimitive(a.value) && (b.value.Null? || b.value.Object?))
    requires !(IsPrimitive(b.value) && (a.value.Null? || a.value.Object?))
    ensures DefaultCompare(oneLiner, a, b) == LiteralRuleCompare(oneLiner, a, b)
  {
  }
}
