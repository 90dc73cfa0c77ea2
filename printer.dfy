/** SDJSONPrettyPrint: the members of every object in the tree are ordered by
    the printer's objectSortingComparator, and the tree is then written out as
    JSON text. */
module PrettyPrint {
  import opened Json
  import opened Sorting
  import opened KeyOrdering
  import opened JsonText
  import opened JsonParser
  import opened TextRoundTrip

  /** The key/value pairs the comparator is handed for an object at depth
      `depth`, in the order the object holds its members. */
  function Entries(ms: seq<Member>, depth: nat): (r: seq<KeyValuePair>)
    ensures |r| == |ms|
    ensures forall i :: 0 <= i < |ms| ==> r[i].key == ms[i].key && r[i].value == ms[i].value && r[i].depth == depth
  {
    seq(|ms|, i requires 0 <= i < |ms| => KeyValuePair(ms[i].key, ms[i].value, depth))
  }

  /** A member as it is sorted: its pair for the comparator, the member as it
      is printed, and its position in the object. */
  datatype Tagged = Tagged(entry: KeyValuePair, printed: Member, index: nat)

  /** Tagged members compare as their pairs do. */
  function ByEntry(cmp: Comparator): (Tagged, Tagged) -> ComparisonResult {
    (a: Tagged, b: Tagged) => cmp(a.entry, b.entry)
  }

  function Tags(cmp: Comparator, ms: seq<Member>, depth: nat): (r: seq<Tagged>)
    ensures |r| == |ms|
    decreases ms, 0
  {
    seq(|ms|, i requires 0 <= i < |ms| =>
      Tagged(KeyValuePair(ms[i].key, ms[i].value, depth),
             Member(ms[i].key, SortTree(cmp, ms[i].value, depth + 1)), i))
  }

  /** The tree as it is printed: at every depth, an object's members in the
      order the comparator puts their pairs (pairs of an object at depth d
      carry depth d, its members' values are at depth d + 1, and so are an
      array's elements); everything else as it is. */
  function SortTree(cmp: Comparator, v: Value, depth: nat): (r: Value)
    ensures IsScalar(v) ==> r == v
    ensures v.Array? <==> r.Array?
    ensures v.Array? ==> |r.elems| == |v.elems|
    ensures v.Object? <==> r.Object?
    ensures v.Object? ==> |r.members| == |v.members|
    decreases v, 1
  {
    match v
    case Array(es) => Array(seq(|es|, i requires 0 <= i < |es| => SortTree(cmp, es[i], depth + 1)))
    case Object(ms) =>
      var sorted := SortBy(ByEntry(cmp), Tags(cmp, ms, depth));
      Object(Map((t: Tagged) => t.printed, sorted))
    case _ => v
  }

  lemma EntriesOfTags(cmp: Comparator, ms: seq<Member>, depth: nat)
    ensures Map((t: Tagged) => t.entry, Tags(cmp, ms, depth)) == Entries(ms, depth)
  {
  }

  /** Every sorted member is one of the object's tagged members. */
  lemma SortedTagOrigin(cmp: Comparator, ms: seq<Member>, depth: nat, j: int) returns (i: int)
    requires 0 <= j < |ms|
    ensures 0 <= i < |ms|
    ensures SortBy(ByEntry(cmp), Tags(cmp, ms, depth))[j] == Tags(cmp, ms, depth)[i]
  {
    var tags := Tags(cmp, ms, depth);
    var sorted := SortBy(ByEntry(cmp), tags);
    SortPermutes(ByEntry(cmp), tags);
    assert sorted[j] in multiset(tags);
    i :| 0 <= i < |tags| && tags[i] == sorted[j];
  }

  /** Sorting an object's members sorts its pairs: the members printed
      follow the pairs as the comparator orders them, each value printed
      with its own objects ordered one level deeper. */
  lemma ObjectMembersFollowEntries(cmp: Comparator, ms: seq<Member>, depth: nat)
    ensures var r, se := SortTree(cmp, Object(ms), depth).members, SortBy(cmp, Entries(ms, depth));
            |r| == |se| &&
            forall j :: 0 <= j < |r| ==> r[j].key == se[j].key && r[j].value == SortTree(cmp, se[j].value, depth + 1)
  {
    var tags := Tags(cmp, ms, depth);
    var sorted := SortBy(ByEntry(cmp), tags);
    var entry := (t: Tagged) => t.entry;
    MapSortCommutes(entry, ByEntry(cmp), cmp, tags);
    EntriesOfTags(cmp, ms, depth);
    SortPermutes(ByEntry(cmp), tags);
    var se := SortBy(cmp, Entries(ms, depth));
    assert Map(entry, sorted) == se;
    var r := SortTree(cmp, Object(ms), depth).members;
    forall j | 0 <= j < |r|
      ensures r[j].key == se[j].key && r[j].value == SortTree(cmp, se[j].value, depth + 1)
    {
      var i := SortedTagOrigin(cmp, ms, depth, j);
      assert r[j] == sorted[j].printed;
      assert se[j] == sorted[j].entry;
    }
  }

  /** The pairs sorted are exactly the object's key/value pairs, each as
      often as in the object, and each carries the object's depth. */
  lemma SortedEntriesOfObject(cmp: Comparator, ms: seq<Member>, depth: nat)
    ensures var se := SortBy(cmp, Entries(ms, depth));
            multiset(se) == multiset(Entries(ms, depth)) &&
            forall j :: 0 <= j < |se| ==> se[j].depth == depth
  {
    var e := Entries(ms, depth);
    var se := SortBy(cmp, e);
    SortPermutes(cmp, e);
    forall j | 0 <= j < |se| ensures se[j].depth == depth {
      assert se[j] in multiset(e);
    }
  }

  /** A comparator that is a total preorder leaves every object's pairs
      sorted by it. */
  lemma SortedByComparator(cmp: Comparator, ms: seq<Member>, depth: nat)
    requires TotalPreorder(cmp)
    ensures Sorted(cmp, SortBy(cmp, Entries(ms, depth)))
  {
    SortSorted(cmp, Entries(ms, depth));
  }

  /** A comparator that calls all pairs the same prints members in the
      order the object holds them. */
  lemma OrderKeptWhenAllSame(cmp: Comparator, ms: seq<Member>, depth: nat)
    requires forall a, b :: cmp(a, b) == OrderedSame
    ensures var r := SortTree(cmp, Object(ms), depth).members;
            forall j :: 0 <= j < |r| ==> r[j] == Member(ms[j].key, SortTree(cmp, ms[j].value, depth + 1))
  {
    var tags := Tags(cmp, ms, depth);
    forall a, b ensures ByEntry(cmp)(a, b) == OrderedSame {
      assert ByEntry(cmp)(a, b) == cmp(a.entry, b.entry);
    }
    SortStableWhenAllSame(ByEntry(cmp), tags);
  }

  /** The keys of an object are pairwise different, as in a dictionary. */
  predicate DistinctKeys(ms: seq<Member>) {
    forall i, j :: 0 <= i < j < |ms| ==> ms[i].key != ms[j].key
  }

  /** Ordering an array's elements leaves its one-liner status alone, so
      every value keeps its group in the default ordering. */
  lemma SortTreeKeepsTier(cmp: Comparator, v: Value, depth: nat)
    ensures Tier(IsOneLiner, SortTree(cmp, v, depth)) == Tier(IsOneLiner, v)
  {
    if v.Array? {
      var es, rs := v.elems, SortTree(cmp, v, depth).elems;
      forall i | 0 <= i < |es| ensures IsScalar(rs[i]) <==> IsScalar(es[i]) {
        assert rs[i] == SortTree(cmp, es[i], depth + 1);
      }
    }
  }

  /** With the default comparator and distinct keys, the pairs of an object
      come out in strictly ascending order: groups ascending, block arrays
      last, and keys strictly ascending within a group. */
  lemma DefaultOrderOfEntries(ms: seq<Member>, depth: nat)
    requires DistinctKeys(ms)
    ensures var se := SortBy(DefaultComparator(IsOneLiner), Entries(ms, depth));
            && (forall i, j :: 0 <= i < j < |se| ==> DefaultCompare(IsOneLiner, se[i], se[j]) == OrderedAscending)
            && (forall i, j :: 0 <= i < j < |se| ==> Tier(IsOneLiner, se[i].value) <= Tier(IsOneLiner, se[j].value))
            && (forall i, j :: 0 <= i < j < |se| && IsBlockArray(IsOneLiner, se[i].value)
                  ==> IsBlockArray(IsOneLiner, se[j].value))
            && (forall i, j :: 0 <= i < j < |se| && Tier(IsOneLiner, se[i].value) == Tier(IsOneLiner, se[j].value)
                  ==> CompareStrings(se[i].key, se[j].key) == OrderedAscending)
  {
    var cmp := DefaultComparator(IsOneLiner);
    var e := Entries(ms, depth);
    var se := SortBy(cmp, e);
    DefaultComparatorTotalPreorder(IsOneLiner);
    SortSorted(cmp, e);
    DefaultSortedLayout(IsOneLiner, se);
    SortPermutes(cmp, e);
    assert Distinct(e) by {
      forall i, j | 0 <= i < j < |e| ensures e[i] != e[j] {
        assert e[i].key == ms[i].key && e[j].key == ms[j].key;
      }
    }
    SortKeepsDistinct(cmp, e);
    forall i, j | 0 <= i < j < |se| ensures se[i].key != se[j].key {
      assert se[i] in multiset(e) && se[j] in multiset(e);
      var a :| 0 <= a < |e| && e[a] == se[i];
      var b :| 0 <= b < |e| && e[b] == se[j];
      assert a != b;
    }
    forall i, j | 0 <= i < j < |se| ensures cmp(se[i], se[j]) == OrderedAscending {
      assert cmp(se[i], se[j]) != OrderedDescending;
    }
  }

  /** With distinct keys, the default order of an object's pairs is the
      only one: every arrangement of exactly those pairs that the default
      comparator calls sorted is the one this sort returns, whichever sort
      algorithm produced it. */
  lemma DefaultOrderUnique(ms: seq<Member>, depth: nat, t: seq<KeyValuePair>)
    requires DistinctKeys(ms)
    requires multiset(t) == multiset(Entries(ms, depth))
    requires Sorted(DefaultComparator(IsOneLiner), t)
    ensures t == SortBy(DefaultComparator(IsOneLiner), Entries(ms, depth))
  {
    var cmp := DefaultComparator(IsOneLiner);
    var e := Entries(ms, depth);
    DefaultComparatorTotalPreorder(IsOneLiner);
    SortSorted(cmp, e);
    SortPermutes(cmp, e);
    assert SameOnlyIfEqual(cmp, t) by {
      forall a, b | a in t && b in t && cmp(a, b) == OrderedSame ensures a == b {
        assert a in multiset(e) && b in multiset(e);
        var i :| 0 <= i < |e| && e[i] == a;
        var j :| 0 <= j < |e| && e[j] == b;
        assert ms[i].key == ms[j].key;
      }
    }
    SortedUnique(cmp, t, SortBy(cmp, e));
  }

  /** What the default printer writes for an object with distinct keys:
      members grouped one-liner arrays and scalars, then nulls, then
      objects, then block arrays, and ascending by key within a group. */
  lemma DefaultPrintedOrder(ms: seq<Member>, depth: nat)
    requires DistinctKeys(ms)
    ensures var r := SortTree(DefaultComparator(IsOneLiner), Object(ms), depth).members;
            && (forall i, j :: 0 <= i < j < |r| ==> Tier(IsOneLiner, r[i].value) <= Tier(IsOneLiner, r[j].value))
            && (forall i, j :: 0 <= i < j < |r| && Tier(IsOneLiner, r[i].value) == Tier(IsOneLiner, r[j].value)
                  ==> CompareStrings(r[i].key, r[j].key) == OrderedAscending)
  {
    var cmp := DefaultComparator(IsOneLiner);
    var r := SortTree(cmp, Object(ms), depth).members;
    var se := SortBy(cmp, Entries(ms, depth));
    ObjectMembersFollowEntries(cmp, ms, depth);
    DefaultOrderOfEntries(ms, depth);
    forall j | 0 <= j < |r| ensures Tier(IsOneLiner, r[j].value) == Tier(IsOneLiner, se[j].value) {
      SortTreeKeepsTier(cmp, se[j].value, depth + 1);
    }
  }

  /** p takes each position 0 .. n - 1 exactly once. */
  ghost predicate IsIndexPermutation(p: seq<int>, n: nat) {
    |p| == n && (forall j :: 0 <= j < |p| ==> 0 <= p[j] < n) && Distinct(p)
  }

  /** The same JSON tree up to the order of object members: arrays agree
      element by element, and the members of w's objects are those of v's
      objects, rearranged by a permutation. */
  ghost predicate SameUpToMemberOrder(v: Value, w: Value)
    decreases v
  {
    match v
    case Array(es) =>
      w.Array? && |w.elems| == |es| && forall i :: 0 <= i < |es| ==> SameUpToMemberOrder(es[i], w.elems[i])
    case Object(ms) =>
      w.Object? && |w.members| == |ms| &&
      exists p :: IsIndexPermutation(p, |ms|) &&
        forall j :: 0 <= j < |ms| ==>
          w.members[j].key == ms[p[j]].key && SameUpToMemberOrder(ms[p[j]].value, w.members[j].value)
    case _ => w == v
  }

  /** Ordering the members changes nothing but their order. */
  lemma {:induction false} SortTreeSame(cmp: Comparator, v: Value, depth: nat)
    ensures SameUpToMemberOrder(v, SortTree(cmp, v, depth))
    decreases v
  {
    match v
    case Array(es) =>
      var rs := SortTree(cmp, v, depth).elems;
      forall i | 0 <= i < |es| ensures SameUpToMemberOrder(es[i], rs[i]) {
        SortTreeSame(cmp, es[i], depth + 1);
      }
    case Object(ms) =>
      var tags := Tags(cmp, ms, depth);
      var sorted := SortBy(ByEntry(cmp), tags);
      var r := SortTree(cmp, v, depth).members;
      var p := Map((t: Tagged) => t.index as int, sorted);
      SortPermutes(ByEntry(cmp), tags);
      assert Distinct(tags) by {
        forall a, b | 0 <= a < b < |tags| ensures tags[a] != tags[b] {
          assert tags[a].index == a && tags[b].index == b;
        }
      }
      SortKeepsDistinct(ByEntry(cmp), tags);
      forall j | 0 <= j < |ms|
        ensures 0 <= p[j] < |ms| && r[j] == Member(ms[p[j]].key, SortTree(cmp, ms[p[j]].value, depth + 1))
      {
        var i := SortedTagOrigin(cmp, ms, depth, j);
        assert sorted[j].index == i;
        assert r[j] == sorted[j].printed;
      }
      forall a, b | 0 <= a < b < |p| ensures p[a] != p[b] {
        var i := SortedTagOrigin(cmp, ms, depth, a);
        var k := SortedTagOrigin(cmp, ms, depth, b);
        assert sorted[a] != sorted[b];
      }
      forall j | 0 <= j < |ms| ensures SameUpToMemberOrder(ms[p[j]].value, r[j].value) {
        SortTreeSame(cmp, ms[p[j]].value, depth + 1);
      }
      assert IsIndexPermutation(p, |ms|);
    case _ =>
  }

  /** The text the printer writes for v with comparator cmp. */
  function Render(layout: Layout, cmp: Comparator, v: Value): string
    requires ValidLayout(layout)
  {
    Emit(layout, SortTree(cmp, v, 0), 0)
  }

  /** The text is JSON that reads back as the input tree, with only the
      order of object members (and the whitespace) changed. */
  lemma RenderRoundTrip(layout: Layout, cmp: Comparator, v: Value)
    requires ValidLayout(layout)
    ensures Parse(Render(layout, cmp, v)) == Some(SortTree(cmp, v, 0))
    ensures SameUpToMemberOrder(v, SortTree(cmp, v, 0))
  {
    EmitRoundTrip(layout, SortTree(cmp, v, 0));
    SortTreeSame(cmp, v, 0);
  }

  /** The indentation of one nesting level. */
  function DefaultLayout(): (r: Layout)
    ensures ValidLayout(r)
  {
    assert AllWhitespace([' ', ' ']);
    Layout("  ")
  }

  /** SDJSONPrettyPrint. */
  class PrettyPrinter {
    /** The ordering of each object's members; the default one when the
        printer is created, and any comparator assigned to it after. */
    var objectSortingComparator: Comparator

    /** A printer with the default configuration. */
    constructor ()
      ensures objectSortingComparator == DefaultComparator(IsOneLiner)
    {
      objectSortingComparator := DefaultComparator(IsOneLiner);
    }

    /** -stringFromJSONObject: the JSON text of the tree, members ordered by
        this printer's comparator. */
    method StringFromJSONObject(jsonObject: Value) returns (s: string)
      ensures s == Render(DefaultLayout(), objectSortingComparator, jsonObject)
      ensures Parse(s) == Some(SortTree(objectSortingComparator, jsonObject, 0))
      ensures exists t :: Parse(s) == Some(t) && SameUpToMemberOrder(jsonObject, t)
    {
      s := Render(DefaultLayout(), objectSortingComparator, jsonObject);
      RenderRoundTrip(DefaultLayout(), objectSortingComparator, jsonObject);
    }

    /** +stringFromJSONObject: the same call on a printer with the default
        configuration. */
    static method StringFromJSONObjectByDefault(jsonObject: Value) returns (s: string)
      ensures s == Render(DefaultLayout(), DefaultComparator(IsOneLiner), jsonObject)
      ensures exists t :: Parse(s) == Some(t) && SameUpToMemberOrder(jsonObject, t)
    {
      var printer := new PrettyPrinter();
      s := printer.StringFromJSONObject(jsonObject);
    }
  }
}
