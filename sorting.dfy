/** Comparator-driven sorting with an NSComparator-style comparator: a
    comparison returns ascending, same or descending. The sort is modelled
    as a stable sort, so members the comparator calls the same keep the
    order they were handed over in. */
module Sorting {

  /** NSComparisonResult. */
  datatype ComparisonResult = OrderedAscending | OrderedSame | OrderedDescending

  /** The answer with its arguments swapped. */
  function Flip(r: ComparisonResult): ComparisonResult {
    match r
    case OrderedAscending => OrderedDescending
    case OrderedSame => OrderedSame
    case OrderedDescending => OrderedAscending
  }

  /** Swapping the arguments of a comparator flips its answer. */
  ghost predicate Antisymmetric<T(!new)>(cmp: (T, T) -> ComparisonResult) {
    forall a, b :: cmp(a, b) == Flip(cmp(b, a))
  }

  /** "Not descending" is transitive. */
  ghost predicate Transitive<T(!new)>(cmp: (T, T) -> ComparisonResult) {
    forall a, b, c :: cmp(a, b) != OrderedDescending && cmp(b, c) != OrderedDescending
                      ==> cmp(a, c) != OrderedDescending
  }

  /** A comparator that a sort can rely on: a total preorder. */
  ghost predicate TotalPreorder<T(!new)>(cmp: (T, T) -> ComparisonResult) {
    Antisymmetric(cmp) && Transitive(cmp)
  }

  /** No element is descending relative to a later one. */
  ghost predicate Sorted<T>(cmp: (T, T) -> ComparisonResult, s: seq<T>) {
    forall i, j :: 0 <= i < j < |s| ==> cmp(s[i], s[j]) != OrderedDescending
  }

  /** The elementwise image of a sequence. */
  function Map<T, U>(f: T -> U, s: seq<T>): (r: seq<U>)
    ensures |r| == |s|
    ensures forall i :: 0 <= i < |s| ==> r[i] == f(s[i])
  {
    if s == [] then [] else [f(s[0])] + Map(f, s[1..])
  }

  /** Puts x in front of the first element it is not descending from. */
  function Insert<T>(cmp: (T, T) -> ComparisonResult, x: T, s: seq<T>): (r: seq<T>)
    ensures |r| == |s| + 1
  {
    if s == [] then [x]
    else if cmp(x, s[0]) == OrderedDescending then [s[0]] + Insert(cmp, x, s[1..])
    else [x] + s
  }

  /** Stable insertion sort: each element goes in front of the equal
      elements that came after it. */
  function SortBy<T>(cmp: (T, T) -> ComparisonResult, s: seq<T>): (r: seq<T>)
    ensures |r| == |s|
  {
    if s == [] then [] else Insert(cmp, s[0], SortBy(cmp, s[1..]))
  }

  lemma {:induction false} InsertPermutes<T>(cmp: (T, T) -> ComparisonResult, x: T, s: seq<T>)
    ensures multiset(Insert(cmp, x, s)) == multiset(s) + multiset{x}
  {
    if s != [] && cmp(x, s[0]) == OrderedDescending {
      InsertPermutes(cmp, x, s[1..]);
      assert s == [s[0]] + s[1..];
    }
  }

  /** Sorting only rearranges: the result has exactly the input's elements,
      each as often as in the input. */
  lemma {:induction false} SortPermutes<T>(cmp: (T, T) -> ComparisonResult, s: seq<T>)
    ensures multiset(SortBy(cmp, s)) == multiset(s)
    ensures |SortBy(cmp, s)| == |s|
  {
    if s != [] {
      SortPermutes(cmp, s[1..]);
      InsertPermutes(cmp, s[0], SortBy(cmp, s[1..]));
      assert s == [s[0]] + s[1..];
    }
    assert |multiset(SortBy(cmp, s))| == |multiset(s)|;
  }

  /** Sorting by a comparator that only looks at f of its arguments
      commutes with f. */
  lemma {:induction false} MapSortCommutes<T, U>(f: T -> U, cmp: (T, T) -> ComparisonResult,
                                                 cmpU: (U, U) -> ComparisonResult, s: seq<T>)
    requires forall a, b :: cmp(a, b) == cmpU(f(a), f(b))
    ensures Map(f, SortBy(cmp, s)) == SortBy(cmpU, Map(f, s))
  {
    if s != [] {
      MapSortCommutes(f, cmp, cmpU, s[1..]);
      assert Map(f, s)[1..] == Map(f, s[1..]);
      MapInsertCommutes(f, cmp, cmpU, s[0], SortBy(cmp, s[1..]));
    }
  }

  lemma {:induction false} MapInsertCommutes<T, U>(f: T -> U, cmp: (T, T) -> ComparisonResult,
                                                   cmpU: (U, U) -> ComparisonResult, x: T, s: seq<T>)
    requires forall a, b :: cmp(a, b) == cmpU(f(a), f(b))
    ensures Map(f, Insert(cmp, x, s)) == Insert(cmpU, f(x), Map(f, s))
  {
    if s != [] {
      assert Map(f, s)[1..] == Map(f, s[1..]);
      if cmp(x, s[0]) == OrderedDescending {
        MapInsertCommutes(f, cmp, cmpU, x, s[1..]);
      }
    }
  }

  lemma {:induction false} InsertSorted<T(!new)>(cmp: (T, T) -> ComparisonResult, x: T, s: seq<T>)
    requires TotalPreorder(cmp)
    requires Sorted(cmp, s)
    ensures Sorted(cmp, Insert(cmp, x, s))
  {
    if s != [] {
      if cmp(x, s[0]) == OrderedDescending {
        InsertSorted(cmp, x, s[1..]);
        InsertPermutes(cmp, x, s[1..]);
        ConsSorted(cmp, s[0], Insert(cmp, x, s[1..]), s[1..], x);
      } else {
        FrontSorted(cmp, x, s);
      }
    }
  }

  /** s0 goes in front of a sorted permutation of t with x added, when it
      is not descending from x or from any element of t. */
  lemma ConsSorted<T(!new)>(cmp: (T, T) -> ComparisonResult, s0: T, tail: seq<T>, t: seq<T>, x: T)
    requires TotalPreorder(cmp)
    requires Sorted(cmp, [s0] + t)
    requires Sorted(cmp, tail)
    requires multiset(tail) == multiset(t) + multiset{x}
    requires cmp(x, s0) == OrderedDescending
    ensures Sorted(cmp, [s0] + tail)
  {
    assert cmp(s0, x) != OrderedDescending;
    forall j | 0 <= j < |tail| ensures cmp(s0, tail[j]) != OrderedDescending {
      assert tail[j] in multiset(tail);
      if tail[j] != x {
        assert tail[j] in multiset(t);
        var k :| 0 <= k < |t| && t[k] == tail[j];
        assert ([s0] + t)[0] == s0 && ([s0] + t)[k + 1] == tail[j];
      }
    }
    var r := [s0] + tail;
    forall i, j | 0 <= i < j < |r| ensures cmp(r[i], r[j]) != OrderedDescending {
      if i == 0 {
        assert r[j] == tail[j - 1];
      } else {
        assert r[i] == tail[i - 1] && r[j] == tail[j - 1];
      }
    }
  }

  /** x goes in front of a sorted s when it is not descending from s's
      first element. */
  lemma FrontSorted<T(!new)>(cmp: (T, T) -> ComparisonResult, x: T, s: seq<T>)
    requires TotalPreorder(cmp)
    requires Sorted(cmp, s)
    requires s != [] && cmp(x, s[0]) != OrderedDescending
    ensures Sorted(cmp, [x] + s)
  {
    var r := [x] + s;
    forall i, j | 0 <= i < j < |r| ensures cmp(r[i], r[j]) != OrderedDescending {
      if i == 0 {
        assert r[j] == s[j - 1];
        if j > 1 {
          assert cmp(s[0], s[j - 1]) != OrderedDescending;
        }
      } else {
        assert r[i] == s[i - 1] && r[j] == s[j - 1];
      }
    }
  }

  /** With a total preorder, the sort's result is sorted. */
  lemma {:induction false} SortSorted<T(!new)>(cmp: (T, T) -> ComparisonResult, s: seq<T>)
    requires TotalPreorder(cmp)
    ensures Sorted(cmp, SortBy(cmp, s))
  {
    if s != [] {
      SortSorted(cmp, s[1..]);
      InsertSorted(cmp, s[0], SortBy(cmp, s[1..]));
    }
  }

  /** A comparator that calls every pair the same leaves the order alone:
      the sort is stable. */
  lemma {:induction false} SortStableWhenAllSame<T>(cmp: (T, T) -> ComparisonResult, s: seq<T>)
    requires forall a, b :: cmp(a, b) == OrderedSame
    ensures SortBy(cmp, s) == s
  {
    if s != [] {
      SortStableWhenAllSame(cmp, s[1..]);
      assert s == [s[0]] + s[1..];
    }
  }

  /** No element occurs twice. */
  ghost predicate Distinct<T>(s: seq<T>) {
    forall i, j :: 0 <= i < j < |s| ==> s[i] != s[j]
  }

  lemma {:induction false} DistinctOnce<T>(s: seq<T>, x: T)
    requires Distinct(s)
    ensures multiset(s)[x] <= 1
  {
    if s != [] {
      assert s == [s[0]] + s[1..];
      assert Distinct(s[1..]) by {
        forall i, j | 0 <= i < j < |s[1..]| ensures s[1..][i] != s[1..][j] {
          assert s[1..][i] == s[i + 1] && s[1..][j] == s[j + 1];
        }
      }
      DistinctOnce(s[1..], x);
      if x == s[0] {
        assert x !in s[1..] by {
          forall k | 0 <= k < |s[1..]| ensures s[1..][k] != x {
            assert s[1..][k] == s[k + 1];
          }
        }
      }
    }
  }

  lemma RepeatedTwice<T>(s: seq<T>, i: int, j: int)
    requires 0 <= i < j < |s| && s[i] == s[j]
    ensures multiset(s)[s[i]] >= 2
  {
    assert s == s[..j] + s[j..];
    assert s[i] == s[..j][i];
    assert s[j] == s[j..][0];
  }

  /** Sorting a sequence without repetitions produces none. */
  lemma SortKeepsDistinct<T>(cmp: (T, T) -> ComparisonResult, s: seq<T>)
    requires Distinct(s)
    ensures Distinct(SortBy(cmp, s))
  {
    var r := SortBy(cmp, s);
    SortPermutes(cmp, s);
    forall i, j | 0 <= i < j < |r| ensures r[i] != r[j] {
      if r[i] == r[j] {
        RepeatedTwice(r, i, j);
        DistinctOnce(s, r[i]);
        assert false;
      }
    }
  }

  /** The comparator calls no two different elements of `t` the same. */
  ghost predicate SameOnlyIfEqual<T>(cmp: (T, T) -> ComparisonResult, t: seq<T>) {
    forall a, b :: a in t && b in t && cmp(a, b) == OrderedSame ==> a == b
  }

  /** Two sorted arrangements of the same elements are the same sequence,
      when the comparator calls no two different elements the same. */
  lemma {:induction false} SortedUnique<T(!new)>(cmp: (T, T) -> ComparisonResult, t: seq<T>, u: seq<T>)
    requires Antisymmetric(cmp) && SameOnlyIfEqual(cmp, t)
    requires Sorted(cmp, t) && Sorted(cmp, u)
    requires multiset(t) == multiset(u)
    ensures t == u
  {
    assert |u| == |t| by {
      assert |multiset(u)| == |multiset(t)|;
    }
    if t != [] {
      SortedSameFirst(cmp, t, u);
      SortedTails(cmp, t, u);
      SortedUnique(cmp, t[1..], u[1..]);
      assert t == [t[0]] + t[1..] && u == [u[0]] + u[1..];
    }
  }

  /** Dropping a common first element keeps what `SortedUnique` needs. */
  lemma SortedTails<T>(cmp: (T, T) -> ComparisonResult, t: seq<T>, u: seq<T>)
    requires SameOnlyIfEqual(cmp, t)
    requires Sorted(cmp, t) && Sorted(cmp, u)
    requires multiset(t) == multiset(u)
    requires t != [] && u != [] && t[0] == u[0]
    ensures SameOnlyIfEqual(cmp, t[1..])
    ensures Sorted(cmp, t[1..]) && Sorted(cmp, u[1..])
    ensures multiset(t[1..]) == multiset(u[1..])
  {
    TailMultiset(t);
    TailMultiset(u);
    SortedTail(cmp, t);
    SortedTail(cmp, u);
    forall a, b | a in t[1..] && b in t[1..] && cmp(a, b) == OrderedSame ensures a == b {
      assert a in t && b in t;
    }
  }

  lemma SortedSameFirst<T(!new)>(cmp: (T, T) -> ComparisonResult, t: seq<T>, u: seq<T>)
    requires Antisymmetric(cmp) && SameOnlyIfEqual(cmp, t)
    requires Sorted(cmp, t) && Sorted(cmp, u)
    requires multiset(t) == multiset(u)
    requires t != [] && u != []
    ensures t[0] == u[0]
  {
    assert t[0] in multiset(u) && u[0] in multiset(t);
    var k :| 0 <= k < |u| && u[k] == t[0];
    var m :| 0 <= m < |t| && t[m] == u[0];
    assert cmp(u[0], t[0]) != OrderedDescending by {
      if k > 0 {
        assert cmp(u[0], u[k]) != OrderedDescending;
      }
    }
    assert cmp(t[0], u[0]) != OrderedDescending by {
      if m > 0 {
        assert cmp(t[0], t[m]) != OrderedDescending;
      }
    }
    assert cmp(t[0], u[0]) == Flip(cmp(u[0], t[0]));
    assert u[0] in t;
  }

  lemma TailMultiset<T>(t: seq<T>)
    requires t != []
    ensures multiset(t[1..]) == multiset(t) - multiset{t[0]}
  {
    assert t == [t[0]] + t[1..];
  }

  lemma SortedTail<T>(cmp: (T, T) -> ComparisonResult, t: seq<T>)
    requires Sorted(cmp, t) && t != []
    ensures Sorted(cmp, t[1..])
  {
    forall i, j | 0 <= i < j < |t[1..]| ensures cmp(t[1..][i], t[1..][j]) != OrderedDescending {
      assert t[1..][i] == t[i + 1] && t[1..][j] == t[j + 1];
    }
  }
}
