/**
 * Comparison sorting as the source uses it: JavaScript's `Array.prototype.sort`
 * (with the default order or with a comparator) and Python's `sorted(..., key=...)`.
 * Both are stable, and both are modelled by one stable insertion sort,
 * parametrised by the strict order `less` that decides "goes before".
 */
module Sorting {
  import opened Seqs

  /** `less` is irreflexive and transitive. */
  ghost predicate StrictOrder<T(!new)>(less: (T, T) -> bool) {
    && (forall x :: !less(x, x))
    && (forall x, y, z :: less(x, y) && less(y, z) ==> less(x, z))
  }

  /** Any two different elements are ordered one way or the other. */
  ghost predicate Total<T(!new)>(less: (T, T) -> bool) {
    forall x, y :: x != y ==> less(x, y) || less(y, x)
  }

  /** No element goes strictly before an element to its left. */
  predicate SortedBy<T>(s: seq<T>, less: (T, T) -> bool) {
    forall i, j :: 0 <= i < j < |s| ==> !less(s[j], s[i])
  }

  /** Puts `x` after every element that does not go strictly after it. */
  function Insert<T>(s: seq<T>, x: T, less: (T, T) -> bool): (r: seq<T>)
    ensures multiset(r) == multiset(s) + multiset{x}
    ensures |r| == |s| + 1
  {
    if s == [] then [x]
    else if less(x, s[0]) then [x] + s
    else
      assert s == [s[0]] + s[1..];
      [s[0]] + Insert(s[1..], x, less)
  }

  /** Inserts the elements of `s` one at a time, left to right. */
  function InsertionSort<T>(s: seq<T>, less: (T, T) -> bool): (r: seq<T>)
    ensures multiset(r) == multiset(s)
    ensures |r| == |s|
  {
    if s == [] then []
    else
      assert s == s[..|s| - 1] + [s[|s| - 1]];
      Insert(InsertionSort(s[..|s| - 1], less), s[|s| - 1], less)
  }

  lemma {:induction false} InsertSorted<T(!new)>(s: seq<T>, x: T, less: (T, T) -> bool)
    requires StrictOrder(less) && SortedBy(s, less)
    ensures SortedBy(Insert(s, x, less), less)
  {
    if s != [] && !less(x, s[0]) {
      var t := Insert(s[1..], x, less);
      InsertSorted(s[1..], x, less);
      forall j | 0 <= j < |t|
        ensures !less(t[j], s[0])
      {
        assert t[j] in multiset(t);
        if t[j] != x {
          assert t[j] in multiset(s[1..]);
          assert t[j] in s[1..];
        }
      }
      ConsSorted(s[0], t, less);
    }
  }

  /** Putting in front an element nothing goes strictly before keeps a list sorted. */
  lemma ConsSorted<T>(y: T, t: seq<T>, less: (T, T) -> bool)
    requires SortedBy(t, less)
    requires forall j :: 0 <= j < |t| ==> !less(t[j], y)
    ensures SortedBy([y] + t, less)
  {
    var r := [y] + t;
    forall i, j | 0 <= i < j < |r|
      ensures !less(r[j], r[i])
    {
      if i > 0 {
        assert r[j] == t[j - 1] && r[i] == t[i - 1];
      }
    }
  }

  lemma {:induction false} InsertionSortSorted<T(!new)>(s: seq<T>, less: (T, T) -> bool)
    requires StrictOrder(less)
    ensures SortedBy(InsertionSort(s, less), less)
  {
    if s != [] {
      InsertionSortSorted(s[..|s| - 1], less);
      InsertSorted(InsertionSort(s[..|s| - 1], less), s[|s| - 1], less);
    }
  }

  /** Under a total order, a sorted list without duplicates is strictly increasing. */
  lemma SortedNoDupIsIncreasing<T(!new)>(s: seq<T>, less: (T, T) -> bool)
    requires Total(less) && SortedBy(s, less) && NoDup(s)
    ensures forall i, j :: 0 <= i < j < |s| ==> less(s[i], s[j])
  {
  }

  /** Removing an element that `p` rejects from an insertion leaves the `p`-elements as they were. */
  lemma {:induction false} InsertFilterOther<T>(s: seq<T>, x: T, less: (T, T) -> bool, p: T -> bool)
    requires !p(x)
    ensures Filter(Insert(s, x, less), p) == Filter(s, p)
  {
    if s == [] {
    } else if less(x, s[0]) {
      FilterAppend([x], s, p);
    } else {
      InsertFilterOther(s[1..], x, less, p);
      FilterAppend([s[0]], Insert(s[1..], x, less), p);
      FilterAppend([s[0]], s[1..], p);
      assert [s[0]] + s[1..] == s;
    }
  }

  /** An element that goes strictly before nothing of `s` is appended at the end. */
  lemma {:induction false} InsertLast<T>(s: seq<T>, x: T, less: (T, T) -> bool)
    requires forall i :: 0 <= i < |s| ==> !less(x, s[i])
    ensures Insert(s, x, less) == s + [x]
  {
    if s != [] {
      InsertLast(s[1..], x, less);
      assert [s[0]] + (s[1..] + [x]) == s + [x];
    }
  }

  lemma GoesBeforeNothing<T>(s: seq<T>, x: T, less: (T, T) -> bool, p: T -> bool)
    requires p(x) && forall x, y :: p(x) ==> !less(x, y)
    ensures forall i :: 0 <= i < |s| ==> !less(x, s[i])
  {
  }

  /**
   * Elements that go strictly before nothing keep their relative order
   * through the (stable) insertion sort.
   */
  lemma {:induction false} InsertionSortKeepsGreatest<T>(s: seq<T>, less: (T, T) -> bool, p: T -> bool)
    requires forall x, y :: p(x) ==> !less(x, y)
    ensures Filter(InsertionSort(s, less), p) == Filter(s, p)
  {
    if s != [] {
      var prefix, last := s[..|s| - 1], s[|s| - 1];
      var sortedPrefix := InsertionSort(prefix, less);
      assert s == prefix + [last];
      InsertionSortKeepsGreatest(prefix, less, p);
      FilterAppend(prefix, [last], p);
      assert [last][..0] == [];
      if p(last) {
        GoesBeforeNothing(sortedPrefix, last, less, p);
        InsertLast(sortedPrefix, last, less);
        FilterAppend(sortedPrefix, [last], p);
      } else {
        InsertFilterOther(sortedPrefix, last, less, p);
      }
    }
  }

  /**
   * Under a strict total order there is only one sorted arrangement of a
   * multiset: whichever algorithm sorts, the result is the same.
   */
  lemma {:induction false} SortedUnique<T(!new)>(a: seq<T>, b: seq<T>, less: (T, T) -> bool)
    requires StrictOrder(less) && Total(less)
    requires SortedBy(a, less) && SortedBy(b, less)
    requires multiset(a) == multiset(b)
    ensures a == b
  {
    if a != [] {
      SortedSameFirst(a, b, less);
      DropFirst(a);
      DropFirst(b);
      SortedTail(a, less);
      SortedTail(b, less);
      SortedUnique(a[1..], b[1..], less);
      assert a == [a[0]] + a[1..] && b == [b[0]] + b[1..];
    }
  }

  /** Two sorted arrangements of one non-empty multiset start with the same element. */
  lemma SortedSameFirst<T(!new)>(a: seq<T>, b: seq<T>, less: (T, T) -> bool)
    requires StrictOrder(less) && Total(less)
    requires SortedBy(a, less) && SortedBy(b, less)
    requires multiset(a) == multiset(b) && a != []
    ensures b != [] && a[0] == b[0]
  {
    assert a[0] in multiset(b);
    assert b[0] in multiset(a);
    var i :| 0 <= i < |a| && a[i] == b[0];
    var k :| 0 <= k < |b| && b[k] == a[0];
    assert !less(a[i], a[0]) && !less(b[k], b[0]);
  }

  lemma DropFirst<T>(a: seq<T>)
    requires a != []
    ensures multiset(a[1..]) == multiset(a) - multiset{a[0]}
  {
    assert a == [a[0]] + a[1..];
  }

  lemma SortedTail<T>(a: seq<T>, less: (T, T) -> bool)
    requires SortedBy(a, less) && a != []
    ensures SortedBy(a[1..], less)
  {
  }
}
