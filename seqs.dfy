/**
 * Sequence operations that the JavaScript and Python code uses through
 * `Array.prototype.filter`, `map`, `[...new Set(xs)]` and `str.join`,
 * with the facts about them that the rest of the model relies on.
 */
module Seqs {

  /** `s.filter(p)`: the elements satisfying `p`, in their original order. */
  function Filter<T>(s: seq<T>, p: T -> bool): (r: seq<T>)
    ensures |r| <= |s|
    ensures forall i :: 0 <= i < |r| ==> r[i] in s && p(r[i])
    ensures forall i :: 0 <= i < |s| && p(s[i]) ==> s[i] in r
  {
    if s == [] then []
    else Filter(s[..|s| - 1], p) + (if p(s[|s| - 1]) then [s[|s| - 1]] else [])
  }

  /** `s.map(f)`. */
  function Map<T, U>(s: seq<T>, f: T -> U): (r: seq<U>)
    ensures |r| == |s|
    ensures forall i :: 0 <= i < |s| ==> r[i] == f(s[i])
  {
    if s == [] then [] else Map(s[..|s| - 1], f) + [f(s[|s| - 1])]
  }

  predicate NoDup<T(==)>(s: seq<T>) {
    forall i, j :: 0 <= i < j < |s| ==> s[i] != s[j]
  }

  /** Position of the first occurrence of `x` in `s`. */
  function FirstIndex<T(==)>(s: seq<T>, x: T): (k: nat)
    requires x in s
    ensures k < |s| && s[k] == x
    ensures forall i :: 0 <= i < k ==> s[i] != x
  {
    if s[0] == x then 0 else 1 + FirstIndex(s[1..], x)
  }

  /** `s.indexOf(x)` in JavaScript: the first position of `x`, or -1. */
  function IndexOf<T(==)>(s: seq<T>, x: T): (k: int)
    ensures -1 <= k < |s|
    ensures k == -1 <==> x !in s
    ensures k >= 0 ==> s[k] == x && forall i :: 0 <= i < k ==> s[i] != x
  {
    if x in s then FirstIndex(s, x) else -1
  }

  /** The index of the first element satisfying `p`, or -1 when there is none. */
  function FindFirst<T>(s: seq<T>, p: T -> bool): (k: int)
    ensures -1 <= k < |s|
    ensures k == -1 <==> forall i :: 0 <= i < |s| ==> !p(s[i])
    ensures k >= 0 ==> p(s[k]) && forall i :: 0 <= i < k ==> !p(s[i])
  {
    if s == [] then -1
    else if p(s[0]) then 0
    else
      var j := FindFirst(s[1..], p);
      if j == -1 then -1 else j + 1
  }

  /** The first element satisfying `p` is the one `FindFirst` returns. */
  lemma FindFirstIsFirst<T>(s: seq<T>, p: T -> bool, k: int)
    requires 0 <= k < |s| && p(s[k])
    requires forall i :: 0 <= i < k ==> !p(s[i])
    ensures FindFirst(s, p) == k
  {
  }

  /**
   * `[...new Set(s)]`: each distinct element once, in the order of its
   * first occurrence (a JavaScript Set iterates in insertion order).
   */
  function Distinct<T(==)>(s: seq<T>): (r: seq<T>)
    ensures NoDup(r)
    ensures forall i :: 0 <= i < |r| ==> r[i] in s
    ensures forall i :: 0 <= i < |s| ==> s[i] in r
    ensures |r| <= |s|
  {
    if s == [] then []
    else
      var d := Distinct(s[..|s| - 1]);
      if s[|s| - 1] in d then d else d + [s[|s| - 1]]
  }

  /** `a` is `b` with some elements left out, the rest in the same order. */
  predicate IsSubsequence<T(==)>(a: seq<T>, b: seq<T>)
    decreases |b|
  {
    if a == [] then true
    else if b == [] then false
    else if a[|a| - 1] == b[|b| - 1] then IsSubsequence(a[..|a| - 1], b[..|b| - 1])
    else IsSubsequence(a, b[..|b| - 1])
  }

  /** `sep.join(parts)` in Python. */
  function Join(sep: string, parts: seq<string>): (r: string)
    ensures parts == [] ==> r == ""
    ensures |parts| == 1 ==> r == parts[0]
  {
    if parts == [] then ""
    else if |parts| == 1 then parts[0]
    else Join(sep, parts[..|parts| - 1]) + sep + parts[|parts| - 1]
  }

  lemma {:induction false} FilterAppend<T>(a: seq<T>, b: seq<T>, p: T -> bool)
    ensures Filter(a + b, p) == Filter(a, p) + Filter(b, p)
    decreases |b|
  {
    if b == [] {
      assert a + b == a;
    } else {
      var b' := b[..|b| - 1];
      assert (a + b)[..|a + b| - 1] == a + b';
      FilterAppend(a, b', p);
    }
  }

  /** Filtering with a predicate that every element satisfies changes nothing. */
  lemma {:induction false} FilterAllKept<T>(s: seq<T>, p: T -> bool)
    requires forall i :: 0 <= i < |s| ==> p(s[i])
    ensures Filter(s, p) == s
  {
    if s != [] {
      FilterAllKept(s[..|s| - 1], p);
    }
  }

  /** Two predicates that agree pointwise filter alike. */
  lemma {:induction false} FilterCongruent<T>(s: seq<T>, p: T -> bool, q: T -> bool)
    requires forall x :: p(x) == q(x)
    ensures Filter(s, p) == Filter(s, q)
  {
    if s != [] {
      FilterCongruent(s[..|s| - 1], p, q);
    }
  }

  lemma FilterIdempotent<T>(s: seq<T>, p: T -> bool)
    ensures Filter(Filter(s, p), p) == Filter(s, p)
  {
    FilterAllKept(Filter(s, p), p);
  }

  /** Each element occurs in the filtered list as often as in `s` if it passes, else never. */
  lemma {:induction false} FilterMultiplicity<T>(s: seq<T>, p: T -> bool, x: T)
    ensures multiset(Filter(s, p))[x] == if p(x) then multiset(s)[x] else 0
  {
    if s != [] {
      var s' := s[..|s| - 1];
      FilterMultiplicity(s', p, x);
      assert s == s' + [s[|s| - 1]];
    }
  }

  lemma {:induction false} FilterIsSubsequence<T>(s: seq<T>, p: T -> bool)
    ensures IsSubsequence(Filter(s, p), s)
    decreases |s|
  {
    if s != [] {
      var s' := s[..|s| - 1];
      FilterIsSubsequence(s', p);
      assert s == s' + [s[|s| - 1]];
      if !p(s[|s| - 1]) {
        assert Filter(s, p) == Filter(s', p);
        SubsequenceExtend(Filter(s', p), s', s[|s| - 1]);
      } else {
        var r := Filter(s, p);
        assert r == Filter(s', p) + [s[|s| - 1]];
        assert r[..|r| - 1] == Filter(s', p);
      }
    }
  }

  /** A subsequence of `b` is also one of `b` with an element added at the end. */
  lemma {:induction false} SubsequenceExtend<T>(a: seq<T>, b: seq<T>, x: T)
    requires IsSubsequence(a, b)
    ensures IsSubsequence(a, b + [x])
    decreases |b|, 1
  {
    var bx := b + [x];
    assert bx[..|bx| - 1] == b;
    if a != [] && a[|a| - 1] == x {
      // Matching x against a's last element: a[..|a|-1] must be a subsequence of b.
      SubsequenceDropLast(a, b);
    }
  }

  lemma {:induction false} SubsequenceDropLast<T>(a: seq<T>, b: seq<T>)
    requires a != [] && IsSubsequence(a, b)
    ensures IsSubsequence(a[..|a| - 1], b)
    decreases |b|, 0
  {
    var b' := b[..|b| - 1];
    if a[|a| - 1] == b[|b| - 1] {
      SubsequenceExtend(a[..|a| - 1], b', b[|b| - 1]);
      assert b' + [b[|b| - 1]] == b;
    } else {
      SubsequenceDropLast(a, b');
      SubsequenceExtend(a[..|a| - 1], b', b[|b| - 1]);
      assert b' + [b[|b| - 1]] == b;
    }
  }

  /**
   * Two disjoint predicates whose disjunction is `r` split the elements
   * that `r` keeps: their counts add up.
   */
  lemma {:induction false} FilterSplitLength<T>(s: seq<T>, p: T -> bool, q: T -> bool, r: T -> bool)
    requires forall x :: r(x) == (p(x) || q(x))
    requires forall x :: !(p(x) && q(x))
    ensures |Filter(s, r)| == |Filter(s, p)| + |Filter(s, q)|
  {
    if s != [] {
      FilterSplitLength(s[..|s| - 1], p, q, r);
    }
  }

  /** Distinct lists its elements in the order of their first occurrence in `s`. */
  lemma {:induction false} DistinctFirstAppearanceOrder<T>(s: seq<T>, i: int, j: int)
    requires 0 <= i < j < |Distinct(s)|
    ensures FirstIndex(s, Distinct(s)[i]) < FirstIndex(s, Distinct(s)[j])
  {
    var d := Distinct(s);
    var s' := s[..|s| - 1];
    var d' := Distinct(s');
    if s[|s| - 1] in d' {
      assert d == d';
      FirstIndexPrefix(s, s', d[i]);
      FirstIndexPrefix(s, s', d[j]);
      DistinctFirstAppearanceOrder(s', i, j);
    } else {
      FirstIndexPrefix(s, s', d[i]);
      if j < |d'| {
        FirstIndexPrefix(s, s', d[j]);
        DistinctFirstAppearanceOrder(s', i, j);
      } else {
        // d[j] is the last element of s and occurs nowhere earlier.
        assert d[j] == s[|s| - 1] && d[j] !in s';
        forall k | 0 <= k < |s| - 1
          ensures s[k] != d[j]
        {
          assert s[k] == s'[k];
        }
      }
    }
  }

  lemma FirstIndexPrefix<T>(s: seq<T>, s': seq<T>, x: T)
    requires |s'| <= |s| && s' == s[..|s'|] && x in s'
    ensures x in s && FirstIndex(s, x) == FirstIndex(s', x)
  {
    var k' := FirstIndex(s', x);
    assert s[k'] == x;
    forall i | 0 <= i < k'
      ensures s[i] != x
    {
      assert s[i] == s'[i];
    }
  }

  /** Distinct of a list without duplicates is the list itself. */
  lemma {:induction false} DistinctOfNoDup<T>(s: seq<T>)
    requires NoDup(s)
    ensures Distinct(s) == s
  {
    if s != [] {
      DistinctOfNoDup(s[..|s| - 1]);
    }
  }

  /** Two maps with the same keys and the same value at every key are equal. */
  lemma SameEntries<K, V>(g: map<K, V>, h: map<K, V>)
    requires forall b :: b in g <==> b in h
    requires forall b :: b in g ==> g[b] == h[b]
    ensures g == h
  {
  }

  lemma {:induction false} NoDupCountAtMostOne<T>(s: seq<T>, x: T)
    requires NoDup(s)
    ensures multiset(s)[x] <= 1
  {
    if s != [] {
      var s' := s[..|s| - 1];
      assert s == s' + [s[|s| - 1]];
      NoDupCountAtMostOne(s', x);
      if s[|s| - 1] == x {
        assert x !in s';
      }
    }
  }

  lemma RepeatedCountsTwice<T>(s: seq<T>, i: int, j: int)
    requires 0 <= i < j < |s| && s[i] == s[j]
    ensures multiset(s)[s[i]] >= 2
  {
    assert s == s[..j] + s[j..];
    assert s[i] in s[..j];
    assert s[j..][0] == s[i];
  }

  /** A rearrangement of a list without duplicates has none either. */
  lemma NoDupPermutation<T>(a: seq<T>, b: seq<T>)
    requires multiset(a) == multiset(b) && NoDup(b)
    ensures NoDup(a)
  {
    forall i, j | 0 <= i < j < |a|
      ensures a[i] != a[j]
    {
      NoDupCountAtMostOne(b, a[i]);
      if a[i] == a[j] {
        RepeatedCountsTwice(a, i, j);
      }
    }
  }

  lemma FilterMembership<T>(s: seq<T>, p: T -> bool, x: T)
    ensures x in Filter(s, p) <==> x in s && p(x)
  {
    var r := Filter(s, p);
    if x in r {
      var k :| 0 <= k < |r| && r[k] == x;
    }
    if x in s && p(x) {
      var k :| 0 <= k < |s| && s[k] == x;
    }
  }

  lemma DistinctMembership<T>(s: seq<T>, x: T)
    ensures x in Distinct(s) <==> x in s
  {
    var r := Distinct(s);
    if x in r {
      var k :| 0 <= k < |r| && r[k] == x;
    }
    if x in s {
      var k :| 0 <= k < |s| && s[k] == x;
    }
  }

  lemma {:induction false} FilterNoneKept<T>(s: seq<T>, p: T -> bool)
    requires forall i :: 0 <= i < |s| ==> !p(s[i])
    ensures Filter(s, p) == []
  {
    if s != [] {
      FilterNoneKept(s[..|s| - 1], p);
    }
  }

  /** One more element of `s` adds at most its image to `Map(Filter(...))`: the shape of a filtering loop. */
  lemma FilterMapStep<T, U>(s: seq<T>, i: nat, p: T -> bool, f: T -> U)
    requires i < |s|
    ensures Map(Filter(s[..i + 1], p), f) ==
            Map(Filter(s[..i], p), f) + (if p(s[i]) then [f(s[i])] else [])
  {
    var s' := s[..i + 1];
    assert s'[..|s'| - 1] == s[..i];
    var fs := Filter(s[..i], p);
    if p(s[i]) {
      var t := fs + [s[i]];
      assert t[..|t| - 1] == fs;
    }
  }

  /** One more element of `s` extends `Distinct(Map(...))` by its image unless already there. */
  lemma DistinctMapStep<T, U>(s: seq<T>, i: nat, f: T -> U)
    requires i < |s|
    ensures Distinct(Map(s[..i + 1], f)) ==
            if f(s[i]) in Distinct(Map(s[..i], f)) then Distinct(Map(s[..i], f))
            else Distinct(Map(s[..i], f)) + [f(s[i])]
  {
    var s' := s[..i + 1];
    assert s'[..|s'| - 1] == s[..i];
    var m := Map(s', f);
    assert m[..|m| - 1] == Map(s[..i], f);
  }

  /** One more element of `s` adds at most itself to `Filter`: the shape of a filtering loop. */
  lemma FilterStep<T>(s: seq<T>, i: nat, p: T -> bool)
    requires i < |s|
    ensures Filter(s[..i + 1], p) == Filter(s[..i], p) + (if p(s[i]) then [s[i]] else [])
  {
    var s' := s[..i + 1];
    assert s'[..|s'| - 1] == s[..i];
  }

  /** Filtering a list without duplicates leaves none. */
  lemma FilterNoDup<T>(s: seq<T>, p: T -> bool)
    requires NoDup(s)
    ensures NoDup(Filter(s, p))
  {
    var r := Filter(s, p);
    forall i, j | 0 <= i < j < |r|
      ensures r[i] != r[j]
    {
      NoDupCountAtMostOne(s, r[i]);
      FilterMultiplicity(s, p, r[i]);
      if r[i] == r[j] {
        RepeatedCountsTwice(r, i, j);
      }
    }
  }
}
