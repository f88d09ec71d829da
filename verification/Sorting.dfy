/**
  A stable sort of a sequence by an integer key: the meaning of SQL's
  `ORDER BY key ASC` when rows with equal keys keep their table order.
 */
module Sorting {

  predicate SortedBy<T>(s: seq<T>, key: T -> int)
  {
    forall i, j :: 0 <= i < j < |s| ==> key(s[i]) <= key(s[j])
  }

  /** The first `n` elements, or all of them when there are fewer (SQL `LIMIT n`). */
  function Take<T>(s: seq<T>, n: nat): (r: seq<T>)
    ensures |r| == if n < |s| then n else |s|
    ensures forall i :: 0 <= i < |r| ==> r[i] == s[i]
  {
    if n < |s| then s[..n] else s
  }

  /** Every element of `r` is `x` or an element of `s`, so a bound on both bounds `r`. */
  lemma KeysBounded<T>(r: seq<T>, s: seq<T>, x: T, key: T -> int, bound: int)
    requires multiset(r) == multiset(s) + multiset{x}
    requires forall i :: 0 <= i < |s| ==> key(s[i]) <= bound
    requires key(x) <= bound
    ensures forall i :: 0 <= i < |r| ==> key(r[i]) <= bound
  {
    forall i | 0 <= i < |r| ensures key(r[i]) <= bound {
      assert r[i] in multiset(r);
      if r[i] != x {
        assert r[i] in multiset(s);
        var j :| 0 <= j < |s| && s[j] == r[i];
      }
    }
  }

  /** Puts `x` after every element of the sorted `s` whose key is at most `key(x)`. */
  function InsertBy<T>(x: T, s: seq<T>, key: T -> int): (r: seq<T>)
    requires SortedBy(s, key)
    ensures SortedBy(r, key)
    ensures multiset(r) == multiset(s) + multiset{x}
    ensures (forall i :: 0 <= i < |s| ==> key(s[i]) <= key(x)) ==> r == s + [x]
  {
    if |s| == 0 then
      [x]
    else
      var last := s[|s| - 1];
      var init := s[..|s| - 1];
      assert s == init + [last];
      if key(x) < key(last) then
        var r' := InsertBy(x, init, key);
        KeysBounded(r', init, x, key, key(last));
        assert multiset(r' + [last]) == multiset(r') + multiset{last};
        r' + [last]
      else
        s + [x]
  }

  /** Stable insertion sort, ascending by `key`. */
  function SortBy<T>(s: seq<T>, key: T -> int): (r: seq<T>)
    ensures SortedBy(r, key)
    ensures multiset(r) == multiset(s)
    ensures |r| == |s|
  {
    if |s| == 0 then
      []
    else
      var init := s[..|s| - 1];
      assert s == init + [s[|s| - 1]];
      var r := InsertBy(s[|s| - 1], SortBy(init, key), key);
      assert |multiset(r)| == |multiset(s)|;
      r
  }

  /** The sorted sequence holds exactly the elements of the input. */
  lemma SortByKeepsElements<T>(s: seq<T>, key: T -> int)
    ensures forall i :: 0 <= i < |SortBy(s, key)| ==> SortBy(s, key)[i] in s
    ensures forall x :: x in s ==> x in SortBy(s, key)
  {
    var r := SortBy(s, key);
    forall i | 0 <= i < |r| ensures r[i] in s {
      assert r[i] in multiset(r);
    }
    forall x | x in s ensures x in r {
      assert x in multiset(s);
    }
  }

  /** Cutting a sorted sequence keeps the smallest keys: whatever is cut off is no smaller than what is kept. */
  lemma TakeOfSortedKeepsLeast<T>(t: seq<T>, key: T -> int, n: nat, x: T)
    requires SortedBy(t, key) && x in t && x !in Take(t, n)
    ensures forall i :: 0 <= i < |Take(t, n)| ==> key(Take(t, n)[i]) <= key(x)
  {
    var j :| 0 <= j < |t| && t[j] == x;
    assert j >= |Take(t, n)|;
  }

  /** Sorting a sequence is inserting its last element into the sorted rest. */
  lemma SortBySnoc<T>(init: seq<T>, x: T, key: T -> int)
    ensures SortBy(init + [x], key) == InsertBy(x, SortBy(init, key), key)
  {
    var s := init + [x];
    assert s[..|s| - 1] == init;
  }

  /** Sorting an already sorted sequence changes nothing: equal keys keep their order. */
  lemma {:induction false} SortBySortedIsIdentity<T>(s: seq<T>, key: T -> int)
    requires SortedBy(s, key)
    ensures SortBy(s, key) == s
  {
    if |s| > 0 {
      var last := s[|s| - 1];
      var init := s[..|s| - 1];
      assert s == init + [last];
      SortBySortedIsIdentity(init, key);
      SortBySnoc(init, last, key);
    }
  }

  /** No element occurs twice. */
  predicate Distinct<T(==)>(s: seq<T>)
  {
    forall i, j :: 0 <= i < j < |s| ==> s[i] != s[j]
  }

  /** In a sequence without repetitions every element has multiplicity at most one. */
  lemma {:induction false} DistinctCountsOnce<T>(s: seq<T>, x: T)
    requires Distinct(s)
    ensures multiset(s)[x] <= 1
  {
    if |s| > 0 {
      var last := s[|s| - 1];
      var init := s[..|s| - 1];
      assert s == init + [last];
      DistinctCountsOnce(init, x);
      if x == last {
        assert x !in init by {
          forall k | 0 <= k < |init| ensures init[k] != x {
            assert s[k] != s[|s| - 1];
          }
        }
      }
    }
  }

  /** A permutation of a sequence without repetitions has none either. */
  lemma PermutationKeepsDistinct<T>(s: seq<T>, t: seq<T>)
    requires Distinct(s) && multiset(s) == multiset(t)
    ensures Distinct(t)
  {
    forall i, j | 0 <= i < j < |t| ensures t[i] != t[j] {
      DistinctCountsOnce(s, t[i]);
      assert t == t[..j] + t[j..];
      assert t[..j][i] == t[i];
      assert t[j..][0] == t[j];
      assert multiset(t) == multiset(t[..j]) + multiset(t[j..]);
    }
  }

  /** A sequence without repetitions has as many distinct elements as entries. */
  lemma {:induction false} DistinctCardinality<T>(s: seq<T>)
    requires Distinct(s)
    ensures |set x | x in s| == |s|
  {
    if |s| > 0 {
      var last := s[|s| - 1];
      var init := s[..|s| - 1];
      assert Distinct(init);
      DistinctCardinality(init);
      assert (set x | x in s) == (set x | x in init) + {last};
      assert last !in (set x | x in init) by {
        forall k | 0 <= k < |init| ensures init[k] != last {
          assert s[k] != s[|s| - 1];
        }
      }
    }
  }

  /** A sequence without repetitions that enumerates a set has the set's size. */
  lemma DistinctEnumeration<T>(s: seq<T>, elements: set<T>)
    requires Distinct(s)
    requires forall x :: x in elements ==> x in s
    requires forall i :: 0 <= i < |s| ==> s[i] in elements
    ensures |s| == |elements|
  {
    DistinctCardinality(s);
    assert (set x | x in s) == elements;
  }

  /** Reordering a sequence whose entries have pairwise different keys keeps the keys pairwise different. */
  lemma PermutationKeepsDistinctKeys<T, K>(s: seq<T>, t: seq<T>, key: T -> K)
    requires multiset(s) == multiset(t)
    requires forall i, j :: 0 <= i < j < |s| ==> key(s[i]) != key(s[j])
    ensures forall i, j :: 0 <= i < j < |t| ==> key(t[i]) != key(t[j])
  {
    assert Distinct(s);
    PermutationKeepsDistinct(s, t);
    forall i, j | 0 <= i < j < |t| ensures key(t[i]) != key(t[j]) {
      assert t[i] in multiset(s) && t[j] in multiset(s);
      var a :| 0 <= a < |s| && s[a] == t[i];
      var b :| 0 <= b < |s| && s[b] == t[j];
      assert a != b;
    }
  }
}
