/** Sequence utilities used to model relations as ordered multisets of rows:
    occurrence counts, first-occurrence deduplication, filters, LIMIT, integer
    aggregates and an insertion sort by a real-valued key. Recursion is on the
    last element, so that appending a row unfolds one step. */
module Seqs {

  predicate NoDups<T(==)>(s: seq<T>) {
    forall i, j :: 0 <= i < j < |s| ==> s[i] != s[j]
  }

  lemma SplitLast<T>(s: seq<T>)
    requires |s| > 0
    ensures s == s[..|s| - 1] + [s[|s| - 1]]
  {
  }

  /** Number of occurrences of `x` in `s`. */
  function Count<T(==)>(x: T, s: seq<T>): (n: nat)
    ensures n <= |s|
    ensures n > 0 <==> x in s
  {
    if |s| == 0 then 0
    else
      assert s == s[..|s| - 1] + [s[|s| - 1]];
      Count(x, s[..|s| - 1]) + (if s[|s| - 1] == x then 1 else 0)
  }

  lemma {:induction false} CountAppend<T>(x: T, a: seq<T>, b: seq<T>)
    ensures Count(x, a + b) == Count(x, a) + Count(x, b)
    decreases |b|
  {
    if |b| > 0 {
      var b' := b[..|b| - 1];
      assert (a + b)[..|a + b| - 1] == a + b';
      CountAppend(x, a, b');
    } else {
      assert a + b == a;
    }
  }

  lemma CountNoDups<T>(x: T, s: seq<T>)
    requires NoDups(s) && x in s
    ensures Count(x, s) == 1
  {
    var init := s[..|s| - 1];
    SplitLast(s);
    if s[|s| - 1] == x {
      assert x !in init;
    } else {
      assert x in init;
      CountNoDups(x, init);
    }
  }

  /** The first occurrence of every value, in order of first occurrence
      (the shape of `SELECT DISTINCT`, of pandas `unique` and of `drop_duplicates`). */
  function Distinct<T(==)>(s: seq<T>): (d: seq<T>)
    ensures NoDups(d)
    ensures forall i :: 0 <= i < |d| ==> d[i] in s
    ensures forall i :: 0 <= i < |s| ==> s[i] in d
    ensures |d| <= |s|
  {
    if |s| == 0 then []
    else
      assert s == s[..|s| - 1] + [s[|s| - 1]];
      var d := Distinct(s[..|s| - 1]);
      if s[|s| - 1] in d then d else d + [s[|s| - 1]]
  }

  lemma {:induction false} DistinctOfNoDups<T>(s: seq<T>)
    requires NoDups(s)
    ensures Distinct(s) == s
  {
    if |s| > 0 {
      var init := s[..|s| - 1];
      SplitLast(s);
      DistinctOfNoDups(init);
      assert s[|s| - 1] !in init;
    }
  }

  function Filter<T>(s: seq<T>, p: T -> bool): (r: seq<T>)
    ensures |r| <= |s|
    ensures forall i :: 0 <= i < |r| ==> r[i] in s && p(r[i])
    ensures forall i :: 0 <= i < |s| && p(s[i]) ==> s[i] in r
  {
    if |s| == 0 then []
    else
      assert s == s[..|s| - 1] + [s[|s| - 1]];
      Filter(s[..|s| - 1], p) + (if p(s[|s| - 1]) then [s[|s| - 1]] else [])
  }

  lemma {:induction false} FilterAll<T>(s: seq<T>, p: T -> bool)
    requires forall x :: x in s ==> p(x)
    ensures Filter(s, p) == s
  {
    if |s| > 0 {
      SplitLast(s);
      FilterAll(s[..|s| - 1], p);
    }
  }

  /** A filter keeps every occurrence of a value it accepts and none of one it rejects. */
  lemma {:induction false} FilterCount<T>(s: seq<T>, p: T -> bool, x: T)
    ensures Count(x, Filter(s, p)) == if p(x) then Count(x, s) else 0
  {
    if |s| > 0 {
      var init := s[..|s| - 1];
      var last := s[|s| - 1];
      FilterCount(init, p, x);
      CountAppend(x, Filter(init, p), if p(last) then [last] else []);
      assert Count(x, [last]) == if last == x then 1 else 0 by {
        assert [last][..0] == [];
      }
    }
  }

  /** A filter of a sequence without repeats has none either. */
  lemma {:induction false} FilterNoDups<T>(s: seq<T>, p: T -> bool)
    requires NoDups(s)
    ensures NoDups(Filter(s, p))
  {
    if |s| > 0 {
      var init := s[..|s| - 1];
      var last := s[|s| - 1];
      assert NoDups(init);
      FilterNoDups(init, p);
      if p(last) {
        var f := Filter(init, p);
        forall k | 0 <= k < |f| ensures f[k] != last {
          var m :| 0 <= m < |init| && init[m] == f[k];
        }
        assert forall a, b :: 0 <= a < b < |f + [last]| ==> (f + [last])[a] != (f + [last])[b];
      }
    }
  }

  lemma {:induction false} FilterMultiset<T>(s: seq<T>, p: T -> bool)
    ensures multiset(Filter(s, p)) <= multiset(s)
  {
    if |s| > 0 {
      SplitLast(s);
      FilterMultiset(s[..|s| - 1], p);
    }
  }

  function Map<T, U>(s: seq<T>, f: T -> U): (r: seq<U>)
    ensures |r| == |s|
    ensures forall i :: 0 <= i < |s| ==> r[i] == f(s[i])
  {
    seq(|s|, i requires 0 <= i < |s| => f(s[i]))
  }

  function Take<T>(s: seq<T>, n: nat): (r: seq<T>)
    ensures |r| <= n && |r| <= |s|
    ensures |r| == if n < |s| then n else |s|
    ensures r == s[..|r|]
    ensures |s| <= n ==> r == s
  {
    if n < |s| then s[..n] else s
  }

  /** SQLite `LIMIT n`: a negative limit means no limit. */
  function Limit<T>(s: seq<T>, n: int): (r: seq<T>)
    ensures n < 0 ==> r == s
    ensures n >= 0 ==> r == Take(s, n)
  {
    if n < 0 then s else Take(s, n)
  }

  function SumInt(s: seq<int>): int {
    if |s| == 0 then 0 else SumInt(s[..|s| - 1]) + s[|s| - 1]
  }

  function SumNat(s: seq<nat>): nat {
    if |s| == 0 then 0 else SumNat(s[..|s| - 1]) + s[|s| - 1]
  }

  function SumReal(s: seq<real>): real {
    if |s| == 0 then 0.0 else SumReal(s[..|s| - 1]) + s[|s| - 1]
  }

  /** Largest element; 0 for the empty sequence, a value no caller relies on. */
  function MaxInt(s: seq<int>): (m: int)
    ensures |s| > 0 ==> m in s
    ensures forall x :: x in s ==> x <= m
  {
    if |s| == 0 then 0
    else if |s| == 1 then s[0]
    else
      assert s == s[..|s| - 1] + [s[|s| - 1]];
      var m := MaxInt(s[..|s| - 1]);
      if s[|s| - 1] > m then s[|s| - 1] else m
  }

  /** Smallest element; 0 for the empty sequence, a value no caller relies on. */
  function MinInt(s: seq<int>): (m: int)
    ensures |s| > 0 ==> m in s
    ensures forall x :: x in s ==> m <= x
  {
    if |s| == 0 then 0
    else if |s| == 1 then s[0]
    else
      assert s == s[..|s| - 1] + [s[|s| - 1]];
      var m := MinInt(s[..|s| - 1]);
      if s[|s| - 1] < m then s[|s| - 1] else m
  }

  function MaxReal(s: seq<real>): (m: real)
    ensures |s| > 0 ==> m in s
    ensures forall x :: x in s ==> x <= m
  {
    if |s| == 0 then 0.0
    else if |s| == 1 then s[0]
    else
      assert s == s[..|s| - 1] + [s[|s| - 1]];
      var m := MaxReal(s[..|s| - 1]);
      if s[|s| - 1] > m then s[|s| - 1] else m
  }

  /** Smallest element; 0.0 for the empty sequence, a value no caller relies on. */
  function MinReal(s: seq<real>): (m: real)
    ensures |s| > 0 ==> m in s
    ensures forall x :: x in s ==> m <= x
  {
    if |s| == 0 then 0.0
    else if |s| == 1 then s[0]
    else
      assert s == s[..|s| - 1] + [s[|s| - 1]];
      var m := MinReal(s[..|s| - 1]);
      if s[|s| - 1] < m then s[|s| - 1] else m
  }

  lemma {:induction false} SumRealBetween(s: seq<real>, lo: real, hi: real)
    requires forall x :: x in s ==> lo <= x <= hi
    ensures lo * |s| as real <= SumReal(s) <= hi * |s| as real
  {
    if |s| > 0 {
      var init := s[..|s| - 1];
      SplitLast(s);
      assert s[|s| - 1] in s;
      assert forall x :: x in init ==> x in s;
      SumRealBetween(init, lo, hi);
      assert lo * |s| as real == lo * |init| as real + lo;
      assert hi * |s| as real == hi * |init| as real + hi;
    }
  }

  lemma {:induction false} SumIntBetween(s: seq<int>, lo: int, hi: int)
    requires forall x :: x in s ==> lo <= x <= hi
    ensures |s| * lo <= SumInt(s) <= |s| * hi
  {
    if |s| > 0 {
      var init := s[..|s| - 1];
      SplitLast(s);
      assert s[|s| - 1] in s;
      assert forall x :: x in init ==> x in s;
      SumIntBetween(init, lo, hi);
      assert |s| * lo == |init| * lo + lo;
      assert |s| * hi == |init| * hi + hi;
    }
  }

  lemma SumIntBounds(s: seq<int>)
    requires |s| > 0
    ensures |s| * MinInt(s) <= SumInt(s) <= |s| * MaxInt(s)
  {
    SumIntBetween(s, MinInt(s), MaxInt(s));
  }

  // ---------------------------------------------------------------------
  // Sorting by a real-valued key. SQL ORDER BY and pandas sort_values do not
  // fix the order of ties; the model's insertion sort keeps input order.

  predicate SortedAsc<T>(s: seq<T>, key: T -> real) {
    forall i, j :: 0 <= i < j < |s| ==> key(s[i]) <= key(s[j])
  }

  predicate SortedDesc<T>(s: seq<T>, key: T -> real) {
    forall i, j :: 0 <= i < j < |s| ==> key(s[i]) >= key(s[j])
  }

  function Insert<T>(x: T, s: seq<T>, key: T -> real): (r: seq<T>)
    ensures |r| == |s| + 1
  {
    if |s| == 0 then [x]
    else if key(x) <= key(s[0]) then [x] + s
    else [s[0]] + Insert(x, s[1..], key)
  }

  lemma {:induction false} InsertMultiset<T>(x: T, s: seq<T>, key: T -> real)
    ensures multiset(Insert(x, s, key)) == multiset(s) + multiset{x}
  {
    if |s| > 0 && key(x) > key(s[0]) {
      InsertMultiset(x, s[1..], key);
      assert s == [s[0]] + s[1..];
    }
  }

  lemma {:induction false} InsertSorted<T>(x: T, s: seq<T>, key: T -> real)
    requires SortedAsc(s, key)
    ensures SortedAsc(Insert(x, s, key), key)
  {
    if |s| > 0 && key(x) > key(s[0]) {
      var t := Insert(x, s[1..], key);
      InsertSorted(x, s[1..], key);
      InsertMultiset(x, s[1..], key);
      forall k | 0 <= k < |t| ensures key(s[0]) <= key(t[k]) {
        assert t[k] in multiset(t);
        if t[k] != x {
          assert t[k] in multiset(s[1..]);
          var m :| 0 <= m < |s[1..]| && s[1..][m] == t[k];
          assert s[m + 1] == t[k];
        }
      }
      var r := [s[0]] + t;
      assert r == Insert(x, s, key);
      forall i, j | 0 <= i < j < |r| ensures key(r[i]) <= key(r[j]) {
        if i > 0 {
          assert r[i] == t[i - 1] && r[j] == t[j - 1];
        } else {
          assert r[j] == t[j - 1];
        }
      }
    }
  }

  /** Insertion sort, ascending by `key`: a permutation of `s` in non-decreasing key order. */
  function SortAsc<T>(s: seq<T>, key: T -> real): (r: seq<T>)
    ensures SortedAsc(r, key)
    ensures multiset(r) == multiset(s)
    ensures |r| == |s|
  {
    if |s| == 0 then []
    else
      assert s == [s[0]] + s[1..];
      var t := SortAsc(s[1..], key);
      InsertSorted(s[0], t, key);
      InsertMultiset(s[0], t, key);
      Insert(s[0], t, key)
  }

  /** Sort descending by `key`: ascending by the negated key. */
  function SortDesc<T>(s: seq<T>, key: T -> real): (r: seq<T>)
    ensures SortedDesc(r, key)
    ensures multiset(r) == multiset(s)
    ensures |r| == |s|
  {
    var neg := (x: T) => -key(x);
    var r := SortAsc(s, neg);
    assert forall i, j :: 0 <= i < j < |r| ==> neg(r[i]) <= neg(r[j]);
    r
  }

  /** A LIMIT after a descending sort selects the largest keys: everything left
      out ranks no higher than anything kept. */
  lemma TopNDominates<T>(s: seq<T>, key: T -> real, n: nat)
    ensures var r := SortDesc(s, key);
      forall x, y :: x in s && x !in Take(r, n) && y in Take(r, n) ==> key(y) >= key(x)
  {
    var r := SortDesc(s, key);
    forall x, y | x in s && x !in Take(r, n) && y in Take(r, n)
      ensures key(y) >= key(x)
    {
      assert x in multiset(r);
      var j :| 0 <= j < |r| && r[j] == x;
      var i :| 0 <= i < |Take(r, n)| && Take(r, n)[i] == y;
      assert j >= |Take(r, n)|;
    }
  }

  /** A LIMIT after a descending sort keeps rows of the input, still in descending order. */
  lemma TopNMembers<T>(s: seq<T>, key: T -> real, n: nat)
    ensures var r := Take(SortDesc(s, key), n);
      SortedDesc(r, key) && forall y :: y in r ==> y in s
  {
    var sorted := SortDesc(s, key);
    var r := Take(sorted, n);
    forall y | y in r ensures y in s {
      assert y in multiset(sorted);
    }
    forall i, j | 0 <= i < j < |r| ensures key(r[i]) >= key(r[j]) {
      assert r[i] == sorted[i] && r[j] == sorted[j];
    }
  }

  lemma {:induction false} NoDupsMultiplicity<T>(s: seq<T>, v: T)
    requires NoDups(s)
    ensures multiset(s)[v] <= 1
  {
    if |s| > 0 {
      var init := s[..|s| - 1];
      SplitLast(s);
      NoDupsMultiplicity(init, v);
      if s[|s| - 1] == v {
        assert v !in init;
      }
    }
  }

  /** A permutation of a sequence without repeats has none either. */
  lemma PermutationNoDups<T>(a: seq<T>, b: seq<T>)
    requires NoDups(a) && multiset(a) == multiset(b)
    ensures NoDups(b)
  {
    forall i, j | 0 <= i < j < |b| ensures b[i] != b[j] {
      NoDupsMultiplicity(a, b[i]);
      TwoOccurrences(b, i, j);
    }
  }

  lemma TwoOccurrences<T>(b: seq<T>, i: nat, j: nat)
    requires i < j < |b|
    ensures b[i] == b[j] ==> multiset(b)[b[i]] >= 2
  {
    assert b == b[..j] + b[j..];
    assert b[..j][i] == b[i] && b[j..][0] == b[j];
    assert multiset(b) == multiset(b[..j]) + multiset(b[j..]);
  }
}
