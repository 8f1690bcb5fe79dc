/** GROUP BY with one aggregate: COUNT(*), COUNT(DISTINCT v) and SUM.
    Groups come out in order of first occurrence of their key; a NULL key
    (`None`) is a group like any other, as in SQL. */
module Grouping {
  import opened Common
  import opened Seqs

  /** One output row of a single-aggregate GROUP BY: the group key and its aggregate. */
  datatype Grouped<K> = Grouped(key: K, count: nat)

  /** The aggregate as a sort key. */
  function CountOf<K>(g: Grouped<K>): real {
    g.count as real
  }

  function Keys<K>(r: seq<Grouped<K>>): seq<K> {
    Map(r, (g: Grouped<K>) => g.key)
  }

  /** Sum of the aggregate column. */
  function Total<K>(r: seq<Grouped<K>>): nat {
    if |r| == 0 then 0 else Total(r[..|r| - 1]) + r[|r| - 1].count
  }

  function CountRows<K(==)>(d: seq<K>, ks: seq<K>): seq<Grouped<K>> {
    seq(|d|, i requires 0 <= i < |d| => Grouped(d[i], Count(d[i], ks)))
  }

  /** `SELECT key, COUNT(*) ... GROUP BY key` over the key column `ks`. */
  function GroupCount<K(==)>(ks: seq<K>): (r: seq<Grouped<K>>)
    ensures NoDups(Keys(r))
    ensures forall i :: 0 <= i < |ks| ==> ks[i] in Keys(r)
    ensures forall i :: 0 <= i < |r| ==> r[i].key in ks
    ensures forall i :: 0 <= i < |r| ==> r[i].count == Count(r[i].key, ks) && r[i].count >= 1
  {
    var d := Distinct(ks);
    assert Keys(CountRows(d, ks)) == d;
    CountRows(d, ks)
  }

  /** A value has a group exactly when it occurs. */
  lemma GroupCountKeys<K>(ks: seq<K>, k: K)
    ensures k in Keys(GroupCount(ks)) <==> k in ks
  {
    var r := GroupCount(ks);
    if k in Keys(r) {
      var i :| 0 <= i < |r| && Keys(r)[i] == k;
    }
    if k in ks {
      var i :| 0 <= i < |ks| && ks[i] == k;
    }
  }

  /** `GROUP BY k ORDER BY COUNT(*) DESC`: one row per value, largest first, each
      with its number of occurrences, adding up to the number of rows. */
  lemma SortedGroupCount<K>(ks: seq<K>, c: K)
    ensures var r := SortDesc(GroupCount(ks), CountOf);
      SortedDesc(r, CountOf)
      && (c in Keys(r) <==> c in ks)
      && (forall g :: g in r ==> g.count == Count(g.key, ks))
      && Total(r) == |ks|
  {
    var grouped := GroupCount(ks);
    var r := SortDesc(grouped, CountOf);
    forall g | g in r ensures g.count == Count(g.key, ks) {
      assert g in multiset(grouped);
      var i :| 0 <= i < |grouped| && grouped[i] == g;
    }
    KeysPermutation(grouped, r);
    if c in Keys(grouped) {
      var i :| 0 <= i < |grouped| && Keys(grouped)[i] == c;
    }
    GroupCountTotal(ks);
    TotalPermutation(grouped, r);
  }

  /** Sum over the values `d` of their number of occurrences in `ks`. */
  function SumCounts<K(==)>(d: seq<K>, ks: seq<K>): nat {
    if |d| == 0 then 0 else SumCounts(d[..|d| - 1], ks) + Count(d[|d| - 1], ks)
  }

  lemma {:induction false} TotalCountRows<K>(d: seq<K>, ks: seq<K>)
    ensures Total(CountRows(d, ks)) == SumCounts(d, ks)
  {
    if |d| > 0 {
      assert CountRows(d, ks)[..|d| - 1] == CountRows(d[..|d| - 1], ks);
      TotalCountRows(d[..|d| - 1], ks);
    }
  }

  lemma {:induction false} SumCountsSnoc<K>(d: seq<K>, ks: seq<K>, x: K)
    ensures SumCounts(d, ks + [x]) == SumCounts(d, ks) + Count(x, d)
  {
    if |d| > 0 {
      var d' := d[..|d| - 1];
      SumCountsSnoc(d', ks, x);
      assert (ks + [x])[..|ks|] == ks;
    }
  }

  lemma {:induction false} SumCountsDistinct<K>(ks: seq<K>)
    ensures SumCounts(Distinct(ks), ks) == |ks|
  {
    if |ks| > 0 {
      var s' := ks[..|ks| - 1];
      var x := ks[|ks| - 1];
      assert ks == s' + [x];
      var d' := Distinct(s');
      SumCountsDistinct(s');
      SumCountsSnoc(d', s', x);
      if x in d' {
        CountNoDups(x, d');
      } else {
        assert x !in s';
        assert (d' + [x])[..|d'|] == d';
        assert SumCounts(d' + [x], ks) == SumCounts(d', ks) + Count(x, ks);
      }
    }
  }

  /** The counts of a COUNT(*) GROUP BY add up to the number of rows grouped. */
  lemma GroupCountTotal<K>(ks: seq<K>)
    ensures Total(GroupCount(ks)) == |ks|
  {
    TotalCountRows(Distinct(ks), ks);
    SumCountsDistinct(ks);
  }

  // ---------------------------------------------------------------------
  // COUNT(DISTINCT v): NULL values are not counted.

  /** The non-NULL values of `v` among the rows whose key is `k`. */
  function GroupValues<K(==), V(==)>(k: K, pairs: seq<(K, Option<V>)>): set<V> {
    set i | 0 <= i < |pairs| && pairs[i].0 == k && pairs[i].1.Some? :: pairs[i].1.value
  }

  /** The non-NULL values of `v` over all rows. */
  function AllValues<K, V(==)>(pairs: seq<(K, Option<V>)>): set<V> {
    set i | 0 <= i < |pairs| && pairs[i].1.Some? :: pairs[i].1.value
  }

  function DistinctRows<K(==), V(==)>(d: seq<K>, pairs: seq<(K, Option<V>)>): seq<Grouped<K>> {
    seq(|d|, i requires 0 <= i < |d| => Grouped(d[i], |GroupValues(d[i], pairs)|))
  }

  /** `SELECT k, COUNT(DISTINCT v) ... GROUP BY k` over the column pairs `(k, v)`. */
  function GroupDistinct<K(==), V(==)>(pairs: seq<(K, Option<V>)>): (r: seq<Grouped<K>>)
    ensures NoDups(Keys(r))
    ensures forall i :: 0 <= i < |pairs| ==> pairs[i].0 in Keys(r)
    ensures forall i :: 0 <= i < |r| ==> exists j :: 0 <= j < |pairs| && pairs[j].0 == r[i].key
    ensures forall i :: 0 <= i < |r| ==> r[i].count == |GroupValues(r[i].key, pairs)|
  {
    var ks := Map(pairs, (p: (K, Option<V>)) => p.0);
    var d := Distinct(ks);
    assert Keys(DistinctRows(d, pairs)) == d;
    assert forall i :: 0 <= i < |d| ==> exists j :: 0 <= j < |pairs| && pairs[j].0 == d[i] by {
      forall i | 0 <= i < |d| ensures exists j :: 0 <= j < |pairs| && pairs[j].0 == d[i] {
        assert d[i] in ks;
        var j :| 0 <= j < |ks| && ks[j] == d[i];
        assert pairs[j].0 == d[i];
      }
    }
    DistinctRows(d, pairs)
  }

  lemma DistinctCountOf<K, V>(pairs: seq<(K, Option<V>)>, g: Grouped<K>)
    requires g in GroupDistinct(pairs)
    ensures g.count == |GroupValues(g.key, pairs)|
  {
    var r := GroupDistinct(pairs);
    var i :| 0 <= i < |r| && r[i] == g;
  }

  /** `ORDER BY count DESC LIMIT n` keeps the largest groups. */
  lemma TopGroupsDominate<K>(s: seq<Grouped<K>>, n: nat)
    ensures var r := Take(SortDesc(s, CountOf), n);
      forall x, y :: x in s && x !in r && y in r ==> y.count >= x.count
  {
    var r := Take(SortDesc(s, CountOf), n);
    TopNDominates(s, CountOf, n);
    forall x, y | x in s && x !in r && y in r ensures y.count >= x.count {
      assert CountOf(y) >= CountOf(x);
    }
  }

  /** A key has a group exactly when some row carries it. */
  lemma DistinctGroupKeys<K, V>(pairs: seq<(K, Option<V>)>, k: K)
    ensures k in Keys(GroupDistinct(pairs)) <==> exists v :: (k, v) in pairs
    ensures forall g :: g in GroupDistinct(pairs) ==> g.count == |GroupValues(g.key, pairs)|
  {
    var r := GroupDistinct(pairs);
    forall g | g in r ensures g.count == |GroupValues(g.key, pairs)| {
      DistinctCountOf(pairs, g);
    }
    if k in Keys(r) {
      var i :| 0 <= i < |r| && Keys(r)[i] == k;
      var m :| 0 <= m < |pairs| && pairs[m].0 == r[i].key;
      assert (k, pairs[m].1) == pairs[m];
    }
    if exists v :: (k, v) in pairs {
      var v :| (k, v) in pairs;
      var m :| 0 <= m < |pairs| && pairs[m] == (k, v);
    }
  }

  /** `GROUP BY k ORDER BY COUNT(DISTINCT v) DESC LIMIT n`: at most `n` groups,
      largest first, each with its distinct count, none left out larger than one kept. */
  lemma TopDistinctGroups<K, V>(pairs: seq<(K, Option<V>)>, n: nat)
    ensures var grouped := GroupDistinct(pairs); var r := Take(SortDesc(grouped, CountOf), n);
      |r| <= n && SortedDesc(r, CountOf)
      && (forall g :: g in r ==> g.count == |GroupValues(g.key, pairs)|)
      && (forall x, y :: x in grouped && x !in r && y in r ==> y.count >= x.count)
  {
    var grouped := GroupDistinct(pairs);
    var r := Take(SortDesc(grouped, CountOf), n);
    TopNDominates(grouped, CountOf, n);
    TopNMembers(grouped, CountOf, n);
    forall g | g in r ensures g.count == |GroupValues(g.key, pairs)| {
      DistinctCountOf(pairs, g);
    }
    forall x, y | x in grouped && x !in r && y in r ensures y.count >= x.count {
      assert CountOf(y) >= CountOf(x);
    }
  }

  /** One group's distinct count never exceeds the distinct count over all rows. */
  lemma GroupValuesBounded<K, V>(k: K, pairs: seq<(K, Option<V>)>)
    ensures GroupValues(k, pairs) <= AllValues(pairs)
    ensures |GroupValues(k, pairs)| <= |AllValues(pairs)|
  {
    SubsetCard(GroupValues(k, pairs), AllValues(pairs));
  }

  lemma {:induction false} SubsetCard<V>(a: set<V>, b: set<V>)
    requires a <= b
    ensures |a| <= |b|
    decreases |b|
  {
    if a != {} {
      var x :| x in a;
      SubsetCard(a - {x}, b - {x});
    }
  }

  // ---------------------------------------------------------------------
  // SUM per key (pandas groupby(...).sum()).

  /** Sum of the aggregate over the rows whose key is `k`. */
  function SumFor<K(==)>(k: K, r: seq<Grouped<K>>): nat {
    if |r| == 0 then 0
    else SumFor(k, r[..|r| - 1]) + (if r[|r| - 1].key == k then r[|r| - 1].count else 0)
  }

  function SumRows<K(==)>(d: seq<K>, r: seq<Grouped<K>>): seq<Grouped<K>> {
    seq(|d|, i requires 0 <= i < |d| => Grouped(d[i], SumFor(d[i], r)))
  }

  /** `groupby(key)[count].sum()`: one row per key with the sum of its values. */
  function GroupSum<K(==)>(r: seq<Grouped<K>>): (s: seq<Grouped<K>>)
    ensures NoDups(Keys(s))
    ensures forall i :: 0 <= i < |r| ==> r[i].key in Keys(s)
    ensures forall i :: 0 <= i < |s| ==> s[i].key in Keys(r) && s[i].count == SumFor(s[i].key, r)
  {
    var d := Distinct(Keys(r));
    assert Keys(SumRows(d, r)) == d;
    SumRows(d, r)
  }

  lemma {:induction false} SumForUnique<K>(k: K, r: seq<Grouped<K>>, i: nat)
    requires NoDups(Keys(r)) && i < |r| && r[i].key == k
    ensures SumFor(k, r) == r[i].count
  {
    var init := r[..|r| - 1];
    assert Keys(init) == Keys(r)[..|r| - 1];
    if i < |r| - 1 {
      assert init[i] == r[i];
      SumForUnique(k, init, i);
      assert Keys(r)[i] != Keys(r)[|r| - 1];
    } else {
      SumForAbsent(k, init);
    }
  }

  lemma {:induction false} SumForAbsent<K>(k: K, r: seq<Grouped<K>>)
    requires k !in Keys(r)
    ensures SumFor(k, r) == 0
  {
    if |r| > 0 {
      var init := r[..|r| - 1];
      assert Keys(init) == Keys(r)[..|r| - 1];
      assert Keys(r)[|r| - 1] == r[|r| - 1].key;
      SumForAbsent(k, init);
    }
  }

  /** Summing per key over rows whose keys are already distinct changes nothing. */
  lemma GroupSumOfDistinctKeys<K>(r: seq<Grouped<K>>)
    requires NoDups(Keys(r))
    ensures GroupSum(r) == r
  {
    DistinctOfNoDups(Keys(r));
    forall i | 0 <= i < |r| ensures SumFor(r[i].key, r) == r[i].count {
      SumForUnique(r[i].key, r, i);
    }
  }

  /** Sum over the keys `d` of their per-key sums in `r`. */
  function SumSums<K(==)>(d: seq<K>, r: seq<Grouped<K>>): nat {
    if |d| == 0 then 0 else SumSums(d[..|d| - 1], r) + SumFor(d[|d| - 1], r)
  }

  lemma {:induction false} TotalSumRows<K>(d: seq<K>, r: seq<Grouped<K>>)
    ensures Total(SumRows(d, r)) == SumSums(d, r)
  {
    if |d| > 0 {
      assert SumRows(d, r)[..|d| - 1] == SumRows(d[..|d| - 1], r);
      TotalSumRows(d[..|d| - 1], r);
    }
  }

  lemma {:induction false} SumSumsSnoc<K>(d: seq<K>, r: seq<Grouped<K>>, x: Grouped<K>)
    requires NoDups(d)
    ensures SumSums(d, r + [x]) == SumSums(d, r) + (if x.key in d then x.count else 0)
  {
    if |d| > 0 {
      var d' := d[..|d| - 1];
      var y := d[|d| - 1];
      SplitLast(d);
      SumSumsSnoc(d', r, x);
      assert (r + [x])[..|r|] == r;
      assert SumFor(y, r + [x]) == SumFor(y, r) + (if x.key == y then x.count else 0);
      if x.key == y {
        assert x.key !in d';
      }
    }
  }

  lemma {:induction false} SumSumsDistinct<K>(r: seq<Grouped<K>>)
    ensures SumSums(Distinct(Keys(r)), r) == Total(r)
  {
    if |r| > 0 {
      var r' := r[..|r| - 1];
      var x := r[|r| - 1];
      assert r == r' + [x];
      assert Keys(r) == Keys(r') + [x.key];
      assert Keys(r)[..|r| - 1] == Keys(r');
      var d' := Distinct(Keys(r'));
      SumSumsDistinct(r');
      SumSumsSnoc(d', r', x);
      if x.key !in d' {
        assert x.key !in Keys(r');
        SumForAbsent(x.key, r');
        assert (d' + [x.key])[..|d'|] == d';
        assert SumSums(d' + [x.key], r) == SumSums(d', r) + SumFor(x.key, r);
      }
    }
  }

  /** Summing per key keeps the grand total. */
  lemma GroupSumTotal<K>(r: seq<Grouped<K>>)
    ensures Total(GroupSum(r)) == Total(r)
  {
    TotalSumRows(Distinct(Keys(r)), r);
    SumSumsDistinct(r);
  }

  /** Reordering the rows keeps the grand total. */
  lemma {:induction false} TotalPermutation<K>(a: seq<Grouped<K>>, b: seq<Grouped<K>>)
    requires multiset(a) == multiset(b)
    ensures Total(a) == Total(b)
    decreases |a|
  {
    if |a| > 0 {
      var x := a[|a| - 1];
      assert x in multiset(b);
      var i :| 0 <= i < |b| && b[i] == x;
      var b' := b[..i] + b[i + 1..];
      var a' := a[..|a| - 1];
      assert b == b[..i] + [x] + b[i + 1..];
      assert multiset(b) == multiset(b[..i]) + multiset{x} + multiset(b[i + 1..]);
      assert multiset(b') == multiset(b[..i]) + multiset(b[i + 1..]);
      assert a == a' + [x];
      assert multiset(a) == multiset(a') + multiset{x};
      assert multiset(a') == multiset(a) - multiset{x};
      assert multiset(b') == multiset(b) - multiset{x};
      TotalPermutation(a', b');
      TotalRemove(b, i);
    }
  }

  lemma {:induction false} TotalRemove<K>(b: seq<Grouped<K>>, i: nat)
    requires i < |b|
    ensures Total(b) == Total(b[..i] + b[i + 1..]) + b[i].count
    decreases |b|
  {
    if i < |b| - 1 {
      var init := b[..|b| - 1];
      TotalRemove(init, i);
      assert init[..i] + init[i + 1..] == (b[..i] + b[i + 1..])[..|b| - 2];
      assert (b[..i] + b[i + 1..])[|b| - 2] == b[|b| - 1];
    } else {
      assert b[..i] + b[i + 1..] == b[..|b| - 1];
    }
  }

  /** Distinct keys make distinct rows. */
  lemma GroupedNoDups<K>(r: seq<Grouped<K>>)
    requires NoDups(Keys(r))
    ensures NoDups(r)
  {
    forall i, j | 0 <= i < j < |r| ensures r[i] != r[j] {
      assert Keys(r)[i] == r[i].key && Keys(r)[j] == r[j].key;
    }
  }

  /** Rows drawn, without repeats, from a group table of distinct keys have distinct keys. */
  lemma SubKeysNoDups<K>(counts: seq<Grouped<K>>, top: seq<Grouped<K>>)
    requires NoDups(Keys(counts)) && NoDups(top)
    requires forall i :: 0 <= i < |top| ==> top[i] in counts
    ensures NoDups(Keys(top))
  {
    forall i, j | 0 <= i < j < |top| ensures Keys(top)[i] != Keys(top)[j] {
      var a :| 0 <= a < |counts| && counts[a] == top[i];
      var b :| 0 <= b < |counts| && counts[b] == top[j];
      assert Keys(counts)[a] == top[i].key && Keys(counts)[b] == top[j].key;
    }
  }

  /** The first `n` groups of the descending sort of groups with distinct keys:
      rows of the input, largest first, still with distinct keys, and none only
      when there is no group at all. */
  lemma TopGroups<K>(counts: seq<Grouped<K>>, n: nat)
    requires NoDups(Keys(counts)) && n > 0
    ensures var top := Take(SortDesc(counts, CountOf), n);
      SortedDesc(top, CountOf) && (forall i :: 0 <= i < |top| ==> top[i] in counts) && NoDups(Keys(top))
      && (|top| == 0 <==> |counts| == 0)
  {
    var sorted := SortDesc(counts, CountOf);
    var top := Take(sorted, n);
    TopNMembers(counts, CountOf, n);
    assert forall i :: 0 <= i < |top| ==> top[i] in top;
    GroupedNoDups(counts);
    PermutationNoDups(counts, sorted);
    assert NoDups(top) by {
      forall i, j | 0 <= i < j < |top| ensures top[i] != top[j] {
        assert top[i] == sorted[i] && top[j] == sorted[j];
      }
    }
    SubKeysNoDups(counts, top);
  }

  /** Reordering a group table keeps its set of keys and their distinctness. */
  lemma KeysPermutation<K>(a: seq<Grouped<K>>, b: seq<Grouped<K>>)
    requires multiset(a) == multiset(b)
    ensures forall k :: k in Keys(a) <==> k in Keys(b)
    ensures NoDups(Keys(a)) ==> NoDups(Keys(b))
  {
    forall k ensures k in Keys(a) ==> k in Keys(b) {
      if k in Keys(a) {
        var i :| 0 <= i < |a| && Keys(a)[i] == k;
        assert a[i] in multiset(b);
        var j :| 0 <= j < |b| && b[j] == a[i];
        assert Keys(b)[j] == k;
      }
    }
    forall k ensures k in Keys(b) ==> k in Keys(a) {
      if k in Keys(b) {
        var i :| 0 <= i < |b| && Keys(b)[i] == k;
        assert b[i] in multiset(a);
        var j :| 0 <= j < |a| && a[j] == b[i];
        assert Keys(a)[j] == k;
      }
    }
    if NoDups(Keys(a)) {
      GroupedNoDups(a);
      PermutationNoDups(a, b);
      forall i | 0 <= i < |b| ensures b[i] in a {
        assert b[i] in multiset(a);
      }
      SubKeysNoDups(a, b);
    }
  }
}
