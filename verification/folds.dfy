/**
 Generic folds over sequences and maps used by the metric functions:
 filtering, weighted sums, histograms (`item -> occurrences`) and the sum
 of the values of a map.
 */
module Folds {

  /** The elements of `xs` that satisfy `p`, in their original order. */
  function Filter<T(!new)>(xs: seq<T>, p: T -> bool): (r: seq<T>)
    ensures |r| <= |xs|
    ensures forall x :: x in r <==> x in xs && p(x)
  {
    if |xs| == 0 then []
    else
      var init, last := xs[..|xs| - 1], xs[|xs| - 1];
      assert xs == init + [last];
      Filter(init, p) + (if p(last) then [last] else [])
  }

  /** Filtering a sequence one element longer adds that element when it is selected. */
  lemma FilterSnoc<T(!new)>(xs: seq<T>, x: T, p: T -> bool)
    ensures Filter(xs + [x], p) == Filter(xs, p) + (if p(x) then [x] else [])
  {
    assert (xs + [x])[..|xs|] == xs;
  }

  lemma {:induction false} FilterAppend<T(!new)>(xs: seq<T>, ys: seq<T>, p: T -> bool)
    ensures Filter(xs + ys, p) == Filter(xs, p) + Filter(ys, p)
    decreases |ys|
  {
    if |ys| == 0 {
      assert xs + ys == xs;
    } else {
      var init, last := ys[..|ys| - 1], ys[|ys| - 1];
      var tail := if p(last) then [last] else [];
      assert (xs + ys)[..|xs + ys| - 1] == xs + init;
      assert (xs + ys)[|xs + ys| - 1] == last;
      assert Filter(xs + ys, p) == Filter(xs + init, p) + tail;
      FilterAppend(xs, init, p);
      assert Filter(ys, p) == Filter(init, p) + tail;
    }
  }

  /** Filtering keeps every occurrence of a selected element and none of the others. */
  lemma {:induction false} FilterMultiset<T(!new)>(xs: seq<T>, p: T -> bool)
    ensures forall x :: multiset(Filter(xs, p))[x] == if p(x) then multiset(xs)[x] else 0
    decreases |xs|
  {
    if |xs| > 0 {
      var init, last := xs[..|xs| - 1], xs[|xs| - 1];
      assert xs == init + [last];
      FilterMultiset(init, p);
    }
  }

  /** Filtering by `p` and then by `q` is filtering once by their conjunction `pq`. */
  lemma {:induction false} FilterFilter<T(!new)>(xs: seq<T>, p: T -> bool, q: T -> bool, pq: T -> bool)
    requires forall x :: pq(x) == (p(x) && q(x))
    ensures Filter(Filter(xs, p), q) == Filter(xs, pq)
    decreases |xs|
  {
    if |xs| > 0 {
      var init, last := xs[..|xs| - 1], xs[|xs| - 1];
      FilterFilter(init, p, q, pq);
      FilterAppend(Filter(init, p), if p(last) then [last] else [], q);
    }
  }

  /** A filter keeps the whole sequence exactly when every element is selected. */
  lemma {:induction false} FilterKeepsAll<T(!new)>(xs: seq<T>, p: T -> bool)
    ensures |Filter(xs, p)| == |xs| <==> forall x :: x in xs ==> p(x)
    decreases |xs|
  {
    if |xs| > 0 {
      var init, last := xs[..|xs| - 1], xs[|xs| - 1];
      assert xs == init + [last];
      FilterKeepsAll(init, p);
      assert forall x :: x in xs <==> x in init || x == last;
    }
  }

  /** Three pairwise exclusive selections of one sequence fit in it together. */
  lemma {:induction false} DisjointFiltersFit<T(!new)>(xs: seq<T>, p: T -> bool, q: T -> bool, s: T -> bool)
    requires forall x :: !(p(x) && q(x)) && !(p(x) && s(x)) && !(q(x) && s(x))
    ensures |Filter(xs, p)| + |Filter(xs, q)| + |Filter(xs, s)| <= |xs|
    decreases |xs|
  {
    if |xs| > 0 {
      DisjointFiltersFit(xs[..|xs| - 1], p, q, s);
    }
  }

  /** The sum of `w(x)` over the elements of `xs`. */
  function SumOf<T>(xs: seq<T>, w: T -> int): int
  {
    if |xs| == 0 then 0 else SumOf(xs[..|xs| - 1], w) + w(xs[|xs| - 1])
  }

  lemma SumOfSnoc<T>(xs: seq<T>, x: T, w: T -> int)
    ensures SumOf(xs + [x], w) == SumOf(xs, w) + w(x)
  {
    assert (xs + [x])[..|xs|] == xs;
  }

  /** `w` where `p` holds and 0 elsewhere. */
  function Masked<T>(p: T -> bool, w: T -> int): T -> int
  {
    x => if p(x) then w(x) else 0
  }

  /** Summing over the selected elements is summing the masked weight over all of them. */
  lemma {:induction false} SumOfFilter<T(!new)>(xs: seq<T>, p: T -> bool, w: T -> int)
    ensures SumOf(Filter(xs, p), w) == SumOf(xs, Masked(p, w))
    decreases |xs|
  {
    if |xs| > 0 {
      var init, last := xs[..|xs| - 1], xs[|xs| - 1];
      assert xs == init + [last];
      SumOfFilter(init, p, w);
      SumOfSnoc(init, last, Masked(p, w));
      FilterSnoc(init, last, p);
      var kept := Filter(init, p);
      if p(last) {
        SumOfSnoc(kept, last, w);
        assert Masked(p, w)(last) == w(last);
      } else {
        assert kept + [] == kept;
        assert Masked(p, w)(last) == 0;
      }
    }
  }

  /** The loop form of `SumOf(Filter(xs, p), w)`: add `w(x)` for each selected element in turn. */
  method SumWhere<T(!new)>(xs: seq<T>, p: T -> bool, w: T -> int) returns (sum: int)
    ensures sum == SumOf(Filter(xs, p), w)
  {
    sum := 0;
    var i := 0;
    while i < |xs|
      invariant 0 <= i <= |xs|
      invariant sum == SumOf(xs[..i], Masked(p, w))
    {
      SumOfSnoc(xs[..i], xs[i], Masked(p, w));
      assert xs[..i + 1] == xs[..i] + [xs[i]];
      if p(xs[i]) {
        sum := sum + w(xs[i]);
      }
      i := i + 1;
    }
    assert xs[..i] == xs;
    SumOfFilter(xs, p, w);
  }

  lemma {:induction false} SumOfAppend<T>(xs: seq<T>, ys: seq<T>, w: T -> int)
    ensures SumOf(xs + ys, w) == SumOf(xs, w) + SumOf(ys, w)
    decreases |ys|
  {
    if |ys| == 0 {
      assert xs + ys == xs;
    } else {
      var init := ys[..|ys| - 1];
      assert (xs + ys)[..|xs + ys| - 1] == xs + init;
      SumOfAppend(xs, init, w);
    }
  }

  lemma MulStep(a: int, n: nat)
    ensures a * (n + 1) == a * n + a
  {
  }

  /** Bounds on a sum from bounds on its terms. */
  lemma {:induction false} SumOfBounds<T>(xs: seq<T>, w: T -> int, lo: int, hi: int)
    requires forall x :: x in xs ==> lo <= w(x) <= hi
    ensures lo * |xs| <= SumOf(xs, w) <= hi * |xs|
    decreases |xs|
  {
    if |xs| > 0 {
      var init, last := xs[..|xs| - 1], xs[|xs| - 1];
      assert forall x :: x in init ==> x in xs;
      assert last in xs;
      SumOfBounds(init, w, lo, hi);
      assert |xs| == |init| + 1;
      MulStep(lo, |init|);
      MulStep(hi, |init|);
    }
  }

  /** A lower bound on every term bounds the sum from below. */
  lemma {:induction false} SumOfAtLeast<T>(xs: seq<T>, w: T -> int, lo: int)
    requires forall x :: x in xs ==> lo <= w(x)
    ensures lo * |xs| <= SumOf(xs, w)
    decreases |xs|
  {
    if |xs| > 0 {
      var init, last := xs[..|xs| - 1], xs[|xs| - 1];
      assert forall x :: x in init ==> x in xs;
      assert last in xs;
      SumOfAtLeast(init, w, lo);
      assert |xs| == |init| + 1;
      MulStep(lo, |init|);
    }
  }

  /** The set of the elements of a sequence is no larger than the sequence. */
  lemma {:induction false} ElementsCardinality<T>(xs: seq<T>)
    ensures |set x | x in xs| <= |xs|
    decreases |xs|
  {
    if |xs| > 0 {
      var init, last := xs[..|xs| - 1], xs[|xs| - 1];
      ElementsCardinality(init);
      assert (set x | x in xs) == (set x | x in init) + {last};
    }
  }

  /** Each distinct element of `xs` mapped to the number of times it occurs. */
  function Histogram<K(!new)>(xs: seq<K>): (h: map<K, nat>)
    ensures forall k :: k in h <==> k in xs
    ensures forall k :: k in h ==> h[k] == multiset(xs)[k]
  {
    if |xs| == 0 then map[]
    else
      var init, last := xs[..|xs| - 1], xs[|xs| - 1];
      assert xs == init + [last];
      var h := Histogram(init);
      h[last := (if last in h then h[last] else 0) + 1]
  }

  /** One more occurrence of `k` increments its count, starting from 0. */
  lemma HistogramSnoc<K(!new)>(xs: seq<K>, k: K)
    ensures var h := Histogram(xs);
      Histogram(xs + [k]) == h[k := (if k in h then h[k] else 0) + 1]
  {
    assert (xs + [k])[..|xs|] == xs;
  }

  /** The sum of the values of a map. */
  ghost function SumValues<K>(m: map<K, nat>): nat
    decreases |m|
  {
    if m == map[] then 0
    else
      var k :| k in m;
      m[k] + SumValues(m - {k})
  }

  /** The sum does not depend on which key is taken out first. */
  lemma {:induction false} SumValuesRemove<K>(m: map<K, nat>, k: K)
    requires k in m
    ensures SumValues(m) == m[k] + SumValues(m - {k})
    decreases |m|
  {
    var j :| j in m && SumValues(m) == m[j] + SumValues(m - {j});
    if j != k {
      var mj := m - {j};
      assert k in mj;
      SumValuesRemove(mj, k);
      var mk := m - {k};
      assert j in mk;
      SumValuesRemove(mk, j);
      assert mj - {k} == mk - {j};
    }
  }

  /** Writing `v` at `k` replaces the old value of `k` in the sum. */
  lemma SumValuesUpdate<K>(m: map<K, nat>, k: K, v: nat)
    ensures SumValues(m[k := v]) + (if k in m then m[k] else 0) == SumValues(m) + v
  {
    var u := m[k := v];
    SumValuesRemove(u, k);
    if k in m {
      SumValuesRemove(m, k);
      assert u - {k} == m - {k};
    } else {
      assert u - {k} == m;
    }
  }

  /** Summing the histogram of a sequence counts the sequence. */
  lemma {:induction false} HistogramTotal<K(!new)>(xs: seq<K>)
    ensures SumValues(Histogram(xs)) == |xs|
    decreases |xs|
  {
    if |xs| > 0 {
      var init, last := xs[..|xs| - 1], xs[|xs| - 1];
      HistogramTotal(init);
      var h := Histogram(init);
      SumValuesUpdate(h, last, (if last in h then h[last] else 0) + 1);
    }
  }
}
