/**
 Paginated listings. A listing is the sequence of page fetches a walk
 makes, in order; the last element is the page that reports no next page.
 A fetch either returns a page of items with the remaining-call quota, or
 fails. A walk stops at the first failure, and every metric then reports
 that error; an empty listing behaves as one empty final page.
 */
module Paging {
  import opened Common
  import opened Helpers
  import opened Folds

  datatype Fetch<T> = Page(items: seq<T>, remaining: int) | Failed(error: Error)

  type Listing<T> = seq<Fetch<T>>

  /** No fetch of the listing failed. */
  predicate AllFetched<T>(l: Listing<T>)
  {
    forall i :: 0 <= i < |l| ==> l[i].Page?
  }

  /** The walk of `l` stops at fetch `k` with error `e`: every earlier fetch succeeded. */
  predicate FailsFirstAt<T>(l: Listing<T>, k: int, e: Error)
  {
    0 <= k < |l| && l[k].Failed? && l[k].error == e && AllFetched(l[..k])
  }

  /** The first failed fetch of `l` reported `e`. */
  predicate FailedWith<T>(l: Listing<T>, e: Error)
  {
    exists k :: 0 <= k < |l| && FailsFirstAt(l, k, e)
  }

  function PageItems<T>(f: Fetch<T>): seq<T>
  {
    if f.Page? then f.items else []
  }

  /** The items of all fetched pages, in page order. */
  function Items<T>(l: Listing<T>): seq<T>
  {
    if |l| == 0 then [] else PageItems(l[0]) + Items(l[1..])
  }

  lemma {:induction false} ItemsSnoc<T>(l: Listing<T>, f: Fetch<T>)
    ensures Items(l + [f]) == Items(l) + PageItems(f)
    decreases |l|
  {
    if |l| == 0 {
      assert [f][1..] == [];
    } else {
      assert (l + [f])[1..] == l[1..] + [f];
      ItemsSnoc(l[1..], f);
    }
  }

  /**
   The page loop every metric runs: fetch, stop with the error of the
   first failed fetch, otherwise collect the items of every page.
   */
  function Walk<T>(l: Listing<T>): (r: Result<seq<T>>)
    ensures r.Ok? <==> AllFetched(l)
    ensures r.Ok? ==> r.value == Items(l)
    ensures r.Err? ==> FailedWith(l, r.error)
  {
    if |l| == 0 then Ok([])
    else
      match l[0]
      case Failed(e) =>
        assert FailsFirstAt(l, 0, e);
        Err(e)
      case Page(items, _) =>
        match Walk(l[1..])
        case Ok(rest) => Ok(items + rest)
        case Err(e) =>
          assert FailedWith(l, e) by {
            var k :| 0 <= k < |l[1..]| && FailsFirstAt(l[1..], k, e);
            assert l[..k + 1] == [l[0]] + l[1..][..k];
            assert FailsFirstAt(l, k + 1, e);
          }
          Err(e)
  }

  /** One more fetched page extends the fetched prefix and its items. */
  lemma PageStep<T>(l: Listing<T>, i: nat)
    requires i < |l| && AllFetched(l[..i]) && l[i].Page?
    ensures AllFetched(l[..i + 1])
    ensures Items(l[..i + 1]) == Items(l[..i]) + l[i].items
  {
    assert l[..i + 1] == l[..i] + [l[i]];
    ItemsSnoc(l[..i], l[i]);
  }

  /** Once the pages before `k` were fetched, a failure at `k` decides the walk. */
  lemma WalkFailsAt<T>(l: Listing<T>, k: nat)
    requires k < |l| && AllFetched(l[..k]) && l[k].Failed?
    ensures Walk(l) == Err(l[k].error)
  {
    assert !AllFetched(l);
    var j :| 0 <= j < |l| && FailsFirstAt(l, j, Walk(l).error);
    assert forall i :: 0 <= i < k ==> l[..k][i] == l[i];
    assert forall i :: 0 <= i < j ==> l[..j][i] == l[i];
  }

  /**
   The rate-limit pauses of a walk. The check runs after a page only when
   another fetch follows it, so the last page's quota is never looked at;
   a walk pauses once per such page reporting fewer than `RateLimitFloor`
   remaining calls.
   */
  function Pauses<T>(l: Listing<T>): (n: nat)
    ensures |l| > 0 ==> n <= |l| - 1
    ensures (forall i :: 0 <= i < |l| && l[i].Page? ==> !ShouldPause(l[i].remaining)) ==> n == 0
  {
    if |l| <= 1 || l[0].Failed? then 0
    else
      assert forall i :: 0 <= i < |l[1..]| ==> l[1..][i] == l[i + 1];
      (if ShouldPause(l[0].remaining) then 1 else 0) + Pauses(l[1..])
  }

  /**
   The fetches after which a walk pauses: a page that is not the last,
   reached without a failure, reporting fewer than `RateLimitFloor`
   remaining calls.
   */
  ghost function PausePoints<T>(l: Listing<T>): set<nat>
  {
    set i: nat | i < |l| - 1 && AllFetched(l[..i + 1]) && l[i].Page? && ShouldPause(l[i].remaining)
  }

  /** Every element of `s` moved up by one. */
  ghost function Shift(s: set<nat>): set<nat>
  {
    set i | i in s :: i + 1
  }

  /** Moving every element up by one keeps the size of a set. */
  lemma ShiftedCardinality(s: set<nat>)
    ensures |Shift(s)| == |s|
    decreases |s|
  {
    if s != {} {
      var x :| x in s;
      var smaller := s - {x};
      ShiftedCardinality(smaller);
      forall y | y in Shift(s)
        ensures y in Shift(smaller) + {x + 1}
      {
        var i :| i in s && y == i + 1;
        if i != x {
          assert i in smaller;
        }
      }
      forall y | y in Shift(smaller) + {x + 1}
        ensures y in Shift(s)
      {
        if y != x + 1 {
          var i :| i in smaller && y == i + 1;
          assert i in s;
        } else {
          assert x in s;
        }
      }
      forall i | i in smaller
        ensures i + 1 != x + 1
      {
      }
      assert x + 1 !in Shift(smaller);
      assert Shift(s) == Shift(smaller) + {x + 1};
    }
  }

  /** After a fetched first page, the pause points are that page's, then the rest's one fetch later. */
  lemma PausePointsSplit<T>(l: Listing<T>)
    requires |l| > 1 && l[0].Page?
    ensures PausePoints(l) == (if ShouldPause(l[0].remaining) then {0} else {}) + Shift(PausePoints(l[1..]))
  {
    var rest := l[1..];
    var head: set<nat> := if ShouldPause(l[0].remaining) then {0} else {};
    assert AllFetched(l[..1]);
    forall i | i in PausePoints(l)
      ensures i in head + Shift(PausePoints(rest))
    {
      if i > 0 {
        assert forall j :: 0 <= j < i ==> rest[..i][j] == l[..i + 1][j + 1];
        assert i - 1 in PausePoints(rest);
      }
    }
    forall y | y in head + Shift(PausePoints(rest))
      ensures y in PausePoints(l)
    {
      if y !in head {
        var j :| j in PausePoints(rest) && y == j + 1;
        assert l[..j + 2] == [l[0]] + rest[..j + 1];
      }
    }
  }

  /** The walk pauses exactly once per pause point. */
  lemma {:induction false} PausesCount<T>(l: Listing<T>)
    ensures Pauses(l) == |PausePoints(l)|
    decreases |l|
  {
    if |l| <= 1 {
      assert PausePoints(l) == {};
    } else if l[0].Failed? {
      assert forall i :: 0 < i <= |l| ==> l[..i][0] == l[0];
      assert PausePoints(l) == {};
    } else {
      PausesCount(l[1..]);
      PausePointsSplit(l);
      ShiftedCardinality(PausePoints(l[1..]));
      assert 0 !in Shift(PausePoints(l[1..]));
    }
  }

  /** Whatever quota the final page reports, the number of pauses is the same. */
  lemma {:induction false} FinalQuotaIgnored<T>(l: Listing<T>, items: seq<T>, q1: int, q2: int)
    requires AllFetched(l)
    ensures Pauses(l + [Page(items, q1)]) == Pauses(l + [Page(items, q2)])
    decreases |l|
  {
    if |l| > 0 {
      assert (l + [Page(items, q1)])[1..] == l[1..] + [Page(items, q1)];
      assert (l + [Page(items, q2)])[1..] == l[1..] + [Page(items, q2)];
      FinalQuotaIgnored(l[1..], items, q1, q2);
    }
  }

  /** The inner loop of the counting metrics: one page of items added to the count. */
  method CountPage<T(!new)>(count: nat, ghost seen: seq<T>, items: seq<T>, p: T -> bool) returns (next: nat)
    requires count == |Filter(seen, p)|
    ensures next == |Filter(seen + items, p)|
  {
    next := count;
    ghost var done := seen;
    var j := 0;
    while j < |items|
      invariant 0 <= j <= |items|
      invariant done == seen + items[..j]
      invariant next == |Filter(done, p)|
    {
      FilterSnoc(done, items[j], p);
      if p(items[j]) {
        next := next + 1;
      }
      done := done + [items[j]];
      assert done == seen + items[..j + 1];
      j := j + 1;
    }
    assert items[..j] == items;
  }

  /**
   The page loop of the counting metrics: walk the listing, add one per
   item that `p` selects, and give up with the error of the first failed
   fetch.
   */
  method CountByPages<T(!new)>(l: Listing<T>, p: T -> bool) returns (r: Result<nat>)
    ensures r.Err? <==> !AllFetched(l)
    ensures r.Err? ==> FailedWith(l, r.error)
    ensures r.Ok? ==> r.value == |Filter(Items(l), p)|
  {
    var count := 0;
    ghost var seen: seq<T> := [];
    var i := 0;
    while i < |l|
      invariant 0 <= i <= |l|
      invariant AllFetched(l[..i])
      invariant seen == Items(l[..i])
      invariant count == |Filter(seen, p)|
    {
      match l[i] {
        case Failed(e) =>
          WalkFailsAt(l, i);
          return Err(e);
        case Page(items, _) =>
          count := CountPage(count, seen, items, p);
          PageStep(l, i);
          seen := seen + items;
          i := i + 1;
      }
    }
    assert l[..i] == l;
    return Ok(count);
  }
}
