/**
 The latency recorder of the load-test client: an append-only store of
 measured round-trip durations and the periodic summary computed over it
 (truncating mean, nearest-rank median, 90th and 99th percentile, maximum).
 */
module Latency {
  import Permutations

  /** A measured send duration in nanoseconds (a Go `time.Duration`, never negative when measured). */
  type Duration = nat

  /** The line the report scheduler logs: either "no data", or the five statistics. */
  datatype Report = NoData | Stats(mean: Duration, median: Duration, p90: Duration, p99: Duration, max: Duration)

  /** The sample store after a summary (it is sorted in place, never cleared) and the logged report. */
  datatype Summary = Summary(latencies: seq<Duration>, report: Report)

  /** Ascending order, the order the summary leaves the samples in. */
  predicate Sorted(s: seq<Duration>)
  {
    forall i, j :: 0 <= i <= j < |s| ==> s[i] <= s[j]
  }

  // ---------------------------------------------------------------------------
  // Recording
  // ---------------------------------------------------------------------------

  /** Appends one measured duration to the store. */
  function RecordLatency(latencies: seq<Duration>, latency: Duration): (r: seq<Duration>)
    ensures |r| == |latencies| + 1
    ensures r[..|latencies|] == latencies
    ensures r[|latencies|] == latency
    ensures multiset(r) == multiset(latencies) + multiset{latency}
  {
    latencies + [latency]
  }

  // ---------------------------------------------------------------------------
  // Totals over a sample sequence
  // ---------------------------------------------------------------------------

  /** What one sample contributes to a total: its own value, or 1 when it lies below / at most a bound. */
  datatype Measure = Value | Below(bound: Duration) | AtMost(bound: Duration)

  function Weight(m: Measure, x: Duration): nat
  {
    match m
    case Value => x
    case Below(b) => if x < b then 1 else 0
    case AtMost(b) => if x <= b then 1 else 0
  }

  function Total(s: seq<Duration>, m: Measure): nat
  {
    if |s| == 0 then 0 else Weight(m, s[0]) + Total(s[1..], m)
  }

  /** The sum of all samples. */
  function Sum(s: seq<Duration>): nat
  {
    Total(s, Value)
  }

  /** How many samples are strictly smaller than `v`. */
  function CountBelow(s: seq<Duration>, v: Duration): nat
  {
    Total(s, Below(v))
  }

  /** How many samples are at most `v`. */
  function CountAtMost(s: seq<Duration>, v: Duration): nat
  {
    Total(s, AtMost(v))
  }

  /**
   `v` is the sample of 0-based rank `k` in ascending order: it occurs in `s`,
   at most `k` samples are below it, and more than `k` samples are at most it.
   */
  ghost predicate HasRank(s: seq<Duration>, v: Duration, k: nat)
  {
    v in s && CountBelow(s, v) <= k < CountAtMost(s, v)
  }

  lemma {:induction false} TotalConcat(a: seq<Duration>, b: seq<Duration>, m: Measure)
    ensures Total(a + b, m) == Total(a, m) + Total(b, m)
  {
    if |a| == 0 {
      assert a + b == b;
    } else {
      assert (a + b)[1..] == a[1..] + b;
      TotalConcat(a[1..], b, m);
    }
  }

  /** A total does not depend on the order of the samples. */
  lemma {:induction false} TotalPermutation(a: seq<Duration>, b: seq<Duration>, m: Measure)
    requires multiset(a) == multiset(b)
    ensures Total(a, m) == Total(b, m)
  {
    if |a| == 0 {
      assert |b| == |multiset(b)| == 0;
    } else {
      var j := Permutations.RemoveFirst(a, b);
      TotalPermutation(a[1..], b[..j] + b[j + 1..], m);
      TotalConcat(b[..j], [a[0]] + b[j + 1..], m);
      assert ([a[0]] + b[j + 1..])[1..] == b[j + 1..];
      TotalConcat(b[..j], b[j + 1..], m);
      assert a == [a[0]] + a[1..];
    }
  }

  /** Every sample weighs at most one under a counting measure, so a count never exceeds the length. */
  lemma {:induction false} CountAtMostLength(s: seq<Duration>, m: Measure)
    requires !m.Value?
    ensures Total(s, m) <= |s|
  {
    if |s| > 0 {
      CountAtMostLength(s[1..], m);
    }
  }

  /** A sum lies between length times the smallest and length times the largest bound. */
  lemma {:induction false} SumBounds(s: seq<Duration>, lo: Duration, hi: Duration)
    requires forall i :: 0 <= i < |s| ==> lo <= s[i] <= hi
    ensures |s| * lo <= Sum(s) <= |s| * hi
  {
    if |s| > 0 {
      SumBounds(s[1..], lo, hi);
      assert |s| * lo == lo + (|s| - 1) * lo;
      assert |s| * hi == hi + (|s| - 1) * hi;
    }
  }

  /** Truncating division of a sum bounded by `n*lo` and `n*hi` stays between `lo` and `hi`. */
  lemma MeanBetween(sum: nat, n: nat, lo: nat, hi: nat)
    requires n >= 1
    requires n * lo <= sum <= n * hi
    ensures lo <= sum / n <= hi
  {
    var q := sum / n;
    assert n * q <= sum < n * q + n;
    assert n * (q + 1) == n * q + n;
    MulCancel(n, lo, q + 1);
    assert n * (hi + 1) == n * hi + n;
    MulCancel(n, q, hi + 1);
  }

  lemma MulCancel(n: nat, a: nat, b: nat)
    requires n >= 1 && n * a < n * b
    ensures a < b
  {
  }

  // ---------------------------------------------------------------------------
  // Sorting
  // ---------------------------------------------------------------------------

  function Insert(x: Duration, s: seq<Duration>): (r: seq<Duration>)
    requires Sorted(s)
    ensures Sorted(r)
    ensures multiset(r) == multiset(s) + multiset{x}
  {
    if |s| == 0 then [x]
    else if x <= s[0] then [x] + s
    else
      var rest := Insert(x, s[1..]);
      assert s == [s[0]] + s[1..];
      LowerBoundKept(s[0], s[1..], x, rest);
      SortedCons(s[0], rest);
      [s[0]] + rest
  }

  /** A lower bound of `t` and of `x` bounds every element of a sequence holding exactly `t` and `x`. */
  lemma LowerBoundKept(lo: Duration, t: seq<Duration>, x: Duration, rest: seq<Duration>)
    requires forall k :: 0 <= k < |t| ==> lo <= t[k]
    requires lo <= x
    requires multiset(rest) == multiset(t) + multiset{x}
    ensures forall k :: 0 <= k < |rest| ==> lo <= rest[k]
  {
    forall k | 0 <= k < |rest|
      ensures lo <= rest[k]
    {
      assert rest[k] in multiset(rest);
    }
  }

  lemma SortedCons(v: Duration, t: seq<Duration>)
    requires Sorted(t)
    requires forall k :: 0 <= k < |t| ==> v <= t[k]
    ensures Sorted([v] + t)
  {
  }

  /**
   Insertion sort. The client sorts with `sort.Slice`, whose algorithm is not
   modelled: `SortedPermutationUnique` shows any ascending sort gives this result.
   */
  function SortAscending(s: seq<Duration>): (r: seq<Duration>)
    ensures Sorted(r)
    ensures multiset(r) == multiset(s)
  {
    if |s| == 0 then []
    else
      assert s == [s[0]] + s[1..];
      Insert(s[0], SortAscending(s[1..]))
  }

  /** Two ascending sequences with the same elements are equal: the sorted order of a sample set is unique. */
  lemma {:induction false} SortedPermutationUnique(a: seq<Duration>, b: seq<Duration>)
    requires Sorted(a) && Sorted(b)
    requires multiset(a) == multiset(b)
    ensures a == b
  {
    if |a| == 0 {
      assert |b| == |multiset(b)| == 0;
    } else {
      assert |b| == |multiset(b)| == |a|;
      SortedHeads(a, b);
      assert a == [a[0]] + a[1..];
      assert b == [b[0]] + b[1..];
      assert multiset(a[1..]) == multiset(a) - multiset{a[0]};
      assert multiset(b[1..]) == multiset(b) - multiset{b[0]};
      SortedPermutationUnique(a[1..], b[1..]);
    }
  }

  /** Two non-empty ascending sequences with the same elements start with the same (smallest) element. */
  lemma SortedHeads(a: seq<Duration>, b: seq<Duration>)
    requires Sorted(a) && Sorted(b)
    requires multiset(a) == multiset(b)
    requires 0 < |a| && 0 < |b|
    ensures a[0] == b[0]
  {
    assert a[0] in multiset(b);
    var j :| 0 <= j < |b| && b[j] == a[0];
    assert b[0] in multiset(a);
    var k :| 0 <= k < |a| && a[k] == b[0];
  }

  /** Re-sorting an already sorted store changes nothing, so repeated summaries agree. */
  lemma SortIdempotent(s: seq<Duration>)
    requires Sorted(s)
    ensures SortAscending(s) == s
  {
    SortedPermutationUnique(SortAscending(s), s);
  }

  // ---------------------------------------------------------------------------
  // Percentile indices
  // ---------------------------------------------------------------------------

  /** Index of the median in a sorted store of `n` samples. */
  function MedianIndex(n: nat): nat
  {
    n / 2
  }

  /** Index of the 90th percentile: the float expression `int(n*0.9)` taken as the integer floor. */
  function P90Index(n: nat): nat
  {
    n * 9 / 10
  }

  /** Index of the 99th percentile: the float expression `int(n*0.99)` taken as the integer floor. */
  function P99Index(n: nat): nat
  {
    n * 99 / 100
  }

  /** On a non-empty store every index used by the summary is in bounds, and they are non-decreasing. */
  lemma IndicesInBounds(n: nat)
    requires n >= 1
    ensures MedianIndex(n) <= P90Index(n) <= P99Index(n) <= n - 1
  {
  }

  // ---------------------------------------------------------------------------
  // Ranks in a sorted sequence
  // ---------------------------------------------------------------------------

  lemma {:induction false} NoneBelow(s: seq<Duration>, v: Duration)
    requires forall i :: 0 <= i < |s| ==> v <= s[i]
    ensures CountBelow(s, v) == 0
  {
    if |s| > 0 {
      NoneBelow(s[1..], v);
    }
  }

  lemma {:induction false} AllAtMost(s: seq<Duration>, v: Duration)
    requires forall i :: 0 <= i < |s| ==> s[i] <= v
    ensures CountAtMost(s, v) == |s|
  {
    if |s| > 0 {
      AllAtMost(s[1..], v);
    }
  }

  /** The element at index `k` of an ascending sequence has rank `k`. */
  lemma SortedRank(t: seq<Duration>, k: nat)
    requires Sorted(t) && k < |t|
    ensures HasRank(t, t[k], k)
  {
    var v := t[k];
    assert t == t[..k] + t[k..];
    TotalConcat(t[..k], t[k..], Below(v));
    CountAtMostLength(t[..k], Below(v));
    NoneBelow(t[k..], v);
    assert t == t[..k + 1] + t[k + 1..];
    TotalConcat(t[..k + 1], t[k + 1..], AtMost(v));
    AllAtMost(t[..k + 1], v);
  }

  /** Ranks survive reordering: they depend only on the multiset of samples. */
  lemma RankPermutation(s: seq<Duration>, t: seq<Duration>, v: Duration, k: nat)
    requires multiset(s) == multiset(t)
    requires HasRank(t, v, k)
    ensures HasRank(s, v, k)
  {
    TotalPermutation(s, t, Below(v));
    TotalPermutation(s, t, AtMost(v));
    assert v in multiset(t);
  }

  lemma {:induction false} CountMonotone(s: seq<Duration>, v: Duration, w: Duration)
    requires v < w
    ensures CountAtMost(s, v) <= CountBelow(s, w)
  {
    if |s| > 0 {
      CountMonotone(s[1..], v, w);
    }
  }

  /** At most one value has a given rank, so each reported percentile is determined by the samples alone. */
  lemma RankUnique(s: seq<Duration>, v: Duration, w: Duration, k: nat)
    requires HasRank(s, v, k) && HasRank(s, w, k)
    ensures v == w
  {
    if v < w {
      CountMonotone(s, v, w);
    } else if w < v {
      CountMonotone(s, w, v);
    }
  }

  // ---------------------------------------------------------------------------
  // The summary
  // ---------------------------------------------------------------------------

  /** The facts the summary reports about a non-empty store, proved over its sorted copy. */
  lemma SummaryFacts(latencies: seq<Duration>, sorted: seq<Duration>)
    requires |latencies| >= 1
    requires Sorted(sorted) && multiset(sorted) == multiset(latencies)
    ensures |sorted| == |latencies|
    ensures Sum(sorted) == Sum(latencies)
    ensures sorted[0] <= Sum(sorted) / |sorted| <= sorted[|sorted| - 1]
    ensures forall i :: 0 <= i < |latencies| ==> latencies[i] <= sorted[|sorted| - 1]
    ensures HasRank(latencies, sorted[MedianIndex(|sorted|)], MedianIndex(|sorted|))
    ensures HasRank(latencies, sorted[P90Index(|sorted|)], P90Index(|sorted|))
    ensures HasRank(latencies, sorted[P99Index(|sorted|)], P99Index(|sorted|))
    ensures HasRank(latencies, sorted[|sorted| - 1], |sorted| - 1)
  {
    var n := |latencies|;
    assert |sorted| == |multiset(sorted)| == n;
    TotalPermutation(sorted, latencies, Value);
    SumBounds(sorted, sorted[0], sorted[n - 1]);
    MeanBetween(Sum(sorted), n, sorted[0], sorted[n - 1]);
    forall i | 0 <= i < n
      ensures latencies[i] <= sorted[n - 1]
    {
      assert latencies[i] in multiset(sorted);
    }
    IndicesInBounds(n);
    SortedRank(sorted, MedianIndex(n));
    RankPermutation(latencies, sorted, sorted[MedianIndex(n)], MedianIndex(n));
    SortedRank(sorted, P90Index(n));
    RankPermutation(latencies, sorted, sorted[P90Index(n)], P90Index(n));
    SortedRank(sorted, P99Index(n));
    RankPermutation(latencies, sorted, sorted[P99Index(n)], P99Index(n));
    SortedRank(sorted, n - 1);
    RankPermutation(latencies, sorted, sorted[n - 1], n - 1);
  }

  /** The truncating integer mean of a non-empty store; the sum is taken in store order, as the client does. */
  function MeanOf(s: seq<Duration>): Duration
    requires |s| >= 1
  {
    Sum(s) / |s|
  }

  /**
   The periodic summary: sorts the store ascending (keeping every sample), and
   on a non-empty store reports the truncating mean and the samples at the
   floor-indexed positions n/2, 0.9n, 0.99n and n-1 of the sorted store.
   */
  function CalculateLatencyStats(latencies: seq<Duration>): (r: Summary)
    ensures Sorted(r.latencies)
    ensures multiset(r.latencies) == multiset(latencies)
    ensures r.report.NoData? <==> |latencies| == 0
    ensures r.report.Stats? ==>
              var n := |latencies|;
              && |r.latencies| == n
              && r.report.mean == Sum(latencies) / n
              && r.report.median == r.latencies[MedianIndex(n)]
              && r.report.p90 == r.latencies[P90Index(n)]
              && r.report.p99 == r.latencies[P99Index(n)]
              && r.report.max == r.latencies[n - 1]
  {
    var sorted := SortAscending(latencies);
    var n := |sorted|;
    assert n == |multiset(sorted)| == |latencies|;
    if n == 0 then
      Summary(sorted, NoData)
    else
      IndicesInBounds(n);
      var mean := MeanOf(sorted);
      TotalPermutation(sorted, latencies, Value);
      Summary(sorted, Stats(mean, sorted[MedianIndex(n)], sorted[P90Index(n)], sorted[P99Index(n)], sorted[n - 1]))
  }

  /**
   What the five statistics of a non-empty store mean, independently of how
   the store was sorted: each percentile is the sample of its floor-indexed
   rank, the maximum bounds every sample, the mean lies between the smallest
   and the largest sample, and median <= p90 <= p99 <= max.
   */
  lemma LatencyStatsProperties(latencies: seq<Duration>)
    requires |latencies| >= 1
    ensures var r := CalculateLatencyStats(latencies).report;
            var n := |latencies|;
            && r.Stats?
            && HasRank(latencies, r.median, MedianIndex(n))
            && HasRank(latencies, r.p90, P90Index(n))
            && HasRank(latencies, r.p99, P99Index(n))
            && HasRank(latencies, r.max, n - 1)
            && r.max in latencies
            && (forall i :: 0 <= i < n ==> latencies[i] <= r.max)
            && (exists i :: 0 <= i < n && latencies[i] <= r.mean)
            && r.mean <= r.max
            && r.median <= r.p90 <= r.p99 <= r.max
  {
    var s := CalculateLatencyStats(latencies);
    var n := |latencies|;
    SummaryFacts(latencies, s.latencies);
    IndicesInBounds(n);
    assert s.latencies[0] in multiset(latencies);
    var i :| 0 <= i < n && latencies[i] == s.latencies[0];
    assert latencies[i] <= s.report.mean;
  }

  /** A summary never loses samples: the store keeps its length and contents across reports. */
  lemma SummaryKeepsHistory(latencies: seq<Duration>, later: Duration)
    ensures |CalculateLatencyStats(latencies).latencies| == |latencies|
    ensures CalculateLatencyStats(RecordLatency(CalculateLatencyStats(latencies).latencies, later)).latencies
            == CalculateLatencyStats(RecordLatency(latencies, later)).latencies
  {
    var first := CalculateLatencyStats(latencies).latencies;
    assert |first| == |multiset(first)| == |multiset(latencies)| == |latencies|;
    var a := CalculateLatencyStats(RecordLatency(first, later)).latencies;
    var b := CalculateLatencyStats(RecordLatency(latencies, later)).latencies;
    SortedPermutationUnique(a, b);
  }

  /** The summary depends only on which samples were recorded, not on the order in which concurrent workers appended them. */
  lemma SummaryOrderIrrelevant(a: seq<Duration>, b: seq<Duration>)
    requires multiset(a) == multiset(b)
    ensures CalculateLatencyStats(a) == CalculateLatencyStats(b)
  {
    SortedPermutationUnique(SortAscending(a), SortAscending(b));
    assert |a| == |multiset(a)| == |b|;
  }

  /** A store in which every sample is `x` reports `x` for all five statistics. */
  lemma UniformStore(s: seq<Duration>, x: Duration)
    requires |s| >= 1
    requires forall i :: 0 <= i < |s| ==> s[i] == x
    ensures CalculateLatencyStats(s) == Summary(s, Stats(x, x, x, x, x))
  {
    var n := |s|;
    var r := CalculateLatencyStats(s);
    SortedPermutationUnique(r.latencies, s);
    SumBounds(s, x, x);
    MeanBetween(Sum(s), n, x, x);
    IndicesInBounds(n);
  }
}
