/** The bucketing engine: a sequence of report resolution times, in seconds,
    folded into a cumulative ("less or equal") histogram. */
module Histogram {
  import opened Metrics

  /** Upper bounds of the resolution-time buckets, from one minute to one week. */
  const ResolutionTimeBuckets: seq<real> :=
    [60.0, 600.0, 1800.0, 3600.0, 14400.0, 28800.0, 86400.0, 172800.0, 604800.0]

  ghost predicate StrictlyIncreasing(s: seq<real>)
  {
    forall i, j :: 0 <= i < j < |s| ==> s[i] < s[j]
  }

  lemma BucketsStrictlyIncreasing()
    ensures StrictlyIncreasing(ResolutionTimeBuckets)
  {
  }

  /** Number of observations in `s` that are at most `b`. */
  function CountLe(s: seq<real>, b: real): (n: nat)
    ensures n <= |s|
  {
    if s == [] then 0
    else CountLe(s[..|s| - 1], b) + (if s[|s| - 1] <= b then 1 else 0)
  }

  /** Exact sum of the observations (floating-point rounding is not modelled). */
  function Sum(s: seq<real>): real
  {
    if s == [] then 0.0 else Sum(s[..|s| - 1]) + s[|s| - 1]
  }

  /** Reference definition of the bucket map: every bound that at least one
      observation does not exceed, mapped to the number of such observations. */
  function BucketMap(s: seq<real>): map<real, nat>
  {
    map b | b in ResolutionTimeBuckets && CountLe(s, b) > 0 :: CountLe(s, b)
  }

  /** Reference definition of the histogram built from `numbers`. */
  function HistogramOf(numbers: seq<real>): Metric
  {
    Histogram(ResolvedTimeSeconds, |numbers|, Sum(numbers), BucketMap(numbers))
  }

  /** Count recorded for bound `b` in `buckets`; a bound no observation reached
      is absent from the map and reads as zero. */
  function BucketValue(buckets: map<real, nat>, b: real): nat
  {
    if b in buckets then buckets[b] else 0
  }

  /** `m` records exactly the observations of `s` that are at most `b`. */
  ghost predicate Agrees(m: map<real, nat>, b: real, s: seq<real>)
  {
    if CountLe(s, b) == 0 then b !in m else b in m && m[b] == CountLe(s, b)
  }

  lemma CountLeSnoc(s: seq<real>, x: real, b: real)
    ensures CountLe(s + [x], b) == CountLe(s, b) + (if x <= b then 1 else 0)
  {
    assert (s + [x])[..|s|] == s;
  }

  lemma SumSnoc(s: seq<real>, x: real)
    ensures Sum(s + [x]) == Sum(s) + x
  {
    assert (s + [x])[..|s|] == s;
  }

  lemma AgreesEverywhere(m: map<real, nat>, s: seq<real>)
    requires forall b :: b in m ==> b in ResolutionTimeBuckets
    requires forall k :: 0 <= k < |ResolutionTimeBuckets| ==> Agrees(m, ResolutionTimeBuckets[k], s)
    ensures m == BucketMap(s)
  {
    forall b | b in ResolutionTimeBuckets
      ensures Agrees(m, b, s)
    {
      var k :| 0 <= k < |ResolutionTimeBuckets| && ResolutionTimeBuckets[k] == b;
    }
  }

  /** One increment of the inner loop: after bound `bs[j]` has seen `x`, the
      bounds up to `j` record `s + [x]` and the later ones still record `s`. */
  lemma BucketStep(m: map<real, nat>, bs: seq<real>, j: nat, s: seq<real>, x: real)
    requires StrictlyIncreasing(bs) && j < |bs|
    requires forall k :: 0 <= k < j ==> Agrees(m, bs[k], s + [x])
    requires forall k :: j <= k < |bs| ==> Agrees(m, bs[k], s)
    ensures var m' := if x <= bs[j] then m[bs[j] := BucketValue(m, bs[j]) + 1] else m;
      && (forall k :: 0 <= k <= j ==> Agrees(m', bs[k], s + [x]))
      && (forall k :: j < k < |bs| ==> Agrees(m', bs[k], s))
  {
    CountLeSnoc(s, x, bs[j]);
  }

  /** Folds the observations into a histogram, one observation at a time,
      incrementing every bucket whose bound the observation does not exceed. */
  method ResolvedMetricFromNums(numbers: seq<real>) returns (h: Metric)
    ensures h == HistogramOf(numbers)
  {
    var bounds := ResolutionTimeBuckets;
    BucketsStrictlyIncreasing();
    var sum := 0.0;
    var buckets: map<real, nat> := map[];
    var i := 0;
    while i < |numbers|
      invariant 0 <= i <= |numbers|
      invariant sum == Sum(numbers[..i])
      invariant forall b :: b in buckets ==> b in bounds
      invariant forall k :: 0 <= k < |bounds| ==> Agrees(buckets, bounds[k], numbers[..i])
    {
      var num := numbers[i];
      ghost var seen := numbers[..i];
      assert numbers[..i + 1] == seen + [num];
      SumSnoc(seen, num);
      sum := sum + num;
      var j := 0;
      while j < |bounds|
        invariant 0 <= j <= |bounds|
        invariant forall b :: b in buckets ==> b in bounds
        invariant forall k :: 0 <= k < j ==> Agrees(buckets, bounds[k], seen + [num])
        invariant forall k :: j <= k < |bounds| ==> Agrees(buckets, bounds[k], seen)
      {
        BucketStep(buckets, bounds, j, seen, num);
        var bucket := bounds[j];
        if num <= bucket {
          buckets := buckets[bucket := BucketValue(buckets, bucket) + 1];
        }
        j := j + 1;
      }
      i := i + 1;
    }
    assert numbers[..i] == numbers;
    AgreesEverywhere(buckets, numbers);
    h := Histogram(ResolvedTimeSeconds, |numbers|, sum, buckets);
  }

  /** CountLe is the size of the set of positions whose observation is at most `b`. */
  lemma {:induction false} CountLeIsCardinality(s: seq<real>, b: real)
    ensures CountLe(s, b) == |set i | 0 <= i < |s| && s[i] <= b|
  {
    if s != [] {
      var n := |s| - 1;
      var init := s[..n];
      CountLeIsCardinality(init, b);
      var before := set i | 0 <= i < |init| && init[i] <= b;
      var all := set i | 0 <= i < |s| && s[i] <= b;
      if s[n] <= b {
        assert all == before + {n};
      } else {
        assert all == before;
      }
    }
  }

  /** A bucket with a larger bound counts at least as many observations. */
  lemma {:induction false} CountLeMonotone(s: seq<real>, a: real, b: real)
    requires a <= b
    ensures CountLe(s, a) <= CountLe(s, b)
  {
    if s != [] {
      CountLeMonotone(s[..|s| - 1], a, b);
    }
  }

  /** A bound counts nothing exactly when every observation exceeds it. */
  lemma {:induction false} CountLeZero(s: seq<real>, b: real)
    ensures CountLe(s, b) == 0 <==> forall i :: 0 <= i < |s| ==> s[i] > b
  {
    if s != [] {
      var n := |s| - 1;
      CountLeZero(s[..n], b);
      assert forall i :: 0 <= i < n ==> s[..n][i] == s[i];
    }
  }

  /** The histogram's count is the number of observations, its sum their sum,
      and every configured bound maps to the number of observations at or
      below it, being absent exactly when that number is zero. */
  lemma HistogramBuckets(numbers: seq<real>, b: real)
    requires b in ResolutionTimeBuckets
    ensures HistogramOf(numbers).count == |numbers|
    ensures HistogramOf(numbers).sum == Sum(numbers)
    ensures b in HistogramOf(numbers).buckets <==> exists i :: 0 <= i < |numbers| && numbers[i] <= b
    ensures BucketValue(HistogramOf(numbers).buckets, b)
      == |set i | 0 <= i < |numbers| && numbers[i] <= b|
  {
    CountLeZero(numbers, b);
    CountLeIsCardinality(numbers, b);
  }

  /** Only the configured bounds appear in the bucket map, and no bucket
      exceeds the total count, so the histogram is a well-formed sample. */
  lemma HistogramWellFormed(numbers: seq<real>)
    ensures forall b :: b in HistogramOf(numbers).buckets ==> b in ResolutionTimeBuckets
    ensures WellFormed(HistogramOf(numbers))
  {
  }

  /** Bucket counts never decrease along the list of bounds. */
  lemma BucketsNonDecreasing(numbers: seq<real>, i: nat, j: nat)
    requires i <= j < |ResolutionTimeBuckets|
    ensures BucketValue(HistogramOf(numbers).buckets, ResolutionTimeBuckets[i])
      <= BucketValue(HistogramOf(numbers).buckets, ResolutionTimeBuckets[j])
  {
    BucketsStrictlyIncreasing();
    CountLeMonotone(numbers, ResolutionTimeBuckets[i], ResolutionTimeBuckets[j]);
  }

  /** An observation above the largest bound raises the count and the sum
      but leaves every bucket unchanged. */
  lemma AboveLargestBound(numbers: seq<real>, x: real)
    requires x > ResolutionTimeBuckets[|ResolutionTimeBuckets| - 1]
    ensures HistogramOf(numbers + [x]).count == HistogramOf(numbers).count + 1
    ensures HistogramOf(numbers + [x]).sum == HistogramOf(numbers).sum + x
    ensures HistogramOf(numbers + [x]).buckets == HistogramOf(numbers).buckets
  {
    BucketsStrictlyIncreasing();
    SumSnoc(numbers, x);
    forall b | b in ResolutionTimeBuckets
      ensures CountLe(numbers + [x], b) == CountLe(numbers, b)
    {
      CountLeSnoc(numbers, x, b);
    }
  }

  /** No observations give a valid, empty histogram. */
  lemma EmptyHistogram()
    ensures HistogramOf([]) == Histogram(ResolvedTimeSeconds, 0, 0.0, map[])
  {
    assert BucketMap([]) == map[];
  }

  lemma ThreeObservationsCounts(b: real)
    requires b >= 60.0
    ensures CountLe([45.0, 500.0, 3700.0], b) == if b < 500.0 then 1 else if b < 3700.0 then 2 else 3
  {
    var s, two, one := [45.0, 500.0, 3700.0], [45.0, 500.0], [45.0];
    assert s[..2] == two && two[..1] == one && one[..0] == [];
    assert CountLe(one, b) == 1;
    assert CountLe(two, b) == if b < 500.0 then 1 else 2;
  }

  /** Resolution times of 45, 500 and 3700 seconds: one report within a
      minute, two within ten minutes, all three within four hours. */
  lemma ThreeObservations()
    ensures HistogramOf([45.0, 500.0, 3700.0]).count == 3
    ensures HistogramOf([45.0, 500.0, 3700.0]).sum == 4245.0
    ensures forall k :: 0 <= k < |ResolutionTimeBuckets| ==>
      BucketValue(HistogramOf([45.0, 500.0, 3700.0]).buckets, ResolutionTimeBuckets[k])
        == [1, 2, 2, 2, 3, 3, 3, 3, 3][k]
  {
    var s, two, one := [45.0, 500.0, 3700.0], [45.0, 500.0], [45.0];
    assert s[..2] == two && two[..1] == one && one[..0] == [];
    assert Sum(one) == 45.0 && Sum(two) == 545.0 && Sum(s) == 4245.0;
    forall k | 0 <= k < |ResolutionTimeBuckets|
      ensures BucketValue(BucketMap(s), ResolutionTimeBuckets[k]) == [1, 2, 2, 2, 3, 3, 3, 3, 3][k]
    {
      ThreeObservationsCounts(ResolutionTimeBuckets[k]);
    }
  }
}
