/** `Stats`: counters with a latency histogram, and the percentile read off the histogram. */
module LatencyStats {
  import opened Machine

  const U64_MAX: nat := 0xFFFF_FFFF_FFFF_FFFF

  type U64 = x: nat | x <= U64_MAX

  const BUCKETS: nat := 10

  const BOUNDS: seq<U64> := [25, 50, 100, 250, 500, 1000, 2000, 5000, 10000, U64_MAX]

  datatype RawTotals = Totals(
    observations: nat,
    latencySum: nat,
    latencyMax: nat,
    buckets: seq<nat>,
    responseBytes: nat,
    sizedResponses: nat,
    results: nat,
    emptyResults: nat,
    warnedResults: nat,
    realtimeFallbacks: nat)

  /** The contents of a `Stats`. */
  type Totals = t: RawTotals | |t.buckets| == BUCKETS
    witness Totals(0, 0, 0, seq(BUCKETS, i => 0), 0, 0, 0, 0, 0, 0)

  function Zero(): Totals {
    Totals(0, 0, 0, seq(BUCKETS, i => 0), 0, 0, 0, 0, 0, 0)
  }

  function AddBuckets(a: seq<nat>, b: seq<nat>): (r: seq<nat>)
    requires |a| == |b| == BUCKETS
    ensures |r| == BUCKETS && forall i :: 0 <= i < BUCKETS ==> r[i] == a[i] + b[i]
  {
    seq(BUCKETS, i requires 0 <= i < BUCKETS => a[i] + b[i])
  }

  function Add(a: Totals, b: Totals): Totals {
    Totals(
      a.observations + b.observations,
      a.latencySum + b.latencySum,
      Max(a.latencyMax, b.latencyMax),
      AddBuckets(a.buckets, b.buckets),
      a.responseBytes + b.responseBytes,
      a.sizedResponses + b.sizedResponses,
      a.results + b.results,
      a.emptyResults + b.emptyResults,
      a.warnedResults + b.warnedResults,
      a.realtimeFallbacks + b.realtimeFallbacks)
  }

  lemma AddAssociates(a: Totals, b: Totals, c: Totals)
    ensures Add(Add(a, b), c) == Add(a, Add(b, c))
  {
    assert AddBuckets(AddBuckets(a.buckets, b.buckets), c.buckets)
        == AddBuckets(a.buckets, AddBuckets(b.buckets, c.buckets));
  }

  lemma AddCommutes(a: Totals, b: Totals)
    ensures Add(a, b) == Add(b, a)
  {
    assert AddBuckets(a.buckets, b.buckets) == AddBuckets(b.buckets, a.buckets);
  }

  lemma AddZero(a: Totals)
    ensures Add(a, Zero()) == a && Add(Zero(), a) == a
  {
    assert AddBuckets(a.buckets, Zero().buckets) == a.buckets;
    AddCommutes(a, Zero());
  }

  // ---------------------------------------------------------------- samples

  /** The first bucket whose bound is not exceeded. */
  predicate IsBucketOf(ms: U64, bucket: nat) {
    bucket < BUCKETS && ms <= BOUNDS[bucket] && forall i :: 0 <= i < bucket ==> ms > BOUNDS[i]
  }

  function BucketFrom(ms: U64, from: nat): (bucket: nat)
    requires from < BUCKETS && forall i :: 0 <= i < from ==> ms > BOUNDS[i]
    ensures IsBucketOf(ms, bucket)
    decreases BUCKETS - from
  {
    if ms <= BOUNDS[from] then from else BucketFrom(ms, from + 1)
  }

  function Sampled(ms: U64): Totals {
    Zero().(observations := 1, latencySum := ms, latencyMax := ms,
            buckets := seq(BUCKETS, i => if i == BucketFrom(ms, 0) then 1 else 0))
  }

  class Stats {
    var observations: nat
    var latencySum: nat
    var latencyMax: nat
    const latencyBuckets: array<nat>
    var responseBytes: nat
    var sizedResponses: nat
    var results: nat
    var emptyResults: nat
    var warnedResults: nat
    var realtimeFallbacks: nat

    ghost function Contents(): Totals
      reads this, latencyBuckets
      requires latencyBuckets.Length == BUCKETS
    {
      Totals(observations, latencySum, latencyMax, latencyBuckets[..], responseBytes, sizedResponses, results,
             emptyResults, warnedResults, realtimeFallbacks)
    }

    /** `sample` */
    constructor Sample(ms: U64)
      ensures latencyBuckets.Length == BUCKETS && fresh(latencyBuckets)
      ensures Contents() == Sampled(ms)
    {
      observations, latencySum, latencyMax := 1, ms, ms;
      latencyBuckets := new nat[BUCKETS](_ => 0);
      responseBytes, sizedResponses, results, emptyResults, warnedResults, realtimeFallbacks := 0, 0, 0, 0, 0, 0;
      new;
      var bucket := 0;
      while bucket < BUCKETS - 1 && ms > BOUNDS[bucket]
        invariant 0 <= bucket < BUCKETS && forall i :: 0 <= i < bucket ==> ms > BOUNDS[i]
        invariant BucketFrom(ms, bucket) == BucketFrom(ms, 0)
      {
        bucket := bucket + 1;
      }
      latencyBuckets[bucket] := 1;
      assert latencyBuckets[..] == Sampled(ms).buckets;
    }

    /** `merge`, in place. */
    method Merge(other: Stats)
      requires latencyBuckets.Length == other.latencyBuckets.Length == BUCKETS
      requires latencyBuckets != other.latencyBuckets && this != other
      modifies this, latencyBuckets
      ensures Contents() == Add(old(Contents()), other.Contents())
    {
      observations := observations + other.observations;
      latencySum := latencySum + other.latencySum;
      latencyMax := Max(latencyMax, other.latencyMax);
      MergeBuckets(latencyBuckets, other.latencyBuckets);
      responseBytes := responseBytes + other.responseBytes;
      sizedResponses := sizedResponses + other.sizedResponses;
      results := results + other.results;
      emptyResults := emptyResults + other.emptyResults;
      warnedResults := warnedResults + other.warnedResults;
      realtimeFallbacks := realtimeFallbacks + other.realtimeFallbacks;
    }
  }

  /** The loop over the buckets. */
  method MergeBuckets(buckets: array<nat>, other: array<nat>)
    requires buckets.Length == other.Length == BUCKETS && buckets != other
    modifies buckets
    ensures buckets[..] == AddBuckets(old(buckets[..]), other[..])
  {
    for i := 0 to BUCKETS
      invariant forall k :: 0 <= k < i ==> buckets[k] == old(buckets[k]) + other[k]
      invariant forall k :: i <= k < BUCKETS ==> buckets[k] == old(buckets[k])
    {
      buckets[i] := buckets[i] + other[i];
    }
    assert buckets[..] == AddBuckets(old(buckets[..]), other[..]);
  }

  // ---------------------------------------------------------------- percentiles

  function SumTo(buckets: seq<nat>, n: nat): nat
    requires n <= |buckets|
  {
    if n == 0 then 0 else SumTo(buckets, n - 1) + buckets[n - 1]
  }

  /** Enough of all observations lie in the first `n + 1` buckets. */
  predicate Reaches(buckets: seq<nat>, percent: nat, n: nat)
    requires n < |buckets|
  {
    SumTo(buckets, n + 1) * 100 >= SumTo(buckets, |buckets|) * percent
  }

  lemma RankReached(count: nat, percent: nat, seen: nat)
    ensures seen >= (count * percent + 99) / 100 <==> seen * 100 >= count * percent
  {
  }

  /** `percentile` */
  method Percentile(buckets: seq<nat>, percent: nat) returns (bound: Option<U64>)
    requires |buckets| == BUCKETS
    ensures SumTo(buckets, BUCKETS) == 0 ==> bound == None
    ensures bound.Some? ==>
              exists n: nat :: n < 9 && bound.value == BOUNDS[n] && Reaches(buckets, percent, n)
                               && forall m: nat :: m < n ==> !Reaches(buckets, percent, m)
    ensures SumTo(buckets, BUCKETS) > 0 && bound == None ==> forall m: nat :: m < 9 ==> !Reaches(buckets, percent, m)
  {
    var count := 0;
    for i := 0 to |buckets|
      invariant count == SumTo(buckets, i)
    {
      count := count + buckets[i];
    }
    if count == 0 {
      return None;
    }
    var rank := (count * percent + 99) / 100;
    var seen := 0;
    for i := 0 to |buckets|
      invariant seen == SumTo(buckets, i)
      invariant forall m: nat :: m < i ==> !Reaches(buckets, percent, m)
    {
      seen := seen + buckets[i];
      RankReached(count, percent, seen);
      if seen >= rank {
        return if i < 9 then Some(BOUNDS[i]) else None;
      }
    }
    return None;
  }

  function Tallied(samples: seq<U64>): Totals {
    if |samples| == 0 then Zero() else Add(Tallied(samples[..|samples| - 1]), Sampled(samples[|samples| - 1]))
  }

  /** `largest` is the largest of the numbers, 0 when there are none. */
  predicate IsLargest(largest: nat, numbers: seq<nat>) {
    && (forall x :: x in numbers ==> x <= largest)
    && (if |numbers| == 0 then largest == 0 else largest in numbers)
  }

  function Total(numbers: seq<nat>): nat {
    if |numbers| == 0 then 0 else Total(numbers[..|numbers| - 1]) + numbers[|numbers| - 1]
  }

  /** A tally of samples counts them, adds them up and knows the largest. */
  lemma {:induction false} TalliedExact(samples: seq<U64>)
    ensures var t := Tallied(samples);
            && t.observations == |samples| && t.latencySum == Total(samples) && IsLargest(t.latencyMax, samples)
            && t.responseBytes == t.sizedResponses == t.results == t.emptyResults == 0
            && t.warnedResults == t.realtimeFallbacks == 0
  {
    if |samples| > 0 {
      var front, last := samples[..|samples| - 1], samples[|samples| - 1];
      TalliedExact(front);
      assert samples == front + [last];
    }
  }

  function AtMost(samples: seq<U64>, bound: U64): nat {
    if |samples| == 0 then 0
    else AtMost(samples[..|samples| - 1], bound) + if samples[|samples| - 1] <= bound then 1 else 0
  }

  lemma {:induction false} SumOfSample(ms: U64, n: nat)
    requires n <= BUCKETS
    ensures SumTo(Sampled(ms).buckets, n) == if BucketFrom(ms, 0) < n then 1 else 0
  {
    if n > 0 {
      SumOfSample(ms, n - 1);
    }
  }

  lemma {:induction false} SumOfAdded(a: seq<nat>, b: seq<nat>, n: nat)
    requires |a| == |b| == BUCKETS && n <= BUCKETS
    ensures SumTo(AddBuckets(a, b), n) == SumTo(a, n) + SumTo(b, n)
  {
    if n > 0 {
      SumOfAdded(a, b, n - 1);
    }
  }

  lemma BoundsAscend(i: nat, j: nat)
    requires i <= j < BUCKETS
    ensures BOUNDS[i] <= BOUNDS[j]
  {
  }

  lemma BucketWithin(ms: U64, n: nat)
    requires n < BUCKETS
    ensures BucketFrom(ms, 0) <= n <==> ms <= BOUNDS[n]
  {
    var bucket := BucketFrom(ms, 0);
    if bucket <= n {
      BoundsAscend(bucket, n);
    }
  }

  /** The first buckets count the samples up to their bound. */
  lemma {:induction false} HistogramCounts(samples: seq<U64>, n: nat)
    requires n < BUCKETS
    ensures SumTo(Tallied(samples).buckets, n + 1) == AtMost(samples, BOUNDS[n])
  {
    if |samples| == 0 {
      ZeroSum(n + 1);
    } else {
      var front, last := samples[..|samples| - 1], samples[|samples| - 1];
      HistogramCounts(front, n);
      SumOfAdded(Tallied(front).buckets, Sampled(last).buckets, n + 1);
      SumOfSample(last, n + 1);
      BucketWithin(last, n);
    }
  }

  lemma {:induction false} ZeroSum(n: nat)
    requires n <= BUCKETS
    ensures SumTo(Zero().buckets, n) == 0
  {
    if n > 0 {
      ZeroSum(n - 1);
    }
  }

  lemma {:induction false} AllAtMost(samples: seq<U64>)
    ensures AtMost(samples, U64_MAX) == |samples|
  {
    if |samples| > 0 {
      AllAtMost(samples[..|samples| - 1]);
    }
  }

  /** At least `percent` percent of the samples are no larger than `bound`. */
  predicate Covers(samples: seq<U64>, percent: nat, bound: U64) {
    AtMost(samples, bound) * 100 >= |samples| * percent
  }

  /** A bucket is reached exactly when its bound covers the percentage of the samples; so the percentile of a histogram
      is the least of the nine bounds that does. */
  lemma ReachesMeansCovers(samples: seq<U64>, percent: nat, n: nat)
    requires n < BUCKETS
    ensures Reaches(Tallied(samples).buckets, percent, n) <==> Covers(samples, percent, BOUNDS[n])
  {
    HistogramCounts(samples, n);
    HistogramCounts(samples, BUCKETS - 1);
    AllAtMost(samples);
  }
}
