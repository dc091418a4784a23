/**
 Fixed-bucket latency histograms and the quantiles read from them (`Histogram` of `src/metrics.rs`),
 against the list of observations.
 */
module Histograms {
  import opened Prelude

  /** Upper bounds in microseconds: at least one, ascending, below the largest 64-bit value. */
  ghost predicate ValidBounds(bounds: seq<nat>) {
    && bounds != []
    && (forall i, j :: 0 <= i < j < |bounds| ==> bounds[i] < bounds[j])
    && bounds[|bounds| - 1] < U64_MAX
  }

  function FirstAtLeast(bounds: seq<nat>, us: nat, i: nat): nat
    requires i < |bounds|
    decreases |bounds| - i
  {
    if us <= bounds[i] || i == |bounds| - 1 then i else FirstAtLeast(bounds, us, i + 1)
  }

  /** The bucket of an observation: the first whose bound it does not exceed, or the last. */
  function BucketOf(bounds: seq<nat>, us: nat): nat
    requires bounds != []
  {
    FirstAtLeast(bounds, us, 0)
  }

  lemma {:induction false} FirstAtLeastExact(bounds: seq<nat>, us: nat, i: nat)
    requires i < |bounds|
    ensures var m := FirstAtLeast(bounds, us, i);
      i <= m < |bounds| && (us <= bounds[m] || m == |bounds| - 1) && forall j :: i <= j < m ==> bounds[j] < us
    decreases |bounds| - i
  {
    if !(us <= bounds[i] || i == |bounds| - 1) {
      FirstAtLeastExact(bounds, us, i + 1);
    }
  }

  /** An observation lies above the bound before its bucket and, unless clamped, within the bucket's own. */
  lemma BucketBrackets(bounds: seq<nat>, us: nat)
    requires ValidBounds(bounds)
    ensures var m := BucketOf(bounds, us);
      m < |bounds| && (forall j :: 0 <= j < m ==> bounds[j] < us) && (us <= bounds[m] || m == |bounds| - 1)
  {
    FirstAtLeastExact(bounds, us, 0);
  }

  datatype HistState = HistState(counts: seq<nat>, sumUs: nat, count: nat)

  function Empty(bounds: seq<nat>): HistState { HistState(seq(|bounds|, _ => 0), 0, 0) }

  function AfterObserve(bounds: seq<nat>, h: HistState, us: nat): (h': HistState)
    requires bounds != [] && |h.counts| == |bounds|
    ensures |h'.counts| == |bounds| && h'.count == h.count + 1
  {
    FirstAtLeastExact(bounds, us, 0);
    var i := BucketOf(bounds, us);
    HistState(h.counts[i := h.counts[i] + 1], h.sumUs + us, h.count + 1)
  }

  // ---- Snapshots and quantiles ----

  datatype HistogramBucket = HistogramBucket(leUs: nat, count: nat)

  datatype HistogramSample = HistogramSample(buckets: seq<HistogramBucket>, sumUs: nat, count: nat)

  function Cumulative(counts: seq<nat>, n: nat): nat
    requires n <= |counts|
  {
    if n == 0 then 0 else Cumulative(counts, n - 1) + counts[n - 1]
  }

  function SampleOf(bounds: seq<nat>, h: HistState): HistogramSample
    requires |h.counts| == |bounds|
  {
    HistogramSample(
      seq(|bounds|, i requires 0 <= i < |bounds| => HistogramBucket(bounds[i], Cumulative(h.counts, i + 1))),
      h.sumUs, h.count)
  }

  /** `find` over the snapshot: the first bound whose cumulative count reaches the target. */
  function FindBound(buckets: seq<HistogramBucket>, target: nat): Option<nat> {
    if buckets == [] then None
    else if buckets[0].count >= target then Some(buckets[0].leUs)
    else FindBound(buckets[1..], target)
  }

  /** `ceil() as u64`: negative values become zero. */
  function CeilNat(x: real): nat { if x <= 0.0 then 0 else -(-x).Floor }

  function Target(count: nat, q: real): nat { CeilNat(count as real * q) }

  function QuantileFromSample(sample: HistogramSample, q: real): nat {
    if sample.count == 0 then 0
    else match FindBound(sample.buckets, Target(sample.count, q))
      case Some(le) => le
      case None => U64_MAX
  }

  class Histogram {
    const bounds: seq<nat>
    const counts: array<nat>
    var sumUs: nat
    var count: nat

    ghost predicate Valid() { ValidBounds(bounds) && counts.Length == |bounds| }

    ghost function Repr(): set<object> { {this, counts} }

    ghost function State(): HistState
      reads this, counts
    {
      HistState(counts[..], sumUs, count)
    }

    constructor WithBuckets(bounds: seq<nat>)
      requires ValidBounds(bounds)
      ensures Valid() && this.bounds == bounds && fresh(counts)
      ensures State() == Empty(bounds)
    {
      this.bounds := bounds;
      counts := new nat[|bounds|](_ => 0);
      sumUs, count := 0, 0;
      new;
      assert counts[..] == seq(|bounds|, _ => 0);
    }

    method ObserveUs(us: nat)
      requires Valid()
      modifies Repr()
      ensures State() == AfterObserve(bounds, old(State()), us)
    {
      var idx := 0;
      while idx < |bounds| - 1 && us > bounds[idx]
        invariant idx < |bounds| && FirstAtLeast(bounds, us, idx) == BucketOf(bounds, us)
      {
        idx := idx + 1;
      }
      counts[idx] := counts[idx] + 1;
      sumUs := sumUs + us;
      count := count + 1;
    }

    method Snapshot() returns (sample: HistogramSample)
      requires Valid()
      ensures sample == SampleOf(bounds, State())
      ensures sample.sumUs == sumUs && sample.count == count && |sample.buckets| == |bounds|
      ensures forall i :: 0 <= i < |bounds| ==> sample.buckets[i].leUs == bounds[i]
    {
      var cumulative: seq<HistogramBucket> := [];
      var running := 0;
      for i := 0 to |bounds|
        invariant running == Cumulative(counts[..], i) && |cumulative| == i
        invariant forall j :: 0 <= j < i ==> cumulative[j] == HistogramBucket(bounds[j], Cumulative(counts[..], j + 1))
      {
        running := running + counts[i];
        cumulative := cumulative + [HistogramBucket(bounds[i], running)];
      }
      sample := HistogramSample(cumulative, sumUs, count);
    }

    method QuantilesUs(qs: seq<real>) returns (result: seq<(real, nat)>)
      requires Valid()
      ensures |result| == |qs|
      ensures forall i :: 0 <= i < |qs| ==> result[i] == (qs[i], QuantileFromSample(SampleOf(bounds, State()), qs[i]))
    {
      var sample := Snapshot();
      result := seq(|qs|, i requires 0 <= i < |qs| => (qs[i], QuantileFromSample(sample, qs[i])));
    }

    method Reset()
      requires Valid()
      modifies Repr()
      ensures State() == Empty(bounds)
    {
      for i := 0 to counts.Length
        invariant forall j :: 0 <= j < i ==> counts[j] == 0
        modifies counts
      {
        counts[i] := 0;
      }
      sumUs := 0;
      count := 0;
      assert counts[..] == seq(|bounds|, _ => 0);
    }
  }

  // ---- The histogram against its observations ----

  function ObservedAll(bounds: seq<nat>, log: seq<nat>): (h: HistState)
    requires bounds != []
    ensures |h.counts| == |bounds| && h.count == |log|
  {
    if log == [] then Empty(bounds)
    else AfterObserve(bounds, ObservedAll(bounds, log[..|log| - 1]), log[|log| - 1])
  }

  datatype Op = Observe(us: nat) | Reset

  function Run(bounds: seq<nat>, ops: seq<Op>): (h: HistState)
    requires bounds != []
    ensures |h.counts| == |bounds|
  {
    if ops == [] then Empty(bounds)
    else match ops[|ops| - 1]
      case Observe(us) => AfterObserve(bounds, Run(bounds, ops[..|ops| - 1]), us)
      case Reset => Empty(bounds)
  }

  /** The observations since the last reset. */
  function LogOf(ops: seq<Op>): seq<nat> {
    if ops == [] then []
    else match ops[|ops| - 1]
      case Observe(us) => LogOf(ops[..|ops| - 1]) + [us]
      case Reset => []
  }

  lemma {:induction false} RunIsObserved(bounds: seq<nat>, ops: seq<Op>)
    requires bounds != []
    ensures Run(bounds, ops) == ObservedAll(bounds, LogOf(ops))
  {
    if ops != [] {
      RunIsObserved(bounds, ops[..|ops| - 1]);
      if ops[|ops| - 1].Observe? {
        var log := LogOf(ops[..|ops| - 1]);
        assert (log + [ops[|ops| - 1].us])[..|log|] == log;
      }
    }
  }

  function Total(log: seq<nat>): nat { if log == [] then 0 else Total(log[..|log| - 1]) + log[|log| - 1] }

  /** The running sum and count are those of the observations. */
  lemma {:induction false} SumAndCountAreTotals(bounds: seq<nat>, log: seq<nat>)
    requires bounds != []
    ensures ObservedAll(bounds, log).sumUs == Total(log) && ObservedAll(bounds, log).count == |log|
  {
    if log != [] {
      SumAndCountAreTotals(bounds, log[..|log| - 1]);
    }
  }

  function AtMost(v: int): nat -> bool { (x: nat) => x <= v }

  function InFirst(bounds: seq<nat>, n: nat): nat -> bool
    requires bounds != []
  {
    (x: nat) => BucketOf(bounds, x) < n
  }

  lemma {:induction false} CumulativeUpdate(counts: seq<nat>, i: nat, n: nat)
    requires i < |counts| && n <= |counts|
    ensures Cumulative(counts[i := counts[i] + 1], n) == Cumulative(counts, n) + Flag(i < n)
  {
    if n > 0 {
      CumulativeUpdate(counts, i, n - 1);
    }
  }

  lemma {:induction false} CumulativeEmpty(bounds: seq<nat>, n: nat)
    requires n <= |bounds|
    ensures Cumulative(Empty(bounds).counts, n) == 0
  {
    if n > 0 {
      CumulativeEmpty(bounds, n - 1);
    }
  }

  lemma {:induction false} CumulativeCountsObservations(bounds: seq<nat>, log: seq<nat>, n: nat)
    requires bounds != [] && n <= |bounds|
    ensures Cumulative(ObservedAll(bounds, log).counts, n) == CountIf(InFirst(bounds, n), log)
  {
    if log == [] {
      CumulativeEmpty(bounds, n);
    } else {
      var prefix, us := log[..|log| - 1], log[|log| - 1];
      CumulativeCountsObservations(bounds, prefix, n);
      FirstAtLeastExact(bounds, us, 0);
      CumulativeUpdate(ObservedAll(bounds, prefix).counts, BucketOf(bounds, us), n);
    }
  }

  /** `v` is the `k`-th smallest observation, counted from one. */
  ghost predicate IsKthSmallest(log: seq<nat>, k: nat, v: nat) {
    CountIf(AtMost(v - 1), log) < k <= CountIf(AtMost(v), log)
  }

  function Largest(log: seq<nat>): nat {
    if log == [] then 0 else Max(Largest(log[..|log| - 1]), log[|log| - 1])
  }

  lemma {:induction false} AllAtMostLargest(log: seq<nat>, v: nat)
    requires v >= Largest(log)
    ensures CountIf(AtMost(v), log) == |log|
  {
    if log != [] {
      AllAtMostLargest(log[..|log| - 1], v);
    }
  }

  /** Every rank has its order statistic. */
  lemma KthSmallestExists(log: seq<nat>, k: nat) returns (v: nat)
    requires 0 < k <= |log|
    ensures IsKthSmallest(log, k, v)
  {
    AllAtMostLargest(log, Largest(log));
    CountNone(AtMost(-1), log);
    v := 0;
    while CountIf(AtMost(v), log) < k
      invariant v <= Largest(log) && CountIf(AtMost(v - 1), log) < k
      decreases Largest(log) - v
    {
      v := v + 1;
    }
  }

  lemma {:induction false} FindBoundExact(buckets: seq<HistogramBucket>, target: nat, m: nat)
    requires m < |buckets| && buckets[m].count >= target
    requires forall j :: 0 <= j < m ==> buckets[j].count < target
    ensures FindBound(buckets, target) == Some(buckets[m].leUs)
  {
    if m > 0 {
      FindBoundExact(buckets[1..], target, m - 1);
    }
  }

  lemma {:induction false} FindBoundNone(buckets: seq<HistogramBucket>, target: nat)
    requires forall j :: 0 <= j < |buckets| ==> buckets[j].count < target
    ensures FindBound(buckets, target) == None
  {
    if buckets != [] {
      FindBoundNone(buckets[1..], target);
    }
  }

  function Quantile(bounds: seq<nat>, log: seq<nat>, q: real): nat
    requires bounds != []
  {
    QuantileFromSample(SampleOf(bounds, ObservedAll(bounds, log)), q)
  }

  lemma RankReachedInBucket(bounds: seq<nat>, log: seq<nat>, k: nat, v: nat, n: nat)
    requires ValidBounds(bounds) && n < |bounds| && k <= |log| && IsKthSmallest(log, k, v)
    ensures Cumulative(ObservedAll(bounds, log).counts, n + 1) >= k <==> BucketOf(bounds, v) <= n
  {
    BucketBrackets(bounds, v);
    CumulativeCountsObservations(bounds, log, n + 1);
    forall x: nat
      ensures BucketOf(bounds, v) <= n && x <= v ==> BucketOf(bounds, x) < n + 1
      ensures BucketOf(bounds, v) > n && BucketOf(bounds, x) < n + 1 ==> x <= v - 1
    {
      BucketBrackets(bounds, x);
    }
    if BucketOf(bounds, v) <= n {
      CountMonotone(AtMost(v), InFirst(bounds, n + 1), log);
    } else {
      CountMonotone(InFirst(bounds, n + 1), AtMost(v - 1), log);
    }
  }

  lemma TargetInRange(count: nat, q: real)
    requires count > 0 && 0.0 < q
    ensures 0 < Target(count, q) && Target(count, q) as real - 1.0 < q * count as real <= Target(count, q) as real
    ensures q <= 1.0 ==> Target(count, q) <= count
    ensures q > 1.0 ==> Target(count, q) > count
  {
    var c := count as real;
    assert c * q > 0.0;
    if q <= 1.0 {
      assert c * (1.0 - q) >= 0.0;
    } else {
      assert c * (q - 1.0) > 0.0;
    }
    assert c * q - c == c * (q - 1.0);
  }

  /** The quantile of a rank is the bound of the bucket that holds the observation of that rank. */
  lemma QuantileOfRank(bounds: seq<nat>, log: seq<nat>, q: real, v: nat)
    requires ValidBounds(bounds) && log != [] && 0.0 < q <= 1.0
    requires IsKthSmallest(log, Target(|log|, q), v)
    ensures BucketOf(bounds, v) < |bounds| && Quantile(bounds, log, q) == bounds[BucketOf(bounds, v)]
  {
    var k, m := Target(|log|, q), BucketOf(bounds, v);
    TargetInRange(|log|, q);
    BucketBrackets(bounds, v);
    var sample := SampleOf(bounds, ObservedAll(bounds, log));
    forall j | 0 <= j < |bounds| ensures sample.buckets[j].count >= k <==> m <= j {
      RankReachedInBucket(bounds, log, k, v, j);
    }
    FindBoundExact(sample.buckets, k, m);
  }

  /** A larger rank is never smaller in value. */
  lemma KthSmallestMonotone(log: seq<nat>, k: nat, v: nat, l: nat, w: nat)
    requires k <= l && IsKthSmallest(log, k, v) && IsKthSmallest(log, l, w)
    ensures v <= w
  {
    if w < v {
      CountMonotone(AtMost(w), AtMost(v - 1), log);
    }
  }

  /**
   Of `n` observations one value is the `ceil(q * n)`-th smallest, and the quantile is the bound of its
   bucket: the value is above the bound before and, unless beyond the last bound, within this one.
   */
  lemma {:induction false} QuantileBracketsOrderStatistic(bounds: seq<nat>, log: seq<nat>, q: real)
      returns (v: nat)
    requires ValidBounds(bounds) && log != [] && 0.0 < q <= 1.0
    ensures forall w: nat :: IsKthSmallest(log, Target(|log|, q), w) <==> w == v
    ensures Target(|log|, q) as real - 1.0 < q * |log| as real <= Target(|log|, q) as real
    ensures var m := BucketOf(bounds, v);
      && m < |bounds| && Quantile(bounds, log, q) == bounds[m]
      && (m > 0 ==> bounds[m - 1] < v) && (v <= bounds[m] || m == |bounds| - 1)
  {
    var k := Target(|log|, q);
    TargetInRange(|log|, q);
    v := KthSmallestExists(log, k);
    forall w: nat | IsKthSmallest(log, k, w) ensures w == v {
      KthSmallestMonotone(log, k, v, k, w);
      KthSmallestMonotone(log, k, w, k, v);
    }
    BucketBrackets(bounds, v);
    QuantileOfRank(bounds, log, q, v);
  }

  lemma {:induction false} AllInSomeBucket(bounds: seq<nat>, log: seq<nat>)
    requires ValidBounds(bounds)
    ensures CountIf(InFirst(bounds, |bounds|), log) == |log|
  {
    if log != [] {
      AllInSomeBucket(bounds, log[..|log| - 1]);
      BucketBrackets(bounds, log[|log| - 1]);
    }
  }

  lemma CumulativeAtMostCount(bounds: seq<nat>, log: seq<nat>, n: nat)
    requires ValidBounds(bounds) && n <= |bounds|
    ensures Cumulative(ObservedAll(bounds, log).counts, n) <= |log|
  {
    CumulativeCountsObservations(bounds, log, n);
    AllInSomeBucket(bounds, log);
    forall x: nat ensures BucketOf(bounds, x) < |bounds| {
      BucketBrackets(bounds, x);
    }
    CountMonotone(InFirst(bounds, n), InFirst(bounds, |bounds|), log);
  }

  /** The out-of-range marker is returned exactly for a quantile above one of a histogram that is not empty. */
  lemma OutOfRangeIffAboveOne(bounds: seq<nat>, log: seq<nat>, q: real)
    requires ValidBounds(bounds) && 0.0 < q
    ensures Quantile(bounds, log, q) == 0xFFFF_FFFF_FFFF_FFFF <==> log != [] && q > 1.0
    ensures log == [] ==> Quantile(bounds, log, q) == 0
  {
    if log != [] {
      TargetInRange(|log|, q);
      if q <= 1.0 {
        var v := QuantileBracketsOrderStatistic(bounds, log, q);
        assert forall i :: 0 <= i < |bounds| ==> bounds[i] <= bounds[|bounds| - 1];
      } else {
        var sample := SampleOf(bounds, ObservedAll(bounds, log));
        forall j | 0 <= j < |bounds| ensures sample.buckets[j].count < Target(|log|, q) {
          CumulativeAtMostCount(bounds, log, j + 1);
        }
        FindBoundNone(sample.buckets, Target(|log|, q));
      }
    }
  }

  lemma TargetMonotone(count: nat, p: real, q: real)
    requires 0.0 < p <= q
    ensures Target(count, p) <= Target(count, q)
  {
    var c, d := count as real, q - p;
    assert c * d >= 0.0;
    assert c * q == c * p + c * d;
  }

  lemma BucketMonotone(bounds: seq<nat>, v: nat, w: nat)
    requires ValidBounds(bounds) && v <= w
    ensures BucketOf(bounds, v) <= BucketOf(bounds, w)
  {
    BucketBrackets(bounds, v);
    BucketBrackets(bounds, w);
  }

  /** Quantiles of one histogram grow with `q`. */
  lemma QuantileMonotone(bounds: seq<nat>, log: seq<nat>, p: real, q: real)
    requires ValidBounds(bounds) && log != [] && 0.0 < p <= q <= 1.0
    ensures Quantile(bounds, log, p) <= Quantile(bounds, log, q)
  {
    var v := QuantileBracketsOrderStatistic(bounds, log, p);
    var w := QuantileBracketsOrderStatistic(bounds, log, q);
    TargetMonotone(|log|, p, q);
    KthSmallestMonotone(log, Target(|log|, p), v, Target(|log|, q), w);
    BucketMonotone(bounds, v, w);
  }
}
