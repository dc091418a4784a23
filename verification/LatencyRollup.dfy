/**
 The global request-latency histogram beside its per-upstream, per-model breakdown: the histogram part of
 `RequestTimer::finalize`, `LabeledHistogram`, and `Metrics::reset`.
 */
module LatencyRollup {
  import opened Prelude
  import opened Histograms

  datatype Label = Label(upstreamId: string, model: string)

  class LabeledHistogram {
    const bounds: seq<nat>
    var series: map<Label, Histogram>

    /** Every series has the common bounds, and no two share state. */
    ghost predicate Valid()
      reads this
    {
      && ValidBounds(bounds)
      && (forall l :: l in series ==> series[l].Valid() && series[l].bounds == bounds)
      && (forall l, k :: l in series && k in series && l != k ==>
            series[l] != series[k] && series[l].counts != series[k].counts)
    }

    ghost function Arrays(): set<array<nat>>
      reads this
    {
      set l | l in series :: series[l].counts
    }

    constructor (bounds: seq<nat>)
      requires ValidBounds(bounds)
      ensures Valid() && this.bounds == bounds && series == map[]
    {
      this.bounds := bounds;
      series := map[];
    }

    /** The label's series, created empty on first use. */
    method Entry(tag: Label) returns (h: Histogram)
      requires Valid()
      modifies this
      ensures Valid() && tag in series && h == series[tag]
      ensures series == old(series)[tag := h]
      ensures tag in old(series) ==> h == old(series)[tag]
      ensures tag !in old(series) ==> fresh(h) && fresh(h.counts) && h.State() == Empty(bounds)
    {
      if tag !in series {
        h := new Histogram.WithBuckets(bounds);
        series := series[tag := h];
      } else {
        h := series[tag];
        assert series == series[tag := h];
      }
    }

    /** Adds an observation to the label's series, creating it on first use. */
    method Observe(tag: Label, us: nat)
      requires Valid()
      modifies this, series.Values, Arrays()
      ensures Valid() && tag in series && series == old(series)[tag := series[tag]]
      ensures if tag in old(series) then series[tag] == old(series)[tag]
              else fresh(series[tag]) && fresh(series[tag].counts)
      ensures forall l :: l in old(series) && l != tag ==> series[l].State() == old(series[l].State())
      ensures series[tag].State() ==
        AfterObserve(bounds, if tag in old(series) then old(series[tag].State()) else Empty(bounds), us)
    {
      var h := Entry(tag);
      h.ObserveUs(us);
    }

    method Reset()
      requires Valid()
      modifies series.Values, Arrays()
      ensures Valid() && forall l :: l in series ==> series[l].State() == Empty(bounds)
    {
      var rest := series.Keys;
      while rest != {}
        invariant rest <= series.Keys
        invariant forall l :: l in series && l !in rest ==> series[l].State() == Empty(bounds)
        decreases rest
      {
        var l :| l in rest;
        series[l].Reset();
        rest := rest - {l};
      }
    }
  }

  function AfterLabeled(bounds: seq<nat>, series: map<Label, HistState>, tag: Label, us: nat): map<Label, HistState>
    requires bounds != [] && forall l :: l in series ==> |series[l].counts| == |bounds|
  {
    series[tag := AfterObserve(bounds, if tag in series then series[tag] else Empty(bounds), us)]
  }

  /** The two histograms `finalize` feeds. */
  class LatencyMetrics {
    const requestDuration: Histogram
    const byUpstream: LabeledHistogram

    ghost predicate Valid()
      reads byUpstream
    {
      && requestDuration.Valid() && byUpstream.Valid() && requestDuration.bounds == byUpstream.bounds
      && requestDuration !in byUpstream.series.Values && requestDuration.counts !in byUpstream.Arrays()
    }

    constructor (bounds: seq<nat>)
      requires ValidBounds(bounds)
      ensures Valid() && requestDuration.State() == Empty(bounds) && byUpstream.series == map[]
    {
      requestDuration := new Histogram.WithBuckets(bounds);
      byUpstream := new LabeledHistogram(bounds);
    }

    /** One finished request; `tag` is absent when no upstream was reached. */
    method Finalize(totalUs: nat, tag: Option<Label>)
      requires Valid()
      modifies requestDuration.Repr(), byUpstream, byUpstream.series.Values, byUpstream.Arrays()
      ensures Valid()
      ensures requestDuration.State() == AfterObserve(requestDuration.bounds, old(requestDuration.State()), totalUs)
      ensures byUpstream.series.Keys == old(byUpstream.series.Keys) + if tag.Some? then {tag.value} else {}
      ensures tag.Some? ==>
        && tag.value in byUpstream.series
        && byUpstream.series[tag.value].State() ==
             AfterObserve(byUpstream.bounds,
                          if tag.value in old(byUpstream.series) then old(byUpstream.series[tag.value].State())
                          else Empty(byUpstream.bounds),
                          totalUs)
      ensures forall l :: l in old(byUpstream.series) && Some(l) != tag ==>
        l in byUpstream.series && byUpstream.series[l].State() == old(byUpstream.series[l].State())
    {
      requestDuration.ObserveUs(totalUs);
      if tag.Some? {
        byUpstream.Observe(tag.value, totalUs);
      }
    }

    method Reset()
      requires Valid()
      modifies requestDuration.Repr(), byUpstream.series.Values, byUpstream.Arrays()
      ensures Valid() && requestDuration.State() == Empty(requestDuration.bounds)
      ensures byUpstream.series == old(byUpstream.series)
      ensures forall l :: l in byUpstream.series ==> byUpstream.series[l].State() == Empty(byUpstream.bounds)
    {
      requestDuration.Reset();
      byUpstream.Reset();
    }
  }

  // ---- The breakdown adds up ----

  datatype Op = Finalize(us: nat, tag: Option<Label>) | ResetAll

  /** The global histogram, the series, and the requests that reached no upstream. */
  datatype Roll = Roll(all: HistState, series: map<Label, HistState>, untagged: HistState)

  ghost predicate Shaped(bounds: seq<nat>, r: Roll) {
    && |r.all.counts| == |r.untagged.counts| == |bounds|
    && forall l :: l in r.series ==> |r.series[l].counts| == |bounds|
  }

  ghost function Run(bounds: seq<nat>, ops: seq<Op>): (r: Roll)
    requires bounds != []
    ensures Shaped(bounds, r)
  {
    if ops == [] then Roll(Empty(bounds), map[], Empty(bounds))
    else
      var r := Run(bounds, ops[..|ops| - 1]);
      match ops[|ops| - 1]
      case Finalize(us, None) =>
        r.(all := AfterObserve(bounds, r.all, us), untagged := AfterObserve(bounds, r.untagged, us))
      case Finalize(us, Some(l)) =>
        r.(all := AfterObserve(bounds, r.all, us), series := AfterLabeled(bounds, r.series, l, us))
      case ResetAll =>
        Roll(Empty(bounds), map l | l in r.series :: Empty(bounds), Empty(bounds))
  }

  datatype Field = BucketCount(i: nat) | SumUs | Count

  function Get(f: Field, h: HistState): nat {
    match f
    case BucketCount(i) => if i < |h.counts| then h.counts[i] else 0
    case SumUs => h.sumUs
    case Count => h.count
  }

  /** What one observation adds to a field. */
  function Gain(bounds: seq<nat>, f: Field, us: nat): nat
    requires bounds != []
  {
    match f
    case BucketCount(i) => Flag(i == BucketOf(bounds, us))
    case SumUs => us
    case Count => 1
  }

  lemma ObserveGains(bounds: seq<nat>, h: HistState, f: Field, us: nat)
    requires bounds != [] && |h.counts| == |bounds|
    ensures Get(f, AfterObserve(bounds, h, us)) == Get(f, h) + Gain(bounds, f, us)
    ensures Get(f, Empty(bounds)) == 0
  {
    FirstAtLeastExact(bounds, us, 0);
  }

  ghost function Values(f: Field, series: map<Label, HistState>): map<Label, int> {
    map l | l in series :: Get(f, series[l])
  }

  lemma LabeledGains(bounds: seq<nat>, series: map<Label, HistState>, f: Field, tag: Label, us: nat)
    requires bounds != [] && forall l :: l in series ==> |series[l].counts| == |bounds|
    ensures MapSum(Values(f, AfterLabeled(bounds, series, tag, us))) == MapSum(Values(f, series)) + Gain(bounds, f, us)
  {
    var h := if tag in series then series[tag] else Empty(bounds);
    ObserveGains(bounds, h, f, us);
    var v := Get(f, AfterObserve(bounds, h, us));
    assert Values(f, AfterLabeled(bounds, series, tag, us)) == Values(f, series)[tag := v];
    MapSumUpdate(Values(f, series), tag, v);
  }

  /**
   After any run, each bucket count, the sum and the count of the global histogram equal the totals over all
   series, plus the requests that reached no upstream.
   */
  lemma {:induction false} BreakdownAddsUp(bounds: seq<nat>, ops: seq<Op>, f: Field)
    requires bounds != []
    ensures var r := Run(bounds, ops);
      Get(f, r.all) == MapSum(Values(f, r.series)) + Get(f, r.untagged)
  {
    if ops == [] {
      assert Values(f, map[]) == map[];
    } else {
      var r := Run(bounds, ops[..|ops| - 1]);
      BreakdownAddsUp(bounds, ops[..|ops| - 1], f);
      match ops[|ops| - 1]
      case Finalize(us, None) =>
        ObserveGains(bounds, r.all, f, us);
        ObserveGains(bounds, r.untagged, f, us);
      case Finalize(us, Some(l)) =>
        ObserveGains(bounds, r.all, f, us);
        LabeledGains(bounds, r.series, f, l, us);
      case ResetAll =>
        ObserveGains(bounds, r.all, f, 0);
        MapSumZero(Values(f, Run(bounds, ops).series));
    }
  }

  /** Every finished request since the last reset named its upstream. */
  predicate AllTagged(ops: seq<Op>) {
    ops == [] || (match ops[|ops| - 1]
                  case Finalize(_, tag) => tag.Some? && AllTagged(ops[..|ops| - 1])
                  case ResetAll => true)
  }

  /** The breakdown is complete exactly when every request since the last reset named its upstream. */
  lemma {:induction false} CompleteIffAllTagged(bounds: seq<nat>, ops: seq<Op>)
    requires bounds != []
    ensures var r := Run(bounds, ops);
      && (r.all.count == MapSum(Values(Count, r.series)) <==> AllTagged(ops))
      && (AllTagged(ops) ==> r.untagged == Empty(bounds))
  {
    BreakdownAddsUp(bounds, ops, Count);
    if ops != [] {
      BreakdownAddsUp(bounds, ops[..|ops| - 1], Count);
      CompleteIffAllTagged(bounds, ops[..|ops| - 1]);
    }
  }
}
