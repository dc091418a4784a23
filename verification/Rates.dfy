/** The sliding-window rates fed by every finished request (`Rates`, `Metrics::record_request` and `Metrics::reset`). */
module Rates {
  import opened Prelude
  import opened RateRings

  /** `(cost_usd * 1_000_000.0) as u64`: truncated, zero for negative costs, saturating. */
  function MicroUsd(cost: real): nat { if cost <= 0.0 then 0 else Sat((cost * 1000000.0).Floor) }

  /** The whole millionths in a cost, as far as 64 bits hold them. */
  lemma MicroUsdMeans(cost: real)
    ensures cost <= 0.0 ==> MicroUsd(cost) == 0
    ensures cost > 0.0 && MicroUsd(cost) < 0xFFFF_FFFF_FFFF_FFFF ==>
      MicroUsd(cost) as real <= cost * 1000000.0 < MicroUsd(cost) as real + 1.0
    ensures MicroUsd(cost) <= 0xFFFF_FFFF_FFFF_FFFF
  {
  }

  class RateSet {
    /** Requests over 1 m, 5 m, 1 h; tokens over the same; cost over 1 m and 1 h. */
    const rings: seq<RateRing>

    ghost predicate Valid() {
      && |rings| == 8
      && (forall i :: 0 <= i < 8 ==> rings[i].Valid() && rings[i].windowS == WindowOf(i))
      && (forall i, j :: 0 <= i < j < 8 ==> rings[i] != rings[j] && rings[i].buckets != rings[j].buckets)
    }

    ghost function Footprint(): set<object> {
      set r, o: object | r in rings && o in r.Repr() :: o
    }

    ghost function State(i: nat): RingState
      requires i < |rings|
      reads rings[i], rings[i].buckets
    {
      rings[i].State()
    }

    constructor ()
      ensures Valid() && fresh(Footprint())
      ensures forall i :: 0 <= i < 8 ==> State(i) == Run(WindowOf(i), [])
      ensures rings[0].windowS == rings[3].windowS == rings[6].windowS == 60
      ensures rings[1].windowS == rings[4].windowS == 300
      ensures rings[2].windowS == rings[5].windowS == rings[7].windowS == 3600
    {
      var rs: seq<RateRing> := [];
      for i := 0 to 8
        invariant |rs| == i && fresh(rs)
        invariant forall j :: 0 <= j < i ==> rs[j].Valid() && rs[j].windowS == WindowOf(j) && fresh(rs[j].buckets)
        invariant forall j, k :: 0 <= j < k < i ==> rs[j] != rs[k] && rs[j].buckets != rs[k].buckets
        invariant forall j :: 0 <= j < i ==> rs[j].State() == RingState(Zeros(WindowOf(j)), 0)
      {
        var r := new RateRing(WindowOf(i));
        rs := rs + [r];
      }
      rings := rs;
    }

    /** One finished request at second `now`: every ring sees the same clock reading. */
    method RecordRequest(totalTokens: nat, cost: real, now: nat)
      requires Valid()
      modifies Footprint()
      ensures forall i :: 0 <= i < 8 ==> State(i) == AfterAdd(old(State(i)), Amount(i, totalTokens, cost), now)
      ensures forall i :: 0 <= i < 3 ==> State(i) == AfterAdd(old(State(i)), 1, now)
      ensures forall i :: 3 <= i < 6 ==> State(i) == AfterAdd(old(State(i)), totalTokens, now)
      ensures forall i :: 6 <= i < 8 ==> State(i) == AfterAdd(old(State(i)), MicroUsd(cost), now)
    {
      for i := 0 to 8
        invariant forall j :: 0 <= j < i ==> State(j) == AfterAdd(old(State(j)), Amount(j, totalTokens, cost), now)
        invariant forall j :: i <= j < 8 ==> State(j) == old(State(j))
      {
        assert rings[i].Repr() <= Footprint() by { assert rings[i] in rings; }
        assert {rings[i] as object, rings[i].buckets} <= rings[i].Repr();
        rings[i].Add(Amount(i, totalTokens, cost), now);
      }
    }

    method Reset()
      requires Valid()
      modifies Footprint()
      ensures forall i :: 0 <= i < 8 ==> State(i) == Run(WindowOf(i), [])
    {
      for i := 0 to 8
        invariant forall j :: 0 <= j < i ==> State(j) == Run(WindowOf(j), [])
      {
        assert rings[i].Repr() <= Footprint() by { assert rings[i] in rings; }
        assert {rings[i] as object, rings[i].buckets} <= rings[i].Repr();
        rings[i].Reset();
      }
    }
  }

  function WindowOf(i: nat): nat
    requires i < 8
  {
    [60, 300, 3600, 60, 300, 3600, 60, 3600][i]
  }

  function Amount(i: nat, totalTokens: nat, cost: real): nat
    requires i < 8
  {
    if i < 3 then 1 else if i < 6 then totalTokens else MicroUsd(cost)
  }

  /** Total of the amounts of the requests among events that a ring has accepted, each at its second. */
  lemma AnswerOfRequests(i: nat, es: seq<Event>, now: nat)
    requires i < 8 && now >= WindowOf(i) - 1
    ensures var (head, log) := LogOf(OpsOf(i, es)); var w := [60, 300, 3600, 60, 300, 3600, 60, 3600][i];
      Answer(i, es, now) == if now > head + w + 5 then 0 else Sat(TotalIn(log, head - w, head))
  {
    RunRefines(WindowOf(i), OpsOf(i, es));
    SumIsHeadWindow(Run(WindowOf(i), OpsOf(i, es)), LogOf(OpsOf(i, es)).1, now);
  }

  datatype Event = Request(totalTokens: nat, cost: real, now: nat) | ResetAll

  /** What ring `i` is fed by a run of the whole set. */
  function OpsOf(i: nat, es: seq<Event>): (ops: seq<Op>)
    requires i < 8
    ensures |ops| == |es|
  {
    if es == [] then []
    else OpsOf(i, es[..|es| - 1]) + [match es[|es| - 1]
                                     case Request(tokens, cost, now) => Add(Amount(i, tokens, cost), now)
                                     case ResetAll => RateRings.Reset]
  }

  lemma {:induction false} SameOps(i: nat, j: nat, es: seq<Event>)
    requires i < 8 && j < 8 && i / 3 == j / 3
    ensures OpsOf(i, es) == OpsOf(j, es)
  {
    if es != [] {
      SameOps(i, j, es[..|es| - 1]);
    }
  }

  function Answer(i: nat, es: seq<Event>, now: nat): nat
    requires i < 8
  {
    SumAt(Run(WindowOf(i), OpsOf(i, es)), now)
  }

  lemma LongerWindowReportsMore(i: nat, j: nat, es: seq<Event>, now: nat)
    requires i < 8 && j < 8 && i / 3 == j / 3 && WindowOf(i) <= WindowOf(j) <= now + 1
    ensures Answer(i, es, now) <= Answer(j, es, now)
  {
    SameOps(i, j, es);
    NestedWindows(OpsOf(i, es), WindowOf(i), WindowOf(j), now);
  }

  /** At any second from 3599 on, the reported totals grow with the window, for requests, tokens and cost. */
  lemma WindowsAgree(es: seq<Event>, now: nat)
    requires now >= 3599
    ensures Answer(0, es, now) <= Answer(1, es, now) <= Answer(2, es, now)
    ensures Answer(3, es, now) <= Answer(4, es, now) <= Answer(5, es, now)
    ensures Answer(6, es, now) <= Answer(7, es, now)
  {
    LongerWindowReportsMore(0, 1, es, now);
    LongerWindowReportsMore(1, 2, es, now);
    LongerWindowReportsMore(3, 4, es, now);
    LongerWindowReportsMore(4, 5, es, now);
    LongerWindowReportsMore(6, 7, es, now);
  }
}
