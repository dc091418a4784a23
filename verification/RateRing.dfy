/**
 Sliding-window counters: a ring of one-second buckets against the log of the events it accepted
 (`RateRing` and `Rates` of `src/metrics.rs`).
 */
module RateRings {
  import opened Prelude

  /** Counters are 64 bits wide and saturate. */
  function Sat(n: nat): nat { if n > U64_MAX then U64_MAX else n }

  /** How many seconds past the window a stale ring still answers. */
  const TOLERANCE := 5

  // ---- The event log ----

  datatype Event = Event(at: nat, n: nat)

  /** Total of the events in second `t`. */
  function TotalAt(log: seq<Event>, t: int): nat {
    if log == [] then 0
    else var e := log[|log| - 1]; TotalAt(log[..|log| - 1], t) + (if e.at == t then e.n else 0)
  }

  /** Total of the events in seconds `lo < t <= hi`. */
  function TotalIn(log: seq<Event>, lo: int, hi: int): nat {
    if log == [] then 0
    else var e := log[|log| - 1]; TotalIn(log[..|log| - 1], lo, hi) + (if lo < e.at <= hi then e.n else 0)
  }

  lemma {:induction false} TotalsAppend(log: seq<Event>, e: Event)
    ensures forall t: int :: TotalAt(log + [e], t) == TotalAt(log, t) + (if e.at == t then e.n else 0)
  {
    assert (log + [e])[..|log|] == log;
  }

  lemma {:induction false} TotalInSplit(log: seq<Event>, lo: int, mid: int, hi: int)
    requires lo <= mid <= hi
    ensures TotalIn(log, lo, hi) == TotalIn(log, lo, mid) + TotalIn(log, mid, hi)
  {
    if log != [] {
      TotalInSplit(log[..|log| - 1], lo, mid, hi);
    }
  }

  lemma {:induction false} TotalInOneSecond(log: seq<Event>, t: int)
    ensures TotalIn(log, t - 1, t) == TotalAt(log, t) && TotalIn(log, t, t) == 0
  {
    if log != [] {
      TotalInOneSecond(log[..|log| - 1], t);
    }
  }

  /** No event is later than `head`. */
  ghost predicate NotAfter(log: seq<Event>, head: nat) {
    forall i :: 0 <= i < |log| ==> log[i].at <= head
  }

  lemma {:induction false} NothingAfter(log: seq<Event>, head: nat, lo: int, hi: int)
    requires NotAfter(log, head) && head <= lo
    ensures TotalIn(log, lo, hi) == 0
  {
    if log != [] {
      NothingAfter(log[..|log| - 1], head, lo, hi);
    }
  }

  lemma NothingAtAfter(log: seq<Event>, head: nat, t: int)
    requires NotAfter(log, head) && head < t
    ensures TotalAt(log, t) == 0
  {
    TotalInOneSecond(log, t);
    NothingAfter(log, head, t - 1, t);
  }

  // ---- The ring ----

  datatype RingState = RingState(buckets: seq<nat>, head: nat)

  function Zeros(w: nat): seq<nat> { seq(w, _ => 0) }

  /** The buckets with the `shift` seconds after `head` zeroed. */
  function Cleared(b: seq<nat>, head: nat, shift: nat): (r: seq<nat>)
    requires b != []
    ensures |r| == |b|
  {
    if shift == 0 then b else Cleared(b, head, shift - 1)[(head + shift) % |b| := 0]
  }

  function AfterAdd(r: RingState, n: nat, now: nat): (r': RingState)
    requires r.buckets != []
    ensures |r'.buckets| == |r.buckets|
  {
    if now < r.head then r
    else
      var w := |r.buckets|;
      var b := Cleared(r.buckets, r.head, Min(now - r.head, w));
      RingState(b[now % w := Sat(b[now % w] + n)], now)
  }

  /** Sum of the `n` buckets read backwards from second `top`. */
  function SumBack(b: seq<nat>, top: int, n: nat): nat
    requires b != []
  {
    if n == 0 then 0 else SumBack(b, top, n - 1) + b[(top - (n - 1)) % |b|]
  }

  /** What the loop of `sum` reads: seconds before zero are clamped to second zero. */
  function ClampedSum(b: seq<nat>, now: nat, n: nat): nat
    requires b != []
  {
    if n == 0 then 0 else ClampedSum(b, now, n - 1) + b[Max(0, now - (n - 1)) % |b|]
  }

  function SumAt(r: RingState, now: nat): nat
    requires r.buckets != []
  {
    if now > r.head + |r.buckets| + TOLERANCE then 0 else Sat(ClampedSum(r.buckets, now, |r.buckets|))
  }

  class RateRing {
    const buckets: array<nat>
    const windowS: nat
    var head: nat

    ghost predicate Valid() { buckets.Length == windowS > 0 }

    ghost function Repr(): set<object> { {this, buckets} }

    ghost function State(): RingState
      reads this, buckets
    {
      RingState(buckets[..], head)
    }

    constructor (windowS: nat)
      requires windowS > 0
      ensures Valid() && this.windowS == windowS && fresh(buckets)
      ensures State() == RingState(Zeros(windowS), 0)
    {
      this.windowS := windowS;
      buckets := new nat[windowS](_ => 0);
      head := 0;
      new;
      assert buckets[..] == Zeros(windowS);
    }

    method Add(n: nat, nowS: nat)
      requires Valid()
      modifies this, buckets
      ensures State() == AfterAdd(old(State()), n, nowS)
    {
      var h := head;
      if nowS > h {
        var shift := Min(nowS - h, windowS);
        for i := 0 to shift
          invariant buckets[..] == Cleared(old(buckets[..]), h, i)
        {
          buckets[(h + 1 + i) % windowS] := 0;
        }
        head := nowS;
      } else if nowS < h {
        return;
      }
      var idx := nowS % windowS;
      buckets[idx] := Sat(buckets[idx] + n);
    }

    method Sum(nowS: nat) returns (total: nat)
      requires Valid()
      ensures total == SumAt(State(), nowS)
      ensures nowS > head + windowS + 5 ==> total == 0
    {
      if nowS > head + windowS + TOLERANCE {
        return 0;
      }
      total := 0;
      for i := 0 to windowS
        invariant total == Sat(ClampedSum(buckets[..], nowS, i))
      {
        var ts := if nowS < i then 0 else nowS - i;
        total := Sat(total + buckets[ts % windowS]);
      }
    }

    method Reset()
      requires Valid()
      modifies this, buckets
      ensures State() == RingState(Zeros(windowS), 0)
    {
      for i := 0 to buckets.Length
        invariant forall j :: 0 <= j < i ==> buckets[j] == 0
        modifies buckets
      {
        buckets[i] := 0;
      }
      head := 0;
      assert buckets[..] == Zeros(windowS);
    }
  }

  // ---- The ring refines the log ----

  lemma MultipleIsLarge(w: nat, q: int)
    ensures q >= 1 ==> w * q >= w
    ensures q <= -1 ==> w * q <= 0 - w
  {
  }

  lemma ModUnique(x: int, k: int, j: int, w: nat)
    requires 0 <= j < w && x == w * k + j
    ensures x % w == j
  {
    MultipleIsLarge(w, k - x / w);
    assert w * (k - x / w) == w * k - w * (x / w);
  }

  lemma ModDistinct(a: int, b: int, w: nat)
    requires w > 0 && 0 < b - a < w
    ensures a % w != b % w
  {
    MultipleIsLarge(w, b / w - a / w);
    assert w * (b / w - a / w) == w * (b / w) - w * (a / w);
  }

  /**
   Every second of the window that ends at `head` has a bucket of its own, holding the total of the
   accepted events of that second; nothing accepted is later than `head`.
   */
  ghost predicate Refines(r: RingState, log: seq<Event>) {
    && r.buckets != []
    && NotAfter(log, r.head)
    && forall t: int :: r.head - |r.buckets| < t <= r.head ==> r.buckets[t % |r.buckets|] == Sat(TotalAt(log, t))
  }

  lemma {:induction false} ClearedHit(b: seq<nat>, head: nat, shift: nat, i: nat)
    requires b != [] && 0 < i <= shift
    ensures Cleared(b, head, shift)[(head + i) % |b|] == 0
  {
    if i < shift {
      ClearedHit(b, head, shift - 1, i);
    }
  }

  lemma {:induction false} ClearedMiss(b: seq<nat>, head: nat, shift: nat, t: int)
    requires b != [] && head + shift - |b| < t <= head
    ensures Cleared(b, head, shift)[t % |b|] == b[t % |b|]
  {
    if shift > 0 {
      ClearedMiss(b, head, shift - 1, t);
      ModDistinct(t, head + shift, |b|);
    }
  }

  function Accepted(r: RingState, log: seq<Event>, n: nat, now: nat): seq<Event> {
    if now < r.head then log else log + [Event(now, n)]
  }

  lemma {:induction false} AddRefines(r: RingState, log: seq<Event>, n: nat, now: nat)
    requires Refines(r, log)
    ensures Refines(AfterAdd(r, n, now), Accepted(r, log, n, now))
  {
    if now >= r.head {
      var w := |r.buckets|;
      var shift := Min(now - r.head, w);
      var b := Cleared(r.buckets, r.head, shift);
      var log' := Accepted(r, log, n, now);
      TotalsAppend(log, Event(now, n));
      forall t: int | now - w < t <= now ensures AfterAdd(r, n, now).buckets[t % w] == Sat(TotalAt(log', t)) {
        if r.head < t {
          NothingAtAfter(log, r.head, t);
          if now - r.head <= w {
            ClearedHit(r.buckets, r.head, shift, t - r.head);
          } else {
            AllCleared(r.buckets, r.head, t);
          }
        } else {
          ClearedMiss(r.buckets, r.head, shift, t);
        }
        assert b[t % w] == Sat(TotalAt(log, t));
        if t < now {
          ModDistinct(t, now, w);
        }
      }
    }
  }

  /** A gap as long as the window clears every bucket. */
  lemma AllCleared(b: seq<nat>, head: nat, t: int)
    requires b != []
    ensures Cleared(b, head, |b|)[t % |b|] == 0
  {
    var w := |b|;
    var j, q, m := t % w, head / w, head % w;
    if j > m {
      ModUnique(head + (j - m), q, j, w);
      ClearedHit(b, head, w, j - m);
    } else {
      assert w * (q + 1) == w * q + w;
      ModUnique(head + (j - m + w), q + 1, j, w);
      ClearedHit(b, head, w, j - m + w);
    }
  }

  /** Bucket `j` holds the accepted events of the one second of the window that is `j` modulo its length. */
  lemma BucketHoldsItsSecond(r: RingState, log: seq<Event>, j: nat) returns (t: int)
    requires Refines(r, log) && j < |r.buckets|
    ensures r.head - |r.buckets| < t <= r.head && t % |r.buckets| == j
    ensures r.buckets[j] == Sat(TotalAt(log, t))
  {
    var w := |r.buckets|;
    var q, m := r.head / w, r.head % w;
    if j <= m {
      t := r.head - (m - j);
      ModUnique(t, q, j, w);
    } else {
      t := r.head - (m - j) - w;
      assert w * (q - 1) == w * q - w;
      ModUnique(t, q - 1, j, w);
    }
  }

  // ---- What `sum` reports ----

  lemma {:induction false} SumBackShift(b: seq<nat>, top: int, n: nat)
    requires b != []
    ensures SumBack(b, top + 1, n + 1) == b[(top + 1) % |b|] + SumBack(b, top, n)
  {
    if n > 0 {
      SumBackShift(b, top, n - 1);
    }
  }

  /** The ring looks the same from every second: sliding the window re-reads the bucket it drops. */
  lemma {:induction false} SlideInvariant(b: seq<nat>, top: int, d: nat)
    requires b != []
    ensures SumBack(b, top + d, |b|) == SumBack(b, top, |b|)
  {
    if d > 0 {
      var w := |b|;
      SlideInvariant(b, top, d - 1);
      SumBackShift(b, top + d - 1, w - 1);
      assert (top + d) % w == (top + d - w) % w by {
        var x := top + d - w;
        assert w * (x / w + 1) == w * (x / w) + w;
        ModUnique(top + d, x / w + 1, x % w, w);
      }
    }
  }

  lemma {:induction false} ClampIsIdle(b: seq<nat>, now: nat, n: nat)
    requires b != [] && n <= now + 1
    ensures ClampedSum(b, now, n) == SumBack(b, now, n)
  {
    if n > 0 {
      ClampIsIdle(b, now, n - 1);
    }
  }

  lemma {:induction false} BucketsSumToLog(r: RingState, log: seq<Event>, n: nat)
    requires Refines(r, log) && n <= |r.buckets|
    ensures Sat(SumBack(r.buckets, r.head, n)) == Sat(TotalIn(log, r.head - n, r.head))
  {
    TotalInOneSecond(log, r.head);
    if n > 0 {
      BucketsSumToLog(r, log, n - 1);
      TotalInSplit(log, r.head - n, r.head - n + 1, r.head);
      TotalInOneSecond(log, r.head - n + 1);
    }
  }

  /** From second `w - 1` on, an answer is always the exact total of the window that ends at `head`. */
  lemma SumIsHeadWindow(r: RingState, log: seq<Event>, now: nat)
    requires Refines(r, log) && now >= |r.buckets| - 1
    ensures SumAt(r, now) ==
      if now > r.head + |r.buckets| + 5 then 0 else Sat(TotalIn(log, r.head - |r.buckets|, r.head))
  {
    var w := |r.buckets|;
    ClampIsIdle(r.buckets, now, w);
    if r.head <= now {
      SlideInvariant(r.buckets, r.head, now - r.head);
    } else {
      SlideInvariant(r.buckets, now, r.head - now);
    }
    BucketsSumToLog(r, log, w);
  }

  /**
   The answer is the window total when the ring is current or has gone stale. In between it is at least the
   window total and at most the total of a window more than twice as long.
   */
  lemma SumBracketsWindow(r: RingState, log: seq<Event>, now: nat)
    requires Refines(r, log) && now >= |r.buckets| - 1 && now >= r.head
    ensures var w := |r.buckets|;
      && Sat(TotalIn(log, now - w, now)) <= SumAt(r, now) <= Sat(TotalIn(log, now - 2 * w - 5, now))
      && (now == r.head || now > r.head + w + 5 ==> SumAt(r, now) == Sat(TotalIn(log, now - w, now)))
  {
    var w := |r.buckets|;
    SumIsHeadWindow(r, log, now);
    NothingAfter(log, r.head, r.head, now);
    if now <= r.head + w {
      TotalInSplit(log, now - w, r.head, now);
      TotalInSplit(log, r.head - w, now - w, r.head);
    } else {
      NothingAfter(log, r.head, now - w, now);
    }
    if now <= r.head + w + 5 {
      TotalInSplit(log, now - 2 * w - 5, r.head, now);
      TotalInSplit(log, now - 2 * w - 5, r.head - w, r.head);
    }
  }

  /** Within the tolerance the answer is exact just when what has left the window totals zero, or it saturates. */
  lemma SumExactIff(r: RingState, log: seq<Event>, now: nat)
    requires Refines(r, log) && now >= |r.buckets| - 1
    requires r.head <= now <= r.head + |r.buckets| + 5
    ensures var w := |r.buckets|; var window := TotalIn(log, now - w, now);
      SumAt(r, now) == Sat(window) <==> TotalIn(log, r.head - w, Min(r.head, now - w)) == 0 || window >= U64_MAX
  {
    var w := |r.buckets|;
    var left := Min(r.head, now - w);
    SumIsHeadWindow(r, log, now);
    NothingAfter(log, r.head, Max(r.head, now - w), now);
    TotalInSplit(log, r.head - w, left, r.head);
    if now - w <= r.head {
      TotalInSplit(log, now - w, r.head, now);
    } else {
      TotalInOneSecond(log, r.head);
    }
  }

  // ---- The first seconds of the clock ----

  lemma {:induction false} NothingBeforeZero(log: seq<Event>, lo: int)
    ensures TotalIn(log, lo, -1) == 0
  {
    if log != [] {
      NothingBeforeZero(log[..|log| - 1], lo);
    }
  }

  /** While the clock is still inside its first window, bucket `t` belongs to second `t`. */
  lemma EarlyBucket(r: RingState, log: seq<Event>, t: nat)
    requires Refines(r, log) && r.head < |r.buckets| && t < |r.buckets|
    ensures r.buckets[t] == Sat(TotalAt(log, t))
  {
    var w := |r.buckets|;
    if t <= r.head {
      ModUnique(t, 0, t, w);
    } else {
      ModUnique(t - w, -1, t, w);
      NothingAtAfter(log, r.head, t);
      NothingBeforeZero(log, t - w - 1);
      TotalInSplit(log, t - w - 1, t - w, -1);
      TotalInOneSecond(log, t - w);
    }
  }

  lemma {:induction false} EarlySumToLog(r: RingState, log: seq<Event>, now: nat, n: nat)
    requires Refines(r, log) && r.head <= now < |r.buckets| && n <= now + 1
    ensures Sat(SumBack(r.buckets, now, n)) == Sat(TotalIn(log, now - n, now))
  {
    TotalInOneSecond(log, now);
    if n > 0 {
      EarlySumToLog(r, log, now, n - 1);
      TotalInSplit(log, now - n, now - n + 1, now);
      TotalInOneSecond(log, now - n + 1);
      EarlyBucket(r, log, now - (n - 1));
      ModUnique(now - (n - 1), 0, now - (n - 1), |r.buckets|);
    }
  }

  /** `n` added up `k` times. */
  function Times(k: nat, n: nat): nat { if k == 0 then 0 else Times(k - 1, n) + n }

  lemma {:induction false} TimesAtLeastOnce(k: nat, n: nat)
    requires k >= 1
    ensures Times(k, n) >= n && (n == 0 ==> Times(k, n) == 0)
  {
    if k > 1 {
      TimesAtLeastOnce(k - 1, n);
    }
  }

  /** Every step of the loop past second zero reads bucket zero again. */
  lemma {:induction false} ClampRereads(b: seq<nat>, now: nat, n: nat)
    requires b != [] && n >= now + 1
    ensures ClampedSum(b, now, n) == SumBack(b, now, now + 1) + Times(n - now - 1, b[0])
  {
    if n == now + 1 {
      ClampIsIdle(b, now, n);
    } else {
      ClampRereads(b, now, n - 1);
    }
  }

  lemma {:induction false} SatAbsorbs(a: nat, b: nat, k: nat, n: nat)
    requires Sat(a) == Sat(b)
    ensures Sat(a + Times(k, Sat(n))) == Sat(b + Times(k, n))
  {
    if k > 0 {
      SatAbsorbs(a, b, k - 1, n);
    }
  }

  lemma EarlyWindow(r: RingState, log: seq<Event>, now: nat)
    requires Refines(r, log) && r.head <= now < |r.buckets| - 1
    ensures Sat(SumBack(r.buckets, now, now + 1)) == Sat(TotalIn(log, now - |r.buckets|, now))
  {
    EarlySumToLog(r, log, now, now + 1);
    NothingBeforeZero(log, now - |r.buckets|);
    TotalInSplit(log, now - |r.buckets|, -1, now);
  }

  /** The reading of a ring whose buckets hold `zero` at second zero and `window` in all, both saturated. */
  lemma EarlyReading(r: RingState, now: nat, window: nat, zero: nat)
    requires r.head <= now < |r.buckets| - 1 && r.buckets[0] == Sat(zero)
    requires Sat(SumBack(r.buckets, now, now + 1)) == Sat(window)
    ensures SumAt(r, now) == Sat(window + Times(|r.buckets| - now - 1, zero))
  {
    ClampRereads(r.buckets, now, |r.buckets|);
    SatAbsorbs(SumBack(r.buckets, now, now + 1), window, |r.buckets| - now - 1, zero);
  }

  /** Before second `w - 1` the answer counts the events of second zero once more for each second that is missing. */
  lemma EarlySum(r: RingState, log: seq<Event>, now: nat)
    requires Refines(r, log) && r.head <= now < |r.buckets| - 1
    ensures var w := |r.buckets|;
      SumAt(r, now) == Sat(TotalIn(log, now - w, now) + Times(w - now - 1, TotalAt(log, 0)))
  {
    EarlyBucket(r, log, 0);
    EarlyWindow(r, log, now);
    EarlyReading(r, now, TotalIn(log, now - |r.buckets|, now), TotalAt(log, 0));
  }

  /** So in those seconds the answer is the window total exactly when second zero had no event, or it saturates. */
  lemma EarlySumExactIff(r: RingState, log: seq<Event>, now: nat)
    requires Refines(r, log) && r.head <= now < |r.buckets| - 1
    ensures var window := TotalIn(log, now - |r.buckets|, now);
      SumAt(r, now) == Sat(window) <==> TotalAt(log, 0) == 0 || window >= 0xFFFF_FFFF_FFFF_FFFF
  {
    EarlySum(r, log, now);
    TimesAtLeastOnce(|r.buckets| - now - 1, TotalAt(log, 0));
  }

  /** Before second `w - 1` the clamp re-reads second zero: a single event there is counted `w` times. */
  lemma EarlySumOvercounts(w: nat)
    requires 1 < w <= U64_MAX
    ensures var r := AfterAdd(RingState(Zeros(w), 0), 1, 0); SumAt(r, 0) == w && TotalIn([Event(0, 1)], 0 - w, 0) == 1
  {
    var r := AfterAdd(RingState(Zeros(w), 0), 1, 0);
    assert TotalIn([Event(0, 1)][..0], 0 - w, 0) == 0;
    for i := 0 to w
      invariant ClampedSum(r.buckets, 0, i) == i
    {
    }
  }

  // ---- Whole runs ----

  datatype Op = Add(n: nat, now: nat) | Reset

  function Run(w: nat, ops: seq<Op>): (r: RingState)
    requires w > 0
    ensures |r.buckets| == w
  {
    if ops == [] then RingState(Zeros(w), 0)
    else match ops[|ops| - 1]
      case Add(n, now) => AfterAdd(Run(w, ops[..|ops| - 1]), n, now)
      case Reset => RingState(Zeros(w), 0)
  }

  /** Head and accepted events of a run: the same for every window length. */
  function LogOf(ops: seq<Op>): (nat, seq<Event>) {
    if ops == [] then (0, [])
    else
      var (head, log) := LogOf(ops[..|ops| - 1]);
      match ops[|ops| - 1]
      case Add(n, now) => if now < head then (head, log) else (now, log + [Event(now, n)])
      case Reset => (0, [])
  }

  /** After any run, every bucket of the ring agrees with the events accepted since the last reset. */
  lemma {:induction false} RunRefines(w: nat, ops: seq<Op>)
    requires w > 0
    ensures Run(w, ops).head == LogOf(ops).0 && Refines(Run(w, ops), LogOf(ops).1)
  {
    if ops != [] {
      var prefix := ops[..|ops| - 1];
      RunRefines(w, prefix);
      match ops[|ops| - 1]
      case Add(n, now) => AddRefines(Run(w, prefix), LogOf(prefix).1, n, now);
      case Reset =>
    }
  }

  /** Rings fed alike agree on nesting: the shorter window never reports more, at any time. */
  lemma NestedWindows(ops: seq<Op>, w: nat, v: nat, now: nat)
    requires 0 < w <= v <= now + 1
    ensures SumAt(Run(w, ops), now) <= SumAt(Run(v, ops), now)
  {
    var (head, log) := LogOf(ops);
    RunRefines(w, ops);
    RunRefines(v, ops);
    SumIsHeadWindow(Run(w, ops), log, now);
    SumIsHeadWindow(Run(v, ops), log, now);
    TotalInSplit(log, head - v, head - w, head);
  }
}
