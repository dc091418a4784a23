/**
 The queue manager: greedy dispatch in list order, the bounded wait with its exponential
 backoff, and the end-to-end choice of an upstream (`src/queue/mod.rs`).
 */
module Queue {
  import opened Prelude
  import opened Upstreams
  import opened Registry

  /** The clock readings an upstream's check and bucket take in one scan. */
  datatype Reading = Reading(check: real, refill: real)

  datatype Clock = Clock(at: Upstream -> Reading)

  /** What a scan of a wait meets: the clock, and the states in which other tasks have left the upstreams. */
  datatype Visit = Visit(clock: Clock, world: seq<UpstreamState>)

  /** The visits of a wait, in their order; each world is one that the upstreams can be in. */
  ghost predicate Possible(ups: seq<Upstream>, visits: imap<nat, Visit>) {
    forall n: nat :: n in visits && CanBeIn(ups, visits[n].world)
  }

  ghost predicate CanBeIn(ups: seq<Upstream>, world: seq<UpstreamState>)
    decreases |ups|
  {
    && |world| == |ups|
    && (ups == [] || (var m := |ups| - 1; CanBeIn(ups[..m], world[..m]) && ups[m].CanBe(world[m])))
  }

  lemma {:induction false} CanBeInMeans(ups: seq<Upstream>, world: seq<UpstreamState>)
    ensures CanBeIn(ups, world) <==> |world| == |ups| && forall i :: 0 <= i < |ups| ==> ups[i].CanBe(world[i])
    decreases |ups|
  {
    if |world| == |ups| && ups != [] {
      CanBeInMeans(ups[..|ups| - 1], world[..|ups| - 1]);
    }
  }

  ghost predicate Admissible(u: Upstream, clock: Clock)
    reads u, u.rateTokens
  {
    WouldAdmit(u.cfg, u.State(), clock.at(u).check, clock.at(u).refill)
  }

  ghost function Footprint(ups: seq<Upstream>): set<object> {
    set u, o: object | u in ups && o in u.Repr() :: o
  }

  /** The list names each upstream once, and no two share state. */
  ghost predicate Separate(ups: seq<Upstream>) {
    forall i, j :: 0 <= i < j < |ups| ==> ups[i].Repr() !! ups[j].Repr()
  }

  ghost predicate Working(ups: seq<Upstream>)
    reads ups, set i | 0 <= i < |ups| :: ups[i].rateTokens
  {
    forall i :: 0 <= i < |ups| ==> ups[i].Valid()
  }

  /** The upstreams are in these states. */
  ghost predicate Shows(ups: seq<Upstream>, states: seq<UpstreamState>)
    reads ups, set i | 0 <= i < |ups| :: ups[i].rateTokens
    decreases |ups|
  {
    && |states| == |ups|
    && (ups == [] || (var m := |ups| - 1; Shows(ups[..m], states[..m]) && ups[m].State() == states[m]))
  }

  lemma {:induction false} ShowsMeans(ups: seq<Upstream>, states: seq<UpstreamState>)
    ensures Shows(ups, states) <==> |states| == |ups| && forall i :: 0 <= i < |ups| ==> ups[i].State() == states[i]
    decreases |ups|
  {
    if |states| == |ups| && ups != [] {
      ShowsMeans(ups[..|ups| - 1], states[..|ups| - 1]);
    }
  }

  /** The states the upstreams are in. */
  lemma {:induction false} StatesOf(ups: seq<Upstream>) returns (states: seq<UpstreamState>)
    ensures Shows(ups, states)
  {
    states := [];
    if ups != [] {
      var before := StatesOf(ups[..|ups| - 1]);
      states := before + [ups[|ups| - 1].State()];
      assert states[..|ups| - 1] == before;
    }
  }

  /** In these states no upstream of the list would admit. */
  ghost predicate NobodyAdmits(ups: seq<Upstream>, world: seq<UpstreamState>, clock: Clock)
    requires |ups| == |world|
    decreases |ups|
  {
    ups == [] ||
    (var m := |ups| - 1;
     && NobodyAdmits(ups[..m], world[..m], clock)
     && !WouldAdmit(ups[m].cfg, world[m], clock.at(ups[m]).check, clock.at(ups[m]).refill))
  }

  lemma {:induction false} NobodyAdmitsMeans(ups: seq<Upstream>, world: seq<UpstreamState>, clock: Clock)
    requires |ups| == |world|
    ensures NobodyAdmits(ups, world, clock) <==> forall i :: 0 <= i < |ups| ==>
      !WouldAdmit(ups[i].cfg, world[i], clock.at(ups[i]).check, clock.at(ups[i]).refill)
    decreases |ups|
  {
    if ups != [] {
      NobodyAdmitsMeans(ups[..|ups| - 1], world[..|ups| - 1], clock);
    }
  }

  /** The readings a scan took, what it found, what it left, and where it ended. */
  datatype Scan = Scan(clock: Clock, found: seq<UpstreamState>, left: seq<UpstreamState>, k: nat)

  /**
   Among the first `n` upstreams, all before position `k` refused, the one at `k`, if any, admitted and was charged,
   those after it were left alone, and that is how they are now.
   */
  ghost predicate Scanned(ups: seq<Upstream>, scan: Scan, n: nat)
    requires n <= |ups|
    reads ups, set i | 0 <= i < |ups| :: ups[i].rateTokens
  {
    n == 0 || (Scanned(ups, scan, n - 1) && ScannedAt(ups[n - 1], scan.clock.at(ups[n - 1]), scan, n - 1))
  }

  ghost predicate ScannedAt(u: Upstream, now: Reading, scan: Scan, i: nat)
    reads u, u.rateTokens
  {
    && i < |scan.found| && i < |scan.left|
    && (i < scan.k ==> !WouldAdmit(u.cfg, scan.found[i], now.check, now.refill))
    && (i == scan.k ==> WouldAdmit(u.cfg, scan.found[i], now.check, now.refill))
    && scan.left[i] ==
      (if i <= scan.k then AfterAttempt(u.cfg, scan.found[i], now.check, now.refill) else scan.found[i])
    && scan.left[i] == u.State()
  }

  lemma {:induction false} ScannedEverywhere(ups: seq<Upstream>, scan: Scan, n: nat)
    requires n <= |ups|
    ensures Scanned(ups, scan, n) <==> forall i :: 0 <= i < n ==> ScannedAt(ups[i], scan.clock.at(ups[i]), scan, i)
  {
    if n > 0 {
      ScannedEverywhere(ups, scan, n - 1);
    }
  }

  /**
   From visit `m` on every upstream refused in each visit before `n`, and `last` is the scan of visit `n`: it
   met what that visit says, and ended past the list exactly if nobody admitted there.
   */
  ghost predicate Waited(ups: seq<Upstream>, visits: imap<nat, Visit>, last: Scan, m: nat, n: nat)
    requires m <= n
    decreases n - m
  {
    && m in visits && |visits[m].world| == |ups|
    && if m < n then NobodyAdmits(ups, visits[m].world, visits[m].clock) && Waited(ups, visits, last, m + 1, n)
       else
         && last.clock == visits[n].clock && last.found == visits[n].world
         && (last.k >= |ups| <==> NobodyAdmits(ups, visits[n].world, visits[n].clock))
  }

  lemma {:induction false} WaitedMeans(ups: seq<Upstream>, visits: imap<nat, Visit>, last: Scan, m: nat, n: nat)
    requires m <= n && Waited(ups, visits, last, m, n)
    ensures forall i :: m <= i <= n ==> i in visits && |visits[i].world| == |ups|
    ensures forall i :: m <= i < n ==> NobodyAdmits(ups, visits[i].world, visits[i].clock)
    ensures last.clock == visits[n].clock && last.found == visits[n].world
    ensures last.k >= |ups| <==> NobodyAdmits(ups, visits[n].world, visits[n].clock)
    decreases n - m
  {
    if m < n {
      WaitedMeans(ups, visits, last, m + 1, n);
    }
  }

  /** In each of the first `n` visits every upstream refused. */
  ghost predicate AllRefused(ups: seq<Upstream>, visits: imap<nat, Visit>, n: nat) {
    n == 0 ||
    (&& AllRefused(ups, visits, n - 1) && n - 1 in visits && |visits[n - 1].world| == |ups|
     && NobodyAdmits(ups, visits[n - 1].world, visits[n - 1].clock))
  }

  lemma {:induction false} RefusedThenWaited(ups: seq<Upstream>, visits: imap<nat, Visit>, last: Scan, m: nat, n: nat)
    requires m <= n && AllRefused(ups, visits, m) && Waited(ups, visits, last, m, n)
    ensures Waited(ups, visits, last, 0, n)
  {
    if m > 0 {
      RefusedThenWaited(ups, visits, last, m - 1, n);
    }
  }

  function Chosen(ups: seq<Upstream>, scan: Scan): Option<Upstream> {
    if scan.k < |ups| then Some(ups[scan.k]) else None
  }

  // ---- Backoff ----

  const FIRST_BACKOFF := 5
  const MAX_BACKOFF := 200

  /** Milliseconds of the `k`-th backoff, counted from zero: doubled each time, up to the maximum. */
  function Backoff(k: nat): nat {
    if k == 0 then FIRST_BACKOFF else Min(Backoff(k - 1) * 2, MAX_BACKOFF)
  }

  function Pow2(k: nat): nat { if k == 0 then 1 else 2 * Pow2(k - 1) }

  lemma {:induction false} BackoffClosedForm(k: nat)
    ensures Backoff(k) == Min(5 * Pow2(k), 200) && 5 <= Backoff(k)
  {
    if k > 0 {
      BackoffClosedForm(k - 1);
    }
  }

  /** When the `k`-th scan of an undisturbed wait starts, in milliseconds after the first. */
  function ScanTime(k: nat): nat {
    if k == 0 then 0 else ScanTime(k - 1) + Backoff(k - 1)
  }

  lemma {:induction false} ScanTimeClosedForm(k: nat)
    ensures k >= 6 ==> Backoff(k) == 200 && ScanTime(k) == 315 + 200 * (k - 6)
    ensures k == 5 ==> Backoff(k) == 160 && ScanTime(k) == 155
    ensures k < 5 ==> Backoff(k) == 5 * Pow2(k) && ScanTime(k) == 5 * (Pow2(k) - 1) && Pow2(k) <= 16
    ensures k == 4 ==> Pow2(k) == 16
  {
    if k > 0 {
      ScanTimeClosedForm(k - 1);
      if k == 4 {
        assert Pow2(1) == 2 && Pow2(2) == 4 && Pow2(3) == 8;
      } else if k == 3 {
        assert Pow2(1) == 2 && Pow2(2) == 4;
      }
    }
  }

  function CeilDiv(a: nat, b: nat): nat
    requires b > 0
  {
    (a + b - 1) / b
  }

  function ScanBound(timeout: int): nat { 7 + CeilDiv(Max(0, timeout - 315), 200) }

  /**
   An undisturbed wait that scans again only before its deadline scans at most `ScanBound` times, and
   exactly that often when it times out after more than 155 ms.
   */
  lemma ScansAreBounded(timeout: int, n: nat)
    requires n >= 1 && (n >= 2 ==> ScanTime(n - 2) < timeout)
    ensures n <= ScanBound(timeout)
    ensures timeout > 155 && ScanTime(n - 1) >= timeout ==> n == ScanBound(timeout)
  {
    ScanTimeClosedForm(n - 1);
    if n >= 2 {
      ScanTimeClosedForm(n - 2);
    }
    if n - 1 < 4 && timeout > 155 {
      assert ScanTime(n - 1) < timeout;
    }
  }

  /**
   Instants of successive scans: each but the last before the deadline, each one backoff after its predecessor, or
   sooner when a notification cuts that wait short.
   */
  ghost predicate Paced(scans: seq<nat>, start: nat, deadline: nat, wakes: seq<nat>) {
    && (scans != [] ==> scans[0] == start)
    && forall n :: 0 <= n < |scans| - 1 ==> Follows(scans, n, deadline, wakes)
  }

  ghost predicate Follows(scans: seq<nat>, n: nat, deadline: nat, wakes: seq<nat>)
    requires n < |scans| - 1
  {
    && scans[n] < deadline
    && scans[n + 1] == scans[n] + if n < |wakes| then Min(wakes[n], Backoff(n)) else Backoff(n)
  }

  /** Scans are never more than the largest backoff apart. */
  lemma ScansAreClose(scans: seq<nat>, start: nat, deadline: nat, wakes: seq<nat>, n: nat)
    requires Paced(scans, start, deadline, wakes) && n < |scans| - 1
    ensures scans[n + 1] <= scans[n] + 200
  {
    assert Follows(scans, n, deadline, wakes);
    BackoffClosedForm(n);
  }

  /** The task is about to scan at `now`, after the scans made so far. */
  ghost predicate Waiting(scans: seq<nat>, now: nat, start: nat, deadline: nat, wakes: seq<nat>) {
    Paced(scans + [now], start, deadline, wakes) && now <= Max(start, deadline + MAX_BACKOFF)
  }

  /** The wait ended with the scan at `end`. */
  ghost predicate Ended(scans: seq<nat>, end: nat, start: nat, deadline: nat, wakes: seq<nat>) {
    && scans != [] && scans[|scans| - 1] == end
    && Paced(scans, start, deadline, wakes) && end <= Max(start, deadline + MAX_BACKOFF)
  }

  /** When the next scan starts: after the backoff, or sooner if a notification cuts it short. */
  function Later(now: nat, n: nat, backoff: nat, wakes: seq<nat>): nat {
    now + if n < |wakes| then Min(wakes[n], backoff) else backoff
  }

  lemma WaitEnds(scans: seq<nat>, end: nat, start: nat, deadline: nat, wakes: seq<nat>)
    requires Waiting(scans, end, start, deadline, wakes)
    ensures Ended(scans + [end], end, start, deadline, wakes)
  {
  }

  lemma WaitingAgain(scans: seq<nat>, now: nat, next: nat, start: nat, deadline: nat, wakes: seq<nat>)
    requires Waiting(scans, now, start, deadline, wakes) && now < deadline
    requires next == Later(now, |scans|, Backoff(|scans|), wakes)
    ensures Waiting(scans + [now], next, start, deadline, wakes)
    ensures 5 <= Backoff(|scans|)
  {
    BackoffClosedForm(|scans|);
    var before, after := scans + [now], scans + [now] + [next];
    forall n | 0 <= n < |scans| + 1 ensures Follows(after, n, deadline, wakes) {
      assert n < |scans| ==> Follows(before, n, deadline, wakes);
    }
  }

  /** Undisturbed scans happen exactly at `ScanTime`. */
  lemma {:induction false} UndisturbedScans(scans: seq<nat>, start: nat, deadline: nat, n: nat)
    requires Paced(scans, start, deadline, []) && n < |scans|
    ensures scans[n] == start + ScanTime(n)
  {
    if n > 0 {
      UndisturbedScans(scans, start, deadline, n - 1);
      assert Follows(scans, n - 1, deadline, []);
    }
  }

  /** A wait that nothing cuts short scans no more often than the bound, and exactly at its instants. */
  lemma UndisturbedWait(scans: seq<nat>, end: nat, start: nat, timeout: nat)
    requires Ended(scans, end, start, start + timeout, [])
    ensures |scans| <= ScanBound(timeout)
    ensures forall n :: 0 <= n < |scans| ==> scans[n] == start + ScanTime(n)
  {
    forall n | 0 <= n < |scans| ensures scans[n] == start + ScanTime(n) {
      UndisturbedScans(scans, start, start + timeout, n);
    }
    assert |scans| >= 2 ==> Follows(scans, |scans| - 2, start + timeout, []);
    ScansAreBounded(timeout, |scans|);
  }

  // ---- The queue manager ----

  datatype QueueError = NoneConfigured | QueueFull(waiting: nat) | WaitTimeout

  class QueueManager {
    const maxQueuePerProvider: nat
    const queueWaitTimeoutMs: nat
    var pendingWaits: map<ProviderKind, nat>
    var totalWaited: nat
    var totalRejected: nat
    var totalNoUpstream: nat
    var totalDispatched: nat

    constructor (maxQueue: nat, timeoutMs: nat)
      ensures maxQueuePerProvider == maxQueue && queueWaitTimeoutMs == timeoutMs
      ensures pendingWaits == map[]
      ensures totalWaited == totalRejected == totalNoUpstream == totalDispatched == 0
    {
      maxQueuePerProvider, queueWaitTimeoutMs := maxQueue, timeoutMs;
      pendingWaits := map[];
      totalWaited, totalRejected, totalNoUpstream, totalDispatched := 0, 0, 0, 0;
    }

    function PendingFor(kind: ProviderKind): nat
      reads this`pendingWaits
    {
      if kind in pendingWaits then pendingWaits[kind] else 0
    }

    /** One scan: the first upstream in the list that admits is charged; those before it only refill. */
    method TryAcquire(ups: seq<Upstream>, clock: Clock) returns (chosen: Option<Upstream>, ghost k: nat)
      requires Separate(ups) && Working(ups)
      modifies Footprint(ups)
      ensures Working(ups) && k <= |ups|
      ensures chosen == if k < |ups| then Some(ups[k]) else None
      ensures forall i :: 0 <= i < k ==> !old(Admissible(ups[i], clock))
      ensures k < |ups| ==> old(Admissible(ups[k], clock))
      ensures forall i :: 0 <= i < |ups| && i <= k ==>
        ups[i].State() == AfterAttempt(ups[i].cfg, old(ups[i].State()), clock.at(ups[i]).check, clock.at(ups[i]).refill)
      ensures forall i :: k < i < |ups| ==> ups[i].State() == old(ups[i].State())
    {
      k := |ups|;
      for i := 0 to |ups|
        invariant k == |ups| && Working(ups)
        invariant forall j :: 0 <= j < i ==> !old(Admissible(ups[j], clock))
        invariant forall j :: 0 <= j < i ==>
          ups[j].State() ==
            AfterAttempt(ups[j].cfg, old(ups[j].State()), clock.at(ups[j]).check, clock.at(ups[j]).refill)
        invariant forall j :: i <= j < |ups| ==> ups[j].State() == old(ups[j].State())
      {
        var u := ups[i];
        assert forall j :: 0 <= j < |ups| && j != i ==> u.Repr() !! ups[j].Repr();
        var admitted := u.TryAcquire(clock.at(u).check, clock.at(u).refill);
        if admitted {
          k := i;
          return Some(u), k;
        }
      }
      return None, k;
    }

    /** The scan, with a record of what it did; `found` are the states the upstreams are in. */
    method ObservedScan(ups: seq<Upstream>, clock: Clock, ghost found: seq<UpstreamState>)
        returns (chosen: Option<Upstream>, ghost scan: Scan)
      requires Separate(ups) && Working(ups) && Shows(ups, found)
      modifies Footprint(ups)
      ensures Working(ups)
      ensures scan.clock == clock && scan.found == found && Scanned(ups, scan, |ups|) && chosen == Chosen(ups, scan)
      ensures |found| == |ups| && (chosen == None <==> NobodyAdmits(ups, found, clock))
    {
      ghost var k;
      ShowsMeans(ups, found);
      NobodyAdmitsMeans(ups, found, clock);
      chosen, k := TryAcquire(ups, clock);
      ghost var left := StatesOf(ups);
      ShowsMeans(ups, left);
      scan := Scan(clock, found, left, k);
      ScannedEverywhere(ups, scan, |ups|);
    }

    /** A scan and its statistic: dispatched if it admits, rejected if it is the last and does not. */
    method CountedScan(ups: seq<Upstream>, clock: Clock, last: bool, ghost found: seq<UpstreamState>)
        returns (chosen: Option<Upstream>, ghost scan: Scan)
      requires Separate(ups) && Working(ups) && Shows(ups, found)
      modifies Footprint(ups), this`totalDispatched, this`totalRejected
      ensures Working(ups)
      ensures scan.clock == clock && scan.found == found && Scanned(ups, scan, |ups|) && chosen == Chosen(ups, scan)
      ensures |found| == |ups| && (chosen == None <==> NobodyAdmits(ups, found, clock))
      ensures totalDispatched == old(totalDispatched) + if chosen.Some? then 1 else 0
      ensures totalRejected == old(totalRejected) + if chosen == None && last then 1 else 0
    {
      assert this !in Footprint(ups);
      chosen, scan := ObservedScan(ups, clock, found);
      if chosen.Some? {
        totalDispatched := totalDispatched + 1;
      } else if last {
        totalRejected := totalRejected + 1;
      }
    }

    /**
     Other tasks run: they leave the upstreams in any states these can be in. Their effect on the queue's own
     counters is the subject of `AdmissionProtocol`.
     */
    method Interference(ups: seq<Upstream>, world: seq<UpstreamState>)
      requires Separate(ups) && Working(ups) && CanBeIn(ups, world)
      modifies Footprint(ups)
      ensures Working(ups) && Shows(ups, world)
    {
      CanBeInMeans(ups, world);
      for i := 0 to |ups|
        invariant Working(ups) && forall j :: 0 <= j < i ==> ups[j].State() == world[j]
      {
        var u := ups[i];
        assert forall j :: 0 <= j < |ups| && j != i ==> u.Repr() !! ups[j].Repr();
        u.Become(world[i]);
      }
      ShowsMeans(ups, world);
    }

    /** One round of the wait: a scan and, unless it ends the wait, a sleep in which other tasks run. */
    method Round(ups: seq<Upstream>, visit: Visit, last: bool, next: seq<UpstreamState>)
        returns (chosen: Option<Upstream>, ghost scan: Scan)
      requires Separate(ups) && Working(ups) && Shows(ups, visit.world) && CanBeIn(ups, next)
      modifies Footprint(ups), this`totalDispatched, this`totalRejected
      ensures Working(ups)
      ensures scan.clock == visit.clock && scan.found == visit.world && chosen == Chosen(ups, scan)
      ensures |visit.world| == |ups| && (chosen == None <==> NobodyAdmits(ups, visit.world, visit.clock))
      ensures if chosen.Some? || last then Scanned(ups, scan, |ups|) else Shows(ups, next)
      ensures totalDispatched == old(totalDispatched) + if chosen.Some? then 1 else 0
      ensures totalRejected == old(totalRejected) + if chosen == None && last then 1 else 0
    {
      chosen, scan := CountedScan(ups, visit.clock, last, visit.world);
      if chosen == None && !last {
        assert this !in Footprint(ups);
        Interference(ups, next);
      }
    }

    /**
     Scans until admitted or past the deadline, at instants counted in milliseconds. Timers are ideal and a scan
     takes no time; `wakes` gives the waits that a notification may cut short, and how soon; `visits` gives
     what each scan meets. `scans` records the instants of the scans; `last` is the last of them, and in all before it
     every upstream refused.
     */
    method WaitLoop(ups: seq<Upstream>, start: nat, deadline: nat, visits: imap<nat, Visit>, wakes: seq<nat>)
        returns (chosen: Option<Upstream>, end: nat, ghost scans: seq<nat>, ghost last: Scan)
      requires Separate(ups) && Working(ups) && Possible(ups, visits) && Shows(ups, visits[0].world)
      modifies Footprint(ups), this`totalDispatched, this`totalRejected
      ensures Working(ups)
      ensures Ended(scans, end, start, deadline, wakes)
      ensures Waited(ups, visits, last, 0, |scans| - 1)
      ensures Scanned(ups, last, |ups|) && chosen == Chosen(ups, last)
      ensures totalDispatched == old(totalDispatched) + if chosen.Some? then 1 else 0
      ensures totalRejected == old(totalRejected) + if chosen.Some? then 0 else 1
      ensures chosen == None ==> deadline <= end
    {
      var backoff := FIRST_BACKOFF;
      var n: nat := 0;
      end, scans := start, [];
      ghost var dispatched, rejected := totalDispatched, totalRejected;
      while true
        invariant Working(ups) && |scans| == n && backoff == Backoff(n)
        invariant Shows(ups, visits[n].world) && AllRefused(ups, visits, n)
        invariant totalDispatched == dispatched && totalRejected == rejected
        invariant Waiting(scans, end, start, deadline, wakes)
        modifies Footprint(ups), this`totalDispatched, this`totalRejected
        decreases Max(0, |wakes| - n), Max(0, deadline - end)
      {
        chosen, last := Round(ups, visits[n], end >= deadline, visits[n + 1].world);
        if chosen.Some? || end >= deadline {
          RefusedThenWaited(ups, visits, last, n, n);
          WaitEnds(scans, end, start, deadline, wakes);
          scans := scans + [end];
          return;
        }
        ghost var now := end;
        end := Later(end, n, backoff, wakes);
        WaitingAgain(scans, now, end, start, deadline, wakes);
        scans, n := scans + [now], n + 1;
        backoff := Min(backoff * 2, MAX_BACKOFF);
      }
    }

    /** The retry loop in the world that other tasks have left since the first scan. */
    method WaitAmongOthers(ups: seq<Upstream>, start: nat, deadline: nat, visits: imap<nat, Visit>, wakes: seq<nat>)
        returns (chosen: Option<Upstream>, end: nat, ghost scans: seq<nat>, ghost last: Scan)
      requires Separate(ups) && Working(ups) && Possible(ups, visits)
      modifies Footprint(ups), this`totalDispatched, this`totalRejected
      ensures Working(ups)
      ensures Ended(scans, end, start, deadline, wakes)
      ensures Waited(ups, visits, last, 0, |scans| - 1)
      ensures Scanned(ups, last, |ups|) && chosen == Chosen(ups, last)
      ensures totalDispatched == old(totalDispatched) + if chosen.Some? then 1 else 0
      ensures totalRejected == old(totalRejected) + if chosen.Some? then 0 else 1
      ensures chosen == None ==> deadline <= end
    {
      assert this !in Footprint(ups);
      Interference(ups, visits[0].world);
      chosen, end, scans, last := WaitLoop(ups, start, deadline, visits, wakes);
    }

    /** The first critical section of `acquire`. */
    method Reserve(kind: ProviderKind) returns (reserved: bool, waiting: nat)
      modifies this`pendingWaits
      ensures waiting == old(PendingFor(kind))
      ensures reserved <==> maxQueuePerProvider == 0 || waiting < maxQueuePerProvider
      ensures forall k: ProviderKind :: PendingFor(k) == old(PendingFor(k)) + if reserved && k == kind then 1 else 0
    {
      waiting := PendingFor(kind);
      if maxQueuePerProvider > 0 && waiting >= maxQueuePerProvider {
        return false, waiting;
      }
      pendingWaits := pendingWaits[kind := waiting + 1];
      return true, waiting;
    }

    /** The second critical section; the subtraction saturates. */
    method Unreserve(kind: ProviderKind)
      modifies this`pendingWaits
      ensures forall k: ProviderKind ::
        PendingFor(k) == if k == kind then Max(0, old(PendingFor(k)) - 1) else old(PendingFor(k))
    {
      var waiting := PendingFor(kind);
      pendingWaits := pendingWaits[kind := if waiting == 0 then 0 else waiting - 1];
    }

    /** With a wait slot in hand: the retry loop, then the slot's return. */
    method WaitHolding(ups: seq<Upstream>, kind: ProviderKind, arrival: nat, visits: imap<nat, Visit>, wakes: seq<nat>)
        returns (result: Result<Upstream, QueueError>, end: nat, ghost scans: seq<nat>, ghost last: Scan)
      requires Separate(ups) && Working(ups) && Possible(ups, visits)
      modifies Footprint(ups), this`totalDispatched, this`totalRejected, this`totalWaited, this`pendingWaits
      ensures Working(ups)
      ensures Ended(scans, end, arrival, arrival + queueWaitTimeoutMs, wakes)
      ensures Waited(ups, visits, last, 0, |scans| - 1) && Scanned(ups, last, |ups|)
      ensures result == if last.k < |ups| then Ok(ups[last.k]) else Err(WaitTimeout)
      ensures result.Err? ==> arrival + queueWaitTimeoutMs <= end
      ensures totalDispatched == old(totalDispatched) + if result.Ok? then 1 else 0
      ensures totalRejected == old(totalRejected) + if result.Ok? then 0 else 1
      ensures totalWaited == old(totalWaited) + 1
      ensures forall p: ProviderKind ::
        PendingFor(p) == if p == kind then Max(0, old(PendingFor(p)) - 1) else old(PendingFor(p))
    {
      assert this !in Footprint(ups);
      totalWaited := totalWaited + 1;
      var w: Option<Upstream>;
      w, end, scans, last := WaitAmongOthers(ups, arrival, arrival + queueWaitTimeoutMs, visits, wakes);
      Unreserve(kind);
      result := if w.Some? then Ok(w.value) else Err(WaitTimeout);
    }

    /** The part of `acquire` that waits: wait slot, retry loop, and the slot's return. */
    method Wait(ups: seq<Upstream>, kind: ProviderKind, arrival: nat, visits: imap<nat, Visit>, wakes: seq<nat>)
        returns (result: Result<Upstream, QueueError>, end: nat, ghost scans: seq<nat>, ghost last: Scan)
      requires Separate(ups) && Working(ups) && Possible(ups, visits)
      modifies Footprint(ups), this`totalDispatched, this`totalRejected, this`totalWaited, this`pendingWaits
      ensures Working(ups)
      ensures scans == [] <==> 0 < maxQueuePerProvider <= old(PendingFor(kind))
      ensures scans == [] ==> result == Err(QueueFull(old(PendingFor(kind))))
      ensures scans != [] ==>
        && Waited(ups, visits, last, 0, |scans| - 1) && Scanned(ups, last, |ups|)
        && result == (if last.k < |ups| then Ok(ups[last.k]) else Err(WaitTimeout))
        && Ended(scans, end, arrival, arrival + queueWaitTimeoutMs, wakes)
      ensures result == Err(WaitTimeout) ==> scans != [] && arrival + queueWaitTimeoutMs <= end
      ensures totalDispatched == old(totalDispatched) + if result.Ok? then 1 else 0
      ensures totalRejected == old(totalRejected) + if result.Ok? then 0 else 1
      ensures totalWaited == old(totalWaited) + if scans == [] then 0 else 1
      ensures forall p: ProviderKind :: PendingFor(p) == old(PendingFor(p))
    {
      end, scans, last := arrival, [], Scan(visits[0].clock, [], [], 0);
      assert this !in Footprint(ups);
      var reserved, cur := Reserve(kind);
      if reserved {
        result, end, scans, last := WaitHolding(ups, kind, arrival, visits, wakes);
      } else {
        totalRejected := totalRejected + 1;
        result := Err(QueueFull(cur));
      }
    }

    /**
     One call of `acquire` arriving at instant `arrival`. Exactly one of three outcome statistics grows, and
     the wait slot is returned whatever the outcome. Without a wait (`scans == []`) `last` is the scan made on
     arrival; after a wait it is the last scan of the loop.
     */
    method Acquire(ups: seq<Upstream>, kind: ProviderKind, arrival: nat, clock: Clock, visits: imap<nat, Visit>,
                   wakes: seq<nat>, ghost found: seq<UpstreamState>)
        returns (result: Result<Upstream, QueueError>, end: nat, ghost scans: seq<nat>, ghost last: Scan)
      requires Separate(ups) && Working(ups) && Possible(ups, visits) && Shows(ups, found)
      modifies Footprint(ups), this
      ensures Working(ups)
      ensures result == Err(NoneConfigured) <==> ups == []
      ensures scans == [] && ups != [] && !(result.Err? && result.error.QueueFull?) ==>
        && last.clock == clock && last.found == found && Scanned(ups, last, |ups|)
        && last.k < |ups| && result == Ok(ups[last.k])
      ensures scans != [] ==>
        && Waited(ups, visits, last, 0, |scans| - 1) && Scanned(ups, last, |ups|)
        && result == (if last.k < |ups| then Ok(ups[last.k]) else Err(WaitTimeout))
      ensures |found| == |ups| && (!NobodyAdmits(ups, found, clock) ==> result.Ok? && scans == [])
      ensures result.Err? && result.error.QueueFull? <==>
        && ups != [] && NobodyAdmits(ups, found, clock)
        && 0 < maxQueuePerProvider <= old(PendingFor(kind))
      ensures totalDispatched == old(totalDispatched) + if result.Ok? then 1 else 0
      ensures totalNoUpstream == old(totalNoUpstream) + if result == Err(NoneConfigured) then 1 else 0
      ensures totalRejected == old(totalRejected) +
        if result.Err? && result.error != NoneConfigured then 1 else 0
      ensures forall p: ProviderKind :: PendingFor(p) == old(PendingFor(p))
      ensures totalWaited == old(totalWaited) + if scans == [] then 0 else 1
      ensures result == Err(WaitTimeout) ==>
        && scans != []
        && arrival + queueWaitTimeoutMs <= end <= arrival + queueWaitTimeoutMs + MAX_BACKOFF
      ensures scans != [] ==> Ended(scans, end, arrival, arrival + queueWaitTimeoutMs, wakes)
    {
      end, scans, last := arrival, [], Scan(clock, [], [], 0);
      if ups == [] {
        totalNoUpstream := totalNoUpstream + 1;
        return Err(NoneConfigured), end, scans, last;
      }
      assert this !in Footprint(ups);
      var u: Option<Upstream>;
      NobodyAdmitsMeans(ups, found, clock);
      u, last := CountedScan(ups, clock, false, found);
      if u.Some? {
        return Ok(u.value), end, scans, last;
      }
      result, end, scans, last := Wait(ups, kind, arrival, visits, wakes);
    }
  }

  // ---- End to end: from the registry to the chosen upstream ----

  /** Some registered upstream of this kind names its models. */
  ghost predicate KindRestrictsModels(reg: UpstreamRegistry, kind: ProviderKind)
    reads reg
  {
    exists id :: id in reg.upstreams && reg.upstreams[id].cfg.kind == kind && reg.upstreams[id].cfg.models != []
  }

  /** The registered upstream `u` may serve a request of this kind and model. */
  ghost predicate Candidate(reg: UpstreamRegistry, kind: ProviderKind, model: Option<string>, u: Upstream)
    reads reg
  {
    && reg.Listed(u) && u.cfg.kind == kind
    && (model.Some? && KindRestrictsModels(reg, kind) ==> model.value in u.cfg.models)
  }

  method EligibleUpstreams(reg: UpstreamRegistry, kind: ProviderKind, model: Option<string>)
      returns (list: seq<Upstream>)
    requires reg.Valid()
    ensures Ordered(list)
    ensures forall i :: 0 <= i < |list| ==> list[i] in reg.byProvider && Candidate(reg, kind, model, list[i])
    ensures forall u | u in reg.byProvider :: Candidate(reg, kind, model, u) ==> u in list
  {
    var ofKind := reg.ByProvider(kind);
    list := FilterUpstreamsForModel(ofKind, model);
    assert AnyModels(ofKind) <==> KindRestrictsModels(reg, kind) by {
      if AnyModels(ofKind) {
        var i :| 0 <= i < |ofKind| && ofKind[i].cfg.models != [];
        assert ofKind[i] in ofKind;
      }
      if KindRestrictsModels(reg, kind) {
        var id :| id in reg.upstreams && reg.upstreams[id].cfg.kind == kind && reg.upstreams[id].cfg.models != [];
        assert reg.upstreams[id] in ofKind;
      }
    }
    forall i | 0 <= i < |list| ensures list[i] in reg.byProvider && Candidate(reg, kind, model, list[i]) {
      assert list[i] in list;
    }
  }

  lemma ListsAreSeparate(reg: UpstreamRegistry, list: seq<Upstream>)
    requires reg.Valid() && Ordered(list)
    requires forall i :: 0 <= i < |list| ==> list[i] in reg.byProvider && list[i].Valid()
    ensures Separate(list) && Working(list)
  {
    OrderedIsDistinct(list);
  }

  /** The scan of `list`, seen by all upstreams: only the chosen one takes a slot. */
  method ScanAmong(ghost all: seq<Upstream>, queue: QueueManager, list: seq<Upstream>, clock: Clock)
      returns (chosen: Option<Upstream>, ghost k: nat)
    requires Separate(list) && Working(list)
    requires forall i, j :: 0 <= i < |all| && 0 <= j < |list| && all[i] != list[j] ==> all[i].Repr() !! list[j].Repr()
    modifies Footprint(list)
    ensures k <= |list| && chosen == if k < |list| then Some(list[k]) else None
    ensures forall i :: 0 <= i < k ==> !old(Admissible(list[i], clock))
    ensures k < |list| ==> old(Admissible(list[k], clock))
    ensures forall i :: 0 <= i < |all| && Some(all[i]) != chosen ==>
      all[i].State().inFlight == old(all[i].State().inFlight)
  {
    chosen, k := queue.TryAcquire(list, clock);
    forall i | 0 <= i < |all| && Some(all[i]) != chosen
      ensures all[i].State().inFlight == old(all[i].State().inFlight)
    {
      if all[i] in list {
        var j :| 0 <= j < |list| && list[j] == all[i];
      }
    }
  }

  /** The candidates for this kind and model that would admit a call. */
  ghost function Admitting(reg: UpstreamRegistry, kind: ProviderKind, model: Option<string>, clock: Clock)
      : set<Upstream>
    reads reg, reg.byProvider, set i | 0 <= i < |reg.byProvider| :: reg.byProvider[i].rateTokens
  {
    set u | u in reg.byProvider && Candidate(reg, kind, model, u) && Admissible(u, clock)
  }

  /** What it means to come first in order of priority and id. */
  ghost predicate LeadsAll(c: UpstreamConfig, others: set<Upstream>) {
    forall u | u in others && u.cfg != c ::
      && u.cfg.priority <= c.priority
      && (u.cfg.priority == c.priority ==> Lexicographic(c.id, u.cfg.id))
  }

  lemma FirstIsLeast(list: seq<Upstream>, k: nat, admitting: set<Upstream>)
    requires Ordered(list) && k <= |list| && forall u | u in admitting :: u in list
    requires forall i :: 0 <= i < k ==> list[i] !in admitting
    ensures k == |list| ==> admitting == {}
    ensures k < |list| ==> LeadsAll(list[k].cfg, admitting)
  {
    forall u | k < |list| && u in admitting && u.cfg != list[k].cfg
      ensures u.cfg.priority <= list[k].cfg.priority
      ensures u.cfg.priority == list[k].cfg.priority ==> Lexicographic(list[k].cfg.id, u.cfg.id)
    {
      PrecedesMeans(list[k].cfg, u.cfg);
    }
  }

  /**
   One scan over the registry's list for the kind and model: the candidate chosen is the first in order of
   priority and id among those that would admit, and every other upstream keeps its slots.
   */
  method DispatchOnce(reg: UpstreamRegistry, queue: QueueManager, kind: ProviderKind, model: Option<string>,
                      clock: Clock)
      returns (chosen: Option<Upstream>)
    requires reg.Valid() && forall u | u in reg.byProvider :: u.Valid()
    modifies Footprint(reg.byProvider)
    ensures chosen == None <==> old(Admitting(reg, kind, model, clock)) == {}
    ensures chosen.Some? ==>
      && chosen.value in old(Admitting(reg, kind, model, clock))
      && LeadsAll(chosen.value.cfg, old(Admitting(reg, kind, model, clock)))
    ensures forall i :: 0 <= i < |old(reg.byProvider)| && Some(old(reg.byProvider)[i]) != chosen ==>
      old(reg.byProvider)[i].State().inFlight == old(reg.byProvider[i].State().inFlight)
  {
    ghost var admitting := Admitting(reg, kind, model, clock);
    var list := EligibleUpstreams(reg, kind, model);
    ListsAreSeparate(reg, list);
    assert forall i :: 0 <= i < |list| ==> (list[i] in admitting <==> Admissible(list[i], clock));
    ghost var k: nat;
    chosen, k := ScanAmong(reg.byProvider, queue, list, clock);
    assert chosen.Some? ==> chosen.value in admitting;
    FirstIsLeast(list, k, admitting);
  }
}
