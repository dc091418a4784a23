/**
 The circuit breaker of an upstream over whole runs. Calls, outcomes and admin actions happen one at a
 time here, in any order.
 */
module Breaker {
  import opened Prelude
  import opened Upstreams

  datatype Event =
    | Success(at: real)
    | Failure(at: real)
    | Reset(at: real)
    | SetPaused(at: real, paused: bool)
    | SetEnabled(at: real, enabled: bool)
    | Attempt(at: real, refillAt: real)
    | Release(at: real)

  function Step(cfg: UpstreamConfig, s: UpstreamState, e: Event): UpstreamState {
    match e
    case Success(_) => AfterSuccess(s)
    case Failure(at) => AfterFailure(cfg, s, at)
    case Reset(_) => AfterReset(s)
    case SetPaused(_, p) => s.(paused := p)
    case SetEnabled(_, b) => s.(enabled := b)
    case Attempt(at, refillAt) => AfterAttempt(cfg, s, at, refillAt)
    case Release(_) => AfterRelease(cfg, s)
  }

  /** The upstream after the first `n` events of a run that starts with a new object. */
  function Run(cfg: UpstreamConfig, enabled: bool, es: seq<Event>, n: nat): UpstreamState
    requires n <= |es|
  {
    if n == 0 then FreshState(cfg, enabled, 0.0) else Step(cfg, Run(cfg, enabled, es, n - 1), es[n - 1])
  }

  /** Failures among the first `n` events since the last success or admin reset. */
  function FailuresSince(es: seq<Event>, n: nat): nat
    requires n <= |es|
  {
    if n == 0 then 0
    else match es[n - 1]
      case Success(_) => 0
      case Reset(_) => 0
      case Failure(_) => FailuresSince(es, n - 1) + 1
      case _ => FailuresSince(es, n - 1)
  }

  /** Failures in a row that make the upstream unhealthy; a zero threshold acts on the first failure. */
  function Threshold(cfg: UpstreamConfig): nat { Max(1, cfg.Breaker().failureThreshold) }

  /** Event `i` is a failure that opens the breaker. */
  predicate Trips(cfg: UpstreamConfig, es: seq<Event>, i: nat)
    requires i < |es|
  {
    es[i].Failure? && FailuresSince(es, i + 1) >= Threshold(cfg)
  }

  function WindowEnd(cfg: UpstreamConfig, es: seq<Event>, i: nat): real
    requires i < |es|
  {
    es[i].at + cfg.Breaker().openDurationS as real
  }

  ghost predicate SuccessBetween(es: seq<Event>, i: nat, n: nat)
    requires i < n <= |es|
  {
    exists m :: i < m < n && es[m].Success?
  }

  ghost predicate ClearedBetween(es: seq<Event>, i: nat, n: nat)
    requires i < n <= |es|
  {
    exists m :: i < m < n && (es[m].Success? || es[m].Reset?)
  }

  ghost predicate InOrder(es: seq<Event>) {
    forall i, j :: 0 <= i <= j < |es| ==> es[i].at <= es[j].at
  }

  /** Health is a function of the failures since the last success or reset, and of nothing else. */
  lemma {:induction false} HealthCountsFailures(cfg: UpstreamConfig, enabled: bool, es: seq<Event>, n: nat)
    requires n <= |es|
    ensures var s, f := Run(cfg, enabled, es, n), FailuresSince(es, n);
      && s.failures == f
      && s.health == (if f >= Threshold(cfg) then Unhealthy
                      else if f > 0 && f >= cfg.Breaker().failureThreshold / 2 + 1 then Degraded
                      else Healthy)
  {
    if n > 0 {
      HealthCountsFailures(cfg, enabled, es, n - 1);
    }
  }

  /** Without a configured breaker three failures in a row open it for thirty seconds, and two degrade the upstream. */
  lemma DefaultBreaker(cfg: UpstreamConfig, enabled: bool, es: seq<Event>, n: nat)
    requires n <= |es| && cfg.breaker == None
    ensures var f := FailuresSince(es, n);
      Run(cfg, enabled, es, n).health == if f >= 3 then Unhealthy else if f == 2 then Degraded else Healthy
    ensures forall i :: 0 <= i < n ==>
      && (Trips(cfg, es, i) <==> es[i].Failure? && FailuresSince(es, i + 1) >= 3)
      && WindowEnd(cfg, es, i) == es[i].at + 30.0
  {
    HealthCountsFailures(cfg, enabled, es, n);
  }

  /** The pause flag last set, off to begin with. */
  function LastPaused(es: seq<Event>, n: nat): bool
    requires n <= |es|
  {
    if n == 0 then false else if es[n - 1].SetPaused? then es[n - 1].paused else LastPaused(es, n - 1)
  }

  function LastEnabled(enabled: bool, es: seq<Event>, n: nat): bool
    requires n <= |es|
  {
    if n == 0 then enabled else if es[n - 1].SetEnabled? then es[n - 1].enabled else LastEnabled(enabled, es, n - 1)
  }

  /** Only the admin sets the flags, and a call gets through only while they allow it. */
  lemma {:induction false} FlagsAreLastSet(cfg: UpstreamConfig, enabled: bool, es: seq<Event>, n: nat)
    requires n <= |es|
    ensures Run(cfg, enabled, es, n).paused == LastPaused(es, n)
    ensures Run(cfg, enabled, es, n).enabled == LastEnabled(enabled, es, n)
    ensures n < |es| && Admitted(cfg, enabled, es, n) ==> !LastPaused(es, n) && LastEnabled(enabled, es, n)
  {
    if n > 0 {
      FlagsAreLastSet(cfg, enabled, es, n - 1);
    }
  }

  /** Admissions less releases among the first `n` events. */
  ghost function SlotsHeld(cfg: UpstreamConfig, enabled: bool, es: seq<Event>, n: nat): int
    requires n <= |es|
  {
    if n == 0 then 0
    else
      SlotsHeld(cfg, enabled, es, n - 1) +
      (if Admitted(cfg, enabled, es, n - 1) then 1 else if es[n - 1].Release? then -1 else 0)
  }

  /** As long as no slot is given back that was not taken, the counter is the slots held, and within the cap. */
  lemma {:induction false} CounterIsSlotsHeld(cfg: UpstreamConfig, enabled: bool, es: seq<Event>, n: nat)
    requires n <= |es| && cfg.maxConcurrency > 0
    requires forall m :: 0 <= m <= n ==> SlotsHeld(cfg, enabled, es, m) >= 0
    ensures Run(cfg, enabled, es, n).inFlight == SlotsHeld(cfg, enabled, es, n) <= cfg.maxConcurrency
  {
    if n > 0 {
      CounterIsSlotsHeld(cfg, enabled, es, n - 1);
      assert SlotsHeld(cfg, enabled, es, n) >= 0;
    }
  }

  /** What one event does to the open window. */
  lemma OpenUntilStep(cfg: UpstreamConfig, enabled: bool, es: seq<Event>, m: nat)
    requires m < |es|
    ensures Run(cfg, enabled, es, m + 1).openUntil ==
      if Trips(cfg, es, m) then Some(WindowEnd(cfg, es, m))
      else if es[m].Success? then None
      else Run(cfg, enabled, es, m).openUntil
  {
    HealthCountsFailures(cfg, enabled, es, m);
  }

  /** The open window is that of the last tripping failure not followed by a success. */
  lemma {:induction false} OpenWindowIsLastTrip(cfg: UpstreamConfig, enabled: bool, es: seq<Event>, n: nat)
      returns (last: int)
    requires n <= |es|
    ensures -1 <= last < n
    ensures forall i :: 0 <= i < n && last < i && Trips(cfg, es, i) ==> SuccessBetween(es, i, n)
    ensures last >= 0 ==>
      && Trips(cfg, es, last) && !SuccessBetween(es, last, n)
      && Run(cfg, enabled, es, n).openUntil == Some(WindowEnd(cfg, es, last))
    ensures last < 0 ==> Run(cfg, enabled, es, n).openUntil == None
  {
    last := -1;
    if n > 0 {
      var m := n - 1;
      OpenUntilStep(cfg, enabled, es, m);
      if Trips(cfg, es, m) {
        last := m;
      } else if es[m].Success? {
        forall i | 0 <= i < m ensures SuccessBetween(es, i, n) {
          assert i < m < n && es[m].Success?;
        }
      } else {
        last := OpenWindowIsLastTrip(cfg, enabled, es, m);
        forall i | 0 <= i < m ensures SuccessBetween(es, i, m) <==> SuccessBetween(es, i, n) {
          OtherEventsHideNoSuccess(es, i, m);
        }
      }
    }
  }

  lemma OtherEventsHideNoSuccess(es: seq<Event>, i: nat, m: nat)
    requires i < m < |es| && !es[m].Success?
    ensures SuccessBetween(es, i, m) <==> SuccessBetween(es, i, m + 1)
  {
  }

  /** Some tripping failure not followed by a success still holds its open window at `now`. */
  ghost predicate WindowHolds(cfg: UpstreamConfig, es: seq<Event>, n: nat, now: real)
    requires n <= |es|
  {
    exists i :: 0 <= i < n && Trips(cfg, es, i) && !SuccessBetween(es, i, n) && now < WindowEnd(cfg, es, i)
  }

  /**
   The breaker refuses exactly while the failures since the last success or reset reach the
   threshold, or an open window not cut short by a success has not passed.
   */
  lemma BreakerRefusesExactly(cfg: UpstreamConfig, enabled: bool, es: seq<Event>, n: nat, now: real)
    requires n <= |es| && InOrder(es)
    ensures !BreakerAllows(Run(cfg, enabled, es, n), now) <==>
            FailuresSince(es, n) >= Threshold(cfg) || WindowHolds(cfg, es, n, now)
  {
    HealthCountsFailures(cfg, enabled, es, n);
    var last := OpenWindowIsLastTrip(cfg, enabled, es, n);
    if WindowHolds(cfg, es, n, now) {
      var i :| 0 <= i < n && Trips(cfg, es, i) && !SuccessBetween(es, i, n) && now < WindowEnd(cfg, es, i);
      assert i <= last;
      assert es[i].at <= es[last].at;
    }
  }

  lemma {:induction false} FailuresPersist(es: seq<Event>, i: nat, n: nat)
    requires i < n <= |es| && !ClearedBetween(es, i, n)
    ensures FailuresSince(es, n) >= FailuresSince(es, i + 1)
  {
    if i + 1 < n {
      assert !ClearedBetween(es, i, n - 1);
      FailuresPersist(es, i, n - 1);
      assert !(es[n - 1].Success? || es[n - 1].Reset?);
    }
  }

  ghost predicate Admitted(cfg: UpstreamConfig, enabled: bool, es: seq<Event>, j: nat)
    requires j < |es|
  {
    es[j].Attempt? && WouldAdmit(cfg, Run(cfg, enabled, es, j), es[j].at, es[j].refillAt)
  }

  /**
   After a tripping failure, an admission is always preceded by a success or an admin reset, however much
   time has passed: elapsed time alone never lets a probe through. Inside the open
   window not even the reset suffices.
   */
  lemma AdmissionNeedsRecovery(cfg: UpstreamConfig, enabled: bool, es: seq<Event>, i: nat, j: nat)
    requires InOrder(es) && i < j < |es|
    requires Trips(cfg, es, i) && Admitted(cfg, enabled, es, j)
    ensures ClearedBetween(es, i, j)
    ensures es[j].at < WindowEnd(cfg, es, i) ==> SuccessBetween(es, i, j)
  {
    BreakerRefusesExactly(cfg, enabled, es, j, es[j].at);
    if !ClearedBetween(es, i, j) {
      FailuresPersist(es, i, j);
    }
  }

  /**
   The documented half-open probe does not exist: three failures and an attempt, an hour
   after the thirty-second window passed.
   */
  lemma NoHalfOpenProbe(cfg: UpstreamConfig)
    requires cfg.breaker == None
    ensures var es := [Failure(0.0), Failure(0.0), Failure(0.0), Attempt(3600.0, 3600.0)];
      Trips(cfg, es, 2) && WindowEnd(cfg, es, 2) == 30.0 && !Admitted(cfg, true, es, 3)
  {
    var es := [Failure(0.0), Failure(0.0), Failure(0.0), Attempt(3600.0, 3600.0)];
    assert FailuresSince(es, 1) == 1 && FailuresSince(es, 2) == 2 && FailuresSince(es, 3) == 3;
    HealthCountsFailures(cfg, true, es, 3);
  }
}
