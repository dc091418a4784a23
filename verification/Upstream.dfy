/**
 One upstream endpoint: its admission test, concurrency slot, token bucket, health and circuit
 breaker (`src/upstream/mod.rs`). The methods of the class are proved against the functions on
 `UpstreamState`; the runs of other modules are built from the same functions.
 */
module Upstreams {
  import opened Prelude
  import opened TokenBucket

  datatype ProviderKind = Openai | Anthropic

  datatype Health = Healthy | Degraded | Unhealthy {
    predicate AllowsTraffic() { this != Unhealthy }
  }

  datatype CircuitBreaker = CircuitBreaker(failureThreshold: uint32, openDurationS: nat)

  datatype UpstreamConfig = UpstreamConfig(
    id: string, kind: ProviderKind, priority: int, models: seq<string>,
    maxConcurrency: uint32, rateLimitRpm: uint32, breaker: Option<CircuitBreaker>)
  {
    /** The configured breaker, or the built-in three failures and thirty seconds. */
    function Breaker(): CircuitBreaker {
      match breaker
      case Some(cb) => cb
      case None => CircuitBreaker(3, 30)
    }

    /** Admission takes a slot only when there is a cap. */
    predicate Capped() { maxConcurrency > 0 }

    /** Admission takes a token only when there is a rate limit. */
    predicate Metered() { rateLimitRpm > 0 }
  }

  datatype UpstreamState = UpstreamState(
    enabled: bool, paused: bool, health: Health, inFlight: uint32, failures: nat,
    openUntil: Option<real>, bucket: BucketState)

  function FreshState(cfg: UpstreamConfig, enabled: bool, now: real): UpstreamState {
    UpstreamState(enabled, false, Healthy, 0, 0, None, Fresh(cfg.rateLimitRpm, now))
  }

  /** Neither the breaker's open window nor the health refuses traffic. */
  predicate BreakerAllows(s: UpstreamState, now: real) {
    s.health.AllowsTraffic() && (s.openUntil.Some? ==> s.openUntil.value <= now)
  }

  predicate HasFreeSlot(cfg: UpstreamConfig, inFlight: uint32) {
    cfg.Capped() ==> inFlight < cfg.maxConcurrency
  }

  predicate Usable(cfg: UpstreamConfig, s: UpstreamState, now: real) {
    s.enabled && !s.paused && BreakerAllows(s, now) && HasFreeSlot(cfg, s.inFlight)
  }

  /** An undisturbed call is admitted; the two clock readings are taken by the check and by the bucket. */
  predicate WouldAdmit(cfg: UpstreamConfig, s: UpstreamState, checkAt: real, refillAt: real) {
    Usable(cfg, s, checkAt) && (cfg.Metered() ==> Admits(cfg.rateLimitRpm, s.bucket, refillAt))
  }

  /** The state after an undisturbed call. A refused call keeps at most the refill it caused. */
  function AfterAttempt(cfg: UpstreamConfig, s: UpstreamState, checkAt: real, refillAt: real): (s': UpstreamState)
    ensures !WouldAdmit(cfg, s, checkAt, refillAt) ==>
      && s'.inFlight == s.inFlight
      && (s'.bucket == s.bucket || s'.bucket.tokens == Refilled(cfg.rateLimitRpm, s.bucket, refillAt))
  {
    if !Usable(cfg, s, checkAt) then s
    else
      var metered := if cfg.Metered() then s.(bucket := Charged(cfg.rateLimitRpm, s.bucket, refillAt)) else s;
      if cfg.Capped() && WouldAdmit(cfg, s, checkAt, refillAt) then metered.(inFlight := s.inFlight + 1) else metered
  }

  function AfterRelease(cfg: UpstreamConfig, s: UpstreamState): UpstreamState {
    if cfg.Capped() then s.(inFlight := Dec32(s.inFlight)) else s
  }

  /** A release undoes the slot of the admission before it. */
  lemma ReleaseUndoesAttempt(cfg: UpstreamConfig, s: UpstreamState, checkAt: real, refillAt: real)
    requires WouldAdmit(cfg, s, checkAt, refillAt)
    ensures var s' := AfterAttempt(cfg, s, checkAt, refillAt);
      && s'.inFlight == s.inFlight + (if cfg.maxConcurrency > 0 then 1 else 0)
      && AfterRelease(cfg, s') == s'.(inFlight := s.inFlight)
  {
  }

  function AfterSuccess(s: UpstreamState): UpstreamState {
    s.(failures := 0, openUntil := None, health := Healthy)
  }

  function AfterFailure(cfg: UpstreamConfig, s: UpstreamState, now: real): UpstreamState {
    var f := s.failures + 1;
    var cb := cfg.Breaker();
    if f >= cb.failureThreshold then
      s.(failures := f, health := Unhealthy, openUntil := Some(now + cb.openDurationS as real))
    else if f >= cb.failureThreshold / 2 + 1 then
      s.(failures := f, health := Degraded)
    else
      s.(failures := f)
  }

  /** The admin `reset` action: it leaves the open window alone. */
  function AfterReset(s: UpstreamState): UpstreamState {
    s.(failures := 0, health := Healthy)
  }

  class Upstream {
    const cfg: UpstreamConfig
    const rateTokens: RateBucket?
    var enabled: bool
    var paused: bool
    var health: Health
    var inFlight: uint32
    var consecutiveFailures: nat
    var breakerOpenUntil: Option<real>
    var successCount: nat
    var failureCount: nat
    const unmetered: BucketState

    ghost function Repr(): set<object> {
      {this} + if rateTokens == null then {} else {rateTokens}
    }

    ghost predicate Valid()
      reads this, rateTokens
    {
      && (rateTokens == null <==> !cfg.Metered())
      && (rateTokens != null ==> rateTokens.rpm == cfg.rateLimitRpm && rateTokens.Valid())
    }

    ghost function State(): UpstreamState
      reads this, rateTokens
    {
      UpstreamState(enabled, paused, health, inFlight, consecutiveFailures, breakerOpenUntil,
                    if rateTokens == null then unmetered else rateTokens.State())
    }

    /** States the upstream can be in: its bucket, if it has one, holds between nothing and its capacity. */
    ghost predicate CanBe(s: UpstreamState) {
      if rateTokens == null then s.bucket == unmetered else 0.0 <= s.bucket.tokens <= rateTokens.capacity
    }

    /** Other tasks and the world leave the upstream in some state. */
    method Become(s: UpstreamState)
      requires Valid() && CanBe(s)
      modifies Repr()
      ensures Valid() && State() == s
    {
      enabled, paused, health, inFlight := s.enabled, s.paused, s.health, s.inFlight;
      consecutiveFailures, breakerOpenUntil := s.failures, s.openUntil;
      if rateTokens != null {
        rateTokens.tokens, rateTokens.lastRefill := s.bucket.tokens, s.bucket.lastRefill;
      }
    }

    constructor FromConfig(cfg: UpstreamConfig, enabled: bool, now: real)
      ensures Valid() && fresh(Repr())
      ensures this.cfg == cfg && State() == FreshState(cfg, enabled, now)
      ensures this.enabled == enabled && !paused && health == Healthy && inFlight == 0
      ensures consecutiveFailures == successCount == failureCount == 0 && breakerOpenUntil == None
    {
      this.cfg := cfg;
      this.enabled := enabled;
      unmetered := Fresh(cfg.rateLimitRpm, now);
      var bucket: RateBucket? := null;
      if cfg.rateLimitRpm > 0 {
        bucket := new RateBucket(cfg.rateLimitRpm, now);
      }
      rateTokens := bucket;
      paused, health, inFlight, consecutiveFailures := false, Healthy, 0, 0;
      breakerOpenUntil, successCount, failureCount := None, 0, 0;
    }

    method IsUsable(now: real) returns (usable: bool)
      requires Valid()
      ensures usable == Usable(cfg, State(), now)
      ensures usable <==>
        && enabled && !paused && health != Unhealthy
        && (breakerOpenUntil == None || breakerOpenUntil.value <= now)
        && (cfg.maxConcurrency == 0 || inFlight < cfg.maxConcurrency)
    {
      if !enabled {
        return false;
      }
      if paused {
        return false;
      }
      if !health.AllowsTraffic() {
        return false;
      }
      if breakerOpenUntil.Some? && now < breakerOpenUntil.value {
        return false;
      }
      if cfg.maxConcurrency > 0 && inFlight >= cfg.maxConcurrency {
        return false;
      }
      return true;
    }

    /** The call without interference between its steps; `AdmissionProtocol` interleaves them. */
    method TryAcquire(checkAt: real, refillAt: real) returns (admitted: bool)
      requires Valid()
      modifies Repr()
      ensures Valid()
      ensures admitted == WouldAdmit(cfg, old(State()), checkAt, refillAt)
      ensures State() == AfterAttempt(cfg, old(State()), checkAt, refillAt)
      ensures admitted ==>
        && enabled && !paused && health != Unhealthy
        && (breakerOpenUntil == None || breakerOpenUntil.value <= checkAt)
        && (cfg.maxConcurrency > 0 ==> old(inFlight) < cfg.maxConcurrency)
      ensures inFlight == old(inFlight) + if admitted && cfg.maxConcurrency > 0 then 1 else 0
      ensures (enabled, paused, health) == old((enabled, paused, health))
      ensures (consecutiveFailures, breakerOpenUntil) == old((consecutiveFailures, breakerOpenUntil))
    {
      var usable := IsUsable(checkAt);
      if !usable {
        return false;
      }
      if cfg.maxConcurrency > 0 {
        if inFlight >= cfg.maxConcurrency {
          return false;
        }
        inFlight := Inc32(inFlight);
      }
      if rateTokens != null {
        var paid := rateTokens.Take(refillAt);
        if !paid {
          if cfg.maxConcurrency > 0 {
            inFlight := Dec32(inFlight);
          }
          return false;
        }
      }
      return true;
    }

    method Release()
      requires Valid()
      modifies this
      ensures Valid() && State() == AfterRelease(cfg, old(State()))
      ensures cfg.maxConcurrency > 0 && old(inFlight) > 0 ==> inFlight == old(inFlight) - 1
      ensures cfg.maxConcurrency == 0 ==> inFlight == old(inFlight)
    {
      if cfg.maxConcurrency > 0 {
        inFlight := Dec32(inFlight);
      }
    }

    method RecordSuccess()
      requires Valid()
      modifies this
      ensures Valid() && State() == AfterSuccess(old(State()))
      ensures consecutiveFailures == 0 && breakerOpenUntil == None && health == Healthy
      ensures (enabled, paused, inFlight) == old((enabled, paused, inFlight))
      ensures successCount == old(successCount) + 1 && failureCount == old(failureCount)
    {
      successCount := successCount + 1;
      consecutiveFailures := 0;
      breakerOpenUntil := None;
      if health != Healthy {
        health := Healthy;
      }
    }

    method RecordFailure(now: real)
      requires Valid()
      modifies this
      ensures Valid() && State() == AfterFailure(cfg, old(State()), now)
      ensures consecutiveFailures == old(consecutiveFailures) + 1
      ensures var (threshold, openS) := if cfg.breaker == None then (3, 30)
                                        else (cfg.breaker.value.failureThreshold, cfg.breaker.value.openDurationS);
        if consecutiveFailures >= threshold then health == Unhealthy && breakerOpenUntil == Some(now + openS as real)
        else
          && breakerOpenUntil == old(breakerOpenUntil)
          && health == if consecutiveFailures >= threshold / 2 + 1 then Degraded else old(health)
      ensures (enabled, paused, inFlight) == old((enabled, paused, inFlight))
      ensures failureCount == old(failureCount) + 1 && successCount == old(successCount)
    {
      failureCount := failureCount + 1;
      consecutiveFailures := consecutiveFailures + 1;
      var f := consecutiveFailures;
      var (threshold, openS) := match cfg.breaker
        case Some(cb) => (cb.failureThreshold, cb.openDurationS)
        case None => (3, 30);
      if f >= threshold {
        health := Unhealthy;
        breakerOpenUntil := Some(now + openS as real);
      } else if f >= threshold / 2 + 1 {
        health := Degraded;
      }
    }

    /** The `reset` action of the admin endpoint. */
    method AdminReset()
      requires Valid()
      modifies this
      ensures Valid() && State() == AfterReset(old(State()))
      ensures consecutiveFailures == 0 && health == Healthy
      ensures (enabled, paused, inFlight, breakerOpenUntil) == old((enabled, paused, inFlight, breakerOpenUntil))
    {
      consecutiveFailures := 0;
      health := Healthy;
    }
  }
}
