/**
 The interleaved protocol against the sequential methods: when no other task moves between them, the steps of
 one attempt do to the upstream what `Upstream.TryAcquire` does, and the steps of one scan do to the list
 what `QueueManager.TryAcquire` does.
 */
module AttemptRefinement {
  import opened Prelude
  import opened TokenBucket
  import opened Upstreams
  import opened AdmissionProtocol

  /** `s'` is reached from `s` by at most `n` moves of the one task in `l`. */
  ghost predicate Moves(env: Env, s: Sys, l: Label, n: nat, s': Sys)
    decreases n
  {
    s == s' || (n > 0 && InRange(env, s) && Step(env, s, l).Some? && Moves(env, Step(env, s, l).value, l, n - 1, s'))
  }

  /** The part of an upstream's state that the protocol's shared state holds. */
  predicate Shows(up: Up, us: UpstreamState) { up.inFlight == us.inFlight && up.bucket == us.bucket }

  predicate Gate(us: UpstreamState, checkAt: real) { us.enabled && !us.paused && BreakerAllows(us, checkAt) }

  /** The move takes its task to `pc` and changes at most upstream `u`, to `up`. */
  ghost predicate Touches(s: Sys, s': Sys, t: nat, pc: Pc, u: nat, up: Up) {
    && t < |s.tasks| && s'.tasks == s.tasks[t := s.tasks[t].(pc := pc)]
    && |s'.ups| == |s.ups| && u < |s.ups| && s'.ups[u] == up
    && (forall v :: 0 <= v < |s.ups| && v != u ==> s'.ups[v] == s.ups[v])
    && s'.pending == s.pending && s'.stats == s.stats
  }

  lemma TouchesThenTouches(s: Sys, s1: Sys, s2: Sys, t: nat, pc1: Pc, pc2: Pc, u: nat, up1: Up, up2: Up)
    requires Touches(s, s1, t, pc1, u, up1) && Touches(s1, s2, t, pc2, u, up2)
    ensures Touches(s, s2, t, pc2, u, up2)
  {
  }

  /** One move of a task in the middle of an attempt on upstream `u`. */
  lemma AttemptMove(env: Env, s: Sys, l: Label) returns (s': Sys, e: Effect)
    requires InRange(env, s) && l.Move? && l.t < |s.tasks|
    requires var pc := s.tasks[l.t].pc; pc.Check? || pc.Swap? || pc.Meter? || pc.RollBack?
    requires Decide(env, s, s.tasks[l.t], l.gate, l.now, l.expired).Some?
    ensures Step(env, s, l) == Some(s') && InRange(env, s')
    ensures Some(e) == Decide(env, s, s.tasks[l.t], l.gate, l.now, l.expired)
    ensures var u := s.tasks[l.t].ups[s.tasks[l.t].pc.i];
      Touches(s, s', l.t, e.pc, u, MovedBucket(env, MovedSlot(s.ups[u], u, e.slot), u, e.bucket))
  {
    DecisionInRange(env, s, s.tasks[l.t], l.gate, l.now, l.expired);
    e := Decide(env, s, s.tasks[l.t], l.gate, l.now, l.expired).value;
    s' := Step(env, s, l).value;
    var u := s.tasks[l.t].ups[s.tasks[l.t].pc.i];
    forall v | 0 <= v < |s.ups| && v != u ensures s'.ups[v] == s.ups[v] {
      assert s'.ups[v] == MovedBucket(env, MovedSlot(s.ups[v], v, e.slot), v, e.bucket);
    }
    assert s'.ups[u] == MovedBucket(env, MovedSlot(s.ups[u], u, e.slot), u, e.bucket);
  }

  /** The bucket's verdict: granted, or on to the roll-back if there is a slot to give back. */
  lemma {:induction false} MeterMove(env: Env, s: Sys, l: Label, us: UpstreamState) returns (s': Sys)
    requires InRange(env, s) && l.Move? && l.t < |s.tasks| && s.tasks[l.t].pc.Meter?
    requires var u := s.tasks[l.t].ups[s.tasks[l.t].pc.i];
      Shows(s.ups[u], us) && s.clock <= l.now && env.created[u] <= l.now
    ensures Step(env, s, l) == Some(s') && InRange(env, s') && s'.clock <= l.now
    ensures var task := s.tasks[l.t]; var q, i := task.pc.queued, task.pc.i; var u := task.ups[i];
      var cfg := env.cfgs[u]; var paid := cfg.Metered() ==> Admits(cfg.rateLimitRpm, us.bucket, l.now);
      var refused := if cfg.Capped() then RollBack(q, i) else NextPc(task, q, i);
      && u < |s'.ups|
      && Touches(s, s', l.t, if paid then Granted(q, i) else refused, u, s'.ups[u])
      && s'.ups[u].inFlight == us.inFlight
      && s'.ups[u].bucket == (if cfg.Metered() then Charged(cfg.rateLimitRpm, us.bucket, l.now) else us.bucket)
  {
    var e: Effect;
    s', e := AttemptMove(env, s, l);
  }

  /** The roll-back gives the slot back and leaves the bucket alone. */
  lemma {:induction false} RollBackMove(env: Env, s: Sys, l: Label) returns (s': Sys)
    requires InRange(env, s) && l.Move? && l.t < |s.tasks| && s.tasks[l.t].pc.RollBack?
    requires env.cfgs[s.tasks[l.t].ups[s.tasks[l.t].pc.i]].Capped()
    ensures Step(env, s, l) == Some(s') && InRange(env, s') && s'.clock == s.clock
    ensures var task := s.tasks[l.t]; var q, i := task.pc.queued, task.pc.i; var u := task.ups[i];
      && u < |s'.ups| && Touches(s, s', l.t, NextPc(task, q, i), u, s'.ups[u])
      && s'.ups[u].inFlight == Dec32(s.ups[u].inFlight) && s'.ups[u].bucket == s.ups[u].bucket
  {
    var e: Effect;
    s', e := AttemptMove(env, s, l);
  }

  /** From the slot on: the bucket's verdict, and the roll-back if it refuses. */
  lemma {:induction false} UndisturbedMeter(env: Env, s: Sys, l: Label, us: UpstreamState) returns (s': Sys)
    requires InRange(env, s) && l.Move? && l.t < |s.tasks| && s.tasks[l.t].pc.Meter?
    requires var u := s.tasks[l.t].ups[s.tasks[l.t].pc.i];
      Shows(s.ups[u], us) && s.clock <= l.now && env.created[u] <= l.now
    ensures Moves(env, s, l, 2, s') && InRange(env, s') && s'.clock <= l.now
    ensures var task := s.tasks[l.t]; var q, i := task.pc.queued, task.pc.i; var u := task.ups[i];
      var cfg := env.cfgs[u]; var paid := cfg.Metered() ==> Admits(cfg.rateLimitRpm, us.bucket, l.now);
      && u < |s'.ups|
      && Touches(s, s', l.t, if paid then Granted(q, i) else NextPc(task, q, i), u, s'.ups[u])
      && s'.ups[u].inFlight == (if !paid && cfg.Capped() then Dec32(us.inFlight) else us.inFlight)
      && s'.ups[u].bucket == (if cfg.Metered() then Charged(cfg.rateLimitRpm, us.bucket, l.now) else us.bucket)
  {
    var u := s.tasks[l.t].ups[s.tasks[l.t].pc.i];
    var s1 := MeterMove(env, s, l, us);
    s' := s1;
    if s1.tasks[l.t].pc.RollBack? {
      s' := RollBackMove(env, s1, l);
      TouchesThenTouches(s, s1, s', l.t, s1.tasks[l.t].pc, s'.tasks[l.t].pc, u, s1.ups[u], s'.ups[u]);
    }
    assert Moves(env, s1, l, 1, s');
  }

  /** Up to the slot: a usable upstream hands one out if it is capped. */
  lemma UndisturbedSwap(env: Env, s: Sys, l: Label, us: UpstreamState, checkAt: real) returns (s1: Sys, s2: Sys)
    requires InRange(env, s) && l.Move? && l.t < |s.tasks| && s.tasks[l.t].pc.Check?
    requires var u := s.tasks[l.t].ups[s.tasks[l.t].pc.i];
      Shows(s.ups[u], us) && l.gate && Usable(env.cfgs[u], us, checkAt)
    ensures InRange(env, s1) && Step(env, s, l) == Some(s1) && Step(env, s1, l) == Some(s2) && InRange(env, s2)
    ensures s2.clock == s.clock
    ensures var task := s.tasks[l.t]; var q, i := task.pc.queued, task.pc.i; var u := task.ups[i];
      && u < |s2.ups| && Touches(s, s2, l.t, Meter(q, i), u, s2.ups[u])
      && Shows(s2.ups[u], if env.cfgs[u].Capped() then us.(inFlight := us.inFlight + 1) else us)
  {
    var u := s.tasks[l.t].ups[s.tasks[l.t].pc.i];
    var e1: Effect, e2: Effect;
    s1, e1 := AttemptMove(env, s, l);
    s2, e2 := AttemptMove(env, s1, l);
    TouchesThenTouches(s, s1, s2, l.t, e1.pc, e2.pc, u, s1.ups[u], s2.ups[u]);
  }

  /**
   An attempt whose steps no other task disturbs admits exactly when `WouldAdmit` says so and leaves the
   upstream as `AfterAttempt` does, with nothing else changed.
   */
  lemma {:induction false} UndisturbedAttempt(env: Env, s: Sys, l: Label, us: UpstreamState, checkAt: real)
      returns (s': Sys)
    requires InRange(env, s) && l.Move? && l.t < |s.tasks| && s.tasks[l.t].pc.Check?
    requires var u := s.tasks[l.t].ups[s.tasks[l.t].pc.i];
      Shows(s.ups[u], us) && l.gate == Gate(us, checkAt) && s.clock <= l.now && env.created[u] <= l.now
    ensures Moves(env, s, l, 4, s') && InRange(env, s') && s'.clock <= l.now
    ensures var task := s.tasks[l.t]; var q, i := task.pc.queued, task.pc.i; var u := task.ups[i];
      var cfg := env.cfgs[u];
      && u < |s'.ups|
      && Touches(s, s', l.t, if WouldAdmit(cfg, us, checkAt, l.now) then Granted(q, i) else NextPc(task, q, i),
                 u, s'.ups[u])
      && Shows(s'.ups[u], AfterAttempt(cfg, us, checkAt, l.now))
  {
    var task := s.tasks[l.t];
    var q, i := task.pc.queued, task.pc.i;
    var u := task.ups[i];
    var cfg := env.cfgs[u];
    if Usable(cfg, us, checkAt) {
      var s1, s2 := UndisturbedSwap(env, s, l, us, checkAt);
      var us2 := if cfg.Capped() then us.(inFlight := us.inFlight + 1) else us;
      s' := UndisturbedMeter(env, s2, l, us2);
      TouchesThenTouches(s, s2, s', l.t, Meter(q, i), s'.tasks[l.t].pc, u, s2.ups[u], s'.ups[u]);
      assert Moves(env, s1, l, 3, s');
    } else {
      var e: Effect;
      s', e := AttemptMove(env, s, l);
      assert Moves(env, s', l, 3, s');
    }
  }

  // ---- A whole scan ----

  /** The state after the steps `ls` from `s`, if each was possible. */
  function RunFrom(env: Env, s: Sys, ls: seq<Label>): Option<Sys>
    decreases |ls|
  {
    if ls == [] then Some(s)
    else if InRange(env, s) && Step(env, s, ls[0]).Some? then RunFrom(env, Step(env, s, ls[0]).value, ls[1..])
    else None
  }

  lemma {:induction false} RunFromConcat(env: Env, s: Sys, a: seq<Label>, b: seq<Label>)
    requires RunFrom(env, s, a).Some?
    ensures RunFrom(env, s, a + b) == RunFrom(env, RunFrom(env, s, a).value, b)
    decreases |a|
  {
    if a == [] {
      assert a + b == b;
    } else {
      RunFromConcat(env, Step(env, s, a[0]).value, a[1..], b);
      assert (a + b)[1..] == a[1..] + b;
    }
  }

  lemma {:induction false} MovesAreARun(env: Env, s: Sys, l: Label, n: nat, s': Sys) returns (ls: seq<Label>)
    requires Moves(env, s, l, n, s')
    ensures RunFrom(env, s, ls) == Some(s') && forall x :: x in ls ==> x == l
    decreases n
  {
    ls := [];
    if s != s' {
      var rest := MovesAreARun(env, Step(env, s, l).value, l, n - 1, s');
      ls := [l] + rest;
      assert ls[1..] == rest;
    }
  }

  /** The upstreams as the scan finds them, and the clock readings its checks and buckets take. */
  datatype View = View(us: seq<UpstreamState>, checks: seq<real>, nows: seq<real>)

  ghost predicate Sees(env: Env, s: Sys, t: nat, v: View)
    requires InRange(env, s) && t < |s.tasks|
  {
    var list := s.tasks[t].ups;
    && |v.us| == |env.cfgs| && |v.checks| == |v.nows| == |list|
    && (forall u :: 0 <= u < |v.us| ==> Shows(s.ups[u], v.us[u]))
    && (forall i, j :: 0 <= i < j < |list| ==> list[i] != list[j])
  }

  /** From position `i` on, the clock does not go back. */
  ghost predicate TimeOrdered(env: Env, s: Sys, t: nat, v: View, i: nat)
    requires InRange(env, s) && t < |s.tasks| && |v.nows| == |s.tasks[t].ups|
  {
    && NonDecreasing(v.nows)
    && forall j :: i <= j < |v.nows| ==> s.clock <= v.nows[j] && env.created[s.tasks[t].ups[j]] <= v.nows[j]
  }

  predicate AdmitsAt(env: Env, list: seq<nat>, v: View, j: nat)
    requires j < |list| == |v.checks| == |v.nows| && list[j] < |env.cfgs| == |v.us|
  {
    WouldAdmit(env.cfgs[list[j]], v.us[list[j]], v.checks[j], v.nows[j])
  }

  function AttemptedAt(env: Env, list: seq<nat>, v: View, j: nat): UpstreamState
    requires j < |list| == |v.checks| == |v.nows| && list[j] < |env.cfgs| == |v.us|
  {
    AfterAttempt(env.cfgs[list[j]], v.us[list[j]], v.checks[j], v.nows[j])
  }

  /** `s'` follows `s` by a scan that started at position `i` and stopped at `k`, or past the end. */
  ghost predicate Scanned(env: Env, s: Sys, t: nat, v: View, i: nat, k: nat, s': Sys)
    requires InRange(env, s) && t < |s.tasks| && s.tasks[t].pc.Check? && Sees(env, s, t, v)
  {
    var list, q := s.tasks[t].ups, s.tasks[t].pc.queued;
    var end := if k < |list| then Granted(q, k) else if q then AtDeadline else Reserve;
    && i <= k <= |list|
    && (forall j :: i <= j < k ==> !AdmitsAt(env, list, v, j))
    && (k < |list| ==> AdmitsAt(env, list, v, k))
    && s'.tasks == s.tasks[t := s.tasks[t].(pc := end)]
    && |s'.ups| == |s.ups| && s'.pending == s.pending && s'.stats == s.stats
    && (forall j :: i <= j < |list| && j <= k ==> Shows(s'.ups[list[j]], AttemptedAt(env, list, v, j)))
    && (forall u :: 0 <= u < |s.ups| && (forall j :: i <= j < |list| && j <= k ==> list[j] != u) ==>
          s'.ups[u] == s.ups[u])
  }

  /** `s1`, seen as `v1`, follows `s` by one refused attempt that is not the last. */
  ghost predicate Refused(env: Env, s: Sys, t: nat, v: View, s1: Sys, v1: View)
    requires InRange(env, s) && t < |s.tasks| && s.tasks[t].pc.Check? && Sees(env, s, t, v)
  {
    var list, q, i := s.tasks[t].ups, s.tasks[t].pc.queued, s.tasks[t].pc.i;
    && i + 1 < |list| && !AdmitsAt(env, list, v, i)
    && InRange(env, s1) && Touches(s, s1, t, Check(q, i + 1), list[i], s1.ups[list[i]])
    && v1 == v.(us := v.us[list[i] := AttemptedAt(env, list, v, i)])
    && Sees(env, s1, t, v1)
  }

  /** One refused attempt, and a scan of what comes after it. */
  lemma ScanGoesOn(env: Env, s: Sys, t: nat, v: View, s1: Sys, v1: View, k: nat, s': Sys)
    requires InRange(env, s) && t < |s.tasks| && s.tasks[t].pc.Check? && Sees(env, s, t, v)
    requires Refused(env, s, t, v, s1, v1) && Scanned(env, s1, t, v1, s.tasks[t].pc.i + 1, k, s')
    ensures Scanned(env, s, t, v, s.tasks[t].pc.i, k, s')
  {
    var list, i := s.tasks[t].ups, s.tasks[t].pc.i;
    forall j | i < j < |list|
      ensures AdmitsAt(env, list, v1, j) == AdmitsAt(env, list, v, j)
      ensures AttemptedAt(env, list, v1, j) == AttemptedAt(env, list, v, j)
    {
      assert list[j] != list[i];
    }
    assert s'.ups[list[i]] == s1.ups[list[i]];
  }

  /** `s1` follows `s` by the attempt at the task's position. */
  ghost predicate Attempted(env: Env, s: Sys, t: nat, v: View, s1: Sys)
    requires InRange(env, s) && t < |s.tasks| && s.tasks[t].pc.Check? && Sees(env, s, t, v)
  {
    var task := s.tasks[t];
    var list, q, i := task.ups, task.pc.queued, task.pc.i;
    && InRange(env, s1) && s1.clock <= v.nows[i] && list[i] < |s1.ups|
    && Touches(s, s1, t, if AdmitsAt(env, list, v, i) then Granted(q, i) else NextPc(task, q, i),
               list[i], s1.ups[list[i]])
    && Shows(s1.ups[list[i]], AttemptedAt(env, list, v, i))
  }

  lemma ScanAttempt(env: Env, s: Sys, t: nat, v: View) returns (ls: seq<Label>, s1: Sys)
    requires InRange(env, s) && t < |s.tasks| && s.tasks[t].pc.Check?
    requires Sees(env, s, t, v) && TimeOrdered(env, s, t, v, s.tasks[t].pc.i)
    ensures RunFrom(env, s, ls) == Some(s1) && forall x :: x in ls ==> x.Move? && x.t == t
    ensures Attempted(env, s, t, v, s1)
  {
    var list, i := s.tasks[t].ups, s.tasks[t].pc.i;
    var l := Move(t, Gate(v.us[list[i]], v.checks[i]), v.nows[i], false);
    s1 := UndisturbedAttempt(env, s, l, v.us[list[i]], v.checks[i]);
    ls := MovesAreARun(env, s, l, 4, s1);
  }

  /** An attempt that admits, or is the last, ends the scan. */
  lemma ScanStops(env: Env, s: Sys, t: nat, v: View, s1: Sys)
    requires InRange(env, s) && t < |s.tasks| && s.tasks[t].pc.Check? && Sees(env, s, t, v)
    requires Attempted(env, s, t, v, s1)
    ensures var list, i := s.tasks[t].ups, s.tasks[t].pc.i;
      && (AdmitsAt(env, list, v, i) ==> Scanned(env, s, t, v, i, i, s1))
      && (!AdmitsAt(env, list, v, i) && i + 1 == |list| ==> Scanned(env, s, t, v, i, |list|, s1))
  {
  }

  /** Any other leaves the next position to try, with the clock not past its readings. */
  lemma ScanContinues(env: Env, s: Sys, t: nat, v: View, s1: Sys, v1: View)
    requires InRange(env, s) && t < |s.tasks| && s.tasks[t].pc.Check? && Sees(env, s, t, v)
    requires Attempted(env, s, t, v, s1) && TimeOrdered(env, s, t, v, s.tasks[t].pc.i)
    requires var list, i := s.tasks[t].ups, s.tasks[t].pc.i;
      && i + 1 < |list| && !AdmitsAt(env, list, v, i)
      && v1 == v.(us := v.us[list[i] := AttemptedAt(env, list, v, i)])
    ensures Refused(env, s, t, v, s1, v1) && TimeOrdered(env, s1, t, v1, s.tasks[t].pc.i + 1)
  {
  }

  /**
   A scan no other task disturbs stops at the first upstream of its list that would admit, and
   gives up exactly when none would: what `QueueManager.TryAcquire` does, step by step.
   */
  lemma {:induction false} UndisturbedScan(env: Env, s: Sys, t: nat, v: View)
      returns (k: nat, ls: seq<Label>, s': Sys)
    requires InRange(env, s) && t < |s.tasks| && s.tasks[t].pc.Check?
    requires Sees(env, s, t, v) && TimeOrdered(env, s, t, v, s.tasks[t].pc.i)
    ensures RunFrom(env, s, ls) == Some(s') && forall x :: x in ls ==> x.Move? && x.t == t
    ensures Scanned(env, s, t, v, s.tasks[t].pc.i, k, s')
    ensures InRange(env, s') && s'.clock <= v.nows[|v.nows| - 1]
    decreases |s.tasks[t].ups| - s.tasks[t].pc.i
  {
    var list, i := s.tasks[t].ups, s.tasks[t].pc.i;
    ls, s' := ScanAttempt(env, s, t, v);
    ScanStops(env, s, t, v, s');
    if AdmitsAt(env, list, v, i) {
      k := i;
    } else if i + 1 == |list| {
      k := |list|;
    } else {
      var s1, first := s', ls;
      var v1 := v.(us := v.us[list[i] := AttemptedAt(env, list, v, i)]);
      ScanContinues(env, s, t, v, s1, v1);
      var rest: seq<Label>;
      k, rest, s' := UndisturbedScan(env, s1, t, v1);
      ls := first + rest;
      RunFromConcat(env, s, first, rest);
      ScanGoesOn(env, s, t, v, s1, v1, k, s');
    }
  }
}
