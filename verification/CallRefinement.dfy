/**
 A whole call of `QueueManager::acquire` against a sequential reading of it: when no other task moves, the steps of a
 call end as the sequential call does, with the same upstream, the same statistics and the wait slot given back. The
 world may change flags, health and breakers between scans; slots and buckets are the protocol's.
 */
module CallRefinement {
  import opened Prelude
  import opened TokenBucket
  import opened Upstreams
  import opened AdmissionProtocol
  import opened AttemptRefinement

  // ---- The sequential call ----

  /** What a scan meets: the upstreams as the world leaves them, the clock, and whether the deadline is past. */
  datatype Turn = Turn(world: seq<UpstreamState>, checks: seq<real>, nows: seq<real>, expired: bool)

  /** The slots and buckets of the call's run under the flags, health and breakers of the world. */
  function Found(ours: seq<UpstreamState>, turn: Turn): View
    requires |ours| == |turn.world|
  {
    View(seq(|ours|, u requires 0 <= u < |ours| =>
           turn.world[u].(inFlight := ours[u].inFlight, bucket := ours[u].bucket)),
         turn.checks, turn.nows)
  }

  predicate Fits(env: Env, list: seq<nat>, turn: Turn) {
    && |turn.world| == |env.cfgs| && |turn.checks| == |turn.nows| == |list|
    && forall i :: 0 <= i < |list| ==> list[i] < |env.cfgs|
  }

  predicate InView(env: Env, list: seq<nat>, v: View) {
    && |v.us| == |env.cfgs| && |v.checks| == |v.nows| == |list|
    && forall i :: 0 <= i < |list| ==> list[i] < |env.cfgs|
  }

  /** The first position from `i` on that would admit, or the length of the list. */
  function FirstFrom(env: Env, list: seq<nat>, v: View, i: nat): (k: nat)
    requires InView(env, list, v) && i <= |list|
    ensures i <= k <= |list| && (forall j :: i <= j < k ==> !AdmitsAt(env, list, v, j))
    ensures k < |list| ==> AdmitsAt(env, list, v, k)
    decreases |list| - i
  {
    if i == |list| || AdmitsAt(env, list, v, i) then i else FirstFrom(env, list, v, i + 1)
  }

  /** The upstreams after attempts on the first `n` positions. */
  function AfterAttempts(env: Env, list: seq<nat>, v: View, n: nat): (us: seq<UpstreamState>)
    requires InView(env, list, v) && n <= |list|
    ensures |us| == |v.us|
  {
    if n == 0 then v.us else AfterAttempts(env, list, v, n - 1)[list[n - 1] := AttemptedAt(env, list, v, n - 1)]
  }

  datatype Ending = Ended(outcome: Outcome, ups: seq<UpstreamState>) | Asleep(ups: seq<UpstreamState>)

  function ScanPosition(env: Env, list: seq<nat>, ours: seq<UpstreamState>, turn: Turn): (k: nat)
    requires |ours| == |env.cfgs| && Fits(env, list, turn)
    ensures k <= |list|
  {
    FirstFrom(env, list, Found(ours, turn), 0)
  }

  function ScanLeaves(env: Env, list: seq<nat>, ours: seq<UpstreamState>, turn: Turn): (us: seq<UpstreamState>)
    requires |ours| == |env.cfgs| && Fits(env, list, turn)
    ensures |us| == |ours|
  {
    AfterAttempts(env, list, Found(ours, turn), Min(ScanPosition(env, list, ours, turn) + 1, |list|))
  }

  /** The retry loop: one scan a turn, until one admits or finds the deadline past. */
  function Retry(env: Env, list: seq<nat>, ours: seq<UpstreamState>, turns: seq<Turn>): Ending
    requires |ours| == |env.cfgs| && forall turn :: turn in turns ==> Fits(env, list, turn)
    decreases |turns|
  {
    if turns == [] then Asleep(ours)
    else
      var k, left := ScanPosition(env, list, ours, turns[0]), ScanLeaves(env, list, ours, turns[0]);
      if k < |list| then Ended(Served(k), left)
      else if turns[0].expired then Ended(Rejected, left)
      else Retry(env, list, left, turns[1..])
  }

  /** `acquire`: refuse an empty list, scan, refuse a full queue, retry. */
  function Acquire(env: Env, list: seq<nat>, ours: seq<UpstreamState>, full: bool, first: Turn, turns: seq<Turn>)
      : Ending
    requires |ours| == |env.cfgs| && Fits(env, list, first) && forall turn :: turn in turns ==> Fits(env, list, turn)
  {
    if list == [] then Ended(NoUpstream, ours)
    else
      var k, left := ScanPosition(env, list, ours, first), ScanLeaves(env, list, ours, first);
      if k < |list| then Ended(Served(k), left)
      else if full then Ended(Rejected, left)
      else Retry(env, list, left, turns)
  }

  // ---- The steps of the call ----

  ghost predicate Shown(s: Sys, ours: seq<UpstreamState>) {
    |ours| == |s.ups| && forall u :: 0 <= u < |s.ups| ==> Shows(s.ups[u], ours[u])
  }

  /** `s'` differs from `s` in slots, buckets and clock, in task `t`, its kind's wait slots and the statistics. */
  ghost predicate Became(s: Sys, s': Sys, t: nat, task: Task, joined: int, stats: Stats) {
    && t < |s.tasks| && s'.tasks == s.tasks[t := task] && s'.stats == stats
    && forall kind: ProviderKind ::
         PendingFor(s', kind) == PendingFor(s, kind) + if kind == s.tasks[t].kind then joined else 0
  }

  ghost predicate OwnMoves(ls: seq<Label>, t: nat) { forall x :: x in ls ==> x.Move? && x.t == t }

  lemma BecameTwice(s: Sys, s1: Sys, s2: Sys, t: nat, a: Task, b: Task, m: int, n: int, x: Stats, y: Stats)
    requires Became(s, s1, t, a, m, x) && Became(s1, s2, t, b, n, y) && a.kind == s.tasks[t].kind
    ensures Became(s, s2, t, b, m + n, y)
  {
  }

  function Joined(m: QueueMove): int {
    match m
    case KeepQueue => 0
    case JoinQueue => 1
    case LeaveQueue => -1
  }

  /** A move of the task that touches no upstream. */
  lemma QuietMove(env: Env, s: Sys, t: nat, expired: bool) returns (ls: seq<Label>, s': Sys, e: Effect)
    requires InRange(env, s) && t < |s.tasks|
    requires !s.tasks[t].pc.Check? && !s.tasks[t].pc.Swap? && !s.tasks[t].pc.Meter? && !s.tasks[t].pc.RollBack?
    requires !s.tasks[t].pc.Holding? && !s.tasks[t].pc.Finished?
    requires s.tasks[t].pc.Leave? ==> PendingFor(s, s.tasks[t].kind) > 0
    ensures Some(e) == Decide(env, s, s.tasks[t], true, 0.0, expired)
    ensures RunFrom(env, s, ls) == Some(s') && OwnMoves(ls, t) && InRange(env, s')
    ensures s'.ups == s.ups && s'.clock == s.clock
    ensures Became(s, s', t, MovedTask(s.tasks[t], e), Joined(e.queue), MovedStats(s.stats, e.stat))
  {
    var l := Move(t, true, 0.0, expired);
    e := Decide(env, s, s.tasks[t], true, 0.0, expired).value;
    DecisionInRange(env, s, s.tasks[t], true, 0.0, expired);
    ls, s' := [l], Step(env, s, l).value;
    assert ls[1..] == [] && RunFrom(env, s', []) == Some(s');
    assert s'.ups == s.ups;
  }

  /** Two runs of the task, one after the other. */
  lemma ThenRun(env: Env, s: Sys, t: nat, a: seq<Label>, s1: Sys, b: seq<Label>, s2: Sys)
    requires RunFrom(env, s, a) == Some(s1) && RunFrom(env, s1, b) == Some(s2) && OwnMoves(a, t) && OwnMoves(b, t)
    ensures RunFrom(env, s, a + b) == Some(s2) && OwnMoves(a + b, t)
  {
    RunFromConcat(env, s, a, b);
  }

  lemma {:induction false} FirstFromIs(env: Env, list: seq<nat>, v: View, i: nat, k: nat)
    requires InView(env, list, v) && i <= k <= |list|
    requires (forall j :: i <= j < k ==> !AdmitsAt(env, list, v, j)) && (k < |list| ==> AdmitsAt(env, list, v, k))
    ensures FirstFrom(env, list, v, i) == k
    decreases k - i
  {
    if i < k {
      FirstFromIs(env, list, v, i + 1, k);
    }
  }

  lemma {:induction false} AfterAttemptsAt(env: Env, list: seq<nat>, v: View, n: nat)
    requires InView(env, list, v) && n <= |list| && forall i, j :: 0 <= i < j < |list| ==> list[i] != list[j]
    ensures forall j :: 0 <= j < n ==> AfterAttempts(env, list, v, n)[list[j]] == AttemptedAt(env, list, v, j)
    ensures forall u :: 0 <= u < |v.us| && (forall j :: 0 <= j < n ==> list[j] != u) ==>
      AfterAttempts(env, list, v, n)[u] == v.us[u]
  {
    if n > 0 {
      AfterAttemptsAt(env, list, v, n - 1);
    }
  }

  ghost predicate Distinct(list: seq<nat>) { forall i, j :: 0 <= i < j < |list| ==> list[i] != list[j] }

  ghost predicate OnTime(env: Env, clock: real, list: seq<nat>, turn: Turn) {
    && NonDecreasing(turn.nows)
    && forall j :: 0 <= j < |list| && j < |turn.nows| && list[j] < |env.created| ==>
         clock <= turn.nows[j] && env.created[list[j]] <= turn.nows[j]
  }

  /** A scan from the start of the list. */
  lemma WholeScan(env: Env, s: Sys, t: nat, ours: seq<UpstreamState>, turn: Turn)
      returns (ls: seq<Label>, s': Sys)
    requires InRange(env, s) && t < |s.tasks| && s.tasks[t].pc.Check? && s.tasks[t].pc.i == 0 && Shown(s, ours)
    requires var list := s.tasks[t].ups; Fits(env, list, turn) && Distinct(list) && OnTime(env, s.clock, list, turn)
    ensures RunFrom(env, s, ls) == Some(s') && OwnMoves(ls, t) && InRange(env, s')
    ensures s'.clock <= turn.nows[|turn.nows| - 1]
    ensures var list, q := s.tasks[t].ups, s.tasks[t].pc.queued; var k := ScanPosition(env, list, ours, turn);
      var end := if k < |list| then Granted(q, k) else if q then AtDeadline else Reserve;
      && Became(s, s', t, s.tasks[t].(pc := end), 0, s.stats)
      && Shown(s', ScanLeaves(env, list, ours, turn))
  {
    var list, v := s.tasks[t].ups, Found(ours, turn);
    var k: nat;
    k, ls, s' := UndisturbedScan(env, s, t, v);
    FirstFromIs(env, list, v, 0, k);
    AfterAttemptsAt(env, list, v, Min(k + 1, |list|));
    ScanShows(env, s, t, v, k, s');
  }

  lemma ScanShows(env: Env, s: Sys, t: nat, v: View, k: nat, s': Sys)
    requires InRange(env, s) && t < |s.tasks| && s.tasks[t].pc.Check? && Sees(env, s, t, v)
    requires Scanned(env, s, t, v, 0, k, s')
    ensures Shown(s', AfterAttempts(env, s.tasks[t].ups, v, Min(k + 1, |s.tasks[t].ups|)))
  {
    var list := s.tasks[t].ups;
    var n := Min(k + 1, |list|);
    AfterAttemptsAt(env, list, v, n);
    forall u | 0 <= u < |s.ups| ensures Shows(s'.ups[u], AfterAttempts(env, list, v, n)[u]) {
      if exists j :: 0 <= j < n && list[j] == u {
        var j :| 0 <= j < n && list[j] == u;
        assert Shows(s'.ups[list[j]], AttemptedAt(env, list, v, j));
      } else {
        assert s'.ups[u] == s.ups[u];
      }
    }
  }

  // ---- One turn of the retry loop ----

  /** Admitted in the wait: counted, then the wait slot is given back. */
  lemma Depart(env: Env, s: Sys, t: nat) returns (ls: seq<Label>, s': Sys)
    requires InRange(env, s) && t < |s.tasks| && s.tasks[t].pc.Granted? && s.tasks[t].pc.queued
    requires PendingFor(s, s.tasks[t].kind) > 0
    ensures RunFrom(env, s, ls) == Some(s') && OwnMoves(ls, t) && InRange(env, s')
    ensures s'.ups == s.ups && s'.clock == s.clock
    ensures Became(s, s', t, s.tasks[t].(pc := Holding(s.tasks[t].pc.i)), -1,
                   s.stats.(dispatched := s.stats.dispatched + 1))
  {
    var a, s1, e1 := QuietMove(env, s, t, false);
    var b, s2, e2 := QuietMove(env, s1, t, false);
    ThenRun(env, s, t, a, s1, b, s2);
    BecameTwice(s, s1, s2, t, MovedTask(s.tasks[t], e1), s2.tasks[t], 0, -1, s1.stats, s2.stats);
    ls, s' := a + b, s2;
  }

  /** Nobody admitted: past the deadline the call is counted and gives its wait slot back, before it it sleeps. */
  lemma Deadline(env: Env, s: Sys, t: nat, expired: bool) returns (ls: seq<Label>, s': Sys)
    requires InRange(env, s) && t < |s.tasks| && s.tasks[t].pc.AtDeadline? && PendingFor(s, s.tasks[t].kind) > 0
    ensures RunFrom(env, s, ls) == Some(s') && OwnMoves(ls, t) && InRange(env, s')
    ensures s'.ups == s.ups && s'.clock == s.clock
    ensures if expired
            then Became(s, s', t, s.tasks[t].(pc := Finished(Rejected)), -1, s.stats.(rejected := s.stats.rejected + 1))
            else Became(s, s', t, s.tasks[t].(pc := Sleeping), 0, s.stats)
  {
    var e1: Effect;
    ls, s', e1 := QuietMove(env, s, t, expired);
    if expired {
      var s1 := s';
      var b, s2, e2 := QuietMove(env, s1, t, false);
      var c, s3, e3 := QuietMove(env, s2, t, false);
      ThenRun(env, s, t, ls, s1, b, s2);
      ThenRun(env, s, t, ls + b, s2, c, s3);
      BecameTwice(s, s1, s2, t, s1.tasks[t], s2.tasks[t], 0, 0, s1.stats, s2.stats);
      BecameTwice(s, s2, s3, t, s2.tasks[t], s3.tasks[t], 0, -1, s2.stats, s3.stats);
      ls, s' := ls + b + c, s3;
    }
  }

  /** A task that waits to scan, or slept, starts its scan; the first time it is counted as having waited. */
  lemma StartsScan(env: Env, s: Sys, t: nat) returns (ls: seq<Label>, s': Sys)
    requires InRange(env, s) && t < |s.tasks| && (s.tasks[t].pc.CountWait? || s.tasks[t].pc.Sleeping?)
    ensures RunFrom(env, s, ls) == Some(s') && OwnMoves(ls, t) && InRange(env, s')
    ensures s'.ups == s.ups && s'.clock == s.clock
    ensures var counts := s.tasks[t].pc.CountWait?;
      Became(s, s', t, s.tasks[t].(pc := Check(true, 0), waited := s.tasks[t].waited || counts), 0,
             s.stats.(waited := s.stats.waited + Flag(counts)))
  {
    var e: Effect;
    ls, s', e := QuietMove(env, s, t, false);
  }

  /** Where a turn of the retry loop leads. */
  function TurnPc(k: nat, n: nat, expired: bool): Pc {
    if k < n then Holding(k) else if expired then Finished(Rejected) else Sleeping
  }

  function TurnStats(st: Stats, counts: bool, k: nat, n: nat, expired: bool): Stats {
    st.(waited := st.waited + Flag(counts), dispatched := st.dispatched + Flag(k < n),
        rejected := st.rejected + Flag(k >= n && expired))
  }

  /**
   A task that has joined the queue, or has slept, scans again: it is served by the first upstream that admits, and else
   rejected past the deadline or asleep before it.
   */
  lemma RetryTurn(env: Env, s: Sys, t: nat, ours: seq<UpstreamState>, turn: Turn) returns (ls: seq<Label>, s': Sys)
    requires InRange(env, s) && t < |s.tasks| && (s.tasks[t].pc.CountWait? || s.tasks[t].pc.Sleeping?)
    requires Shown(s, ours) && PendingFor(s, s.tasks[t].kind) > 0
    requires var list := s.tasks[t].ups; Fits(env, list, turn) && Distinct(list) && OnTime(env, s.clock, list, turn)
    ensures RunFrom(env, s, ls) == Some(s') && OwnMoves(ls, t) && InRange(env, s')
    ensures s'.clock <= turn.nows[|turn.nows| - 1]
    ensures var list, counts := s.tasks[t].ups, s.tasks[t].pc.CountWait?; var k := ScanPosition(env, list, ours, turn);
      && Became(s, s', t, s.tasks[t].(pc := TurnPc(k, |list|, turn.expired), waited := s.tasks[t].waited || counts),
                if k < |list| || turn.expired then -1 else 0, TurnStats(s.stats, counts, k, |list|, turn.expired))
      && Shown(s', ScanLeaves(env, list, ours, turn))
  {
    var a, s1 := StartsScan(env, s, t);
    var b, s2 := WholeScan(env, s1, t, ours, turn);
    ThenRun(env, s, t, a, s1, b, s2);
    BecameTwice(s, s1, s2, t, s1.tasks[t], s2.tasks[t], 0, 0, s1.stats, s2.stats);
    var c: seq<Label>;
    if s2.tasks[t].pc.Granted? {
      c, s' := Depart(env, s2, t);
      BecameTwice(s, s2, s', t, s2.tasks[t], s'.tasks[t], 0, -1, s2.stats, s'.stats);
    } else {
      c, s' := Deadline(env, s2, t, turn.expired);
      BecameTwice(s, s2, s', t, s2.tasks[t], s'.tasks[t], 0, if turn.expired then -1 else 0, s2.stats, s'.stats);
    }
    ThenRun(env, s, t, a + b, s2, c, s');
    ls := a + b + c;
  }

  // ---- The whole call ----

  /** Each turn's readings are in order, and none is before those of the turns before it. */
  ghost predicate Chronological(env: Env, clock: real, list: seq<nat>, turns: seq<Turn>)
    decreases |turns|
  {
    turns == [] ||
    (&& Fits(env, list, turns[0]) && OnTime(env, clock, list, turns[0])
     && (list != [] ==> Chronological(env, turns[0].nows[|turns[0].nows| - 1], list, turns[1..])))
  }

  lemma {:induction false} LaterIsFine(env: Env, clock: real, earlier: real, list: seq<nat>, turns: seq<Turn>)
    requires Chronological(env, clock, list, turns) && earlier <= clock
    ensures Chronological(env, earlier, list, turns)
  {
  }

  lemma {:induction false} TurnsFit(env: Env, clock: real, list: seq<nat>, turns: seq<Turn>)
    requires Chronological(env, clock, list, turns) && list != []
    ensures forall turn :: turn in turns ==> Fits(env, list, turn)
    decreases |turns|
  {
    if turns != [] {
      TurnsFit(env, turns[0].nows[|turns[0].nows| - 1], list, turns[1..]);
    }
  }

  function EndPc(outcome: Outcome): Pc { if outcome.Served? then Holding(outcome.i) else Finished(outcome) }

  /** What a call that ended, or is asleep, has added to the statistics. */
  function EndStats(st: Stats, waited: bool, ending: Ending): Stats {
    var st' := st.(waited := st.waited + Flag(waited));
    match ending
    case Asleep(_) => st'
    case Ended(Served(_), _) => st'.(dispatched := st.dispatched + 1)
    case Ended(Rejected, _) => st'.(rejected := st.rejected + 1)
    case Ended(NoUpstream, _) => st'.(noUpstream := st.noUpstream + 1)
  }

  /** `s'` follows `s` by the retry loop over `turns`. */
  ghost predicate Retried(env: Env, s: Sys, t: nat, ours: seq<UpstreamState>, turns: seq<Turn>, s': Sys)
    requires t < |s.tasks| && |ours| == |env.cfgs| && forall turn :: turn in turns ==> Fits(env, s.tasks[t].ups, turn)
  {
    var task, counts := s.tasks[t], s.tasks[t].pc.CountWait? && turns != [];
    var ending := Retry(env, task.ups, ours, turns);
    var pc := if ending.Ended? then EndPc(ending.outcome) else if turns == [] then task.pc else Sleeping;
    && Became(s, s', t, task.(pc := pc, waited := task.waited || counts), if ending.Ended? then -1 else 0,
              EndStats(s.stats, counts, ending))
    && Shown(s', ending.ups)
  }

  /** `s'` follows `s` by one turn. */
  ghost predicate Turned(env: Env, s: Sys, t: nat, ours: seq<UpstreamState>, turn: Turn, s': Sys)
    requires t < |s.tasks| && |ours| == |env.cfgs| && Fits(env, s.tasks[t].ups, turn)
  {
    var list, counts := s.tasks[t].ups, s.tasks[t].pc.CountWait?;
    var k := ScanPosition(env, list, ours, turn);
    && Became(s, s', t, s.tasks[t].(pc := TurnPc(k, |list|, turn.expired), waited := s.tasks[t].waited || counts),
              if k < |list| || turn.expired then -1 else 0, TurnStats(s.stats, counts, k, |list|, turn.expired))
    && Shown(s', ScanLeaves(env, list, ours, turn))
  }

  lemma LastTurn(env: Env, s: Sys, t: nat, ours: seq<UpstreamState>, turns: seq<Turn>, s': Sys)
    requires t < |s.tasks| && |ours| == |env.cfgs| && forall turn :: turn in turns ==> Fits(env, s.tasks[t].ups, turn)
    requires turns != [] && Turned(env, s, t, ours, turns[0], s') && !s'.tasks[t].pc.Sleeping?
    ensures Retried(env, s, t, ours, turns, s')
  {
  }

  lemma AnotherTurn(env: Env, s: Sys, t: nat, ours: seq<UpstreamState>, turns: seq<Turn>, s1: Sys, s': Sys)
    requires t < |s.tasks| && |ours| == |env.cfgs| && forall turn :: turn in turns ==> Fits(env, s.tasks[t].ups, turn)
    requires turns != [] && Turned(env, s, t, ours, turns[0], s1) && s1.tasks[t].pc.Sleeping?
    requires Retried(env, s1, t, ScanLeaves(env, s.tasks[t].ups, ours, turns[0]), turns[1..], s')
    ensures Retried(env, s, t, ours, turns, s')
  {
    var left := ScanLeaves(env, s.tasks[t].ups, ours, turns[0]);
    var n := if Retry(env, s.tasks[t].ups, left, turns[1..]).Ended? then -1 else 0;
    BecameTwice(s, s1, s', t, s1.tasks[t], s'.tasks[t], 0, n, s1.stats, s'.stats);
  }

  /** Any number of turns of the retry loop. */
  lemma {:induction false} RetryTurns(env: Env, s: Sys, t: nat, ours: seq<UpstreamState>, turns: seq<Turn>)
      returns (ls: seq<Label>, s': Sys)
    requires InRange(env, s) && t < |s.tasks| && (s.tasks[t].pc.CountWait? || s.tasks[t].pc.Sleeping?)
    requires Shown(s, ours) && PendingFor(s, s.tasks[t].kind) > 0 && Distinct(s.tasks[t].ups)
    requires Chronological(env, s.clock, s.tasks[t].ups, turns)
    requires forall turn :: turn in turns ==> Fits(env, s.tasks[t].ups, turn)
    ensures RunFrom(env, s, ls) == Some(s') && OwnMoves(ls, t) && InRange(env, s')
    ensures Retried(env, s, t, ours, turns, s')
    decreases |turns|
  {
    ls, s' := [], s;
    if turns != [] {
      var list, turn := s.tasks[t].ups, turns[0];
      var a, s1 := RetryTurn(env, s, t, ours, turn);
      if s1.tasks[t].pc.Sleeping? {
        LaterIsFine(env, turn.nows[|turn.nows| - 1], s1.clock, list, turns[1..]);
        var b, s2 := RetryTurns(env, s1, t, ScanLeaves(env, list, ours, turn), turns[1..]);
        ThenRun(env, s, t, a, s1, b, s2);
        AnotherTurn(env, s, t, ours, turns, s1, s2);
        ls, s' := a + b, s2;
      } else {
        LastTurn(env, s, t, ours, turns, s1);
        ls, s' := a, s1;
      }
    }
  }

  /** The queue of the kind has no room. */
  ghost predicate Full(env: Env, s: Sys, kind: ProviderKind) {
    env.maxQueue > 0 && PendingFor(s, kind) >= env.maxQueue
  }

  /** `s'` follows `s`, where task `t` has just arrived, by the whole call. */
  ghost predicate Called(env: Env, s: Sys, t: nat, ours: seq<UpstreamState>, first: Turn, turns: seq<Turn>, s': Sys)
    requires t < |s.tasks| && |ours| == |env.cfgs| && Fits(env, s.tasks[t].ups, first)
    requires forall turn :: turn in turns ==> Fits(env, s.tasks[t].ups, turn)
  {
    var task := s.tasks[t];
    var full := Full(env, s, task.kind);
    var k := ScanPosition(env, task.ups, ours, first);
    var waits := task.ups != [] && k == |task.ups| && !full;
    var ending := Acquire(env, task.ups, ours, full, first, turns);
    var pc := if ending.Ended? then EndPc(ending.outcome) else if turns == [] then CountWait else Sleeping;
    && Became(s, s', t, task.(pc := pc, waited := task.waited || (waits && turns != [])),
              if ending.Ended? then 0 else 1, EndStats(s.stats, waits && turns != [], ending))
    && Shown(s', ending.ups)
  }

  /** `s1` follows `s`, where task `t` has just arrived, by the first scan and the decision after it. */
  ghost predicate Tried(env: Env, s: Sys, t: nat, ours: seq<UpstreamState>, first: Turn, s1: Sys)
    requires t < |s.tasks| && |ours| == |env.cfgs| && Fits(env, s.tasks[t].ups, first)
  {
    var task := s.tasks[t];
    var k, full := ScanPosition(env, task.ups, ours, first), Full(env, s, task.kind);
    var pc := if k < |task.ups| then Holding(k) else if full then Finished(Rejected) else CountWait;
    && Became(s, s1, t, task.(pc := pc), Flag(pc == CountWait),
              s.stats.(dispatched := s.stats.dispatched + Flag(pc.Holding?),
                       rejected := s.stats.rejected + Flag(pc.Finished?)))
    && Shown(s1, ScanLeaves(env, task.ups, ours, first))
  }

  lemma FirstTry(env: Env, s: Sys, t: nat, ours: seq<UpstreamState>, first: Turn) returns (ls: seq<Label>, s1: Sys)
    requires InRange(env, s) && t < |s.tasks| && s.tasks[t].pc.Enter? && Shown(s, ours) && s.tasks[t].ups != []
    requires var list := s.tasks[t].ups; Fits(env, list, first) && Distinct(list) && OnTime(env, s.clock, list, first)
    ensures RunFrom(env, s, ls) == Some(s1) && OwnMoves(ls, t) && InRange(env, s1)
    ensures s1.clock <= first.nows[|first.nows| - 1] && Tried(env, s, t, ours, first, s1)
  {
    var a, p, e := QuietMove(env, s, t, false);
    var b, q := WholeScan(env, p, t, ours, first);
    ThenRun(env, s, t, a, p, b, q);
    BecameTwice(s, p, q, t, p.tasks[t], q.tasks[t], 0, 0, p.stats, q.stats);
    var c: seq<Label>, d: Effect;
    c, s1, d := QuietMove(env, q, t, false);
    ThenRun(env, s, t, a + b, q, c, s1);
    BecameTwice(s, q, s1, t, q.tasks[t], s1.tasks[t], 0, Joined(d.queue), q.stats, s1.stats);
    ls := a + b + c;
  }

  lemma CalledAtOnce(env: Env, s: Sys, t: nat, ours: seq<UpstreamState>, first: Turn, turns: seq<Turn>, s1: Sys)
    requires t < |s.tasks| && |ours| == |env.cfgs| && Fits(env, s.tasks[t].ups, first) && s.tasks[t].ups != []
    requires forall turn :: turn in turns ==> Fits(env, s.tasks[t].ups, turn)
    requires Tried(env, s, t, ours, first, s1) && !s1.tasks[t].pc.CountWait?
    ensures Called(env, s, t, ours, first, turns, s1)
  {
  }

  lemma CalledAfterWait(env: Env, s: Sys, t: nat, ours: seq<UpstreamState>, first: Turn, turns: seq<Turn>, s1: Sys,
                        s': Sys)
    requires t < |s.tasks| && |ours| == |env.cfgs| && Fits(env, s.tasks[t].ups, first) && s.tasks[t].ups != []
    requires forall turn :: turn in turns ==> Fits(env, s.tasks[t].ups, turn)
    requires Tried(env, s, t, ours, first, s1) && s1.tasks[t].pc.CountWait?
    requires Retried(env, s1, t, ScanLeaves(env, s.tasks[t].ups, ours, first), turns, s')
    ensures Called(env, s, t, ours, first, turns, s')
  {
    var left := ScanLeaves(env, s.tasks[t].ups, ours, first);
    var n := if Retry(env, s.tasks[t].ups, left, turns).Ended? then -1 else 0;
    BecameTwice(s, s1, s', t, s1.tasks[t], s'.tasks[t], 1, n, s1.stats, s'.stats);
  }

  /**
   A call no other task disturbs ends as the sequential call does: with the same outcome, the same upstreams, one more
   in the same statistics, and the wait slot given back; or it is still waiting, holding one.
   */
  lemma UndisturbedAcquire(env: Env, s: Sys, t: nat, ours: seq<UpstreamState>, first: Turn, turns: seq<Turn>)
      returns (ls: seq<Label>, s': Sys)
    requires InRange(env, s) && t < |s.tasks| && s.tasks[t].pc.Enter? && Shown(s, ours) && Distinct(s.tasks[t].ups)
    requires Chronological(env, s.clock, s.tasks[t].ups, [first] + turns)
    requires Fits(env, s.tasks[t].ups, first) && forall turn :: turn in turns ==> Fits(env, s.tasks[t].ups, turn)
    ensures RunFrom(env, s, ls) == Some(s') && OwnMoves(ls, t) && InRange(env, s')
    ensures Called(env, s, t, ours, first, turns, s')
  {
    if s.tasks[t].ups == [] {
      var e: Effect;
      ls, s', e := QuietMove(env, s, t, false);
    } else {
      assert ([first] + turns)[1..] == turns;
      var a, s1 := FirstTry(env, s, t, ours, first);
      if s1.tasks[t].pc.CountWait? {
        var list := s.tasks[t].ups;
        LaterIsFine(env, first.nows[|first.nows| - 1], s1.clock, list, turns);
        var b, s2 := RetryTurns(env, s1, t, ScanLeaves(env, list, ours, first), turns);
        ThenRun(env, s, t, a, s1, b, s2);
        CalledAfterWait(env, s, t, ours, first, turns, s1, s2);
        ls, s' := a + b, s2;
      } else {
        CalledAtOnce(env, s, t, ours, first, turns, s1);
        ls, s' := a, s1;
      }
    }
  }

  /** The release of a call leaves its upstream as `Upstream.Release` does and nothing else changed. */
  lemma UndisturbedRelease(env: Env, s: Sys, l: Label, us: UpstreamState) returns (s': Sys)
    requires InRange(env, s) && l.Move? && l.t < |s.tasks| && s.tasks[l.t].pc.Holding?
    requires Shows(s.ups[s.tasks[l.t].ups[s.tasks[l.t].pc.i]], us)
    ensures Step(env, s, l) == Some(s')
    ensures var i := s.tasks[l.t].pc.i; var u := s.tasks[l.t].ups[i];
      && u < |s'.ups| && Touches(s, s', l.t, Finished(Served(i)), u, s'.ups[u])
      && Shows(s'.ups[u], AfterRelease(env.cfgs[u], us))
  {
    var e := Decide(env, s, s.tasks[l.t], l.gate, l.now, l.expired).value;
    s' := Step(env, s, l).value;
    var u := s.tasks[l.t].ups[s.tasks[l.t].pc.i];
    forall v | 0 <= v < |s.ups| && v != u ensures s'.ups[v] == s.ups[v] {
      assert s'.ups[v] == MovedBucket(env, MovedSlot(s.ups[v], v, e.slot), v, e.bucket);
    }
    assert s'.ups[u] == MovedBucket(env, MovedSlot(s.ups[u], u, e.slot), u, e.bucket);
  }

  /**
   From every reachable state, a waiter about to scan or asleep on a list in which some upstream would admit is served
   by the first such upstream as soon as it moves undisturbed.
   */
  lemma WaiterIsServed(env: Env, run: seq<Label>, s: Sys, t: nat, ours: seq<UpstreamState>, turn: Turn)
      returns (ls: seq<Label>, s': Sys, k: nat)
    requires env.Valid() && Reaches(env, run, s) && InRange(env, s) && t < |s.tasks|
    requires (s.tasks[t].pc.CountWait? || s.tasks[t].pc.Sleeping?) && Shown(s, ours)
    requires var list := s.tasks[t].ups; Fits(env, list, turn) && Distinct(list) && OnTime(env, s.clock, list, turn)
    requires exists j :: 0 <= j < |s.tasks[t].ups| && AdmitsAt(env, s.tasks[t].ups, Found(ours, turn), j)
    ensures RunFrom(env, s, ls) == Some(s') && OwnMoves(ls, t) && t < |s'.tasks| && s'.tasks[t].pc == Holding(k)
    ensures var list, v := s.tasks[t].ups, Found(ours, turn);
      k < |list| && AdmitsAt(env, list, v, k) && forall j :: 0 <= j < k ==> !AdmitsAt(env, list, v, j)
  {
    ReachableStatesConserve(env, run, s);
    CountBounds(Test(Queued(s.tasks[t].kind)), s.tasks, t);
    ls, s' := RetryTurn(env, s, t, ours, turn);
    k := ScanPosition(env, s.tasks[t].ups, ours, turn);
  }
}
