/**
 Admission under concurrency: many calls of `QueueManager::acquire`, each followed by one `release`,
 interleaved at the granularity of single atomic operations and critical sections.

 A task runs the scan of `try_acquire` (usability check, compare-and-swap on `in_flight`, bucket
 verdict, possible roll-back), then the bounded wait with its retries. The environment decides everything the
 protocol does not: whether the enabled flag, the pause flag, the health and the breaker let a check pass, when
 a sleeper wakes, and what the clock says. Every reachable state satisfies `Inv`.
 */
module AdmissionProtocol {
  import opened Prelude
  import opened TokenBucket
  import opened Upstreams

  /** The fixed upstream objects, their creation times, and the queue bound (zero: unbounded). */
  datatype Env = Env(cfgs: seq<UpstreamConfig>, created: seq<real>, maxQueue: nat) {
    predicate Valid() { |cfgs| == |created| }
  }

  datatype Outcome = Served(i: nat) | Rejected | NoUpstream

  /** Where a task stands; `i` is a position in its upstream list, `queued` tells the wait loop's scan. */
  datatype Pc =
    | Enter
    | Check(queued: bool, i: nat)
    | Swap(queued: bool, i: nat)
    | Meter(queued: bool, i: nat)
    | RollBack(queued: bool, i: nat)
    | Granted(queued: bool, i: nat)
    | Reserve
    | CountWait
    | AtDeadline
    | Sleeping
    | TimedOut
    | Leave(outcome: Outcome)
    | Holding(i: nat)
    | Finished(outcome: Outcome)

  /** `waited` is set once the task has added itself to `total_waited`. */
  datatype Task = Task(kind: ProviderKind, ups: seq<nat>, pc: Pc, waited: bool)

  /** `calls` records the clock readings of the bucket's critical section; no step looks at it. */
  datatype Up = Up(inFlight: uint32, bucket: BucketState, calls: seq<real>)

  datatype Stats = Stats(waited: nat, rejected: nat, noUpstream: nat, dispatched: nat)

  datatype Sys = Sys(ups: seq<Up>, pending: map<ProviderKind, nat>, stats: Stats, clock: real, tasks: seq<Task>)

  function PendingFor(s: Sys, kind: ProviderKind): nat {
    if kind in s.pending then s.pending[kind] else 0
  }

  function Init(env: Env): Sys
    requires env.Valid()
  {
    var ups := seq(|env.cfgs|, u requires 0 <= u < |env.cfgs| =>
      Up(0, Fresh(env.cfgs[u].rateLimitRpm, env.created[u]), []));
    Sys(ups, map[], Stats(0, 0, 0, 0), 0.0, [])
  }

  // ---- Steps ----

  /** `Move` carries the choices of the environment: check result, clock reading, deadline verdict. */
  datatype Label =
    | Call(kind: ProviderKind, list: seq<nat>)
    | Move(t: nat, gate: bool, now: real, expired: bool)

  predicate PcInRange(task: Task) {
    match task.pc
    case Check(_, i) => i < |task.ups|
    case Swap(_, i) => i < |task.ups|
    case Meter(_, i) => i < |task.ups|
    case RollBack(_, i) => i < |task.ups|
    case Granted(_, i) => i < |task.ups|
    case Holding(i) => i < |task.ups|
    case Leave(o) => o != NoUpstream && (o.Served? ==> o.i < |task.ups|)
    case Finished(o) => o.Served? ==> o.i < |task.ups|
    case _ => |task.ups| > 0 || task.pc == Enter
  }

  /** The task has not reached the point where it adds itself to `total_waited`. */
  predicate BeforeWait(pc: Pc) {
    match pc
    case Enter => true
    case Check(q, _) => !q
    case Swap(q, _) => !q
    case Meter(q, _) => !q
    case RollBack(q, _) => !q
    case Granted(q, _) => !q
    case Reserve => true
    case CountWait => true
    case _ => false
  }

  predicate TaskInRange(env: Env, task: Task) {
    && PcInRange(task)
    && (BeforeWait(task.pc) ==> !task.waited)
    && forall i :: 0 <= i < |task.ups| ==> task.ups[i] < |env.cfgs|
  }

  predicate InRange(env: Env, s: Sys) {
    && env.Valid()
    && |s.ups| == |env.cfgs|
    && forall t :: 0 <= t < |s.tasks| ==> TaskInRange(env, s.tasks[t])
  }

  /** Where a refused attempt at position `i` leads: the next upstream, or the end of the scan. */
  function NextPc(task: Task, queued: bool, i: nat): Pc {
    if i + 1 < |task.ups| then Check(queued, i + 1) else if queued then AtDeadline else Reserve
  }

  /** What one atomic operation does to the shared state: at most one slot, wait slot, statistic or bucket. */
  datatype SlotMove = KeepSlot | TakeSlot(u: nat) | FreeSlot(u: nat)

  datatype QueueMove = KeepQueue | JoinQueue | LeaveQueue

  datatype StatMove = NoStat | IncWaited | IncRejected | IncNoUpstream | IncDispatched

  datatype BucketMove = NoCall | CallBucket(u: nat, now: real)

  datatype Effect = Effect(pc: Pc, slot: SlotMove, queue: QueueMove, stat: StatMove, bucket: BucketMove)

  function Goto(pc: Pc): Effect { Effect(pc, KeepSlot, KeepQueue, NoStat, NoCall) }

  /** `release` and the roll-back give the slot back only when there is a cap. */
  function FreeIfCapped(env: Env, u: nat): SlotMove
    requires u < |env.cfgs|
  {
    if env.cfgs[u].Capped() then FreeSlot(u) else KeepSlot
  }

  /** The next atomic operation of a task, or `None` when the environment's choice is not possible. */
  function Decide(env: Env, s: Sys, task: Task, gate: bool, now: real, expired: bool): Option<Effect>
    requires InRange(env, s) && TaskInRange(env, task)
  {
    match task.pc
    case Enter =>
      if task.ups == [] then Some(Goto(Finished(NoUpstream)).(stat := IncNoUpstream))
      else Some(Goto(Check(false, 0)))
    case Check(q, i) =>
      var u := task.ups[i];
      Some(Goto(if gate && HasFreeSlot(env.cfgs[u], s.ups[u].inFlight) then Swap(q, i) else NextPc(task, q, i)))
    case Swap(q, i) =>
      var u := task.ups[i];
      if !env.cfgs[u].Capped() then Some(Goto(Meter(q, i)))
      else if s.ups[u].inFlight < env.cfgs[u].maxConcurrency then Some(Goto(Meter(q, i)).(slot := TakeSlot(u)))
      else Some(Goto(NextPc(task, q, i)))
    case Meter(q, i) =>
      var u := task.ups[i];
      if !env.cfgs[u].Metered() then Some(Goto(Granted(q, i)))
      else if now < s.clock || now < env.created[u] then None
      else
        var paid := Admits(env.cfgs[u].rateLimitRpm, s.ups[u].bucket, now);
        Some(Goto(if paid then Granted(q, i)
                  else if env.cfgs[u].Capped() then RollBack(q, i)
                  else NextPc(task, q, i)).(bucket := CallBucket(u, now)))
    case RollBack(q, i) => Some(Goto(NextPc(task, q, i)).(slot := FreeIfCapped(env, task.ups[i])))
    case Granted(q, i) => Some(Goto(if q then Leave(Served(i)) else Holding(i)).(stat := IncDispatched))
    case Reserve =>
      if env.maxQueue > 0 && PendingFor(s, task.kind) >= env.maxQueue then
        Some(Goto(Finished(Rejected)).(stat := IncRejected))
      else Some(Goto(CountWait).(queue := JoinQueue))
    case CountWait => Some(Goto(Check(true, 0)).(stat := IncWaited))
    case AtDeadline => Some(Goto(if expired then TimedOut else Sleeping))
    case Sleeping => Some(Goto(Check(true, 0)))
    case TimedOut => Some(Goto(Leave(Rejected)).(stat := IncRejected))
    case Leave(o) => Some(Goto(if o.Served? then Holding(o.i) else Finished(o)).(queue := LeaveQueue))
    case Holding(i) => Some(Goto(Finished(Served(i))).(slot := FreeIfCapped(env, task.ups[i])))
    case Finished(_) => None
  }

  function MovedTask(task: Task, e: Effect): Task {
    task.(pc := e.pc, waited := task.waited || e.stat == IncWaited)
  }

  function MovedSlot(up: Up, u: nat, m: SlotMove): Up {
    match m
    case KeepSlot => up
    case TakeSlot(v) => if u == v then up.(inFlight := Inc32(up.inFlight)) else up
    case FreeSlot(v) => if u == v then up.(inFlight := Dec32(up.inFlight)) else up
  }

  function MovedBucket(env: Env, up: Up, u: nat, m: BucketMove): Up
    requires u < |env.cfgs|
  {
    if m.CallBucket? && m.u == u then
      up.(bucket := Charged(env.cfgs[u].rateLimitRpm, up.bucket, m.now), calls := up.calls + [m.now])
    else up
  }

  function MovedPending(s: Sys, kind: ProviderKind, m: QueueMove): map<ProviderKind, nat> {
    var cur := PendingFor(s, kind);
    match m
    case KeepQueue => s.pending
    case JoinQueue => s.pending[kind := cur + 1]
    case LeaveQueue => s.pending[kind := if cur == 0 then 0 else cur - 1]
  }

  function MovedStats(st: Stats, m: StatMove): Stats {
    match m
    case NoStat => st
    case IncWaited => st.(waited := st.waited + 1)
    case IncRejected => st.(rejected := st.rejected + 1)
    case IncNoUpstream => st.(noUpstream := st.noUpstream + 1)
    case IncDispatched => st.(dispatched := st.dispatched + 1)
  }

  function Apply(env: Env, s: Sys, t: nat, e: Effect): (s': Sys)
    requires |s.ups| == |env.cfgs| && t < |s.tasks|
    ensures |s'.ups| == |s.ups|
  {
    Sys(seq(|s.ups|, u requires 0 <= u < |s.ups| => MovedBucket(env, MovedSlot(s.ups[u], u, e.slot), u, e.bucket)),
        MovedPending(s, s.tasks[t].kind, e.queue),
        MovedStats(s.stats, e.stat),
        if e.bucket.CallBucket? then e.bucket.now else s.clock,
        s.tasks[t := MovedTask(s.tasks[t], e)])
  }

  function Step(env: Env, s: Sys, l: Label): Option<Sys>
    requires InRange(env, s)
  {
    match l
    case Call(kind, list) =>
      if forall i :: 0 <= i < |list| ==> list[i] < |env.cfgs| then
        Some(s.(tasks := s.tasks + [Task(kind, list, Enter, false)]))
      else None
    case Move(t, gate, now, expired) =>
      if t >= |s.tasks| then None
      else match Decide(env, s, s.tasks[t], gate, now, expired)
        case None => None
        case Some(e) => Some(Apply(env, s, t, e))
  }

  // ---- Counting tasks ----

  datatype Class =
    | HasSlot(u: nat)
    | GrantedBy(u: nat)
    | Queued(kind: ProviderKind)
    | CountedWaited
    | CountedRejected
    | CountedNoUpstream
    | CountedDispatched
    | InProgress

  /** The position a task occupies a slot at: from a successful swap to the roll-back or the release. */
  function SlotAt(pc: Pc): Option<nat> {
    match pc
    case Meter(_, i) => Some(i)
    case RollBack(_, i) => Some(i)
    case Granted(_, i) => Some(i)
    case Leave(Served(i)) => Some(i)
    case Holding(i) => Some(i)
    case _ => None
  }

  /** The position whose bucket and cap let the task through. */
  function GrantedAt(pc: Pc): Option<nat> {
    match pc
    case Granted(_, i) => Some(i)
    case Leave(Served(i)) => Some(i)
    case Holding(i) => Some(i)
    case Finished(Served(i)) => Some(i)
    case _ => None
  }

  /** Between the reservation of a wait slot and its return. */
  predicate IsQueued(pc: Pc) {
    match pc
    case Check(q, _) => q
    case Swap(q, _) => q
    case Meter(q, _) => q
    case RollBack(q, _) => q
    case Granted(q, _) => q
    case CountWait => true
    case AtDeadline => true
    case Sleeping => true
    case TimedOut => true
    case Leave(_) => true
    case _ => false
  }

  /** The statistic the call has been added to, if any. */
  function CountedAs(pc: Pc): Option<Outcome> {
    match pc
    case Leave(o) => Some(o)
    case Holding(i) => Some(Served(i))
    case Finished(o) => Some(o)
    case _ => None
  }

  function Upstream(task: Task, at: Option<nat>): Option<nat> {
    if at.Some? && at.value < |task.ups| then Some(task.ups[at.value]) else None
  }

  predicate Among(c: Class, task: Task) {
    match c
    case HasSlot(u) => Upstream(task, SlotAt(task.pc)) == Some(u)
    case GrantedBy(u) => Upstream(task, GrantedAt(task.pc)) == Some(u)
    case Queued(kind) => task.kind == kind && IsQueued(task.pc)
    case CountedWaited => task.waited
    case CountedRejected => CountedAs(task.pc) == Some(Rejected)
    case CountedNoUpstream => CountedAs(task.pc) == Some(NoUpstream)
    case CountedDispatched => CountedAs(task.pc).Some? && CountedAs(task.pc).value.Served?
    case InProgress => CountedAs(task.pc) == None
  }

  function One(c: Class, task: Task): nat { Flag(Among(c, task)) }

  function Test(c: Class): Task -> bool { (task: Task) => Among(c, task) }

  function Count(c: Class, tasks: seq<Task>): nat { CountIf(Test(c), tasks) }

  /** Every call is in progress or counted in exactly one of three statistics. */
  lemma {:induction false} OutcomesPartition(tasks: seq<Task>)
    ensures |tasks| == Count(CountedDispatched, tasks) + Count(CountedRejected, tasks)
                     + Count(CountedNoUpstream, tasks) + Count(InProgress, tasks)
  {
    if tasks != [] {
      OutcomesPartition(tasks[..|tasks| - 1]);
    }
  }

  // ---- The invariant ----

  ghost predicate SlotsConserved(env: Env, s: Sys)
    requires InRange(env, s)
  {
    forall u :: 0 <= u < |env.cfgs| ==>
      if env.cfgs[u].Capped() then s.ups[u].inFlight == Count(HasSlot(u), s.tasks) <= env.cfgs[u].maxConcurrency
      else s.ups[u].inFlight == 0
  }

  ghost predicate QueueConserved(env: Env, s: Sys) {
    forall kind: ProviderKind ::
      && PendingFor(s, kind) == Count(Queued(kind), s.tasks)
      && (env.maxQueue > 0 ==> PendingFor(s, kind) <= env.maxQueue)
  }

  ghost predicate StatsConserved(s: Sys) {
    && s.stats.waited == Count(CountedWaited, s.tasks)
    && s.stats.rejected == Count(CountedRejected, s.tasks)
    && s.stats.noUpstream == Count(CountedNoUpstream, s.tasks)
    && s.stats.dispatched == Count(CountedDispatched, s.tasks)
    && |s.tasks| == s.stats.dispatched + s.stats.rejected + s.stats.noUpstream + Count(InProgress, s.tasks)
  }

  /** The bucket calls of one upstream form a run of its bucket, and each admission belongs to one task. */
  ghost predicate BucketRuns(env: Env, s: Sys, u: nat)
    requires InRange(env, s) && u < |env.cfgs|
  {
    var rpm, t0, up := env.cfgs[u].rateLimitRpm, env.created[u], s.ups[u];
    env.cfgs[u].Metered() ==>
      && IsRun(t0, up.calls)
      && (forall i :: 0 <= i < |up.calls| ==> up.calls[i] <= s.clock)
      && up.bucket == After(rpm, t0, up.calls, |up.calls|)
      && Admitted(rpm, t0, up.calls, 0, |up.calls|) == Count(GrantedBy(u), s.tasks)
  }

  ghost predicate TokensConserved(env: Env, s: Sys)
    requires InRange(env, s)
  {
    forall u :: 0 <= u < |env.cfgs| ==> BucketRuns(env, s, u)
  }

  ghost predicate Inv(env: Env, s: Sys) {
    && InRange(env, s)
    && SlotsConserved(env, s)
    && QueueConserved(env, s)
    && StatsConserved(s)
    && TokensConserved(env, s)
  }

  lemma InitInv(env: Env)
    requires env.Valid()
    ensures Inv(env, Init(env))
  {
  }

  // ---- Every operation is balanced ----

  ghost predicate BalancedSlot(env: Env, task: Task, e: Effect, u: nat)
    requires u < |env.cfgs|
  {
    env.cfgs[u].Capped() ==>
      One(HasSlot(u), MovedTask(task, e)) + Flag(e.slot == FreeSlot(u))
      == One(HasSlot(u), task) + Flag(e.slot == TakeSlot(u))
  }

  ghost predicate BalancedGrant(env: Env, s: Sys, task: Task, e: Effect, u: nat)
    requires InRange(env, s) && u < |env.cfgs|
  {
    env.cfgs[u].Metered() ==>
      One(GrantedBy(u), MovedTask(task, e))
      == One(GrantedBy(u), task)
         + Flag(e.bucket.CallBucket? && e.bucket.u == u
                && Admits(env.cfgs[u].rateLimitRpm, s.ups[u].bucket, e.bucket.now))
  }

  ghost predicate BalancedQueue(task: Task, e: Effect, kind: ProviderKind) {
    One(Queued(kind), MovedTask(task, e)) + Flag(kind == task.kind && e.queue.LeaveQueue?)
    == One(Queued(kind), task) + Flag(kind == task.kind && e.queue.JoinQueue?)
  }

  ghost predicate BalancedStats(task: Task, e: Effect) {
    var task' := MovedTask(task, e);
    && One(CountedWaited, task') == One(CountedWaited, task) + Flag(e.stat.IncWaited?)
    && One(CountedRejected, task') == One(CountedRejected, task) + Flag(e.stat.IncRejected?)
    && One(CountedNoUpstream, task') == One(CountedNoUpstream, task) + Flag(e.stat.IncNoUpstream?)
    && One(CountedDispatched, task') == One(CountedDispatched, task) + Flag(e.stat.IncDispatched?)
  }

  lemma DecisionKeepsPosition(env: Env, s: Sys, task: Task, gate: bool, now: real, expired: bool)
    requires InRange(env, s) && TaskInRange(env, task)
    ensures var e := Decide(env, s, task, gate, now, expired);
      e.Some? ==> PcInRange(MovedTask(task, e.value))
  {
  }

  lemma DecisionInRange(env: Env, s: Sys, task: Task, gate: bool, now: real, expired: bool)
    requires InRange(env, s) && TaskInRange(env, task)
    ensures var e := Decide(env, s, task, gate, now, expired);
      e.Some? ==> TaskInRange(env, MovedTask(task, e.value))
  {
    DecisionKeepsPosition(env, s, task, gate, now, expired);
  }

  lemma SlotsBalance(env: Env, s: Sys, task: Task, gate: bool, now: real, expired: bool, u: nat)
    requires InRange(env, s) && TaskInRange(env, task) && u < |env.cfgs|
    ensures var e := Decide(env, s, task, gate, now, expired);
      e.Some? ==> BalancedSlot(env, task, e.value, u)
  {
  }

  lemma GrantsBalance(env: Env, s: Sys, task: Task, gate: bool, now: real, expired: bool, u: nat)
    requires InRange(env, s) && TaskInRange(env, task) && u < |env.cfgs|
    ensures var e := Decide(env, s, task, gate, now, expired);
      e.Some? ==> BalancedGrant(env, s, task, e.value, u)
  {
  }

  lemma QueueBalances(env: Env, s: Sys, task: Task, gate: bool, now: real, expired: bool, kind: ProviderKind)
    requires InRange(env, s) && TaskInRange(env, task)
    ensures var e := Decide(env, s, task, gate, now, expired);
      e.Some? ==> BalancedQueue(task, e.value, kind)
  {
  }

  lemma StatsBalance(env: Env, s: Sys, task: Task, gate: bool, now: real, expired: bool)
    requires InRange(env, s) && TaskInRange(env, task)
    ensures var e := Decide(env, s, task, gate, now, expired);
      e.Some? ==> BalancedStats(task, e.value)
  {
  }

  /** Slots, wait slots and tokens are only moved under the protocol's guards. */
  lemma DecisionsGuarded(env: Env, s: Sys, task: Task, gate: bool, now: real, expired: bool)
    requires InRange(env, s) && TaskInRange(env, task)
    requires Decide(env, s, task, gate, now, expired).Some?
    ensures var e := Decide(env, s, task, gate, now, expired).value;
      && (e.slot.TakeSlot? ==>
            e.slot.u < |env.cfgs| && s.ups[e.slot.u].inFlight < env.cfgs[e.slot.u].maxConcurrency)
      && (e.slot.FreeSlot? ==> e.slot.u < |env.cfgs| && env.cfgs[e.slot.u].Capped())
      && (e.queue.JoinQueue? && env.maxQueue > 0 ==> PendingFor(s, task.kind) < env.maxQueue)
      && (e.bucket.CallBucket? ==>
            e.bucket.u < |env.cfgs| && env.created[e.bucket.u] <= e.bucket.now && s.clock <= e.bucket.now)
  {
  }

  // ---- Every step keeps the invariant ----

  lemma CountMoved(c: Class, s: Sys, t: nat, task': Task)
    requires t < |s.tasks|
    ensures Count(c, s.tasks[t := task']) == Count(c, s.tasks) - One(c, s.tasks[t]) + One(c, task')
    ensures Count(c, s.tasks) >= One(c, s.tasks[t])
  {
    CountUpdate(Test(c), s.tasks, t, task');
    CountBounds(Test(c), s.tasks, t);
  }

  lemma MoveKeepsSlots(env: Env, s: Sys, l: Label)
    requires Inv(env, s) && l.Move? && Step(env, s, l).Some? && InRange(env, Step(env, s, l).value)
    ensures SlotsConserved(env, Step(env, s, l).value)
  {
    var task := s.tasks[l.t];
    var e := Decide(env, s, task, l.gate, l.now, l.expired).value;
    var s' := Apply(env, s, l.t, e);
    DecisionsGuarded(env, s, task, l.gate, l.now, l.expired);
    forall u | 0 <= u < |env.cfgs|
      ensures if env.cfgs[u].Capped()
              then s'.ups[u].inFlight == Count(HasSlot(u), s'.tasks) <= env.cfgs[u].maxConcurrency
              else s'.ups[u].inFlight == 0
    {
      SlotsBalance(env, s, task, l.gate, l.now, l.expired, u);
      CountMoved(HasSlot(u), s, l.t, MovedTask(task, e));
      assert s'.ups[u].inFlight == MovedSlot(s.ups[u], u, e.slot).inFlight;
    }
  }

  lemma MoveKeepsQueue(env: Env, s: Sys, l: Label)
    requires Inv(env, s) && l.Move? && Step(env, s, l).Some?
    ensures QueueConserved(env, Step(env, s, l).value)
  {
    var task := s.tasks[l.t];
    var e := Decide(env, s, task, l.gate, l.now, l.expired).value;
    var s' := Apply(env, s, l.t, e);
    DecisionsGuarded(env, s, task, l.gate, l.now, l.expired);
    forall kind: ProviderKind
      ensures PendingFor(s', kind) == Count(Queued(kind), s'.tasks)
      ensures env.maxQueue > 0 ==> PendingFor(s', kind) <= env.maxQueue
    {
      QueueBalances(env, s, task, l.gate, l.now, l.expired, kind);
      CountMoved(Queued(kind), s, l.t, MovedTask(task, e));
    }
  }

  lemma MoveKeepsStats(env: Env, s: Sys, l: Label)
    requires Inv(env, s) && l.Move? && Step(env, s, l).Some?
    ensures StatsConserved(Step(env, s, l).value)
  {
    var task := s.tasks[l.t];
    var e := Decide(env, s, task, l.gate, l.now, l.expired).value;
    var task' := MovedTask(task, e);
    StatsBalance(env, s, task, l.gate, l.now, l.expired);
    CountMoved(CountedWaited, s, l.t, task');
    CountMoved(CountedRejected, s, l.t, task');
    CountMoved(CountedNoUpstream, s, l.t, task');
    CountMoved(CountedDispatched, s, l.t, task');
    OutcomesPartition(s.tasks[l.t := task']);
  }

  lemma {:induction false} AfterExtended(rpm: nat, t0: real, ts: seq<real>, now: real, n: nat)
    requires n <= |ts|
    ensures After(rpm, t0, ts + [now], n) == After(rpm, t0, ts, n)
    ensures Admitted(rpm, t0, ts + [now], 0, n) == Admitted(rpm, t0, ts, 0, n)
  {
    if n > 0 {
      AfterExtended(rpm, t0, ts, now, n - 1);
    }
  }

  lemma RunExtended(rpm: nat, t0: real, ts: seq<real>, now: real)
    requires IsRun(t0, ts) && t0 <= now && forall i :: 0 <= i < |ts| ==> ts[i] <= now
    ensures IsRun(t0, ts + [now])
    ensures var b := After(rpm, t0, ts, |ts|);
      && After(rpm, t0, ts + [now], |ts| + 1) == Charged(rpm, b, now)
      && Admitted(rpm, t0, ts + [now], 0, |ts| + 1) == Admitted(rpm, t0, ts, 0, |ts|) + Flag(Admits(rpm, b, now))
  {
    AfterExtended(rpm, t0, ts, now, |ts|);
  }

  /** The bucket of an upstream after a move, and the verdict if the move called it. */
  lemma BucketMoved(env: Env, s: Sys, up: Up, e: Effect, u: nat)
    requires u < |env.cfgs| && InRange(env, s) && BucketRuns(env, s, u) && env.cfgs[u].Metered() && up == s.ups[u]
    requires e.bucket.CallBucket? ==> env.created[u] <= e.bucket.now || e.bucket.u != u
    requires e.bucket.CallBucket? ==> s.clock <= e.bucket.now
    ensures var rpm, t0, up' := env.cfgs[u].rateLimitRpm, env.created[u], MovedBucket(env, up, u, e.bucket);
      && IsRun(t0, up'.calls)
      && (forall i :: 0 <= i < |up'.calls| ==> up'.calls[i] <= if e.bucket.CallBucket? then e.bucket.now else s.clock)
      && up'.bucket == After(rpm, t0, up'.calls, |up'.calls|)
      && Admitted(rpm, t0, up'.calls, 0, |up'.calls|) == Admitted(rpm, t0, up.calls, 0, |up.calls|)
           + Flag(e.bucket.CallBucket? && e.bucket.u == u && Admits(rpm, up.bucket, e.bucket.now))
  {
    if e.bucket.CallBucket? && e.bucket.u == u {
      RunExtended(env.cfgs[u].rateLimitRpm, env.created[u], up.calls, e.bucket.now);
    }
  }

  lemma MoveKeepsTokens(env: Env, s: Sys, l: Label, u: nat)
    requires Inv(env, s) && l.Move? && Step(env, s, l).Some? && InRange(env, Step(env, s, l).value)
    requires u < |env.cfgs|
    ensures BucketRuns(env, Step(env, s, l).value, u)
  {
    if env.cfgs[u].Metered() {
      var task := s.tasks[l.t];
      var e := Decide(env, s, task, l.gate, l.now, l.expired).value;
      DecisionsGuarded(env, s, task, l.gate, l.now, l.expired);
      GrantsBalance(env, s, task, l.gate, l.now, l.expired, u);
      CountMoved(GrantedBy(u), s, l.t, MovedTask(task, e));
      assert BucketRuns(env, s, u);
      BucketMoved(env, s, s.ups[u], e, u);
      SlotLeavesBucket(env, s.ups[u], e, u);
    }
  }

  lemma SlotLeavesBucket(env: Env, up: Up, e: Effect, u: nat)
    requires u < |env.cfgs|
    ensures var both := MovedBucket(env, MovedSlot(up, u, e.slot), u, e.bucket);
      var alone := MovedBucket(env, up, u, e.bucket);
      both.bucket == alone.bucket && both.calls == alone.calls
  {
  }

  lemma CallKeepsInv(env: Env, s: Sys, l: Label)
    requires Inv(env, s) && l.Call? && Step(env, s, l).Some?
    ensures Inv(env, Step(env, s, l).value)
  {
    var s' := Step(env, s, l).value;
    var x := Task(l.kind, l.list, Enter, false);
    forall c: Class ensures Count(c, s'.tasks) == Count(c, s.tasks) + One(c, x) {
      CountAppend(Test(c), s.tasks, x);
    }
    forall u | 0 <= u < |env.cfgs| ensures BucketRuns(env, s', u) {
      assert BucketRuns(env, s, u);
    }
  }

  lemma StepKeepsInv(env: Env, s: Sys, l: Label)
    requires Inv(env, s) && Step(env, s, l).Some?
    ensures Inv(env, Step(env, s, l).value)
  {
    if l.Call? {
      CallKeepsInv(env, s, l);
    } else {
      DecisionInRange(env, s, s.tasks[l.t], l.gate, l.now, l.expired);
      MoveKeepsSlots(env, s, l);
      MoveKeepsQueue(env, s, l);
      MoveKeepsStats(env, s, l);
      forall u | 0 <= u < |env.cfgs| ensures BucketRuns(env, Step(env, s, l).value, u) {
        MoveKeepsTokens(env, s, l, u);
      }
    }
  }

  // ---- Whole runs ----

  /** The state after the steps `ls`, if each was possible. */
  function Exec(env: Env, ls: seq<Label>): Option<Sys>
    requires env.Valid()
  {
    if ls == [] then Some(Init(env))
    else match Exec(env, ls[..|ls| - 1])
      case None => None
      case Some(p) => if InRange(env, p) then Step(env, p, ls[|ls| - 1]) else None
  }

  predicate Reaches(env: Env, ls: seq<Label>, s: Sys)
    requires env.Valid()
  {
    Exec(env, ls) == Some(s)
  }

  /** Slots, wait slots, statistics and tokens are conserved in every reachable state of every interleaving. */
  lemma {:induction false} ReachableStatesConserve(env: Env, ls: seq<Label>, s: Sys)
    requires env.Valid() && Reaches(env, ls, s)
    ensures Inv(env, s)
  {
    if ls == [] {
      InitInv(env);
    } else {
      var p := Exec(env, ls[..|ls| - 1]).value;
      ReachableStatesConserve(env, ls[..|ls| - 1], p);
      StepKeepsInv(env, p, ls[|ls| - 1]);
    }
  }

  /** Once every call has finished, all slots and wait slots are back and the outcomes add up. */
  lemma QuiescentIsClean(env: Env, ls: seq<Label>, s: Sys)
    requires env.Valid() && Reaches(env, ls, s)
    requires forall t :: 0 <= t < |s.tasks| ==> s.tasks[t].pc.Finished?
    ensures |s.ups| == |env.cfgs| && forall u :: 0 <= u < |s.ups| ==> s.ups[u].inFlight == 0
    ensures forall kind: ProviderKind :: PendingFor(s, kind) == 0
    ensures |s.tasks| == s.stats.dispatched + s.stats.rejected + s.stats.noUpstream
  {
    ReachableStatesConserve(env, ls, s);
    forall u | 0 <= u < |s.ups| ensures s.ups[u].inFlight == 0 {
      CountNone(Test(HasSlot(u)), s.tasks);
    }
    forall kind: ProviderKind ensures PendingFor(s, kind) == 0 {
      CountNone(Test(Queued(kind)), s.tasks);
    }
    CountNone(Test(InProgress), s.tasks);
  }

  /** No decrement in a reachable state ever wraps or saturates. */
  lemma DecrementsNeverUnderflow(env: Env, ls: seq<Label>, s: Sys, t: nat, gate: bool, now: real, expired: bool)
    requires env.Valid() && Reaches(env, ls, s) && InRange(env, s) && t < |s.tasks|
    requires Decide(env, s, s.tasks[t], gate, now, expired).Some?
    ensures var e := Decide(env, s, s.tasks[t], gate, now, expired).value;
      && (e.slot.FreeSlot? ==> e.slot.u < |s.ups| && s.ups[e.slot.u].inFlight > 0)
      && (e.queue.LeaveQueue? ==> PendingFor(s, s.tasks[t].kind) > 0)
  {
    ReachableStatesConserve(env, ls, s);
    var task := s.tasks[t];
    var e := Decide(env, s, task, gate, now, expired).value;
    DecisionsGuarded(env, s, task, gate, now, expired);
    if e.slot.FreeSlot? {
      SlotsBalance(env, s, task, gate, now, expired, e.slot.u);
      CountBounds(Test(HasSlot(e.slot.u)), s.tasks, t);
    }
    QueueBalances(env, s, task, gate, now, expired, task.kind);
    CountBounds(Test(Queued(task.kind)), s.tasks, t);
  }

  /** In every interleaving a bucket answers its calls exactly as `AdmitsExactly` says, in the order it took them. */
  lemma VerdictsAreExact(env: Env, ls: seq<Label>, s: Sys, u: nat, n: nat)
    requires env.Valid() && Reaches(env, ls, s) && InRange(env, s) && u < |env.cfgs| && env.cfgs[u].Metered()
    requires n < |s.ups[u].calls|
    ensures var rpm, t0, calls := env.cfgs[u].rateLimitRpm, env.created[u], s.ups[u].calls;
      Verdict(rpm, t0, calls, n) <==> forall k :: 0 <= k <= n ==> Fits(rpm, t0, calls, k, n)
  {
    ReachableStatesConserve(env, ls, s);
    assert BucketRuns(env, s, u);
    AdmitsExactly(env.cfgs[u].rateLimitRpm, env.created[u], s.ups[u].calls, n);
  }

  /** What one step adds to the calls of a bucket, it adds at the end and not before the clock. */
  lemma StepExtendsCalls(env: Env, s: Sys, l: Label, u: nat)
    requires InRange(env, s) && u < |env.cfgs| && Step(env, s, l).Some?
    ensures var s' := Step(env, s, l).value;
      && |s'.ups| == |s.ups| && s.clock <= s'.clock
      && |s.ups[u].calls| <= |s'.ups[u].calls| && s.ups[u].calls == s'.ups[u].calls[..|s.ups[u].calls|]
      && forall i :: |s.ups[u].calls| <= i < |s'.ups[u].calls| ==> s.clock <= s'.ups[u].calls[i]
  {
    if l.Move? {
      var e := Decide(env, s, s.tasks[l.t], l.gate, l.now, l.expired).value;
      DecisionsGuarded(env, s, s.tasks[l.t], l.gate, l.now, l.expired);
      SlotLeavesBucket(env, s.ups[u], e, u);
    }
  }

  lemma {:induction false} RunExtendsCalls(env: Env, ls: seq<Label>, n: nat, s0: Sys, s: Sys, u: nat)
    requires env.Valid() && n <= |ls| && Reaches(env, ls[..n], s0) && Reaches(env, ls, s) && u < |env.cfgs|
    ensures |s0.ups| == |s.ups| == |env.cfgs| && s0.clock <= s.clock
    ensures var m := |s0.ups[u].calls|;
      && m <= |s.ups[u].calls| && s0.ups[u].calls == s.ups[u].calls[..m]
      && forall i :: m <= i < |s.ups[u].calls| ==> s0.clock <= s.ups[u].calls[i]
    decreases |ls|
  {
    ReachableStatesConserve(env, ls, s);
    if n == |ls| {
      assert ls[..n] == ls;
    } else {
      var before := ls[..|ls| - 1];
      var p := Exec(env, before).value;
      assert before[..n] == ls[..n];
      RunExtendsCalls(env, before, n, s0, p, u);
      StepExtendsCalls(env, p, ls[|ls| - 1], u);
    }
  }

  /** The verdicts of a run do not depend on what follows it. */
  lemma {:induction false} PrefixAdmits(rpm: nat, t0: real, ts: seq<real>, m: nat, n: nat)
    requires n <= m <= |ts|
    ensures After(rpm, t0, ts[..m], n) == After(rpm, t0, ts, n)
    ensures Admitted(rpm, t0, ts[..m], 0, n) == Admitted(rpm, t0, ts, 0, n)
  {
    if n > 0 {
      PrefixAdmits(rpm, t0, ts, m, n - 1);
    }
  }

  /** The admissions among the calls after the first `m`, all of them between two instants. */
  lemma AdmittedBetween(rpm: nat, t0: real, ts: seq<real>, m: nat, since: real, until: real)
    requires IsRun(t0, ts) && m <= |ts| && since <= until
    requires forall i :: m <= i < |ts| ==> since <= ts[i] <= until
    ensures Admitted(rpm, t0, ts, 0, |ts|) as real - Admitted(rpm, t0, ts[..m], 0, m) as real
         <= rpm as real / 10.0 + Issued(rpm, until - since)
  {
    PrefixAdmits(rpm, t0, ts, m, m);
    AdmittedSplit(rpm, t0, ts, 0, m, |ts|);
    SuffixBound(rpm, t0, ts, m, since, until);
  }

  /** The calls an upstream has let through are the admissions of its bucket. */
  lemma GrantsAreAdmissions(env: Env, ls: seq<Label>, s: Sys, u: nat)
    requires env.Valid() && Reaches(env, ls, s) && u < |env.cfgs| && env.cfgs[u].Metered()
    ensures |s.ups| == |env.cfgs| && IsRun(env.created[u], s.ups[u].calls)
    ensures forall i :: 0 <= i < |s.ups[u].calls| ==> s.ups[u].calls[i] <= s.clock
    ensures Count(GrantedBy(u), s.tasks)
         == Admitted(env.cfgs[u].rateLimitRpm, env.created[u], s.ups[u].calls, 0, |s.ups[u].calls|)
  {
    ReachableStatesConserve(env, ls, s);
    assert BucketRuns(env, s, u);
  }

  /**
   Between any two states of any interleaving an upstream lets through no more calls than its burst and the rate for
   any stretch of time that holds its bucket's readings between them.
   */
  lemma GrantsBetween(env: Env, ls: seq<Label>, n: nat, s0: Sys, s: Sys, u: nat, since: real, until: real)
    requires env.Valid() && n <= |ls| && Reaches(env, ls[..n], s0) && Reaches(env, ls, s)
    requires u < |env.cfgs| && u < |s0.ups| && u < |s.ups| && env.cfgs[u].Metered() && since <= until
    requires forall i :: |s0.ups[u].calls| <= i < |s.ups[u].calls| ==> since <= s.ups[u].calls[i] <= until
    ensures Count(GrantedBy(u), s.tasks) as real - Count(GrantedBy(u), s0.tasks) as real
         <= env.cfgs[u].rateLimitRpm as real / 10.0 + Issued(env.cfgs[u].rateLimitRpm, until - since)
  {
    GrantsAreAdmissions(env, ls[..n], s0, u);
    GrantsAreAdmissions(env, ls, s, u);
    RunExtendsCalls(env, ls, n, s0, s, u);
    AdmittedBetween(env.cfgs[u].rateLimitRpm, env.created[u], s.ups[u].calls, |s0.ups[u].calls|, since, until);
  }

  /** The clock readings of the two states always enclose them. */
  lemma GrantsBetweenReadings(env: Env, ls: seq<Label>, n: nat, s0: Sys, s: Sys, u: nat)
    requires env.Valid() && n <= |ls| && Reaches(env, ls[..n], s0) && Reaches(env, ls, s)
    requires u < |env.cfgs| && env.cfgs[u].Metered()
    ensures Count(GrantedBy(u), s.tasks) as real - Count(GrantedBy(u), s0.tasks) as real
         <= env.cfgs[u].rateLimitRpm as real / 10.0 + Issued(env.cfgs[u].rateLimitRpm, s.clock - s0.clock)
  {
    GrantsAreAdmissions(env, ls, s, u);
    RunExtendsCalls(env, ls, n, s0, s, u);
    GrantsBetween(env, ls, n, s0, s, u, s0.clock, s.clock);
  }

  /**
   Whatever the interleaving, an upstream has let through no more calls than its burst and rate allow since
   it was created.
   */
  lemma GrantsWithinRate(env: Env, ls: seq<Label>, s: Sys, u: nat)
    requires env.Valid() && Reaches(env, ls, s) && u < |env.cfgs|
    requires env.cfgs[u].Metered() && env.created[u] <= s.clock
    ensures Count(GrantedBy(u), s.tasks) as real
         <= env.cfgs[u].rateLimitRpm as real / 10.0 + Issued(env.cfgs[u].rateLimitRpm, s.clock - env.created[u])
  {
    GrantsAreAdmissions(env, ls, s, u);
    RunBound(env.cfgs[u].rateLimitRpm, env.created[u], s.ups[u].calls, s.clock);
  }
}
