/**
 What a task has tried, over whole interleaved runs: which positions of its list refused it since its present
 scan began. A task gives up, or sleeps, only after every upstream of its list has refused it in that scan, and it is
 served by the first that did not.
 */
module ScanHistory {
  import opened Prelude
  import opened TokenBucket
  import opened Upstreams
  import opened AdmissionProtocol

  /**
   The position at which a move turns its task away: the check finds the gate shut or the cap reached, the swap
   finds the cap reached, or the bucket has less than one token.
   */
  function RefusedAt(env: Env, s: Sys, l: Label): Option<nat>
    requires InRange(env, s) && l.Move? && l.t < |s.tasks|
  {
    var task := s.tasks[l.t];
    match task.pc
    case Check(_, i) =>
      var u := task.ups[i];
      if !l.gate || (env.cfgs[u].maxConcurrency > 0 && s.ups[u].inFlight >= env.cfgs[u].maxConcurrency) then Some(i)
      else None
    case Swap(_, i) =>
      var u := task.ups[i];
      if env.cfgs[u].maxConcurrency > 0 && s.ups[u].inFlight >= env.cfgs[u].maxConcurrency then Some(i) else None
    case Meter(_, i) =>
      var u := task.ups[i];
      if env.cfgs[u].rateLimitRpm > 0 && Refilled(env.cfgs[u].rateLimitRpm, s.ups[u].bucket, l.now) < 1.0 then Some(i)
      else None
    case _ => None
  }

  /** The task is about to begin a scan: on arrival, after joining the queue, and after each sleep. */
  predicate BeginsScan(pc: Pc) { pc.Enter? || pc.CountWait? || pc.Sleeping? }

  /** The positions that have refused task `t` since its present scan began. */
  ghost function RefusedInScan(env: Env, ls: seq<Label>, t: nat): set<nat>
    requires env.Valid()
  {
    if ls == [] then {}
    else
      var before, l := ls[..|ls| - 1], ls[|ls| - 1];
      var refused := RefusedInScan(env, before, t);
      match Exec(env, before)
      case None => {}
      case Some(p) =>
        if !InRange(env, p) || !l.Move? || l.t != t || t >= |p.tasks| then refused
        else if BeginsScan(p.tasks[t].pc) then {}
        else match RefusedAt(env, p, l)
          case Some(i) => refused + {i}
          case None => refused
  }

  /** The first `n` positions. */
  ghost function Before(n: nat): set<nat> { if n == 0 then {} else Before(n - 1) + {n - 1} }

  /** Where a task stands tells which positions have refused it. */
  ghost predicate Tells(task: Task, refused: set<nat>) {
    match task.pc
    case Check(_, i) => refused == Before(i)
    case Swap(_, i) => refused == Before(i)
    case Meter(_, i) => refused == Before(i)
    case RollBack(_, i) => refused == Before(i + 1)
    case Granted(_, i) => refused == Before(i)
    case Reserve => refused == Before(|task.ups|)
    case AtDeadline => refused == Before(|task.ups|)
    case Sleeping => refused == Before(|task.ups|)
    case CountWait => refused == Before(|task.ups|)
    case TimedOut => refused == Before(|task.ups|)
    case Leave(Served(i)) => refused == Before(i)
    case Holding(i) => refused == Before(i)
    case Finished(Served(i)) => refused == Before(i)
    case Leave(Rejected) => refused == Before(|task.ups|)
    case Finished(Rejected) => refused == Before(|task.ups|)
    case _ => true
  }

  lemma {:induction false} BeforeHolds(n: nat, i: nat)
    ensures i in Before(n) <==> i < n
  {
    if n > 0 {
      BeforeHolds(n - 1, i);
    }
  }

  lemma MoveTells(env: Env, s: Sys, l: Label, refused: set<nat>)
    requires InRange(env, s) && l.Move? && l.t < |s.tasks| && Tells(s.tasks[l.t], refused)
    requires Decide(env, s, s.tasks[l.t], l.gate, l.now, l.expired).Some?
    ensures var pc := s.tasks[l.t].pc;
      var refused' := if BeginsScan(pc) then {}
                      else if RefusedAt(env, s, l).Some? then refused + {RefusedAt(env, s, l).value} else refused;
      Tells(MovedTask(s.tasks[l.t], Decide(env, s, s.tasks[l.t], l.gate, l.now, l.expired).value), refused')
  {
  }

  /** In every interleaving each task's history is what its place in the protocol says. */
  lemma {:induction false} HistoryTells(env: Env, ls: seq<Label>, s: Sys, t: nat)
    requires env.Valid() && Reaches(env, ls, s) && t < |s.tasks|
    ensures Tells(s.tasks[t], RefusedInScan(env, ls, t))
  {
    if ls != [] {
      var before, l := ls[..|ls| - 1], ls[|ls| - 1];
      var p := Exec(env, before).value;
      if t < |p.tasks| {
        HistoryTells(env, before, p, t);
        if l.Move? && l.t == t {
          MoveTells(env, p, l, RefusedInScan(env, before, t));
        }
      }
    }
  }

  /**
   A task waits, sleeps, times out or is rejected only after every upstream of its list has refused it since it
   arrived, joined the queue or last slept.
   */
  lemma GivesUpOnlyRefused(env: Env, ls: seq<Label>, s: Sys, t: nat)
    requires env.Valid() && Reaches(env, ls, s) && t < |s.tasks|
    requires var pc := s.tasks[t].pc;
      pc in {Reserve, AtDeadline, Sleeping, TimedOut, Leave(Rejected), Finished(Rejected)}
    ensures forall i: nat :: i in RefusedInScan(env, ls, t) <==> i < |s.tasks[t].ups|
  {
    HistoryTells(env, ls, s, t);
    forall i: nat ensures i in RefusedInScan(env, ls, t) <==> i < |s.tasks[t].ups| {
      BeforeHolds(|s.tasks[t].ups|, i);
    }
  }

  /** A task is served by the first upstream of its list that has not refused it in the scan that served it. */
  lemma ServedByFirst(env: Env, ls: seq<Label>, s: Sys, t: nat, i: nat)
    requires env.Valid() && Reaches(env, ls, s) && t < |s.tasks|
    requires s.tasks[t].pc in {Leave(Served(i)), Holding(i), Finished(Served(i))}
    ensures forall j: nat :: j in RefusedInScan(env, ls, t) <==> j < i
  {
    HistoryTells(env, ls, s, t);
    forall j: nat ensures j in RefusedInScan(env, ls, t) <==> j < i {
      BeforeHolds(i, j);
    }
  }
}
