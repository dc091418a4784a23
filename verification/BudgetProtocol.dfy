/**
 The parallel cap and the budget of one key under concurrency: requests interleave at single atomic
 operations, budget resets may strike between any two of them.

 A request takes a parallel slot, loads the spend, runs, records its cost and gives the slot back. A budget
 refusal and an abandoned handler leave without giving it back. Streamed requests, whose cost is recorded by a
 detached watcher, are not part of this model.
 */
module BudgetProtocol {
  import opened Prelude
  import opened KeyGates

  /** The key's limits and the largest cost a request records, in thousandths of a dollar. */
  datatype Env = Env(lim: KeyLimits, maxCost: nat) {
    predicate Valid() { lim.maxParallel > 0 && lim.maxBudget.Some? }
  }

  datatype Pc = Entered | HasSlot | Running | Leaving | Done | RefusedNoSlot | Leaked

  datatype Sys = Sys(inFlight: uint32, spend: nat, tasks: seq<Pc>)

  datatype Choice = Proceed | Record(cost: real) | Fail | Abandon

  /** The spend of a key is reset, at a time of the environment's choosing, only if the key has a reset period. */
  datatype Label = Arrive | Move(t: nat, choice: Choice) | ResetSpend

  const INIT := Sys(0, 0, [])

  function At(s: Sys, t: nat, pc: Pc): Sys
    requires t < |s.tasks|
  {
    s.(tasks := s.tasks[t := pc])
  }

  function MoveTask(env: Env, s: Sys, t: nat, choice: Choice): Option<Sys>
    requires t < |s.tasks|
  {
    match (s.tasks[t], choice)
    case (Entered, Proceed) =>
      if HasParallelSlot(env.lim, s.inFlight) then Some(At(s.(inFlight := Inc32(s.inFlight)), t, HasSlot))
      else Some(At(s, t, RefusedNoSlot))
    case (HasSlot, Proceed) => Some(At(s, t, if WithinBudget(env.lim, s.spend) then Running else Leaked))
    case (Running, Record(cost)) =>
      if MilliUsd(cost) <= env.maxCost then Some(At(s.(spend := s.spend + MilliUsd(cost)), t, Leaving)) else None
    case (Running, Fail) => Some(At(s, t, Leaving))
    case (Running, Abandon) => Some(At(s, t, Leaked))
    case (Leaving, Proceed) => Some(At(s.(inFlight := Dec32(s.inFlight)), t, Done))
    case _ => None
  }

  function Step(env: Env, s: Sys, l: Label): Option<Sys> {
    match l
    case Arrive => Some(s.(tasks := s.tasks + [Entered]))
    case Move(t, choice) => if t < |s.tasks| then MoveTask(env, s, t, choice) else None
    case ResetSpend => if env.lim.budgetSeconds.Some? then Some(s.(spend := 0)) else None
  }

  // ---- Who holds what ----

  /** Gone without giving the slot back. */
  const LEAKED: Pc -> bool := (pc: Pc) => pc == Leaked

  /** Holding a slot, about to be checked against the budget. */
  const AT_BUDGET: Pc -> bool := (pc: Pc) => pc == HasSlot

  /** Past the budget check: such a request gives its slot back unless its handler is abandoned. */
  const PAST_BUDGET: Pc -> bool := (pc: Pc) => pc in {Running, Leaving}

  const OCCUPIES: Pc -> bool := (pc: Pc) => pc in {HasSlot, Running, Leaving, Leaked}

  /** Requests under way behind the parallel cap. */
  const OUTSTANDING: Pc -> bool := (pc: Pc) => pc in {HasSlot, Running, Leaving}

  /** Requests past the budget check that have not recorded their cost. */
  const EXPOSED: Pc -> bool := (pc: Pc) => pc == Running

  ghost predicate SlotsConserved(env: Env, s: Sys) {
    s.inFlight == CountIf(OCCUPIES, s.tasks) <= env.lim.maxParallel
  }

  /** The spend, and what the exposed requests may still add to it. */
  function Potential(env: Env, s: Sys): nat { s.spend + env.maxCost * CountIf(EXPOSED, s.tasks) }

  function Ceiling(env: Env): real
    requires env.Valid()
  {
    1000.0 * env.lim.maxBudget.value + (env.maxCost * env.lim.maxParallel) as real
  }

  ghost predicate SpendContained(env: Env, s: Sys)
    requires env.Valid()
  {
    Potential(env, s) == 0 || Potential(env, s) as real < Ceiling(env)
  }

  ghost predicate Inv(env: Env, s: Sys)
    requires env.Valid()
  {
    SlotsConserved(env, s) && SpendContained(env, s)
  }

  lemma ExposureBounded(env: Env, s: Sys)
    requires SlotsConserved(env, s)
    ensures CountIf(EXPOSED, s.tasks) <= env.lim.maxParallel
    ensures env.maxCost * CountIf(EXPOSED, s.tasks) <= env.maxCost * env.lim.maxParallel
  {
    CountMonotone(EXPOSED, OCCUPIES, s.tasks);
  }

  lemma CountsAfterMove(s: Sys, t: nat, pc: Pc)
    requires t < |s.tasks|
    ensures CountIf(OCCUPIES, s.tasks[t := pc])
         == CountIf(OCCUPIES, s.tasks) - Flag(OCCUPIES(s.tasks[t])) + Flag(OCCUPIES(pc))
    ensures CountIf(EXPOSED, s.tasks[t := pc])
         == CountIf(EXPOSED, s.tasks) - Flag(EXPOSED(s.tasks[t])) + Flag(EXPOSED(pc))
    ensures CountIf(OCCUPIES, s.tasks) >= Flag(OCCUPIES(s.tasks[t]))
    ensures CountIf(EXPOSED, s.tasks) >= Flag(EXPOSED(s.tasks[t]))
  {
    CountUpdate(OCCUPIES, s.tasks, t, pc);
    CountUpdate(EXPOSED, s.tasks, t, pc);
    CountBounds(OCCUPIES, s.tasks, t);
    CountBounds(EXPOSED, s.tasks, t);
  }

  lemma MoveKeepsSlots(env: Env, s: Sys, t: nat, choice: Choice)
    requires env.Valid() && Inv(env, s) && t < |s.tasks| && MoveTask(env, s, t, choice).Some?
    ensures SlotsConserved(env, MoveTask(env, s, t, choice).value)
  {
    CountsAfterMove(s, t, MoveTask(env, s, t, choice).value.tasks[t]);
  }

  /** Only a passed budget check raises the potential: recording trades exposure for spend. */
  lemma PotentialDoesNotGrow(env: Env, s: Sys, t: nat, choice: Choice)
    requires t < |s.tasks| && MoveTask(env, s, t, choice).Some?
    requires MoveTask(env, s, t, choice).value.tasks[t] != Running
    ensures Potential(env, MoveTask(env, s, t, choice).value) <= Potential(env, s)
  {
    var s' := MoveTask(env, s, t, choice).value;
    var before, after := CountIf(EXPOSED, s.tasks), CountIf(EXPOSED, s'.tasks);
    CountsAfterMove(s, t, s'.tasks[t]);
    if s.tasks[t] == Running {
      OneLess(env.maxCost, before, after);
    } else {
      assert after == before;
    }
  }

  lemma OneLess(c: nat, m: nat, n: nat)
    requires m == n + 1
    ensures c * m == c * n + c
  {
  }

  lemma ExposureUnderCeiling(budget: real, spend: nat, exposure: nat, most: nat)
    requires spend as real / 1000.0 < budget && exposure <= most
    ensures (spend + exposure) as real < 1000.0 * budget + most as real
  {
  }

  lemma PassedCheckIsContained(env: Env, s: Sys, t: nat, choice: Choice)
    requires env.Valid() && Inv(env, s) && t < |s.tasks| && MoveTask(env, s, t, choice).Some?
    requires MoveTask(env, s, t, choice).value.tasks[t] == Running
    ensures SpendContained(env, MoveTask(env, s, t, choice).value)
  {
    var s' := MoveTask(env, s, t, choice).value;
    MoveKeepsSlots(env, s, t, choice);
    ExposureBounded(env, s');
    var exposure, most := env.maxCost * CountIf(EXPOSED, s'.tasks), env.maxCost * env.lim.maxParallel;
    ExposureUnderCeiling(env.lim.maxBudget.value, s'.spend, exposure, most);
  }

  lemma MoveKeepsSpend(env: Env, s: Sys, t: nat, choice: Choice)
    requires env.Valid() && Inv(env, s) && t < |s.tasks| && MoveTask(env, s, t, choice).Some?
    ensures SpendContained(env, MoveTask(env, s, t, choice).value)
  {
    if MoveTask(env, s, t, choice).value.tasks[t] == Running {
      PassedCheckIsContained(env, s, t, choice);
    } else {
      PotentialDoesNotGrow(env, s, t, choice);
    }
  }

  lemma StepKeepsInv(env: Env, s: Sys, l: Label)
    requires env.Valid() && Inv(env, s) && Step(env, s, l).Some?
    ensures Inv(env, Step(env, s, l).value)
  {
    match l
    case Arrive =>
      CountAppend(OCCUPIES, s.tasks, Entered);
      CountAppend(EXPOSED, s.tasks, Entered);
    case Move(t, choice) =>
      MoveKeepsSlots(env, s, t, choice);
      MoveKeepsSpend(env, s, t, choice);
    case ResetSpend =>
  }

  // ---- Whole runs ----

  /** The state after the steps `ls`, if each was possible. */
  function Exec(env: Env, ls: seq<Label>): Option<Sys> {
    if ls == [] then Some(INIT)
    else match Exec(env, ls[..|ls| - 1])
      case None => None
      case Some(p) => Step(env, p, ls[|ls| - 1])
  }

  predicate Reaches(env: Env, ls: seq<Label>, s: Sys) { Exec(env, ls) == Some(s) }

  lemma {:induction false} ReachableInv(env: Env, ls: seq<Label>, s: Sys)
    requires env.Valid() && Reaches(env, ls, s)
    ensures Inv(env, s)
  {
    if ls != [] {
      var p := Exec(env, ls[..|ls| - 1]).value;
      ReachableInv(env, ls[..|ls| - 1], p);
      StepKeepsInv(env, p, ls[|ls| - 1]);
    }
  }

  /**
   In every interleaving of requests and resets the spend stays below the budget plus one largest cost for
   each parallel slot, and the requests under way never outnumber the slots counted, nor these the cap.
   */
  lemma OvershootIsBounded(env: Env, ls: seq<Label>, s: Sys)
    requires env.Valid() && Reaches(env, ls, s)
    ensures s.spend == 0 || s.spend as real < Ceiling(env)
    ensures CountIf(OUTSTANDING, s.tasks) <= s.inFlight <= env.lim.maxParallel
  {
    ReachableInv(env, ls, s);
    assert env.maxCost * CountIf(EXPOSED, s.tasks) >= 0;
    CountMonotone(OUTSTANDING, OCCUPIES, s.tasks);
  }

  // ---- Slots that never come back ----

  lemma {:induction false} OccupantsPartition(tasks: seq<Pc>)
    ensures CountIf(OCCUPIES, tasks) == CountIf(OUTSTANDING, tasks) + CountIf(LEAKED, tasks)
  {
    if tasks != [] {
      OccupantsPartition(tasks[..|tasks| - 1]);
    }
  }

  /**
   The slots counted are the requests under way and the leaked ones: they equal the requests under way exactly when
   no request was refused by the budget or abandoned.
   */
  lemma SlotsAreOutstandingIff(env: Env, ls: seq<Label>, s: Sys)
    requires env.Valid() && Reaches(env, ls, s)
    ensures s.inFlight == CountIf(OUTSTANDING, s.tasks) + CountIf(LEAKED, s.tasks)
    ensures CountIf(OUTSTANDING, s.tasks) == s.inFlight <==> Leaked !in s.tasks
  {
    ReachableInv(env, ls, s);
    OccupantsPartition(s.tasks);
    if Leaked in s.tasks {
      var t :| 0 <= t < |s.tasks| && s.tasks[t] == Leaked;
      CountBounds(LEAKED, s.tasks, t);
    } else {
      CountNone(LEAKED, s.tasks);
    }
  }

  /** The step is a budget refusal or an abandoned handler. */
  predicate Leaks(env: Env, s: Sys, l: Label) {
    && l.Move? && l.t < |s.tasks|
    && match s.tasks[l.t]
       case HasSlot => env.lim.maxBudget.Some? && s.spend as real / 1000.0 >= env.lim.maxBudget.value
       case Running => l.choice.Abandon?
       case _ => false
  }

  /** A step leaks a slot exactly if it is one of those, and no step takes a leak back. */
  lemma LeaksStay(env: Env, s: Sys, l: Label)
    requires Step(env, s, l).Some?
    ensures CountIf(LEAKED, Step(env, s, l).value.tasks) == CountIf(LEAKED, s.tasks) + Flag(Leaks(env, s, l))
  {
    match l
    case Arrive => CountAppend(LEAKED, s.tasks, Entered);
    case Move(t, choice) => CountUpdate(LEAKED, s.tasks, t, MoveTask(env, s, t, choice).value.tasks[t]);
    case ResetSpend =>
  }

  /** The state after the steps `ls` from `s`, if each was possible. */
  function RunFrom(env: Env, s: Sys, ls: seq<Label>): Option<Sys>
    decreases |ls|
  {
    if ls == [] then Some(s)
    else match Step(env, s, ls[0])
      case None => None
      case Some(p) => RunFrom(env, p, ls[1..])
  }

  /** Every parallel slot has leaked. */
  ghost predicate LockedOut(env: Env, s: Sys) {
    s.inFlight == CountIf(OCCUPIES, s.tasks) == CountIf(LEAKED, s.tasks) == env.lim.maxParallel
  }

  /** The request, if it has arrived, is not and will not be let through. */
  predicate TurnedAway(tasks: seq<Pc>, t: nat) { t < |tasks| ==> tasks[t] in {Entered, RefusedNoSlot} }

  lemma LockedOutStep(env: Env, s: Sys, l: Label, t: nat)
    requires env.Valid() && LockedOut(env, s) && Step(env, s, l).Some? && TurnedAway(s.tasks, t)
    ensures LockedOut(env, Step(env, s, l).value) && TurnedAway(Step(env, s, l).value.tasks, t)
  {
    OccupantsPartition(s.tasks);
    match l
    case Arrive =>
      CountAppend(LEAKED, s.tasks, Entered);
      CountAppend(OCCUPIES, s.tasks, Entered);
    case Move(m, choice) =>
      var pc := MoveTask(env, s, m, choice).value.tasks[m];
      CountUpdate(LEAKED, s.tasks, m, pc);
      CountUpdate(OCCUPIES, s.tasks, m, pc);
      CountBounds(OUTSTANDING, s.tasks, m);
    case ResetSpend =>
  }

  /**
   Once as many requests have leaked as there are parallel slots, no later request is ever let through, whatever
   happens and however often the spend is reset.
   */
  lemma {:induction false} LeaksLockOut(env: Env, s: Sys, ls: seq<Label>, t: nat)
    requires env.Valid() && LockedOut(env, s) && TurnedAway(s.tasks, t) && RunFrom(env, s, ls).Some?
    ensures LockedOut(env, RunFrom(env, s, ls).value) && TurnedAway(RunFrom(env, s, ls).value.tasks, t)
    decreases |ls|
  {
    if ls != [] {
      LockedOutStep(env, s, ls[0], t);
      LeaksLockOut(env, Step(env, s, ls[0]).value, ls[1..], t);
    }
  }

  // ---- When a later request can still get through ----

  lemma {:induction false} RunsCompose(env: Env, s: Sys, a: seq<Label>, b: seq<Label>)
    requires RunFrom(env, s, a).Some?
    ensures RunFrom(env, s, a + b) == RunFrom(env, RunFrom(env, s, a).value, b)
    decreases |a|
  {
    if a == [] {
      assert a + b == b;
    } else {
      RunsCompose(env, Step(env, s, a[0]).value, a[1..], b);
      assert (a + b)[1..] == a[1..] + b;
    }
  }

  lemma RunOfTwo(env: Env, s: Sys, l: Label, m: Label)
    requires Step(env, s, l).Some?
    ensures RunFrom(env, s, [l]) == Step(env, s, l)
    ensures RunFrom(env, s, [l, m]) == Step(env, Step(env, s, l).value, m)
  {
    var p := Step(env, s, l).value;
    assert [l][1..] == [] && [l, m][1..] == [m] && [m][1..] == [];
    assert RunFrom(env, p, []) == Some(p);
    assert Step(env, p, m).Some? ==> RunFrom(env, Step(env, p, m).value, []) == Step(env, p, m);
  }

  /** Some continuation puts a request that has yet to arrive where `pc` says. */
  ghost predicate LaterReaches(env: Env, s: Sys, pc: Pc) {
    exists ls: seq<Label>, t: nat :: GetsTo(env, s, pc, ls, t)
  }

  predicate GetsTo(env: Env, s: Sys, pc: Pc, ls: seq<Label>, t: nat) {
    var end := RunFrom(env, s, ls);
    end.Some? && |s.tasks| <= t < |end.value.tasks| && end.value.tasks[t] == pc
  }

  /** A later request can still get a parallel slot. */
  ghost predicate CanTakeSlot(env: Env, s: Sys) { LaterReaches(env, s, HasSlot) }

  /** A later request can still pass every gate. */
  ghost predicate CanServe(env: Env, s: Sys) { LaterReaches(env, s, Running) }

  /** A request can pass the budget check now, or once the spend has been reset. */
  predicate CanPass(env: Env, s: Sys)
    requires env.Valid()
  {
    env.lim.maxBudget.value > 0.0 && (env.lim.budgetSeconds.Some? || WithinBudget(env.lim, s.spend))
  }

  /** The steps that take a request at `HasSlot` past the budget: its own, after a reset if the spend asks for one. */
  function PassBudget(env: Env, s: Sys, t: nat): seq<Label> {
    (if WithinBudget(env.lim, s.spend) then [] else [ResetSpend]) + [Move(t, Proceed)]
  }

  lemma BudgetIsPassed(env: Env, s: Sys, t: nat)
    requires env.Valid() && CanPass(env, s) && t < |s.tasks| && s.tasks[t] == HasSlot
    ensures var spend := if WithinBudget(env.lim, s.spend) then s.spend else 0;
      RunFrom(env, s, PassBudget(env, s, t)) == Some(Sys(s.inFlight, spend, s.tasks[t := Running]))
  {
    RunOfTwo(env, s, if WithinBudget(env.lim, s.spend) then Move(t, Proceed) else ResetSpend, Move(t, Proceed));
  }

  /**
   A request under way that can still pass the budget, or has passed it, can be brought to its end, which frees its
   slot, without any further spend.
   */
  lemma {:induction false} SlotComesBack(env: Env, s: Sys, t: nat) returns (ls: seq<Label>)
    requires env.Valid() && t < |s.tasks| && s.inFlight > 0
    requires PAST_BUDGET(s.tasks[t]) || (s.tasks[t] == HasSlot && CanPass(env, s))
    ensures var end := RunFrom(env, s, ls);
      && end.Some? && |end.value.tasks| == |s.tasks| && end.value.inFlight == s.inFlight - 1
      && end.value.spend <= s.spend
    decreases match s.tasks[t] case HasSlot => 2 case Running => 1 case _ => 0
  {
    var first := match s.tasks[t]
      case HasSlot => PassBudget(env, s, t)
      case Running => [Move(t, Fail)]
      case _ => [Move(t, Proceed)];
    if s.tasks[t] == HasSlot {
      BudgetIsPassed(env, s, t);
    } else {
      RunOfTwo(env, s, first[0], Arrive);
    }
    ls := first;
    if s.tasks[t] != Leaving {
      var rest := SlotComesBack(env, RunFrom(env, s, first).value, t);
      RunsCompose(env, s, first, rest);
      ls := first + rest;
    }
  }

  /** A free slot goes to the next request, which passes the budget if any can. */
  lemma NextGetsIn(env: Env, s: Sys)
    requires env.Valid() && s.inFlight < env.lim.maxParallel
    ensures CanTakeSlot(env, s)
    ensures CanPass(env, s) ==> CanServe(env, s)
  {
    var t := |s.tasks|;
    var enter := [Arrive, Move(t, Proceed)];
    RunOfTwo(env, s, enter[0], enter[1]);
    assert GetsTo(env, s, HasSlot, enter, t);
    if CanPass(env, s) {
      var p := RunFrom(env, s, enter).value;
      BudgetIsPassed(env, p, t);
      RunsCompose(env, s, enter, PassBudget(env, p, t));
      assert GetsTo(env, s, Running, enter + PassBudget(env, p, t), t);
    }
  }

  lemma LaterFromHere(env: Env, s: Sys, ls: seq<Label>, pc: Pc)
    requires RunFrom(env, s, ls).Some? && |RunFrom(env, s, ls).value.tasks| >= |s.tasks|
    requires LaterReaches(env, RunFrom(env, s, ls).value, pc)
    ensures LaterReaches(env, s, pc)
  {
    var more: seq<Label>, t: nat :| GetsTo(env, RunFrom(env, s, ls).value, pc, more, t);
    RunsCompose(env, s, ls, more);
    assert GetsTo(env, s, pc, ls + more, t);
  }

  /** The request, if it has arrived, has not passed the budget check. */
  predicate NotPassed(tasks: seq<Pc>, t: nat) {
    t < |tasks| ==> tasks[t] in {Entered, HasSlot, RefusedNoSlot, Leaked}
  }

  /** A budget that cannot be passed stays so, and nobody passes it. */
  lemma {:induction false} RefusedForGood(env: Env, s: Sys, ls: seq<Label>, t: nat)
    requires env.Valid() && !CanPass(env, s) && NotPassed(s.tasks, t) && RunFrom(env, s, ls).Some?
    ensures NotPassed(RunFrom(env, s, ls).value.tasks, t)
    decreases |ls|
  {
    if ls != [] {
      RefusedForGood(env, Step(env, s, ls[0]).value, ls[1..], t);
    }
  }

  /** Every slot is taken, and none will be given back. */
  ghost predicate Stuck(env: Env, s: Sys)
    requires env.Valid()
  {
    !CanPass(env, s) && s.inFlight == env.lim.maxParallel && Running !in s.tasks && Leaving !in s.tasks
  }

  lemma {:induction false} StuckForGood(env: Env, s: Sys, ls: seq<Label>, t: nat)
    requires env.Valid() && Stuck(env, s) && TurnedAway(s.tasks, t) && RunFrom(env, s, ls).Some?
    ensures TurnedAway(RunFrom(env, s, ls).value.tasks, t)
    decreases |ls|
  {
    if ls != [] {
      var p := Step(env, s, ls[0]).value;
      if ls[0].Move? {
        assert p.tasks == s.tasks[ls[0].t := p.tasks[ls[0].t]];
      }
      StuckForGood(env, p, ls[1..], t);
    }
  }

  /** The slots that will never come back: the leaked ones, and those of requests the budget is going to refuse. */
  function Lost(env: Env, s: Sys): nat
    requires env.Valid()
  {
    CountIf(LEAKED, s.tasks) + if CanPass(env, s) then 0 else CountIf(AT_BUDGET, s.tasks)
  }

  lemma {:induction false} OutstandingPartition(tasks: seq<Pc>)
    ensures CountIf(OUTSTANDING, tasks) == CountIf(AT_BUDGET, tasks) + CountIf(PAST_BUDGET, tasks)
  {
    if tasks != [] {
      OutstandingPartition(tasks[..|tasks| - 1]);
    }
  }

  lemma CountedExists<T>(p: T -> bool, tasks: seq<T>) returns (t: nat)
    requires CountIf(p, tasks) > 0
    ensures t < |tasks| && p(tasks[t])
  {
    if forall i :: 0 <= i < |tasks| ==> !p(tasks[i]) {
      CountNone(p, tasks);
    }
    t :| t < |tasks| && p(tasks[t]);
  }

  /** As long as a slot is not lost, one is free or can be freed. */
  lemma SomeSlotIsLeft(env: Env, ls: seq<Label>, s: Sys)
    requires env.Valid() && Reaches(env, ls, s) && Lost(env, s) < env.lim.maxParallel
    ensures CanTakeSlot(env, s)
    ensures CanPass(env, s) ==> CanServe(env, s)
  {
    SlotsAreOutstandingIff(env, ls, s);
    OutstandingPartition(s.tasks);
    if s.inFlight < env.lim.maxParallel {
      NextGetsIn(env, s);
    } else {
      ReachableInv(env, ls, s);
      var t := CountedExists(if CanPass(env, s) then OUTSTANDING else PAST_BUDGET, s.tasks);
      var free := SlotComesBack(env, s, t);
      NextGetsIn(env, RunFrom(env, s, free).value);
      LaterFromHere(env, s, free, HasSlot);
      if CanPass(env, s) {
        LaterFromHere(env, s, free, Running);
      }
    }
  }

  lemma NoSlotIsLeft(env: Env, ls: seq<Label>, s: Sys)
    requires env.Valid() && Reaches(env, ls, s) && Lost(env, s) >= env.lim.maxParallel
    ensures !CanTakeSlot(env, s) && !CanServe(env, s)
  {
    ReachableInv(env, ls, s);
    SlotsAreOutstandingIff(env, ls, s);
    OutstandingPartition(s.tasks);
    LockedOutIff(env, ls, s);
    forall i | 0 <= i < |s.tasks| ensures !CanPass(env, s) ==> !PAST_BUDGET(s.tasks[i]) {
      CountBounds(PAST_BUDGET, s.tasks, i);
    }
    forall more: seq<Label>, t: nat
      ensures !GetsTo(env, s, HasSlot, more, t) && !GetsTo(env, s, Running, more, t)
    {
      if t >= |s.tasks| && RunFrom(env, s, more).Some? {
        if CanPass(env, s) {
          LeaksLockOut(env, s, more, t);
        } else {
          StuckForGood(env, s, more, t);
        }
      }
    }
  }

  lemma NobodyPasses(env: Env, s: Sys)
    requires env.Valid() && !CanPass(env, s)
    ensures !CanServe(env, s)
  {
    forall more: seq<Label>, t: nat ensures !GetsTo(env, s, Running, more, t) {
      if t >= |s.tasks| && RunFrom(env, s, more).Some? {
        RefusedForGood(env, s, more, t);
      }
    }
  }

  /**
   From a reachable state a later request can still pass every gate exactly when the budget can be passed, now or
   after a reset, and the leaks have not filled the cap; it can still take a slot exactly when the lost slots have not.
   */
  lemma ServiceIff(env: Env, ls: seq<Label>, s: Sys)
    requires env.Valid() && Reaches(env, ls, s)
    ensures CanServe(env, s) <==> CanPass(env, s) && CountIf(LEAKED, s.tasks) < env.lim.maxParallel
    ensures CanTakeSlot(env, s) <==> Lost(env, s) < env.lim.maxParallel
  {
    if Lost(env, s) < env.lim.maxParallel {
      SomeSlotIsLeft(env, ls, s);
    } else {
      NoSlotIsLeft(env, ls, s);
    }
    if !CanPass(env, s) {
      NobodyPasses(env, s);
    }
  }

  /** In reachable states every slot has leaked when the leaks fill the cap. */
  lemma LockedOutIff(env: Env, ls: seq<Label>, s: Sys)
    requires env.Valid() && Reaches(env, ls, s)
    ensures LockedOut(env, s) <==> CountIf(LEAKED, s.tasks) == env.lim.maxParallel
    ensures CountIf(LEAKED, s.tasks) <= env.lim.maxParallel
  {
    ReachableInv(env, ls, s);
    OccupantsPartition(s.tasks);
  }

  // ---- Runs that get there ----

  function Repeat(n: nat, pc: Pc): seq<Pc> { seq(n, _ => pc) }

  lemma Extend(env: Env, ls: seq<Label>, s: Sys, l: Label) returns (ls': seq<Label>, s': Sys)
    requires Reaches(env, ls, s) && Step(env, s, l).Some?
    ensures Reaches(env, ls', s') && Some(s') == Step(env, s, l) && ls' == ls + [l]
  {
    ls', s' := ls + [l], Step(env, s, l).value;
    assert ls'[..|ls'| - 1] == ls;
  }

  /** No handler of the run leaves without releasing. */
  ghost predicate NoneAbandoned(ls: seq<Label>) {
    forall i :: 0 <= i < |ls| ==> !(ls[i].Move? && ls[i].choice == Abandon)
  }

  /** A request arrives and takes a slot. */
  lemma Enter(env: Env, ls: seq<Label>, s: Sys) returns (ls': seq<Label>, s': Sys)
    requires env.Valid() && Reaches(env, ls, s) && s.inFlight < env.lim.maxParallel
    ensures Reaches(env, ls', s') && s' == Sys(s.inFlight + 1, s.spend, s.tasks + [HasSlot])
    ensures NoneAbandoned(ls) ==> NoneAbandoned(ls')
  {
    ls', s' := Extend(env, ls, s, Arrive);
    ls', s' := Extend(env, ls', s', Move(|s.tasks|, Proceed));
    assert s'.tasks == s.tasks + [HasSlot];
  }

  /** `n` requests of a thousandth of a dollar each, one after the other, while the budget lasts. */
  lemma {:induction false} SpendSlowly(env: Env, n: nat) returns (ls: seq<Label>)
    requires env.Valid() && (n > 0 ==> env.maxCost >= 1 && (n - 1) as real < 1000.0 * env.lim.maxBudget.value)
    ensures Reaches(env, ls, Sys(0, n, Repeat(n, Done))) && NoneAbandoned(ls)
  {
    ls := [];
    if n > 0 {
      ls := SpendSlowly(env, n - 1);
      var s := Sys(0, n - 1, Repeat(n - 1, Done));
      ls, s := Enter(env, ls, s);
      ls, s := Extend(env, ls, s, Move(n - 1, Proceed));
      assert MilliUsd(0.001) == 1;
      ls, s := Extend(env, ls, s, Move(n - 1, Record(0.001)));
      ls, s := Extend(env, ls, s, Move(n - 1, Proceed));
      assert s.tasks == Repeat(n, Done);
    } else {
      assert Repeat(0, Done) == [];
    }
  }

  /** The largest whole number of thousandths below a positive budget. */
  lemma LastThousandth(budget: real) returns (m: nat)
    requires budget > 0.0
    ensures m as real < 1000.0 * budget <= m as real + 1.0
  {
    m := (1000.0 * budget).Floor;
    if m as real == 1000.0 * budget {
      m := m - 1;
    }
  }

  /** With `m` thousandths spent the budget is used up, and `n` more requests take a slot, are refused, and keep it. */
  lemma {:induction false} BudgetRefusalsLeak(env: Env, m: nat, n: nat) returns (ls: seq<Label>)
    requires env.Valid() && n <= env.lim.maxParallel
    requires 1000.0 * env.lim.maxBudget.value <= m as real
    requires m > 0 ==> env.maxCost >= 1 && (m - 1) as real < 1000.0 * env.lim.maxBudget.value
    ensures Reaches(env, ls, Sys(n, m, Repeat(m, Done) + Repeat(n, Leaked))) && NoneAbandoned(ls)
  {
    if n > 0 {
      ls := BudgetRefusalsLeak(env, m, n - 1);
      var s := Sys(n - 1, m, Repeat(m, Done) + Repeat(n - 1, Leaked));
      ls, s := Enter(env, ls, s);
      ls, s := Extend(env, ls, s, Move(m + n - 1, Proceed));
      assert s.tasks == Repeat(m, Done) + Repeat(n, Leaked);
    } else {
      ls := SpendSlowly(env, m);
      assert Repeat(m, Done) + Repeat(0, Leaked) == Repeat(m, Done);
    }
  }

  /** Whenever the budget can be used up, budget refusals alone can lock the key out. */
  lemma LockOutIsReached(env: Env) returns (ls: seq<Label>, s: Sys)
    requires env.Valid() && (env.maxCost >= 1 || env.lim.maxBudget.value <= 0.0)
    ensures Reaches(env, ls, s) && LockedOut(env, s) && CountIf(OUTSTANDING, s.tasks) == 0
    ensures NoneAbandoned(ls)
  {
    var m: nat := 0;
    if env.lim.maxBudget.value > 0.0 {
      m := LastThousandth(env.lim.maxBudget.value);
      m := m + 1;
    }
    var k := env.lim.maxParallel;
    ls := BudgetRefusalsLeak(env, m, k);
    s := Sys(k, m, Repeat(m, Done) + Repeat(k, Leaked));
    ReachableInv(env, ls, s);
    OccupantsPartition(s.tasks);
    CountNone(OUTSTANDING, s.tasks);
  }

  /** A budget that no cost uses up refuses nobody. */
  lemma {:induction false} NothingRefused(env: Env, ls: seq<Label>, s: Sys)
    requires env.Valid() && Reaches(env, ls, s) && NoneAbandoned(ls)
    requires env.maxCost == 0 && env.lim.maxBudget.value > 0.0
    ensures s.spend == 0 && Leaked !in s.tasks
  {
    if ls != [] {
      var p := Exec(env, ls[..|ls| - 1]).value;
      NothingRefused(env, ls[..|ls| - 1], p);
      if ls[|ls| - 1].Move? {
        var t := ls[|ls| - 1].t;
        assert s.tasks == p.tasks[t := s.tasks[t]];
      }
    }
  }

  /** Otherwise they cannot. */
  lemma LockOutIsReachedIff(env: Env)
    requires env.Valid()
    ensures env.maxCost >= 1 || env.lim.maxBudget.value <= 0.0 <==>
            exists ls, s :: Reaches(env, ls, s) && LockedOut(env, s) && NoneAbandoned(ls)
  {
    if env.maxCost >= 1 || env.lim.maxBudget.value <= 0.0 {
      var ls, s := LockOutIsReached(env);
    } else {
      forall ls, s | Reaches(env, ls, s) && NoneAbandoned(ls) ensures !LockedOut(env, s) {
        NothingRefused(env, ls, s);
        CountNone(LEAKED, s.tasks);
      }
    }
  }

  /**
   Without a reset period a budget that is used up refuses every later request for good, although every slot is
   free and nothing has leaked.
   */
  lemma UsedUpForGood(env: Env) returns (ls: seq<Label>, s: Sys)
    requires env.Valid() && env.lim.budgetSeconds == None && env.maxCost >= 1 && env.lim.maxBudget.value > 0.0
    ensures Reaches(env, ls, s) && s.inFlight == CountIf(LEAKED, s.tasks) == 0 && !CanServe(env, s)
  {
    var m := LastThousandth(env.lim.maxBudget.value);
    ls := SpendSlowly(env, m + 1);
    s := Sys(0, m + 1, Repeat(m + 1, Done));
    CountNone(LEAKED, s.tasks);
    ServiceIff(env, ls, s);
  }

  /** On top of that, `n` requests pass the budget check before any of them records. */
  lemma {:induction false} AllStart(env: Env, m: nat, n: nat) returns (ls: seq<Label>)
    requires env.Valid() && env.maxCost >= 1 && n <= env.lim.maxParallel
    requires m as real < 1000.0 * env.lim.maxBudget.value
    ensures Reaches(env, ls, Sys(n, m, Repeat(m, Done) + Repeat(n, Running)))
  {
    if n > 0 {
      ls := AllStart(env, m, n - 1);
      var s := Sys(n - 1, m, Repeat(m, Done) + Repeat(n - 1, Running));
      ls, s := Enter(env, ls, s);
      ls, s := Extend(env, ls, s, Move(m + n - 1, Proceed));
      assert s.tasks == Repeat(m, Done) + Repeat(n, Running);
    } else {
      ls := SpendSlowly(env, m);
      assert Repeat(m, Done) + Repeat(0, Running) == Repeat(m, Done);
    }
  }

  lemma ThousandthsAreExact(n: nat)
    ensures MilliUsd(n as real / 1000.0) == n
  {
  }

  lemma RecordMost(env: Env, ls: seq<Label>, s: Sys, t: nat) returns (ls': seq<Label>, s': Sys)
    requires Reaches(env, ls, s) && t < |s.tasks| && s.tasks[t] == Running
    ensures Reaches(env, ls', s') && s' == Sys(s.inFlight, s.spend + env.maxCost, s.tasks[t := Leaving])
  {
    ThousandthsAreExact(env.maxCost);
    ls', s' := Extend(env, ls, s, Move(t, Record(env.maxCost as real / 1000.0)));
  }

  /** Then `r` of the `n` record the largest cost. */
  lemma {:induction false} AllRecord(env: Env, m: nat, n: nat, r: nat) returns (ls: seq<Label>)
    requires env.Valid() && env.maxCost >= 1 && r <= n <= env.lim.maxParallel
    requires m as real < 1000.0 * env.lim.maxBudget.value
    ensures Reaches(env, ls, Sys(n, m + env.maxCost * r, Repeat(m, Done) + Repeat(r, Leaving) + Repeat(n - r, Running)))
  {
    if r == 0 {
      ls := AllStart(env, m, n);
      assert Repeat(m, Done) + Repeat(0, Leaving) + Repeat(n, Running) == Repeat(m, Done) + Repeat(n, Running);
    } else {
      ls := AllRecord(env, m, n, r - 1);
      var s := Sys(n, m + env.maxCost * (r - 1),
                   Repeat(m, Done) + Repeat(r - 1, Leaving) + Repeat(n - r + 1, Running));
      ls, s := RecordMost(env, ls, s, m + r - 1);
      assert s.tasks == Repeat(m, Done) + Repeat(r, Leaving) + Repeat(n - r, Running);
      OneLess(env.maxCost, r, r - 1);
    }
  }

  /** Without a budget, or a cost to record, nothing is ever spent. */
  ghost predicate Unspent(env: Env, s: Sys) {
    s.spend == 0 && (env.maxCost == 0 || Running !in s.tasks)
  }

  lemma {:induction false} NothingIsSpent(env: Env, ls: seq<Label>, s: Sys)
    requires env.Valid() && Reaches(env, ls, s)
    requires env.maxCost == 0 || env.lim.maxBudget.value <= 0.0
    ensures Unspent(env, s)
  {
    if ls != [] {
      var p := Exec(env, ls[..|ls| - 1]).value;
      NothingIsSpent(env, ls[..|ls| - 1], p);
      if ls[|ls| - 1].Move? {
        var t := ls[|ls| - 1].t;
        assert s.tasks == p.tasks[t := s.tasks[t]];
      }
    }
  }

  /** There is a budget to spend and a cost to record, or the bound is itself no more than a thousandth. */
  ghost predicate Attainable(env: Env)
    requires env.Valid()
  {
    (env.maxCost >= 1 && env.lim.maxBudget.value > 0.0) || Ceiling(env) <= 1.0
  }

  /** Such a bound is overshot to within a thousandth. */
  lemma OvershootIsReached(env: Env) returns (ls: seq<Label>, s: Sys)
    requires env.Valid() && Attainable(env)
    ensures Reaches(env, ls, s) && s.spend as real >= Ceiling(env) - 1.0
  {
    ls, s := [], INIT;
    if Ceiling(env) > 1.0 {
      var k := env.lim.maxParallel;
      var m := LastThousandth(env.lim.maxBudget.value);
      ls := AllRecord(env, m, k, k);
      s := Sys(k, m + env.maxCost * k, Repeat(m, Done) + Repeat(k, Leaving) + Repeat(0, Running));
    }
  }

  /** Exactly then the bound is sharp to a thousandth. */
  lemma OvershootIsReachedIff(env: Env)
    requires env.Valid()
    ensures Attainable(env) <==> exists ls, s :: Reaches(env, ls, s) && s.spend as real >= Ceiling(env) - 1.0
  {
    if Attainable(env) {
      var ls, s := OvershootIsReached(env);
    } else {
      forall ls, s | Reaches(env, ls, s) ensures s.spend as real < Ceiling(env) - 1.0 {
        NothingIsSpent(env, ls, s);
      }
    }
  }
}
