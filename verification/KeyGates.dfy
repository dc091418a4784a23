/**
 The per-key gates of `authorize`, and `record_usage` and `release` (`src/auth/mod.rs`): a fixed-window request
 counter, a parallel cap and a budget. Run-level results here concern the request counter;
 `BudgetProtocol` interleaves the other two.
 */
module KeyGates {
  import opened Prelude

  datatype AuthError = Unauthorized | RpmExceeded | ParallelExceeded | BudgetExceeded

  // ---- The fixed-window request counter ----

  const WINDOW := 60.0

  datatype Window = Window(start: real, count: uint32)

  predicate Expired(w: Window, now: real) { now - w.start > WINDOW }

  function Current(w: Window, now: real): Window { if Expired(w, now) then Window(now, 0) else w }

  /** A call passes if fewer than `limit` calls are on the counter; passed or not, it is added. */
  predicate PassesRpm(limit: uint32, w: Window, now: real) { Current(w, now).count < limit }

  function AfterRpm(w: Window, now: real): Window {
    Window(Current(w, now).start, Inc32(Current(w, now).count))
  }

  // ---- The key record ----

  datatype KeyState = KeyState(window: Window, inFlight: uint32, spendMilli: nat, budgetStart: real,
                               requests: nat, inputTokens: nat, outputTokens: nat)

  datatype KeyLimits = KeyLimits(rpmLimit: uint32, maxParallel: uint32, maxBudget: Option<real>,
                                 budgetSeconds: Option<real>)

  predicate HasParallelSlot(lim: KeyLimits, inFlight: uint32) { lim.maxParallel > 0 ==> inFlight < lim.maxParallel }

  /** Spend is kept in thousandths of a dollar. */
  predicate WithinBudget(lim: KeyLimits, spendMilli: nat) {
    lim.maxBudget.Some? ==> spendMilli as real / 1000.0 < lim.maxBudget.value
  }

  predicate BudgetWindowOver(lim: KeyLimits, start: real, now: real) {
    lim.maxBudget.Some? && lim.budgetSeconds.Some? && now - start > lim.budgetSeconds.value
  }

  /** `(cost_usd * 1000.0) as u64`: truncated, and zero for negative costs. */
  function MilliUsd(cost: real): nat { if cost <= 0.0 then 0 else (cost * 1000.0).Floor }

  class KeyRecord {
    const limits: KeyLimits
    const blocked: bool
    const expiresAt: Option<real>
    var rpmWindowStart: real
    var rpmWindowCount: uint32
    var inFlight: uint32
    var totalSpendMilli: nat
    var budgetWindowStart: real
    var totalRequests: nat
    var totalInputTokens: nat
    var totalOutputTokens: nat

    ghost function State(): KeyState
      reads this
    {
      KeyState(Window(rpmWindowStart, rpmWindowCount), inFlight, totalSpendMilli, budgetWindowStart,
               totalRequests, totalInputTokens, totalOutputTokens)
    }

    constructor (limits: KeyLimits, blocked: bool, expiresAt: Option<real>, now: real)
      ensures this.limits == limits && this.blocked == blocked && this.expiresAt == expiresAt
      ensures State() == KeyState(Window(now, 0), 0, 0, now, 0, 0, 0)
    {
      this.limits, this.blocked, this.expiresAt := limits, blocked, expiresAt;
      rpmWindowStart, rpmWindowCount, budgetWindowStart := now, 0, now;
      inFlight, totalSpendMilli := 0, 0;
      totalRequests, totalInputTokens, totalOutputTokens := 0, 0, 0;
    }

    /**
     The gates in their order, each with its own clock reading. A refused call keeps what the gates before
     the refusal did: the counter stays advanced, and a budget refusal keeps its parallel slot.
     */
    method Authorize(ipAllowed: bool, expiryNow: real, rpmNow: real, budgetNow: real)
        returns (error: Option<AuthError>)
      modifies this
      ensures var s, s', lim := old(State()), State(), limits;
        var admissible := !blocked && (expiresAt.Some? ==> expiryNow <= expiresAt.value) && ipAllowed;
        var pastRpm := admissible && (lim.rpmLimit > 0 ==> PassesRpm(lim.rpmLimit, s.window, rpmNow));
        var pastParallel := pastRpm && HasParallelSlot(lim, s.inFlight);
        var windowOver := BudgetWindowOver(lim, s.budgetStart, budgetNow);
        && (error == Some(Unauthorized) <==> !admissible)
        && (error == Some(RpmExceeded) <==> admissible && !pastRpm)
        && (error == Some(ParallelExceeded) <==> pastRpm && !pastParallel)
        && (error == Some(BudgetExceeded) <==> pastParallel && !WithinBudget(lim, s'.spendMilli))
        && s'.window == (if admissible && lim.rpmLimit > 0 then AfterRpm(s.window, rpmNow) else s.window)
        && s'.inFlight == (if pastParallel && lim.maxParallel > 0 then s.inFlight + 1 else s.inFlight)
        && s'.spendMilli == (if pastParallel && windowOver then 0 else s.spendMilli)
        && s'.budgetStart == (if pastParallel && windowOver then budgetNow else s.budgetStart)
        && (s'.requests, s'.inputTokens, s'.outputTokens) == (s.requests, s.inputTokens, s.outputTokens)
      ensures error == Some(Unauthorized) <==>
        blocked || (expiresAt.Some? && expiryNow > expiresAt.value) || !ipAllowed
      ensures error == Some(RpmExceeded) ==>
        0 < limits.rpmLimit <= (if rpmNow - old(rpmWindowStart) > 60.0 then 0 else old(rpmWindowCount))
      ensures error !in {Some(Unauthorized), Some(RpmExceeded)} && limits.rpmLimit > 0 ==>
        (if rpmNow - old(rpmWindowStart) > 60.0 then 0 else old(rpmWindowCount)) < limits.rpmLimit
      ensures error == Some(ParallelExceeded) ==> 0 < limits.maxParallel <= old(inFlight)
      ensures error in {None, Some(BudgetExceeded)} && limits.maxParallel > 0 ==>
        old(inFlight) < limits.maxParallel && inFlight == old(inFlight) + 1
      ensures error in {None, Some(BudgetExceeded)} && limits.maxBudget.Some? && limits.budgetSeconds.Some? ==>
        if budgetNow - old(budgetWindowStart) > limits.budgetSeconds.value
        then totalSpendMilli == 0 && budgetWindowStart == budgetNow
        else totalSpendMilli == old(totalSpendMilli) && budgetWindowStart == old(budgetWindowStart)
      ensures error == Some(BudgetExceeded) ==>
        limits.maxBudget.Some? && totalSpendMilli as real / 1000.0 >= limits.maxBudget.value
      ensures error == None && limits.maxBudget.Some? ==> totalSpendMilli as real / 1000.0 < limits.maxBudget.value
    {
      if blocked {
        return Some(Unauthorized);
      }
      if expiresAt.Some? && expiryNow > expiresAt.value {
        return Some(Unauthorized);
      }
      if !ipAllowed {
        return Some(Unauthorized);
      }
      if limits.rpmLimit > 0 {
        if rpmNow - rpmWindowStart > WINDOW {
          rpmWindowStart := rpmNow;
          rpmWindowCount := 0;
        }
        var cur := rpmWindowCount;
        rpmWindowCount := Inc32(rpmWindowCount);
        if cur >= limits.rpmLimit {
          return Some(RpmExceeded);
        }
      }
      if limits.maxParallel > 0 {
        if inFlight >= limits.maxParallel {
          return Some(ParallelExceeded);
        }
        inFlight := Inc32(inFlight);
      }
      if limits.maxBudget.Some? {
        if limits.budgetSeconds.Some? {
          if budgetNow - budgetWindowStart > limits.budgetSeconds.value {
            budgetWindowStart := budgetNow;
            totalSpendMilli := 0;
          }
        }
        if totalSpendMilli as real / 1000.0 >= limits.maxBudget.value {
          return Some(BudgetExceeded);
        }
      }
      return None;
    }

    method RecordUsage(inTok: nat, outTok: nat, cost: real)
      modifies this
      ensures var s := old(State());
        State() == s.(requests := s.requests + 1, inputTokens := s.inputTokens + inTok,
                      outputTokens := s.outputTokens + outTok, spendMilli := s.spendMilli + MilliUsd(cost))
      ensures totalInputTokens == old(totalInputTokens) + inTok && totalOutputTokens == old(totalOutputTokens) + outTok
      ensures var spent := (totalSpendMilli - old(totalSpendMilli)) as real;
        if cost <= 0.0 then spent == 0.0 else spent <= cost * 1000.0 < spent + 1.0
    {
      totalRequests := totalRequests + 1;
      totalInputTokens := totalInputTokens + inTok;
      totalOutputTokens := totalOutputTokens + outTok;
      totalSpendMilli := totalSpendMilli + MilliUsd(cost);
    }

    method Release()
      modifies this
      ensures var s := old(State());
        State() == if limits.maxParallel > 0 then s.(inFlight := Dec32(s.inFlight)) else s
      ensures limits.maxParallel > 0 && old(inFlight) > 0 ==> inFlight == old(inFlight) - 1
    {
      if limits.maxParallel > 0 {
        inFlight := Dec32(inFlight);
      }
    }

    /** One key's turn in the background budget task; `wasReset` asks for the stored spend to be cleared too. */
    method ExpireBudget(now: real) returns (wasReset: bool)
      modifies this
      ensures wasReset == BudgetWindowOver(limits, old(budgetWindowStart), now)
      ensures wasReset <==>
        && limits.maxBudget.Some? && limits.budgetSeconds.Some?
        && now - old(budgetWindowStart) > limits.budgetSeconds.value
      ensures var s := old(State());
        State() == if wasReset then s.(spendMilli := 0, budgetStart := now) else s
    {
      if limits.maxBudget == None || limits.budgetSeconds == None {
        return false;
      }
      wasReset := now - budgetWindowStart > limits.budgetSeconds.value;
      if wasReset {
        budgetWindowStart := now;
        totalSpendMilli := 0;
      }
    }
  }

  // ---- Runs of the budget window ----

  /** The start of the budget window of a key created at `t0` after the first `n` looks at it. */
  function BudgetStart(lim: KeyLimits, t0: real, ts: seq<real>, n: nat): real
    requires n <= |ts|
  {
    if n == 0 then t0
    else
      var start := BudgetStart(lim, t0, ts, n - 1);
      if BudgetWindowOver(lim, start, ts[n - 1]) then ts[n - 1] else start
  }

  /** Look `n` resets the spend. */
  predicate Resets(lim: KeyLimits, t0: real, ts: seq<real>, n: nat)
    requires n < |ts|
  {
    BudgetWindowOver(lim, BudgetStart(lim, t0, ts, n), ts[n])
  }

  lemma {:induction false} BudgetStartsGrow(lim: KeyLimits, t0: real, ts: seq<real>, i: nat, n: nat)
    requires i <= n <= |ts| && lim.budgetSeconds.Some? && lim.budgetSeconds.value >= 0.0
    ensures BudgetStart(lim, t0, ts, i) <= BudgetStart(lim, t0, ts, n)
    decreases n
  {
    if i < n {
      BudgetStartsGrow(lim, t0, ts, i, n - 1);
    }
  }

  /** Resets of one key's spend are more than its period apart, whatever the clock does and whoever looks. */
  lemma BudgetResetsAreApart(lim: KeyLimits, t0: real, ts: seq<real>, i: nat, j: nat)
    requires i < j < |ts| && lim.budgetSeconds.Some? && lim.budgetSeconds.value >= 0.0
    requires Resets(lim, t0, ts, i) && Resets(lim, t0, ts, j)
    ensures ts[j] - ts[i] > lim.budgetSeconds.value
  {
    BudgetStartsGrow(lim, t0, ts, i + 1, j);
  }

  /** Once the period is over the next look does reset it. */
  lemma BudgetResetComes(lim: KeyLimits, t0: real, ts: seq<real>, n: nat)
    requires n < |ts| && lim.maxBudget.Some? && lim.budgetSeconds.Some?
    requires ts[n] - BudgetStart(lim, t0, ts, n) > lim.budgetSeconds.value
    ensures Resets(lim, t0, ts, n) && BudgetStart(lim, t0, ts, n + 1) == ts[n]
  {
  }

  // ---- Runs of the request counter ----

  /** The counter of a key created at `t0` after the first `n` calls of the run `ts`. */
  function After(t0: real, ts: seq<real>, n: nat): Window
    requires n <= |ts|
  {
    if n == 0 then Window(t0, 0) else AfterRpm(After(t0, ts, n - 1), ts[n - 1])
  }

  predicate Passes(limit: uint32, t0: real, ts: seq<real>, n: nat)
    requires n < |ts|
  {
    PassesRpm(limit, After(t0, ts, n), ts[n])
  }

  /** Call `n` opens a new window. */
  predicate Opens(t0: real, ts: seq<real>, n: nat)
    requires n < |ts|
  {
    Expired(After(t0, ts, n), ts[n])
  }

  function PassCount(limit: uint32, t0: real, ts: seq<real>, lo: nat, hi: nat): nat
    requires lo <= hi <= |ts|
    decreases hi
  {
    if lo == hi then 0
    else PassCount(limit, t0, ts, lo, hi - 1) + Flag(Passes(limit, t0, ts, hi - 1))
  }

  lemma {:induction false} PassCountSplit(limit: uint32, t0: real, ts: seq<real>, lo: nat, mid: nat, hi: nat)
    requires lo <= mid <= hi <= |ts|
    ensures PassCount(limit, t0, ts, lo, hi) == PassCount(limit, t0, ts, lo, mid) + PassCount(limit, t0, ts, mid, hi)
    decreases hi
  {
    if mid < hi {
      PassCountSplit(limit, t0, ts, lo, mid, hi - 1);
    }
  }

  lemma {:induction false} StartsGrow(t0: real, ts: seq<real>, i: nat, n: nat)
    requires i <= n <= |ts|
    ensures After(t0, ts, i).start <= After(t0, ts, n).start
    decreases n
  {
    if i < n {
      StartsGrow(t0, ts, i, n - 1);
    }
  }

  /** Windows start more than sixty seconds apart, whatever the clock does. */
  lemma WindowStartsAreApart(t0: real, ts: seq<real>, i: nat, j: nat)
    requires i < j < |ts| && Opens(t0, ts, i) && Opens(t0, ts, j)
    ensures ts[j] - ts[i] > 60.0
  {
    StartsGrow(t0, ts, i + 1, j);
  }

  ghost predicate SameWindow(t0: real, ts: seq<real>, lo: nat, hi: nat)
    requires lo < hi <= |ts|
  {
    forall i :: lo < i < hi ==> !Opens(t0, ts, i)
  }

  // ---- How many calls pass ----

  /** How many of the first `x` calls on a counter that starts at zero pass, wrap-around included. */
  function Served(limit: uint32, x: nat): nat {
    if x == 0 then 0 else Served(limit, x - 1) + Flag((x - 1) % U32_SIZE < limit)
  }

  lemma {:induction false} ServedBeforeWrap(limit: uint32, x: nat)
    requires x <= U32_SIZE
    ensures Served(limit, x) == Min(x, limit)
  {
    if x > 0 {
      ServedBeforeWrap(limit, x - 1);
    }
  }

  lemma ResidueRepeats(x: nat)
    ensures (x + U32_SIZE) % U32_SIZE == x % U32_SIZE
  {
  }

  /** Each round of the counter lets through the limit once more. */
  lemma {:induction false} ServedEachRound(limit: uint32, x: nat)
    ensures Served(limit, x + U32_SIZE) == Served(limit, x) + limit
  {
    if x == 0 {
      ServedBeforeWrap(limit, U32_SIZE);
    } else {
      ServedEachRound(limit, x - 1);
      ResidueRepeats(x - 1);
    }
  }

  lemma {:induction false} ServedGrows(limit: uint32, x: nat, y: nat)
    requires x <= y
    ensures Served(limit, x) <= Served(limit, y)
    decreases y
  {
    if x < y {
      ServedGrows(limit, x, y - 1);
    }
  }

  /** The counter a window shows when call `lo` arrives. */
  function CountAt(t0: real, ts: seq<real>, lo: nat): uint32
    requires lo < |ts|
  {
    Current(After(t0, ts, lo), ts[lo]).count
  }

  /** Exactly how many calls of one window pass, however many there are. */
  lemma {:induction false} WindowPasses(limit: uint32, t0: real, ts: seq<real>, lo: nat, hi: nat)
    requires lo < hi <= |ts| && SameWindow(t0, ts, lo, hi)
    ensures var c, n := CountAt(t0, ts, lo), hi - lo;
      && After(t0, ts, hi).count == (c + n) % U32_SIZE
      && PassCount(limit, t0, ts, lo, hi) == Served(limit, c + n) - Served(limit, c)
    decreases hi
  {
    var x := CountAt(t0, ts, lo) + (hi - lo) - 1;
    if lo + 1 < hi {
      WindowPasses(limit, t0, ts, lo, hi - 1);
      assert !Opens(t0, ts, hi - 1);
    }
    assert Current(After(t0, ts, hi - 1), ts[hi - 1]).count == x % U32_SIZE;
    NextResidue(x);
  }

  lemma NextResidue(x: nat)
    ensures Inc32(x % U32_SIZE) == (x + 1) % U32_SIZE
  {
  }

  /** Within one window at most `limit` of 2^32 calls in a row pass, for any clock, however many are refused. */
  lemma PassesPerWindow(limit: uint32, t0: real, ts: seq<real>, lo: nat, hi: nat)
    requires lo < hi <= |ts| && SameWindow(t0, ts, lo, hi) && hi - lo <= U32_SIZE
    ensures PassCount(limit, t0, ts, lo, hi) <= limit
  {
    var c := CountAt(t0, ts, lo);
    WindowPasses(limit, t0, ts, lo, hi);
    ServedGrows(limit, c + (hi - lo), c + U32_SIZE);
    ServedEachRound(limit, c);
  }

  /** The counter is 32 bits wide: a window's call number `m` passes exactly when `m` modulo 2^32 is below the limit. */
  lemma {:induction false} CounterWraps(limit: uint32, t0: real, ts: seq<real>, lo: nat, m: nat)
    requires lo + m < |ts| && SameWindow(t0, ts, lo, lo + m + 1)
    requires lo == 0 || Opens(t0, ts, lo)
    ensures CountAt(t0, ts, lo + m) == m % 0x1_0000_0000
    ensures Passes(limit, t0, ts, lo + m) <==> m % 0x1_0000_0000 < limit
  {
    if m > 0 {
      WindowPasses(limit, t0, ts, lo, lo + m);
      assert !Opens(t0, ts, lo + m);
    }
  }

  /**
   Of a window's first `hi - lo` calls at most `limit` pass exactly as long as the counter has not gone all
   the way round.
   */
  lemma WindowLimitIff(limit: uint32, t0: real, ts: seq<real>, lo: nat, hi: nat)
    requires limit > 0 && lo < hi <= |ts| && SameWindow(t0, ts, lo, hi)
    requires lo == 0 || Opens(t0, ts, lo)
    ensures PassCount(limit, t0, ts, lo, hi) <= limit <==> hi - lo <= U32_SIZE
  {
    WindowPasses(limit, t0, ts, lo, hi);
    if hi - lo <= U32_SIZE {
      PassesPerWindow(limit, t0, ts, lo, hi);
    } else {
      ServedBeforeWrap(limit, U32_SIZE);
      ServedGrows(limit, U32_SIZE + 1, hi - lo);
    }
  }

  /** The interval of calls `lo <= i < hi` meets one window, or two of which the second opens at `mid`. */
  ghost predicate Splits(t0: real, ts: seq<real>, lo: nat, mid: nat, hi: nat)
    requires lo < mid <= hi <= |ts|
  {
    SameWindow(t0, ts, lo, mid) && (mid < hi ==> Opens(t0, ts, mid) && SameWindow(t0, ts, mid, hi))
  }

  lemma {:induction false} FirstOpening(t0: real, ts: seq<real>, lo: nat, hi: nat) returns (mid: nat)
    requires lo < hi <= |ts|
    ensures lo < mid <= hi && SameWindow(t0, ts, lo, mid) && (mid < hi ==> Opens(t0, ts, mid))
    decreases hi
  {
    mid := hi;
    if lo + 1 < hi {
      mid := FirstOpening(t0, ts, lo, hi - 1);
      if mid == hi - 1 && !Opens(t0, ts, mid) {
        mid := hi;
      }
    }
  }

  /** Any sixty seconds of an orderly clock meet at most two windows. */
  lemma MinuteSplits(t0: real, ts: seq<real>, lo: nat, hi: nat) returns (mid: nat)
    requires IsRun(t0, ts) && lo < hi <= |ts| && ts[hi - 1] - ts[lo] <= 60.0
    ensures lo < mid <= hi && Splits(t0, ts, lo, mid, hi)
  {
    mid := FirstOpening(t0, ts, lo, hi);
    forall j | mid < j < hi ensures !Opens(t0, ts, j) {
      assert ts[lo] <= ts[mid] && ts[j] <= ts[hi - 1];
      if Opens(t0, ts, j) {
        WindowStartsAreApart(t0, ts, mid, j);
      }
    }
  }

  /** Exactly how many calls pass in an interval that meets at most two windows. */
  lemma IntervalPasses(limit: uint32, t0: real, ts: seq<real>, lo: nat, mid: nat, hi: nat)
    requires lo < mid <= hi <= |ts| && Splits(t0, ts, lo, mid, hi)
    ensures var c := CountAt(t0, ts, lo);
      PassCount(limit, t0, ts, lo, hi) == Served(limit, c + (mid - lo)) - Served(limit, c) + Served(limit, hi - mid)
  {
    WindowPasses(limit, t0, ts, lo, mid);
    if mid < hi {
      WindowPasses(limit, t0, ts, mid, hi);
      PassCountSplit(limit, t0, ts, lo, mid, hi);
    }
  }

  /** In any closed sixty seconds of an orderly clock, at most two windows' worth of calls pass. */
  lemma PassesPerMinute(limit: uint32, t0: real, ts: seq<real>, lo: nat, hi: nat) returns (mid: nat)
    requires IsRun(t0, ts) && lo < hi <= |ts| && ts[hi - 1] - ts[lo] <= 60.0
    ensures lo < mid <= hi && Splits(t0, ts, lo, mid, hi)
    ensures var c := CountAt(t0, ts, lo);
      PassCount(limit, t0, ts, lo, hi) == Served(limit, c + (mid - lo)) - Served(limit, c) + Served(limit, hi - mid)
    ensures mid - lo <= U32_SIZE && hi - mid <= U32_SIZE ==> PassCount(limit, t0, ts, lo, hi) <= 2 * limit
  {
    mid := MinuteSplits(t0, ts, lo, hi);
    IntervalPasses(limit, t0, ts, lo, mid, hi);
    if mid - lo <= U32_SIZE && hi - mid <= U32_SIZE {
      PassesPerWindow(limit, t0, ts, lo, mid);
      ServedBeforeWrap(limit, hi - mid);
      WindowPasses(limit, t0, ts, lo, mid);
    }
  }

  /** How many of `m` calls pass when the counter shows `c` and does not wrap: those below the limit. */
  function Room(limit: uint32, c: uint32, m: nat): nat { Min(m, Max(0, limit - c)) }

  /**
   The documented rolling limit holds over sixty seconds exactly when the room the old window still had for its
   calls and what the new window lets through make at most the limit. With a counter that does not
   wrap both are read off the counter at the first call and the numbers of calls on each side of the opening.
   */
  lemma RollingLimitIff(limit: uint32, t0: real, ts: seq<real>, lo: nat, hi: nat) returns (mid: nat)
    requires IsRun(t0, ts) && lo < hi <= |ts| && ts[hi - 1] - ts[lo] <= 60.0
    ensures lo < mid <= hi && Splits(t0, ts, lo, mid, hi)
    ensures var c := CountAt(t0, ts, lo);
      && (PassCount(limit, t0, ts, lo, hi) <= limit <==>
            Served(limit, c + (mid - lo)) - Served(limit, c) + Served(limit, hi - mid) <= limit)
      && (c + (mid - lo) <= U32_SIZE && hi - mid <= U32_SIZE ==>
            (PassCount(limit, t0, ts, lo, hi) <= limit <==>
               Room(limit, c, mid - lo) + Min(limit, hi - mid) <= limit))
  {
    mid := PassesPerMinute(limit, t0, ts, lo, hi);
    var c := CountAt(t0, ts, lo);
    if c + (mid - lo) <= U32_SIZE && hi - mid <= U32_SIZE {
      ServedBeforeWrap(limit, c);
      ServedBeforeWrap(limit, c + (mid - lo));
      ServedBeforeWrap(limit, hi - mid);
    }
  }

  /** A burst of `limit` calls just before the window ends and another just after. */
  function TwoBursts(limit: uint32): (ts: seq<real>)
    ensures |ts| == 2 * limit
  {
    seq(2 * limit, i => if i < limit then 60.0 else 61.0)
  }

  lemma {:induction false} TwoBurstsPass(limit: uint32, n: nat)
    requires n <= 2 * limit
    ensures var ts := TwoBursts(limit);
      && PassCount(limit, 0.0, ts, 0, n) == n
      && After(0.0, ts, n) == if n <= limit then Window(0.0, n) else Window(61.0, n - limit)
  {
    if n > 0 {
      TwoBurstsPass(limit, n - 1);
    }
  }

  /** So the documented rolling limit does not hold: twice the limit can pass within one second. */
  lemma {:induction false} RollingLimitFails(limit: uint32)
    requires limit > 0
    ensures var ts := TwoBursts(limit);
      && IsRun(0.0, ts) && ts[|ts| - 1] - ts[0] == 1.0
      && PassCount(limit, 0.0, ts, 0, |ts|) == 2 * limit
  {
    TwoBurstsPass(limit, 2 * limit);
  }
}
