/**
 The token bucket inside `Upstream::try_acquire`.

 The bucket starts full, is refilled lazily by elapsed time and charged one token for each
 admission. Tokens and clock readings are reals. The main results describe whole runs:
 which calls are admitted (`AdmitsExactly`), how many that can be (`WindowBound`), that no
 policy within the same limit is ever ahead (`BucketIsMaximal`), and when anything
 is admitted at all (`ProgressAfterGap`, `AdmitsAnythingIffAtLeastTen`).
 */
module TokenBucket {
  import opened Prelude

  function Capacity(rpm: nat): real { rpm as real / 60.0 * 6.0 }

  /** Tokens issued in `dt` seconds, one sixtieth of `dt` for each request per minute. */
  function Issued(rpm: nat, dt: real): real {
    if rpm == 0 then 0.0 else Issued(rpm - 1, dt) + dt / 60.0
  }

  lemma {:induction false} IssuedIsProduct(rpm: nat, dt: real)
    ensures Issued(rpm, dt) == dt * (rpm as real / 60.0)
  {
    if rpm > 0 {
      IssuedIsProduct(rpm - 1, dt);
      assert rpm as real == (rpm - 1) as real + 1.0;
      assert dt * (rpm as real / 60.0) == dt * ((rpm - 1) as real / 60.0) + dt / 60.0;
    }
  }

  lemma {:induction false} IssuedAdds(rpm: nat, d: real, e: real)
    ensures Issued(rpm, d + e) == Issued(rpm, d) + Issued(rpm, e)
  {
    if rpm > 0 {
      IssuedAdds(rpm - 1, d, e);
    }
  }

  lemma {:induction false} IssuedNotNegative(rpm: nat, dt: real)
    requires dt >= 0.0
    ensures Issued(rpm, dt) >= 0.0
  {
    if rpm > 0 {
      IssuedNotNegative(rpm - 1, dt);
    }
  }

  datatype BucketState = BucketState(tokens: real, lastRefill: real)

  function Fresh(rpm: nat, t0: real): BucketState { BucketState(Capacity(rpm), t0) }

  /** Tokens available at `now`. `Instant::duration_since` saturates at zero. */
  function Refilled(rpm: nat, b: BucketState, now: real): real {
    var elapsed := if now < b.lastRefill then 0.0 else now - b.lastRefill;
    MinReal(b.tokens + Issued(rpm, elapsed), Capacity(rpm))
  }

  predicate Admits(rpm: nat, b: BucketState, now: real) { Refilled(rpm, b, now) >= 1.0 }

  /** The bucket after one call at `now`; a refused call keeps its refill and pays nothing. */
  function Charged(rpm: nat, b: BucketState, now: real): BucketState {
    var available := Refilled(rpm, b, now);
    BucketState(if Admits(rpm, b, now) then available - 1.0 else available, now)
  }

  class RateBucket {
    const rpm: nat
    const capacity: real
    const refillPerSec: real
    var tokens: real
    var lastRefill: real

    ghost predicate Valid()
      reads this
    {
      rpm > 0 && capacity == Capacity(rpm) && refillPerSec == rpm as real / 60.0 && 0.0 <= tokens <= capacity
    }

    ghost function State(): BucketState
      reads this
    {
      BucketState(tokens, lastRefill)
    }

    constructor (rpm: nat, now: real)
      requires rpm > 0
      ensures Valid() && this.rpm == rpm && State() == Fresh(rpm, now)
      ensures tokens == capacity == rpm as real / 10.0 && lastRefill == now
    {
      this.rpm := rpm;
      capacity := rpm as real / 60.0 * 6.0;
      refillPerSec := rpm as real / 60.0;
      tokens := rpm as real / 60.0 * 6.0;
      lastRefill := now;
    }

    /** The critical section of `try_acquire`: refill, then spend one token or refuse. */
    method Take(now: real) returns (admitted: bool)
      requires Valid()
      modifies this
      ensures Valid()
      ensures admitted == Admits(rpm, old(State()), now)
      ensures State() == Charged(rpm, old(State()), now)
      ensures lastRefill == now && (admitted ==> tokens <= capacity - 1.0)
      ensures now <= old(lastRefill) ==>
        (admitted <==> old(tokens) >= 1.0) && tokens == old(tokens) - if admitted then 1.0 else 0.0
    {
      var elapsed := if now < lastRefill then 0.0 else now - lastRefill;
      IssuedIsProduct(rpm, elapsed);
      IssuedNotNegative(rpm, elapsed);
      tokens := MinReal(tokens + elapsed * refillPerSec, capacity);
      lastRefill := now;
      admitted := tokens >= 1.0;
      if admitted {
        tokens := tokens - 1.0;
      }
    }
  }

  // ---- Whole runs ----

  /** The bucket after the first `n` calls of the run `ts` of a bucket created at `t0`. */
  function After(rpm: nat, t0: real, ts: seq<real>, n: nat): BucketState
    requires n <= |ts|
  {
    if n == 0 then Fresh(rpm, t0) else Charged(rpm, After(rpm, t0, ts, n - 1), ts[n - 1])
  }

  /** What the bucket answers to call `n` of the run. */
  predicate Verdict(rpm: nat, t0: real, ts: seq<real>, n: nat)
    requires n < |ts|
  {
    Admits(rpm, After(rpm, t0, ts, n), ts[n])
  }

  /** Number of calls admitted among calls `lo <= i < hi`. */
  function Admitted(rpm: nat, t0: real, ts: seq<real>, lo: nat, hi: nat): nat
    requires lo <= hi <= |ts|
    decreases hi
  {
    if lo == hi then 0
    else Admitted(rpm, t0, ts, lo, hi - 1) + (if Verdict(rpm, t0, ts, hi - 1) then 1 else 0)
  }

  lemma {:induction false} AdmittedSplit(rpm: nat, t0: real, ts: seq<real>, lo: nat, mid: nat, hi: nat)
    requires lo <= mid <= hi <= |ts|
    ensures Admitted(rpm, t0, ts, lo, hi) == Admitted(rpm, t0, ts, lo, mid) + Admitted(rpm, t0, ts, mid, hi)
    decreases hi
  {
    if mid < hi {
      AdmittedSplit(rpm, t0, ts, lo, mid, hi - 1);
    }
  }

  /** Tokens call `n` finds in the bucket. */
  function Level(rpm: nat, t0: real, ts: seq<real>, n: nat): real
    requires n < |ts|
  {
    Refilled(rpm, After(rpm, t0, ts, n), ts[n])
  }

  /** Credit left at call `n` by the window that starts at call `k`. */
  function Credit(rpm: nat, t0: real, ts: seq<real>, k: nat, n: nat): real
    requires k <= n < |ts|
  {
    Capacity(rpm) + Issued(rpm, ts[n] - ts[k]) - Admitted(rpm, t0, ts, k, n) as real
  }

  function Paid(rpm: nat, t0: real, ts: seq<real>, n: nat): real
    requires n < |ts|
  {
    if Verdict(rpm, t0, ts, n) then 1.0 else 0.0
  }

  lemma CreditStep(rpm: nat, t0: real, ts: seq<real>, k: nat, n: nat)
    requires k < n < |ts|
    ensures Credit(rpm, t0, ts, k, n)
         == Credit(rpm, t0, ts, k, n - 1) - Paid(rpm, t0, ts, n - 1) + Issued(rpm, ts[n] - ts[n - 1])
  {
    IssuedAdds(rpm, ts[n - 1] - ts[k], ts[n] - ts[n - 1]);
    assert ts[n] - ts[k] == (ts[n - 1] - ts[k]) + (ts[n] - ts[n - 1]);
  }

  lemma CreditOfSelf(rpm: nat, t0: real, ts: seq<real>, n: nat)
    requires n < |ts|
    ensures Credit(rpm, t0, ts, n, n) == Capacity(rpm)
  {
    IssuedIsProduct(rpm, 0.0);
  }

  lemma ChargeThenRefill(rpm: nat, b: BucketState, t: real, now: real)
    requires t <= now
    ensures Refilled(rpm, Charged(rpm, b, t), now) == MinReal(
              Refilled(rpm, b, t) - (if Admits(rpm, b, t) then 1.0 else 0.0) + Issued(rpm, now - t),
              Capacity(rpm))
  {
  }

  lemma LevelStep(rpm: nat, t0: real, ts: seq<real>, n: nat)
    requires IsRun(t0, ts) && 0 < n < |ts|
    ensures Level(rpm, t0, ts, n) == MinReal(
              Level(rpm, t0, ts, n - 1) - Paid(rpm, t0, ts, n - 1) + Issued(rpm, ts[n] - ts[n - 1]),
              Capacity(rpm))
  {
    ChargeThenRefill(rpm, After(rpm, t0, ts, n - 1), ts[n - 1], ts[n]);
  }

  lemma FirstLevel(rpm: nat, t0: real, ts: seq<real>)
    requires IsRun(t0, ts) && |ts| > 0
    ensures Level(rpm, t0, ts, 0) == Capacity(rpm)
  {
    IssuedNotNegative(rpm, ts[0] - t0);
  }

  /** The lazily refilled bucket never holds more than the credit of any window that ends now. */
  lemma {:induction false} LevelBelowCredit(rpm: nat, t0: real, ts: seq<real>, k: nat, n: nat)
    requires IsRun(t0, ts) && k <= n < |ts|
    ensures Level(rpm, t0, ts, n) <= Credit(rpm, t0, ts, k, n)
  {
    if k == n {
      CreditOfSelf(rpm, t0, ts, n);
    } else {
      LevelBelowCredit(rpm, t0, ts, k, n - 1);
      LevelStep(rpm, t0, ts, n);
      CreditStep(rpm, t0, ts, k, n);
    }
  }

  /** ... and exactly the credit of one of them. */
  lemma {:induction false} LevelIsSomeCredit(rpm: nat, t0: real, ts: seq<real>, n: nat) returns (w: nat)
    requires IsRun(t0, ts) && n < |ts|
    ensures w <= n && Level(rpm, t0, ts, n) == Credit(rpm, t0, ts, w, n)
  {
    w := n;
    CreditOfSelf(rpm, t0, ts, n);
    if n == 0 {
      FirstLevel(rpm, t0, ts);
    } else {
      LevelStep(rpm, t0, ts, n);
      if Level(rpm, t0, ts, n) < Capacity(rpm) {
        w := LevelIsSomeCredit(rpm, t0, ts, n - 1);
        CreditStep(rpm, t0, ts, w, n);
      }
    }
  }

  // ---- What the bucket admits ----

  /** One more admission at call `n` fits in the window that starts at call `k`. */
  ghost predicate Fits(rpm: nat, t0: real, ts: seq<real>, k: nat, n: nat)
    requires k <= n < |ts|
  {
    Admitted(rpm, t0, ts, k, n) as real + 1.0 <= rpm as real / 10.0 + Issued(rpm, ts[n] - ts[k])
  }

  /** A call is admitted exactly when one more admission fits in every window that ends with it. */
  lemma AdmitsExactly(rpm: nat, t0: real, ts: seq<real>, n: nat)
    requires IsRun(t0, ts) && n < |ts|
    ensures Verdict(rpm, t0, ts, n) <==> forall k :: 0 <= k <= n ==> Fits(rpm, t0, ts, k, n)
  {
    var w := LevelIsSomeCredit(rpm, t0, ts, n);
    assert Verdict(rpm, t0, ts, n) <==> Fits(rpm, t0, ts, w, n);
    forall k | 0 <= k <= n && Verdict(rpm, t0, ts, n) ensures Fits(rpm, t0, ts, k, n) {
      LevelBelowCredit(rpm, t0, ts, k, n);
    }
  }

  /** Admissions in a window never exceed the burst plus what the rate allows for its length. */
  lemma {:induction false} WindowBound(rpm: nat, t0: real, ts: seq<real>, i: nat, j: nat)
    requires IsRun(t0, ts) && i <= j < |ts|
    ensures Admitted(rpm, t0, ts, i, j + 1) as real <= rpm as real / 10.0 + Issued(rpm, ts[j] - ts[i])
    decreases j
  {
    if Verdict(rpm, t0, ts, j) {
      LevelBelowCredit(rpm, t0, ts, i, j);
    } else if i < j {
      WindowBound(rpm, t0, ts, i, j - 1);
      IssuedAdds(rpm, ts[j - 1] - ts[i], ts[j] - ts[j - 1]);
      assert ts[j] - ts[i] == (ts[j - 1] - ts[i]) + (ts[j] - ts[j - 1]);
      IssuedNotNegative(rpm, ts[j] - ts[j - 1]);
    } else {
      CreditOfSelf(rpm, t0, ts, i);
    }
  }

  /** The calls from `m` on, all of them between `from` and `until`, stay within the burst and rate for that time. */
  lemma SuffixBound(rpm: nat, t0: real, ts: seq<real>, m: nat, from: real, until: real)
    requires IsRun(t0, ts) && m <= |ts| && from <= until
    requires m < |ts| ==> from <= ts[m] && ts[|ts| - 1] <= until
    ensures Admitted(rpm, t0, ts, m, |ts|) as real <= rpm as real / 10.0 + Issued(rpm, until - from)
  {
    if m == |ts| {
      IssuedNotNegative(rpm, until - from);
    } else {
      var last := |ts| - 1;
      var slack := (until - ts[last]) + (ts[m] - from);
      WindowBound(rpm, t0, ts, m, last);
      IssuedAdds(rpm, ts[last] - ts[m], slack);
      IssuedNotNegative(rpm, slack);
      assert until - from == (ts[last] - ts[m]) + slack;
    }
  }

  /** A whole run admits at most the burst plus what the rate issues over the bucket's lifetime. */
  lemma RunBound(rpm: nat, t0: real, ts: seq<real>, end: real)
    requires IsRun(t0, ts) && t0 <= end && (ts != [] ==> ts[|ts| - 1] <= end)
    ensures Admitted(rpm, t0, ts, 0, |ts|) as real <= rpm as real / 10.0 + Issued(rpm, end - t0)
  {
    SuffixBound(rpm, t0, ts, 0, t0, end);
  }

  /** A policy that keeps every closed window of calls within the burst and rate of the limit. */
  ghost predicate RespectsLimit(rpm: nat, policy: seq<bool>, ts: seq<real>)
    requires |policy| == |ts|
  {
    forall i, j :: 0 <= i <= j < |ts| ==> WithinLimit(rpm, policy, ts, i, j)
  }

  ghost predicate WithinLimit(rpm: nat, policy: seq<bool>, ts: seq<real>, i: nat, j: nat)
    requires i <= j < |ts| == |policy|
  {
    CountTrue(policy, i, j + 1) as real <= rpm as real / 10.0 + Issued(rpm, ts[j] - ts[i])
  }

  /** No policy within the limit is ever ahead of the bucket, at any point of any run. */
  lemma {:induction false} BucketIsMaximal(rpm: nat, t0: real, ts: seq<real>, policy: seq<bool>, n: nat)
    requires IsRun(t0, ts) && |policy| == |ts| && n <= |ts|
    requires RespectsLimit(rpm, policy, ts)
    ensures CountTrue(policy, 0, n) <= Admitted(rpm, t0, ts, 0, n)
  {
    if n > 0 {
      var m := n - 1;
      BucketIsMaximal(rpm, t0, ts, policy, m);
      if policy[m] && !Verdict(rpm, t0, ts, m) {
        AdmitsExactly(rpm, t0, ts, m);
        var k: nat :| k <= m && !Fits(rpm, t0, ts, k, m);
        BucketIsMaximal(rpm, t0, ts, policy, k);
        AdmittedSplit(rpm, t0, ts, 0, k, m);
        CountTrueSplit(policy, 0, k, m);
        assert WithinLimit(rpm, policy, ts, k, m);
      }
    }
  }

  // ---- When the bucket admits at all ----

  lemma RefillNeverDrains(rpm: nat, b: BucketState, now: real)
    requires b.tokens <= Capacity(rpm)
    ensures b.tokens <= Refilled(rpm, b, now) <= Capacity(rpm)
  {
    IssuedNotNegative(rpm, if now < b.lastRefill then 0.0 else now - b.lastRefill);
  }

  lemma {:induction false} TokensStayInRange(rpm: nat, t0: real, ts: seq<real>, n: nat)
    requires n <= |ts|
    ensures 0.0 <= After(rpm, t0, ts, n).tokens <= Capacity(rpm)
  {
    if n > 0 {
      TokensStayInRange(rpm, t0, ts, n - 1);
      RefillNeverDrains(rpm, After(rpm, t0, ts, n - 1), ts[n - 1]);
    }
  }

  lemma OneTokenRefill(rpm: nat, gap: real)
    requires rpm > 0 && gap >= 60.0 / rpm as real
    ensures Issued(rpm, gap) >= 1.0
  {
    var r := rpm as real;
    IssuedIsProduct(rpm, gap);
    assert 60.0 / r * r == 60.0;
    assert (gap - 60.0 / r) * r >= 0.0;
    assert gap * (r / 60.0) == gap * r / 60.0;
  }

  /** With a limit of ten or more, a call is admitted if its predecessor is one token's refill away. */
  lemma {:induction false} ProgressAfterGap(rpm: nat, t0: real, ts: seq<real>, n: nat)
    requires rpm >= 10 && IsRun(t0, ts) && n < |ts|
    requires n == 0 || ts[n] - ts[n - 1] >= 60.0 / rpm as real
    ensures Verdict(rpm, t0, ts, n)
  {
    TokensStayInRange(rpm, t0, ts, n);
    if n > 0 {
      OneTokenRefill(rpm, ts[n] - ts[n - 1]);
    } else {
      RefillNeverDrains(rpm, Fresh(rpm, t0), ts[0]);
    }
  }

  /**
   Some run gets a call through exactly when the limit is at least ten requests a minute: below
   that, even the full bucket holds less than one token.
   */
  lemma AdmitsAnythingIffAtLeastTen(rpm: nat)
    requires rpm > 0
    ensures rpm >= 10 <==>
            exists t0: real, ts: seq<real>, n: nat | n < |ts| && IsRun(t0, ts) :: Verdict(rpm, t0, ts, n)
  {
    var ts := [0.0];
    RefillNeverDrains(rpm, Fresh(rpm, 0.0), 0.0);
    assert IsRun(0.0, ts);
    assert rpm >= 10 ==> Verdict(rpm, 0.0, ts, 0);
  }
}
