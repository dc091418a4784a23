/** Small shared vocabulary: optional values, clamps and 32-bit counters. */
module Prelude {
  datatype Option<+T> = None | Some(value: T)

  datatype Result<+T, +E> = Ok(value: T) | Err(error: E)

  function Max(a: int, b: int): int { if a < b then b else a }

  function Min(a: int, b: int): int { if a < b then a else b }

  function MinReal(a: real, b: real): real { if a < b then a else b }

  /** Number of values of the source's `AtomicU32` counters. */
  const U32_SIZE := 0x1_0000_0000

  type uint32 = n: nat | n < U32_SIZE

  /** `fetch_add(1)` on an `AtomicU32`: wraps around. */
  function Inc32(n: uint32): uint32 { if n + 1 == U32_SIZE then 0 else n + 1 }

  /** `fetch_sub(1)` on an `AtomicU32`: wraps around below zero. */
  function Dec32(n: uint32): uint32 { if n == 0 then U32_SIZE - 1 else n - 1 }

  /** The largest value of the source's 64-bit counters. */
  const U64_MAX: nat := 0xFFFF_FFFF_FFFF_FFFF

  ghost predicate NonDecreasing(ts: seq<real>) {
    forall i, j :: 0 <= i <= j < |ts| ==> ts[i] <= ts[j]
  }

  /** Clock readings in order, none before `t0`. */
  ghost predicate IsRun(t0: real, ts: seq<real>) {
    NonDecreasing(ts) && forall i :: 0 <= i < |ts| ==> t0 <= ts[i]
  }

  /** Number of `true` entries of `vs` at positions `lo <= i < hi`. */
  function CountTrue(vs: seq<bool>, lo: nat, hi: nat): nat
    requires lo <= hi <= |vs|
    decreases hi
  {
    if lo == hi then 0
    else CountTrue(vs, lo, hi - 1) + (if vs[hi - 1] then 1 else 0)
  }

  lemma {:induction false} CountTrueSplit(vs: seq<bool>, lo: nat, mid: nat, hi: nat)
    requires lo <= mid <= hi <= |vs|
    ensures CountTrue(vs, lo, hi) == CountTrue(vs, lo, mid) + CountTrue(vs, mid, hi)
    decreases hi
  {
    if mid < hi {
      CountTrueSplit(vs, lo, mid, hi - 1);
    }
  }

  // ---- Counting the elements of a sequence that satisfy a test ----

  function Flag(b: bool): nat { if b then 1 else 0 }

  function CountIf<T>(p: T -> bool, s: seq<T>): nat {
    if s == [] then 0 else CountIf(p, s[..|s| - 1]) + Flag(p(s[|s| - 1]))
  }

  lemma {:induction false} CountUpdate<T>(p: T -> bool, s: seq<T>, t: nat, x: T)
    requires t < |s|
    ensures CountIf(p, s[t := x]) == CountIf(p, s) - Flag(p(s[t])) + Flag(p(x))
  {
    var m := |s| - 1;
    if t == m {
      assert s[t := x][..m] == s[..m];
    } else {
      assert s[t := x][..m] == s[..m][t := x];
      CountUpdate(p, s[..m], t, x);
    }
  }

  lemma CountAppend<T>(p: T -> bool, s: seq<T>, x: T)
    ensures CountIf(p, s + [x]) == CountIf(p, s) + Flag(p(x))
  {
    assert (s + [x])[..|s|] == s;
  }

  lemma {:induction false} CountBounds<T>(p: T -> bool, s: seq<T>, t: nat)
    requires t < |s|
    ensures Flag(p(s[t])) <= CountIf(p, s) <= |s|
  {
    var m := |s| - 1;
    if m > 0 {
      CountBounds(p, s[..m], if t < m then t else 0);
    }
  }

  lemma {:induction false} CountNone<T>(p: T -> bool, s: seq<T>)
    requires forall t :: 0 <= t < |s| ==> !p(s[t])
    ensures CountIf(p, s) == 0
  {
    if s != [] {
      CountNone(p, s[..|s| - 1]);
    }
  }

  /** A stricter test is satisfied no more often. */
  lemma {:induction false} CountMonotone<T>(p: T -> bool, q: T -> bool, s: seq<T>)
    requires forall t :: 0 <= t < |s| && p(s[t]) ==> q(s[t])
    ensures CountIf(p, s) <= CountIf(q, s)
  {
    if s != [] {
      CountMonotone(p, q, s[..|s| - 1]);
    }
  }

  // ---- Totals over the values of a map ----

  ghost function MapSum<K(!new)>(m: map<K, int>): int {
    if m == map[] then 0 else var k :| k in m; m[k] + MapSum(m - {k})
  }

  lemma {:induction false} MapSumRemove<K(!new)>(m: map<K, int>, k: K)
    requires k in m
    ensures MapSum(m) == m[k] + MapSum(m - {k})
    decreases |m|
  {
    var p: K :| p in m && MapSum(m) == m[p] + MapSum(m - {p});
    if p != k {
      MapSumRemove(m - {p}, k);
      MapSumRemove(m - {k}, p);
      assert m - {p} - {k} == m - {k} - {p};
    }
  }

  lemma MapSumUpdate<K(!new)>(m: map<K, int>, k: K, v: int)
    ensures MapSum(m[k := v]) == MapSum(m) - (if k in m then m[k] else 0) + v
  {
    MapSumRemove(m[k := v], k);
    assert m[k := v] - {k} == m - {k};
    if k in m {
      MapSumRemove(m, k);
    } else {
      assert m - {k} == m;
    }
  }

  lemma {:induction false} MapSumZero<K(!new)>(m: map<K, int>)
    requires forall k :: k in m ==> m[k] == 0
    ensures MapSum(m) == 0
    decreases |m|
  {
    if m != map[] {
      var k :| k in m;
      MapSumRemove(m, k);
      MapSumZero(m - {k});
    }
  }
}
