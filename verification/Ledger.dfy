/**
 The usage ledger: in-memory spend, the running totals of each key, the event rows and the hourly history
 rows, all fed by `record_key_usage` (`src/state.rs`, `src/storage.rs`). Tables are maps and sequences;
 writes succeed unless the foreign key refuses them.
 */
module Ledger {
  import opened Prelude
  import opened KeyGates

  /** `(cost_usd * 1_000_000.0) as i64`: truncated towards zero. */
  function MicroUsd(cost: real): int {
    if cost < 0.0 then -((-cost * 1000000.0).Floor) else (cost * 1000000.0).Floor
  }

  /** The whole millionths in a cost, the fraction dropped towards zero. */
  lemma MicroUsdMeans(cost: real)
    ensures cost >= 0.0 ==> MicroUsd(cost) as real <= cost * 1000000.0 < MicroUsd(cost) as real + 1.0
    ensures cost < 0.0 ==> MicroUsd(cost) as real - 1.0 < cost * 1000000.0 <= MicroUsd(cost) as real
  {
  }

  datatype Field = Requests | InputTokens | OutputTokens | Micros

  /** Counters of a `key_usage` or `key_spend_history` row. */
  datatype Row = Row(requests: int, inputTokens: int, outputTokens: int, micros: int) {
    function Get(f: Field): int {
      match f
      case Requests => requests
      case InputTokens => inputTokens
      case OutputTokens => outputTokens
      case Micros => micros
    }

    function Plus(r: Row): Row {
      Row(requests + r.requests, inputTokens + r.inputTokens, outputTokens + r.outputTokens, micros + r.micros)
    }
  }

  const ZERO_ROW := Row(0, 0, 0, 0)

  datatype UsageEvent = UsageEvent(alias: string, upstreamId: Option<string>, model: Option<string>,
                                   inputTokens: nat, outputTokens: nat, cost: real, status: nat, at: nat)
  {
    /** What the event adds to a counter row. */
    function Delta(): Row { Row(1, inputTokens, outputTokens, MicroUsd(cost)) }
  }

  datatype Db = Db(registered: set<string>, keyUsage: map<string, Row>, events: seq<UsageEvent>,
                   history: map<(string, nat), Row>)

  const WINDOW_SECONDS := 3600

  /** The start of the hour that contains `at`. */
  function WindowStart(at: nat): (start: nat)
    ensures start <= at < start + 3600 && start % 3600 == 0
  {
    at / WINDOW_SECONDS * WINDOW_SECONDS
  }

  /** Registering a key makes sure its counter row exists. */
  function Registered(db: Db, alias: string): Db {
    db.(registered := db.registered + {alias},
        keyUsage := if alias in db.keyUsage then db.keyUsage else db.keyUsage[alias := ZERO_ROW])
  }

  /** One transaction: counter row and event row, or neither when the alias is unknown to `api_keys`. */
  function WithDelta(db: Db, e: UsageEvent): Db {
    if e.alias !in db.keyUsage && e.alias !in db.registered then db
    else
      var row := if e.alias in db.keyUsage then db.keyUsage[e.alias] else ZERO_ROW;
      db.(keyUsage := db.keyUsage[e.alias := row.Plus(e.Delta())], events := db.events + [e])
  }

  /** The history table has no foreign key. */
  function WithHistory(db: Db, e: UsageEvent, at: nat): Db {
    var k := (e.alias, WindowStart(at));
    var row := if k in db.history then db.history[k] else ZERO_ROW;
    db.(history := db.history[k := row.Plus(e.Delta())])
  }

  function WithSpendReset(db: Db, alias: string): Db {
    if alias in db.keyUsage then db.(keyUsage := db.keyUsage[alias := db.keyUsage[alias].(micros := 0)]) else db
  }

  class Storage {
    var registered: set<string>
    var keyUsage: map<string, Row>
    var usageEvents: seq<UsageEvent>
    var keySpendHistory: map<(string, nat), Row>

    ghost function State(): Db
      reads this
    {
      Db(registered, keyUsage, usageEvents, keySpendHistory)
    }

    constructor ()
      ensures State() == Db({}, map[], [], map[])
    {
      registered, keyUsage, usageEvents, keySpendHistory := {}, map[], [], map[];
    }

    method UpsertApiKey(alias: string)
      modifies this
      ensures State() == Registered(old(State()), alias)
      ensures alias in registered && alias in keyUsage
      ensures keyUsage[alias] == if alias in old(keyUsage) then old(keyUsage)[alias] else Row(0, 0, 0, 0)
    {
      registered := registered + {alias};
      if alias !in keyUsage {
        keyUsage := keyUsage[alias := ZERO_ROW];
      }
    }

    method ApplyCounterDelta(e: UsageEvent) returns (ok: bool)
      modifies this
      ensures State() == WithDelta(old(State()), e)
      ensures ok <==> e.alias in old(keyUsage) || e.alias in old(registered)
      ensures ok ==>
        && usageEvents == old(usageEvents) + [e] && e.alias in keyUsage
        && var before := if e.alias in old(keyUsage) then old(keyUsage)[e.alias] else Row(0, 0, 0, 0);
           var after := keyUsage[e.alias];
           && after.requests == before.requests + 1
           && after.inputTokens == before.inputTokens + e.inputTokens
           && after.outputTokens == before.outputTokens + e.outputTokens
           && after.micros == before.micros + MicroUsd(e.cost)
    {
      if e.alias !in keyUsage {
        if e.alias !in registered {
          return false;
        }
        keyUsage := keyUsage[e.alias := ZERO_ROW];
      }
      var row := keyUsage[e.alias];
      keyUsage := keyUsage[e.alias := Row(row.requests + 1, row.inputTokens + e.inputTokens,
                                          row.outputTokens + e.outputTokens, row.micros + MicroUsd(e.cost))];
      usageEvents := usageEvents + [e];
      return true;
    }

    method RecordSpendHistory(e: UsageEvent, at: nat)
      modifies this
      ensures State() == WithHistory(old(State()), e, at)
      ensures forall start: nat :: start <= at < start + 3600 && start % 3600 == 0 ==>
        && (e.alias, start) in keySpendHistory
        && var k := (e.alias, start);
           var before := if k in old(keySpendHistory) then old(keySpendHistory)[k] else Row(0, 0, 0, 0);
           keySpendHistory[k] == Row(before.requests + 1, before.inputTokens + e.inputTokens,
                                     before.outputTokens + e.outputTokens, before.micros + MicroUsd(e.cost))
    {
      var k := (e.alias, at / WINDOW_SECONDS * WINDOW_SECONDS);
      if k in keySpendHistory {
        var row := keySpendHistory[k];
        keySpendHistory := keySpendHistory[k := row.Plus(e.Delta())];
      } else {
        keySpendHistory := keySpendHistory[k := e.Delta()];
      }
    }

    method ResetSpend(alias: string)
      modifies this
      ensures State() == WithSpendReset(old(State()), alias)
      ensures keyUsage.Keys == old(keyUsage).Keys
      ensures forall a :: a in keyUsage ==>
        var row := old(keyUsage)[a];
        keyUsage[a] == if a == alias then Row(row.requests, row.inputTokens, row.outputTokens, 0) else row
    {
      if alias in keyUsage {
        keyUsage := keyUsage[alias := keyUsage[alias].(micros := 0)];
      }
    }
  }

  class AppState {
    const storage: Storage

    constructor (storage: Storage)
      ensures this.storage == storage
    {
      this.storage := storage;
    }

    /** Memory first, then the counters with their event, then the history at a clock reading of its own. */
    method RecordKeyUsage(rec: KeyRecord, e: UsageEvent, historyAt: nat)
      modifies rec, storage
      ensures var s := old(rec.State());
        rec.State() == s.(requests := s.requests + 1, inputTokens := s.inputTokens + e.inputTokens,
                          outputTokens := s.outputTokens + e.outputTokens,
                          spendMilli := s.spendMilli + MilliUsd(e.cost))
      ensures storage.State() == WithHistory(WithDelta(old(storage.State()), e), e, historyAt)
    {
      rec.RecordUsage(e.inputTokens, e.outputTokens, e.cost);
      var ok := storage.ApplyCounterDelta(e);
      storage.RecordSpendHistory(e, historyAt);
    }

    /** One key's turn in the background budget task: memory and ledger together. */
    method ExpireBudget(rec: KeyRecord, alias: string, now: real)
      modifies rec, storage
      ensures var due := BudgetWindowOver(rec.limits, old(rec.budgetWindowStart), now);
        && rec.State() == (if due then old(rec.State()).(spendMilli := 0, budgetStart := now) else old(rec.State()))
        && storage.State() == (if due then WithSpendReset(old(storage.State()), alias) else old(storage.State()))
    {
      var wasReset := rec.ExpireBudget(now);
      if wasReset {
        storage.ResetSpend(alias);
      }
    }
  }

  // ---- Whole runs ----

  datatype Op =
    | Register(alias: string)
    | Record(e: UsageEvent, historyAt: nat)
    | ExpireBoth(alias: string)    // the background task
    | ExpireMemory(alias: string)  // the check inside `authorize`, which does not touch the ledger

  datatype World = World(db: Db, milli: map<string, nat>)

  function Milli(w: World, alias: string): nat { if alias in w.milli then w.milli[alias] else 0 }

  function Step(w: World, op: Op): World {
    match op
    case Register(a) => w.(db := Registered(w.db, a))
    case Record(e, at) =>
      World(WithHistory(WithDelta(w.db, e), e, at), w.milli[e.alias := Milli(w, e.alias) + MilliUsd(e.cost)])
    case ExpireBoth(a) => World(WithSpendReset(w.db, a), w.milli[a := 0])
    case ExpireMemory(a) => w.(milli := w.milli[a := 0])
  }

  function Run(ops: seq<Op>): World {
    if ops == [] then World(Db({}, map[], [], map[]), map[]) else Step(Run(ops[..|ops| - 1]), ops[|ops| - 1])
  }

  // ---- Totals of the redundant tables ----

  function EventTotal(events: seq<UsageEvent>, alias: string, f: Field): int {
    if events == [] then 0
    else
      var e := events[|events| - 1];
      EventTotal(events[..|events| - 1], alias, f) + (if e.alias == alias then e.Delta().Get(f) else 0)
  }

  ghost function HistoryValues(h: map<(string, nat), Row>, alias: string, f: Field): map<(string, nat), int> {
    map k | k in h && k.0 == alias :: h[k].Get(f)
  }

  ghost function HistoryTotal(h: map<(string, nat), Row>, alias: string, f: Field): int {
    MapSum(HistoryValues(h, alias, f))
  }

  function CounterOf(db: Db, alias: string, f: Field): int {
    if alias in db.keyUsage then db.keyUsage[alias].Get(f) else 0
  }

  lemma EventTotalAppend(events: seq<UsageEvent>, e: UsageEvent, alias: string, f: Field)
    ensures EventTotal(events + [e], alias, f)
         == EventTotal(events, alias, f) + (if e.alias == alias then e.Delta().Get(f) else 0)
  {
    assert (events + [e])[..|events|] == events;
  }

  lemma HistoryGains(db: Db, e: UsageEvent, at: nat, alias: string, f: Field)
    ensures HistoryTotal(WithHistory(db, e, at).history, alias, f)
         == HistoryTotal(db.history, alias, f) + (if e.alias == alias then e.Delta().Get(f) else 0)
  {
    var k := (e.alias, WindowStart(at));
    var row := if k in db.history then db.history[k] else ZERO_ROW;
    var before := HistoryValues(db.history, alias, f);
    var after := HistoryValues(WithHistory(db, e, at).history, alias, f);
    if e.alias == alias {
      assert after == before[k := row.Plus(e.Delta()).Get(f)];
      MapSumUpdate(before, k, row.Plus(e.Delta()).Get(f));
    } else {
      assert after == before;
    }
  }

  /** Usage recorded under the alias before it was registered: it reaches the history alone. */
  function Unregistered(ops: seq<Op>, alias: string, f: Field): int {
    if ops == [] then 0
    else
      var before := ops[..|ops| - 1];
      Unregistered(before, alias, f) +
      match ops[|ops| - 1]
      case Record(e, _) => if e.alias == alias && alias !in Run(before).db.registered then e.Delta().Get(f) else 0
      case _ => 0
  }

  /** Spend on the event rows when the ledger was last reset: gone from the counter, still on the other tables. */
  function Forgiven(ops: seq<Op>, alias: string): int {
    if ops == [] then 0
    else
      var before := ops[..|ops| - 1];
      if ops[|ops| - 1] == ExpireBoth(alias) then EventTotal(Run(before).db.events, alias, Micros)
      else Forgiven(before, alias)
  }

  ghost predicate RowsExist(db: Db) { db.keyUsage.Keys == db.registered }

  lemma {:induction false} RegisteredHaveRows(ops: seq<Op>)
    ensures RowsExist(Run(ops).db)
  {
    if ops != [] {
      RegisteredHaveRows(ops[..|ops| - 1]);
    }
  }

  lemma {:induction false} NoEventsBeforeRegistration(ops: seq<Op>, alias: string, f: Field)
    requires alias !in Run(ops).db.registered
    ensures EventTotal(Run(ops).db.events, alias, f) == 0 && Forgiven(ops, alias) == 0
  {
    if ops != [] {
      var before := ops[..|ops| - 1];
      RegisteredHaveRows(before);
      NoEventsBeforeRegistration(before, alias, f);
      NoEventsBeforeRegistration(before, alias, Micros);
      if ops[|ops| - 1].Record? {
        EventTotalAppend(Run(before).db.events, ops[|ops| - 1].e, alias, f);
      }
    }
  }

  lemma DeltaGains(db: Db, e: UsageEvent, alias: string, f: Field)
    requires RowsExist(db)
    ensures var gain := if e.alias == alias && alias in db.registered then e.Delta().Get(f) else 0;
      var db' := WithDelta(db, e);
      && CounterOf(db', alias, f) == CounterOf(db, alias, f) + gain
      && EventTotal(db'.events, alias, f) == EventTotal(db.events, alias, f) + gain
      && db'.history == db.history
  {
    var db' := WithDelta(db, e);
    if e.alias in db.registered {
      var row := db.keyUsage[e.alias];
      assert db'.events == db.events + [e];
      EventTotalAppend(db.events, e, alias, f);
      assert db'.keyUsage[e.alias] == row.Plus(e.Delta());
      assert row.Plus(e.Delta()).Get(f) == row.Get(f) + e.Delta().Get(f);
    } else {
      assert db' == db;
    }
  }

  lemma {:induction false} CounterAgrees(ops: seq<Op>, alias: string, f: Field)
    ensures var db := Run(ops).db;
      CounterOf(db, alias, f) == EventTotal(db.events, alias, f) - (if f == Micros then Forgiven(ops, alias) else 0)
  {
    if ops != [] {
      var before, op := ops[..|ops| - 1], ops[|ops| - 1];
      CounterAgrees(before, alias, f);
      RegisteredHaveRows(before);
      if op.Record? {
        DeltaGains(Run(before).db, op.e, alias, f);
      } else if op == ExpireBoth(alias) && alias !in Run(before).db.registered {
        NoEventsBeforeRegistration(before, alias, Micros);
      }
    }
  }

  lemma {:induction false} HistoryAgrees(ops: seq<Op>, alias: string, f: Field)
    ensures var db := Run(ops).db;
      HistoryTotal(db.history, alias, f) == EventTotal(db.events, alias, f) + Unregistered(ops, alias, f)
  {
    if ops == [] {
      assert HistoryValues(map[], alias, f) == map[];
    } else {
      var before, op := ops[..|ops| - 1], ops[|ops| - 1];
      HistoryAgrees(before, alias, f);
      RegisteredHaveRows(before);
      if op.Record? {
        DeltaGains(Run(before).db, op.e, alias, f);
        HistoryGains(WithDelta(Run(before).db, op.e), op.e, op.historyAt, alias, f);
      }
    }
  }

  /**
   The tables agree after any run: the counters of a key are its event totals, less the spend forgiven by
   ledger resets; its hourly history adds up to the same plus whatever was recorded before registration.
   */
  lemma TablesAgree(ops: seq<Op>, alias: string, f: Field)
    ensures var db := Run(ops).db; var events := EventTotal(db.events, alias, f);
      && CounterOf(db, alias, f) == events - (if f == Micros then Forgiven(ops, alias) else 0)
      && HistoryTotal(db.history, alias, f) == events + Unregistered(ops, alias, f)
  {
    CounterAgrees(ops, alias, f);
    HistoryAgrees(ops, alias, f);
  }

  // ---- Memory against the ledger ----

  /** A cost is at least -0.000001, the point where it starts to lower the stored total. */
  predicate Fair(cost: real) { cost > -0.000001 }

  /** Thousandths and millionths of one cost agree to the last thousandth exactly for fair costs. */
  lemma MilliMicro(cost: real)
    ensures 1000 * MilliUsd(cost) <= MicroUsd(cost) <= 1000 * MilliUsd(cost) + 999 <==> Fair(cost)
  {
    if cost > 0.0 {
      var m, u := (cost * 1000.0).Floor, (cost * 1000000.0).Floor;
      assert m as real <= cost * 1000.0 < m as real + 1.0;
      assert u as real <= cost * 1000000.0 < u as real + 1.0;
      assert (1000 * m) as real <= cost * 1000000.0 < (1000 * m + 1000) as real;
    } else {
      var u := (-cost * 1000000.0).Floor;
      assert u as real <= -cost * 1000000.0 < u as real + 1.0;
    }
  }

  /** Every usage of the alias was recorded at a fair cost, after registration. */
  predicate Orderly(ops: seq<Op>, alias: string) {
    ops == [] || (
      var before := ops[..|ops| - 1];
      Orderly(before, alias) &&
      match ops[|ops| - 1]
      case Record(e, _) => e.alias == alias ==> Fair(e.cost) && alias in Run(before).db.registered
      case _ => true)
  }

  /** Memory was reset without the ledger since both were last reset together. */
  predicate MemoryResetAlone(ops: seq<Op>, alias: string) {
    ops != [] && (ops[|ops| - 1] == ExpireMemory(alias)
                  || (ops[|ops| - 1] != ExpireBoth(alias) && MemoryResetAlone(ops[..|ops| - 1], alias)))
  }

  /** Records of the alias since its memory was last reset, alone or together with the ledger. */
  function RecordsSince(ops: seq<Op>, alias: string): nat {
    if ops == [] || ops[|ops| - 1] in {ExpireBoth(alias), ExpireMemory(alias)} then 0
    else
      var op := ops[|ops| - 1];
      RecordsSince(ops[..|ops| - 1], alias) + Flag(op.Record? && op.e.alias == alias)
  }

  /** Millionths that the truncation to thousandths has cost memory since its last reset. */
  function Truncated(ops: seq<Op>, alias: string): int {
    if ops == [] || ops[|ops| - 1] in {ExpireBoth(alias), ExpireMemory(alias)} then 0
    else
      Truncated(ops[..|ops| - 1], alias) +
      match ops[|ops| - 1]
      case Record(e, _) => if e.alias == alias then MicroUsd(e.cost) - 1000 * MilliUsd(e.cost) else 0
      case _ => 0
  }

  /** Stored spend that memory has forgotten: what was stored when memory was last reset alone. */
  function Lag(ops: seq<Op>, alias: string): int {
    if ops == [] || ops[|ops| - 1] == ExpireBoth(alias) then 0
    else if ops[|ops| - 1] == ExpireMemory(alias) then CounterOf(Run(ops[..|ops| - 1]).db, alias, Micros)
    else Lag(ops[..|ops| - 1], alias)
  }

  lemma {:induction false} OrderlyLosesNothing(ops: seq<Op>, alias: string, f: Field)
    requires Orderly(ops, alias)
    ensures Unregistered(ops, alias, f) == 0
  {
    if ops != [] {
      OrderlyLosesNothing(ops[..|ops| - 1], alias, f);
    }
  }

  lemma {:induction false} NothingForgiven(ops: seq<Op>, alias: string)
    requires forall i :: 0 <= i < |ops| ==> ops[i] != ExpireBoth(alias)
    ensures Forgiven(ops, alias) == 0
  {
    if ops != [] {
      NothingForgiven(ops[..|ops| - 1], alias);
    }
  }

  /** Without ledger resets, counters, events and hourly history of a registered key hold the same totals. */
  lemma {:induction false} LedgersEqual(ops: seq<Op>, alias: string, f: Field)
    requires Orderly(ops, alias) && forall i :: 0 <= i < |ops| ==> ops[i] != ExpireBoth(alias)
    ensures var db := Run(ops).db;
      CounterOf(db, alias, f) == EventTotal(db.events, alias, f) == HistoryTotal(db.history, alias, f)
  {
    TablesAgree(ops, alias, f);
    OrderlyLosesNothing(ops, alias, f);
    NothingForgiven(ops, alias);
  }

  /**
   The stored spend is what memory has forgotten, plus the enforced spend, plus what truncation cost: less than a
   thousandth of a dollar a record. Nothing is forgotten while memory is only reset together with the ledger.
   */
  lemma {:induction false} MemoryTracksLedger(ops: seq<Op>, alias: string)
    requires Orderly(ops, alias)
    ensures var w := Run(ops); var micros := CounterOf(w.db, alias, Micros);
      && micros == Lag(ops, alias) + 1000 * Milli(w, alias) + Truncated(ops, alias)
      && 0 <= Truncated(ops, alias) <= 999 * RecordsSince(ops, alias)
    ensures 0 <= Lag(ops, alias) && (!MemoryResetAlone(ops, alias) ==> Lag(ops, alias) == 0)
  {
    if ops != [] {
      var before, op := ops[..|ops| - 1], ops[|ops| - 1];
      MemoryTracksLedger(before, alias);
      RegisteredHaveRows(before);
      if op.Record? {
        MilliMicro(op.e.cost);
      }
    }
  }

  /** The enforced spend accounts for the stored spend, up to the rounding of each record since the last reset. */
  predicate InStep(ops: seq<Op>, alias: string) {
    var m, micros := Milli(Run(ops), alias), CounterOf(Run(ops).db, alias, Micros);
    1000 * m <= micros <= 1000 * m + 999 * RecordsSince(ops, alias)
  }

  /** They are in step exactly when what memory has forgotten still fits into the allowance for rounding. */
  lemma InStepIff(ops: seq<Op>, alias: string)
    requires Orderly(ops, alias)
    ensures InStep(ops, alias) <==> Lag(ops, alias) <= 999 * RecordsSince(ops, alias) - Truncated(ops, alias)
    ensures !MemoryResetAlone(ops, alias) ==> InStep(ops, alias)
  {
    MemoryTracksLedger(ops, alias);
  }

  /** A reset of memory alone leaves the two in step exactly when nothing was stored. */
  lemma MemoryResetInStepIff(ops: seq<Op>, alias: string)
    requires Orderly(ops, alias)
    ensures InStep(ops + [ExpireMemory(alias)], alias) <==> CounterOf(Run(ops).db, alias, Micros) == 0
  {
    var after := ops + [ExpireMemory(alias)];
    assert after[..|ops|] == ops;
    MemoryTracksLedger(ops, alias);
  }

  /** So many millionths spent, then a reset of memory alone. */
  function DivergingRun(micros: nat): seq<Op> {
    var e := UsageEvent("k", None, None, 0, 0, micros as real / 1000000.0, 200, 0);
    [Register("k"), Record(e, 0), ExpireMemory("k")]
  }

  /** So the two can be arbitrarily far apart: any stored spend against none enforced. */
  lemma MemoryResetDiverges(micros: nat)
    ensures var ops := DivergingRun(micros); var w := Run(ops);
      && Orderly(ops, "k") && Milli(w, "k") == 0 && CounterOf(w.db, "k", Micros) == micros
      && (InStep(ops, "k") <==> micros == 0)
  {
    var ops := DivergingRun(micros);
    var e := ops[1].e;
    assert MicroUsd(e.cost) == micros;
    assert ops[..2] == [Register("k"), Record(e, 0)] && ops[..2][..1] == [Register("k")] && [Register("k")][..0] == [];
    assert "k" in Run([Register("k")]).db.registered;
    assert Orderly([Register("k")], "k") && Orderly(ops[..2], "k");
    assert CounterOf(Run(ops[..2]).db, "k", Micros) == micros;
    assert ops == ops[..2] + [ExpireMemory("k")];
    MemoryResetInStepIff(ops[..2], "k");
  }
}
