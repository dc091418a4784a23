/**
 The usage report: event rows of a time window grouped by a dimension, and their totals (`usage_aggregation` of
 `src/storage.rs`, `admin_usage` of `src/admin/mod.rs`). Costs are added as reals; rounding is not part of this model.
 */
module UsageReport {
  import opened Prelude
  import opened Ledger

  datatype Window = Window(since: Option<nat>, until: Option<nat>) {
    predicate Contains(at: nat) {
      (since.Some? ==> since.value <= at) && (until.Some? ==> at < until.value)
    }
  }

  /** The group of a row; `None` is SQL's null, reported as "(all)". An unknown dimension is an error. */
  function GroupKey(groupBy: string, e: UsageEvent): Result<Option<string>, string> {
    if groupBy == "alias" then Ok(Some(e.alias))
    else if groupBy == "upstream" then Ok(e.upstreamId)
    else if groupBy == "model" then Ok(e.model)
    else if groupBy == "all" then Ok(None)
    else Err("invalid group_by")
  }

  predicate ValidGroup(groupBy: string) { groupBy in ["alias", "upstream", "model", "all"] }

  datatype Column = Requests | InputTokens | OutputTokens | Cost

  datatype UsageBucket = UsageBucket(
    key: Option<string>, requests: nat, inputTokens: nat, outputTokens: nat, cost: real)
  {
    function Get(c: Column): real {
      match c
      case Requests => requests as real
      case InputTokens => inputTokens as real
      case OutputTokens => outputTokens as real
      case Cost => cost
    }

    function Plus(e: UsageEvent): UsageBucket {
      UsageBucket(key, requests + 1, inputTokens + e.inputTokens, outputTokens + e.outputTokens, cost + e.cost)
    }
  }

  /** What an event row contributes to a column. */
  function Share(e: UsageEvent, c: Column): real {
    match c
    case Requests => 1.0
    case InputTokens => e.inputTokens as real
    case OutputTokens => e.outputTokens as real
    case Cost => e.cost
  }

  /** Adds a row to the bucket of its key, or opens one. */
  function AddRow(bs: seq<UsageBucket>, key: Option<string>, e: UsageEvent): seq<UsageBucket> {
    if bs == [] then [UsageBucket(key, 0, 0, 0, 0.0).Plus(e)]
    else if bs[0].key == key then [bs[0].Plus(e)] + bs[1..]
    else [bs[0]] + AddRow(bs[1..], key, e)
  }

  function Buckets(events: seq<UsageEvent>, groupBy: string, w: Window): seq<UsageBucket>
    requires ValidGroup(groupBy)
  {
    if events == [] then []
    else
      var e := events[|events| - 1];
      var bs := Buckets(events[..|events| - 1], groupBy, w);
      if w.Contains(e.at) then AddRow(bs, GroupKey(groupBy, e).value, e) else bs
  }

  /** The total over all buckets, as the endpoint adds it up. */
  function Total(bs: seq<UsageBucket>, c: Column): real {
    if bs == [] then 0.0 else bs[0].Get(c) + Total(bs[1..], c)
  }

  /** What the bucket of a key shows; zero if there is none. */
  function Shown(bs: seq<UsageBucket>, key: Option<string>, c: Column): real {
    if bs == [] then 0.0 else if bs[0].key == key then bs[0].Get(c) else Shown(bs[1..], key, c)
  }

  // ---- The report against the rows ----

  /** Sum over the rows of the window that satisfy a test on their group. */
  function RowTotal(events: seq<UsageEvent>, groupBy: string, w: Window, keep: Option<string> -> bool, c: Column): real
    requires ValidGroup(groupBy)
  {
    if events == [] then 0.0
    else
      var e := events[|events| - 1];
      RowTotal(events[..|events| - 1], groupBy, w, keep, c) +
      if w.Contains(e.at) && keep(GroupKey(groupBy, e).value) then Share(e, c) else 0.0
  }

  const EVERY: Option<string> -> bool := (k: Option<string>) => true

  function Only(key: Option<string>): Option<string> -> bool { (k: Option<string>) => k == key }

  lemma {:induction false} AddRowGains(bs: seq<UsageBucket>, key: Option<string>, e: UsageEvent, c: Column)
    ensures Total(AddRow(bs, key, e), c) == Total(bs, c) + Share(e, c)
  {
    if bs != [] && bs[0].key != key {
      AddRowGains(bs[1..], key, e, c);
    }
  }

  lemma {:induction false} AddRowShows(bs: seq<UsageBucket>, key: Option<string>, e: UsageEvent, other: Option<string>,
                                       c: Column)
    ensures Shown(AddRow(bs, key, e), other, c) == Shown(bs, other, c) + if other == key then Share(e, c) else 0.0
  {
    if bs != [] && bs[0].key != key {
      AddRowShows(bs[1..], key, e, other, c);
    }
  }

  /** The totals of the report are the sums over the rows of the window, for every column and every grouping. */
  lemma {:induction false} ReportAddsUp(events: seq<UsageEvent>, g: string, w: Window, c: Column)
    requires ValidGroup(g)
    ensures Total(Buckets(events, g, w), c) == RowTotal(events, g, w, EVERY, c)
  {
    if events != [] {
      var e := events[|events| - 1];
      ReportAddsUp(events[..|events| - 1], g, w, c);
      AddRowGains(Buckets(events[..|events| - 1], g, w), GroupKey(g, e).value, e, c);
    }
  }

  lemma {:induction false} EveryGroupingCounts(events: seq<UsageEvent>, g: string, h: string, w: Window, c: Column)
    requires ValidGroup(g) && ValidGroup(h)
    ensures RowTotal(events, g, w, EVERY, c) == RowTotal(events, h, w, EVERY, c)
  {
    if events != [] {
      EveryGroupingCounts(events[..|events| - 1], g, h, w, c);
    }
  }

  /** They do not depend on the dimension the report is grouped by. */
  lemma GroupsPartition(events: seq<UsageEvent>, g: string, h: string, w: Window, c: Column)
    requires ValidGroup(g) && ValidGroup(h)
    ensures Total(Buckets(events, g, w), c) == Total(Buckets(events, h, w), c)
  {
    ReportAddsUp(events, g, w, c);
    ReportAddsUp(events, h, w, c);
    EveryGroupingCounts(events, g, h, w, c);
  }

  /** Each bucket shows the sum over the rows of its own group. */
  lemma {:induction false} BucketIsGroupTotal(events: seq<UsageEvent>, g: string, w: Window, key: Option<string>,
                                              c: Column)
    requires ValidGroup(g)
    ensures Shown(Buckets(events, g, w), key, c) == RowTotal(events, g, w, Only(key), c)
  {
    if events != [] {
      var e := events[|events| - 1];
      BucketIsGroupTotal(events[..|events| - 1], g, w, key, c);
      AddRowShows(Buckets(events[..|events| - 1], g, w), GroupKey(g, e).value, e, key, c);
    }
  }

  /** Sum over the rows that satisfy a test. */
  function SumWhere(events: seq<UsageEvent>, keep: UsageEvent -> bool, c: Column): real {
    if events == [] then 0.0
    else
      var e := events[|events| - 1];
      SumWhere(events[..|events| - 1], keep, c) + if keep(e) then Share(e, c) else 0.0
  }

  /** The row belongs to the window and, in the dimension, to the key. */
  predicate Selected(g: string, w: Window, key: Option<string>, e: UsageEvent) {
    && (w.since.Some? ==> w.since.value <= e.at) && (w.until.Some? ==> e.at < w.until.value)
    && (g == "alias" ==> key == Some(e.alias))
    && (g == "upstream" ==> key == e.upstreamId)
    && (g == "model" ==> key == e.model)
    && (g == "all" ==> key == None)
  }

  /** A bucket sums the rows from `since` on and before `until` of its alias, upstream or model, or all of them. */
  lemma {:induction false} BucketSumsSelected(events: seq<UsageEvent>, g: string, w: Window, key: Option<string>,
                                              c: Column)
    requires ValidGroup(g)
    ensures Shown(Buckets(events, g, w), key, c) == SumWhere(events, (e: UsageEvent) => Selected(g, w, key, e), c)
  {
    if events != [] {
      var e := events[|events| - 1];
      BucketSumsSelected(events[..|events| - 1], g, w, key, c);
      AddRowShows(Buckets(events[..|events| - 1], g, w), GroupKey(g, e).value, e, key, c);
    }
  }

  ghost predicate KeysDiffer(bs: seq<UsageBucket>) {
    forall i, j :: 0 <= i < j < |bs| ==> bs[i].key != bs[j].key
  }

  lemma {:induction false} AddRowKeys(bs: seq<UsageBucket>, key: Option<string>, e: UsageEvent)
    requires KeysDiffer(bs)
    ensures KeysDiffer(AddRow(bs, key, e))
    ensures forall b :: b in AddRow(bs, key, e) ==> b.key == key || exists a :: a in bs && a.key == b.key
  {
    if bs != [] && bs[0].key != key {
      var rest := AddRow(bs[1..], key, e);
      AddRowKeys(bs[1..], key, e);
      forall i | 0 <= i < |rest| ensures rest[i].key != bs[0].key {
        assert rest[i] in rest;
      }
    }
  }

  /** No group is reported twice. */
  lemma {:induction false} GroupsAreDistinct(events: seq<UsageEvent>, g: string, w: Window)
    requires ValidGroup(g)
    ensures KeysDiffer(Buckets(events, g, w))
  {
    if events != [] {
      var e := events[|events| - 1];
      GroupsAreDistinct(events[..|events| - 1], g, w);
      AddRowKeys(Buckets(events[..|events| - 1], g, w), GroupKey(g, e).value, e);
    }
  }

  // ---- The report against the ledger ----

  const ALWAYS := Window(None, None)

  /** The ledger's counter behind a column; costs are counted in millionths there. */
  function FieldOf(c: Column): Field
    requires c != Cost
  {
    match c
    case Requests => Field.Requests
    case InputTokens => Field.InputTokens
    case OutputTokens => Field.OutputTokens
  }

  lemma {:induction false} AliasBucketIsEventTotal(events: seq<UsageEvent>, alias: string, c: Column)
    requires c != Cost
    ensures Shown(Buckets(events, "alias", ALWAYS), Some(alias), c) == EventTotal(events, alias, FieldOf(c)) as real
  {
    if events != [] {
      var e := events[|events| - 1];
      AliasBucketIsEventTotal(events[..|events| - 1], alias, c);
      AddRowShows(Buckets(events[..|events| - 1], "alias", ALWAYS), Some(e.alias), e, Some(alias), c);
    }
  }

  /** The unbounded report by alias shows, for each key, exactly the running counters of the key. */
  lemma {:induction false} ReportMatchesCounters(ops: seq<Op>, alias: string, c: Column)
    requires c != Cost
    ensures var db := Run(ops).db;
      Shown(Buckets(db.events, "alias", ALWAYS), Some(alias), c) == CounterOf(db, alias, FieldOf(c)) as real
  {
    AliasBucketIsEventTotal(Run(ops).db.events, alias, c);
    TablesAgree(ops, alias, FieldOf(c));
  }
}
