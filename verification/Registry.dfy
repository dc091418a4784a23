/**
 The upstream registry and the model filter: which upstreams a request may use, and in what order they are
 tried (`src/upstream/mod.rs`, `filter_upstreams_for_model` of `src/proxy/mod.rs`).
 */
module Registry {
  import opened Prelude
  import opened Upstreams

  // ---- The order: higher priority first, then the smaller id ----

  predicate StringLess(a: string, b: string) {
    if b == [] then false
    else if a == [] then true
    else if a[0] == b[0] then StringLess(a[1..], b[1..])
    else a[0] < b[0]
  }

  predicate Precedes(c: UpstreamConfig, d: UpstreamConfig) {
    c.priority > d.priority || (c.priority == d.priority && StringLess(c.id, d.id))
  }

  /** Lexicographic order: after a common beginning `a` ends first or has the smaller character. */
  ghost predicate Lexicographic(a: string, b: string) {
    exists n: nat | n <= |a| && n < |b| :: a[..n] == b[..n] && (n == |a| || a[n] < b[n])
  }

  lemma {:induction false} StringLessIsLexicographic(a: string, b: string)
    ensures StringLess(a, b) <==> Lexicographic(a, b)
  {
    if a != [] && b != [] && a[0] == b[0] {
      StringLessIsLexicographic(a[1..], b[1..]);
      if Lexicographic(a[1..], b[1..]) {
        var x, y := a[1..], b[1..];
        var n: nat :| n <= |x| && n < |y| && x[..n] == y[..n] && (n == |x| || x[n] < y[n]);
        assert a[..n + 1] == [a[0]] + a[1..][..n] && b[..n + 1] == [b[0]] + b[1..][..n];
        assert n + 1 == |a| || a[n + 1] < b[n + 1];
      }
      if Lexicographic(a, b) {
        var n: nat :| n <= |a| && n < |b| && a[..n] == b[..n] && (n == |a| || a[n] < b[n]);
        assert a[1..][..n - 1] == a[..n][1..] && b[1..][..n - 1] == b[..n][1..];
      }
    } else if a == [] && b != [] {
      assert a[..0] == b[..0];
    } else if a != [] && b != [] && a[0] < b[0] {
      assert a[..0] == b[..0];
    }
  }

  /** What it means that one upstream is listed before another. */
  lemma PrecedesMeans(c: UpstreamConfig, d: UpstreamConfig)
    ensures Precedes(c, d) <==> c.priority > d.priority || (c.priority == d.priority && Lexicographic(c.id, d.id))
  {
    StringLessIsLexicographic(c.id, d.id);
  }

  lemma {:induction false} StringLessTransitive(a: string, b: string, c: string)
    requires StringLess(a, b) && StringLess(b, c)
    ensures StringLess(a, c)
  {
    if a != [] && a[0] == b[0] && b[0] == c[0] {
      StringLessTransitive(a[1..], b[1..], c[1..]);
    }
  }

  lemma {:induction false} StringLessTotal(a: string, b: string)
    ensures StringLess(a, b) || StringLess(b, a) || a == b
    ensures !(StringLess(a, b) && StringLess(b, a)) && !StringLess(a, a)
  {
    if a != [] {
      StringLessTotal(a[1..], a[1..]);
      if b != [] && a[0] == b[0] {
        StringLessTotal(a[1..], b[1..]);
        assert a[1..] == b[1..] ==> a == [a[0]] + a[1..] == b;
      }
    }
  }

  lemma PrecedesTransitive(c: UpstreamConfig, d: UpstreamConfig, e: UpstreamConfig)
    requires Precedes(c, d) && Precedes(d, e)
    ensures Precedes(c, e)
  {
    if StringLess(c.id, d.id) && StringLess(d.id, e.id) {
      StringLessTransitive(c.id, d.id, e.id);
    }
  }

  ghost predicate Ordered(s: seq<Upstream>) {
    forall i, j :: 0 <= i < j < |s| ==> Precedes(s[i].cfg, s[j].cfg)
  }

  lemma OrderedIsDistinct(s: seq<Upstream>)
    requires Ordered(s)
    ensures forall i, j :: 0 <= i < j < |s| ==> s[i] != s[j]
  {
    forall i, j | 0 <= i < j < |s| ensures s[i] != s[j] {
      StringLessTotal(s[i].cfg.id, s[i].cfg.id);
    }
  }

  /** One sequence at most lists a given set of upstreams in order: the table's iteration order is irrelevant. */
  lemma {:induction false} OrderIsUnique(s: seq<Upstream>, t: seq<Upstream>)
    requires Ordered(s) && Ordered(t) && forall u :: u in s <==> u in t
    ensures s == t
  {
    assert |s| > 0 ==> s[0] in s;
    assert |t| > 0 ==> t[0] in t;
    if s != [] && t != [] {
      assert s[0] == t[0] by {
        StringLessTotal(s[0].cfg.id, t[0].cfg.id);
      }
      OrderedIsDistinct(s);
      OrderedIsDistinct(t);
      forall u ensures u in s[1..] <==> u in t[1..] {
        assert u in s <==> u == s[0] || u in s[1..];
        assert u in t <==> u == t[0] || u in t[1..];
      }
      OrderIsUnique(s[1..], t[1..]);
      assert s == [s[0]] + s[1..] && t == [t[0]] + t[1..];
    }
  }

  /** `sort_by`, as insertion: only its result matters, and that is unique. */
  function Insert(u: Upstream, s: seq<Upstream>): (r: seq<Upstream>)
    ensures u in r && (forall v | v in s :: v in r) && (forall v | v in r :: v == u || v in s)
  {
    if s == [] then [u]
    else if Precedes(u.cfg, s[0].cfg) then [u] + s
    else
      [s[0]] + Insert(u, s[1..])
  }

  lemma {:induction false} InsertKeepsOrder(u: Upstream, s: seq<Upstream>)
    requires Ordered(s) && forall v :: v in s ==> v.cfg.id != u.cfg.id
    ensures Ordered(Insert(u, s))
  {
    if s != [] {
      if Precedes(u.cfg, s[0].cfg) {
        forall i | 0 <= i < |s| ensures Precedes(u.cfg, s[i].cfg) {
          if i > 0 {
            PrecedesTransitive(u.cfg, s[0].cfg, s[i].cfg);
          }
        }
      } else {
        InsertKeepsOrder(u, s[1..]);
        StringLessTotal(u.cfg.id, s[0].cfg.id);
        assert s[0] in s;
        var rest := Insert(u, s[1..]);
        forall i | 0 <= i < |rest| ensures Precedes(s[0].cfg, rest[i].cfg) {
          assert rest[i] in rest;
        }
      }
    }
  }

  // ---- Which upstreams a request may use ----

  function OfKind(s: seq<Upstream>, kind: ProviderKind): (r: seq<Upstream>)
    ensures forall u | u in r :: u in s && u.cfg.kind == kind
    ensures forall u | u in s && u.cfg.kind == kind :: u in r
  {
    if s == [] then []
    else (if s[0].cfg.kind == kind then [s[0]] else []) + OfKind(s[1..], kind)
  }

  function Listing(s: seq<Upstream>, model: string): (r: seq<Upstream>)
    ensures forall u | u in r :: u in s && model in u.cfg.models
    ensures forall u | u in s && model in u.cfg.models :: u in r
  {
    if s == [] then []
    else (if model in s[0].cfg.models then [s[0]] else []) + Listing(s[1..], model)
  }

  /** Some upstream of the list restricts its models. */
  predicate AnyModels(s: seq<Upstream>) {
    exists i :: 0 <= i < |s| && s[i].cfg.models != []
  }

  /**
   Upstream `u` of the list serves `model`. As soon as any upstream of the list names its models, those
   that name none are passed over.
   */
  predicate ModelEligible(s: seq<Upstream>, u: Upstream, model: Option<string>) {
    model.Some? && AnyModels(s) ==> model.value in u.cfg.models
  }

  lemma AheadOfTail(s: seq<Upstream>, v: Upstream)
    requires Ordered(s) && s != [] && v in s[1..]
    ensures Precedes(s[0].cfg, v.cfg)
  {
  }

  lemma {:induction false} OfKindKeepsOrder(s: seq<Upstream>, kind: ProviderKind)
    requires Ordered(s)
    ensures Ordered(OfKind(s, kind))
  {
    if s != [] {
      OfKindKeepsOrder(s[1..], kind);
      var rest := OfKind(s[1..], kind);
      forall i | 0 <= i < |rest| ensures Precedes(s[0].cfg, rest[i].cfg) {
        assert rest[i] in rest;
        AheadOfTail(s, rest[i]);
      }
    }
  }

  lemma {:induction false} ListingKeepsOrder(s: seq<Upstream>, model: string)
    requires Ordered(s)
    ensures Ordered(Listing(s, model))
  {
    if s != [] {
      ListingKeepsOrder(s[1..], model);
      var rest := Listing(s[1..], model);
      forall i | 0 <= i < |rest| ensures Precedes(s[0].cfg, rest[i].cfg) {
        assert rest[i] in rest;
        AheadOfTail(s, rest[i]);
      }
    }
  }

  lemma {:induction false} ListingAppend(s: seq<Upstream>, u: Upstream, model: string)
    ensures Listing(s + [u], model) == Listing(s, model) + Listing([u], model)
  {
    if s == [] {
      assert s + [u] == [u];
    } else {
      assert (s + [u])[1..] == s[1..] + [u];
      ListingAppend(s[1..], u, model);
    }
  }

  /** The upstreams a request for the model may use, in the order of the list. */
  function Filtered(s: seq<Upstream>, model: Option<string>): seq<Upstream> {
    if model.Some? && AnyModels(s) then Listing(s, model.value) else s
  }

  lemma FilteredAreEligible(s: seq<Upstream>, model: Option<string>)
    ensures forall u :: u in Filtered(s, model) <==> u in s && ModelEligible(s, u, model)
  {
  }

  lemma FilteredKeepsOrder(s: seq<Upstream>, model: Option<string>)
    requires Ordered(s)
    ensures Ordered(Filtered(s, model))
  {
    if model.Some? {
      ListingKeepsOrder(s, model.value);
    }
  }

  lemma FilteredIsRight(s: seq<Upstream>, model: Option<string>)
    ensures forall u :: u in Filtered(s, model) <==> u in s && ModelEligible(s, u, model)
    ensures Ordered(s) ==> Ordered(Filtered(s, model))
  {
    FilteredAreEligible(s, model);
    if Ordered(s) {
      FilteredKeepsOrder(s, model);
    }
  }

  /** An upstream that names no models is kept for a named one exactly as long as no upstream of the list names any. */
  lemma EmptyListServesIff(s: seq<Upstream>, u: Upstream, model: string)
    requires u in s && u.cfg.models == []
    ensures u in Filtered(s, Some(model)) <==> !AnyModels(s)
  {
    FilteredAreEligible(s, Some(model));
  }

  /** So an empty model list does not forward everything: beside an upstream for "m", it does not even serve "m". */
  lemma EmptyListIsPassedOver(u: Upstream, v: Upstream)
    requires u.cfg.models == [] && v.cfg.models == ["m"]
    ensures Filtered([u, v], Some("m")) == [v] && Filtered([u], Some("m")) == [u]
  {
    assert [u, v][1].cfg.models != [];
    assert [u, v][1..] == [v] && [v][1..] == [];
    assert Listing([v], "m") == [v];
  }

  lemma AnyModelsAppend(s: seq<Upstream>, u: Upstream)
    ensures AnyModels(s + [u]) <==> AnyModels(s) || u.cfg.models != []
  {
    if AnyModels(s) {
      var i :| 0 <= i < |s| && s[i].cfg.models != [];
      assert (s + [u])[i].cfg.models != [];
    }
    assert (s + [u])[|s|] == u;
  }

  /** What the next upstream adds to the scan of the list. */
  lemma FilterStep(s: seq<Upstream>, n: nat, model: string)
    requires n < |s|
    ensures Listing(s[..n + 1], model) == Listing(s[..n], model) + if model in s[n].cfg.models then [s[n]] else []
    ensures AnyModels(s[..n + 1]) <==> AnyModels(s[..n]) || s[n].cfg.models != []
  {
    assert s[..n + 1] == s[..n] + [s[n]];
    ListingAppend(s[..n], s[n], model);
    AnyModelsAppend(s[..n], s[n]);
  }

  method FilterUpstreamsForModel(upstreams: seq<Upstream>, model: Option<string>) returns (result: seq<Upstream>)
    ensures result == Filtered(upstreams, model)
    ensures forall u :: u in result <==> u in upstreams && ModelEligible(upstreams, u, model)
    ensures Ordered(upstreams) ==> Ordered(result)
  {
    FilteredIsRight(upstreams, model);
    if model == None {
      return upstreams;
    }
    var matched: seq<Upstream> := [];
    var anyFilter := false;
    for n := 0 to |upstreams|
      invariant matched == Listing(upstreams[..n], model.value)
      invariant anyFilter == AnyModels(upstreams[..n])
    {
      var u := upstreams[n];
      FilterStep(upstreams, n, model.value);
      if u.cfg.models != [] {
        anyFilter := true;
        if model.value in u.cfg.models {
          matched := matched + [u];
        }
      }
    }
    assert upstreams[..|upstreams|] == upstreams;
    if anyFilter {
      return matched;
    }
    return upstreams;
  }

  // ---- The registry ----

  class UpstreamRegistry {
    var upstreams: map<string, Upstream>
    var byProvider: seq<Upstream>

    ghost predicate Listed(u: Upstream)
      reads this
    {
      u.cfg.id in upstreams && upstreams[u.cfg.id] == u
    }

    /** The sorted list holds exactly the registered upstreams, and no two share state. */
    ghost predicate Valid()
      reads this
    {
      && (forall id :: id in upstreams ==> upstreams[id].cfg.id == id)
      && Ordered(byProvider)
      && (forall u | u in byProvider :: Listed(u))
      && (forall id | id in upstreams :: upstreams[id] in byProvider)
      && (forall u, v :: u in byProvider && v in byProvider && u != v ==> u.Repr() !! v.Repr())
    }

    constructor ()
      ensures Valid() && upstreams == map[]
    {
      upstreams := map[];
      byProvider := [];
    }

    /** Replaces the object registered under the id, or adds one. */
    method Upsert(cfg: UpstreamConfig, enabled: bool, now: real) returns (u: Upstream)
      requires Valid()
      modifies this
      ensures Valid()
      ensures fresh(u) && u.Valid() && u.cfg == cfg && u.State() == FreshState(cfg, enabled, now)
      ensures upstreams == old(upstreams)[cfg.id := u]
    {
      u := new Upstream.FromConfig(cfg, enabled, now);
      upstreams := upstreams[cfg.id := u];
      RebuildByProvider();
    }

    method Remove(id: string) returns (removed: bool)
      requires Valid()
      modifies this
      ensures Valid()
      ensures removed == (id in old(upstreams)) && upstreams == old(upstreams) - {id}
    {
      removed := id in upstreams;
      upstreams := upstreams - {id};
      if removed {
        RebuildByProvider();
      }
    }

    method RebuildByProvider()
      requires forall id :: id in upstreams ==> upstreams[id].cfg.id == id
      requires forall i, j :: i in upstreams && j in upstreams && i != j ==> upstreams[i].Repr() !! upstreams[j].Repr()
      modifies this`byProvider
      ensures Valid()
      ensures forall i, j :: 0 <= i < j < |byProvider| ==>
        && byProvider[i].cfg.priority >= byProvider[j].cfg.priority
        && (byProvider[i].cfg.priority == byProvider[j].cfg.priority ==>
              Lexicographic(byProvider[i].cfg.id, byProvider[j].cfg.id))
    {
      var all: seq<Upstream> := [];
      var rest := upstreams.Keys;
      while rest != {}
        invariant rest <= upstreams.Keys && Ordered(all)
        invariant forall u :: u in all <==> Listed(u) && u.cfg.id !in rest
        decreases rest
      {
        var id :| id in rest;
        InsertKeepsOrder(upstreams[id], all);
        all := Insert(upstreams[id], all);
        rest := rest - {id};
      }
      byProvider := all;
      forall i, j | 0 <= i < j < |all|
        ensures all[i].cfg.priority >= all[j].cfg.priority
        ensures all[i].cfg.priority == all[j].cfg.priority ==> Lexicographic(all[i].cfg.id, all[j].cfg.id)
      {
        PrecedesMeans(all[i].cfg, all[j].cfg);
      }
    }

    method ByProvider(kind: ProviderKind) returns (result: seq<Upstream>)
      requires Valid()
      ensures Ordered(result)
      ensures forall u :: u in result <==> Listed(u) && u.cfg.kind == kind
    {
      result := OfKind(byProvider, kind);
      OfKindKeepsOrder(byProvider, kind);
    }
  }
}
