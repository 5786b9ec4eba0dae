/** The event fold as the report runs it, and that its counters add up. */
module OperationsFold {
  import opened Common
  import opened BucketFold
  import opened OperationsReport

  lemma CountsAdd(a: Counts, b: Counts, c: Counts)
    ensures PlusCounts(a, NO_COUNTS) == a && PlusCounts(a, b) == PlusCounts(b, a)
    ensures PlusCounts(PlusCounts(a, b), c) == PlusCounts(a, PlusCounts(b, c))
  {
    MultisetsAdd(a.statuses, b.statuses, c.statuses);
    MultisetsAdd(a.tokenSources, b.tokenSources, c.tokenSources);
    MultisetsAdd(a.pricingSources, b.pricingSources, c.pricingSources);
    MultisetsAdd(a.slos, b.slos, c.slos);
    MultisetsAdd(a.budgets, b.budgets, c.budgets);
    MultisetsAdd(a.annotations, b.annotations, c.annotations);
    MultisetsAdd(a.alerts, b.alerts, c.alerts);
  }

  lemma MultisetsAdd(a: multiset<string>, b: multiset<string>, c: multiset<string>)
    ensures a + multiset{} == a && a + b == b + a && (a + b) + c == a + (b + c)
  {
  }

  lemma StatsAdd(a: Stats, b: Stats, c: Stats)
    ensures Plus(a, NO_STATS) == a && Plus(a, b) == Plus(b, a) && Plus(Plus(a, b), c) == Plus(a, Plus(b, c))
  {
    hide PlusCounts;
    CountsAdd(a.counts, b.counts, c.counts);
  }

  lemma AddingIsLawful(inherited: string -> bool)
    ensures Lawful(Adding(inherited))
  {
    hide Plus;
    forall x ensures Plus(x, NO_STATS) == x { StatsAdd(x, x, x); }
    forall x, y ensures Plus(x, y) == Plus(y, x) { StatsAdd(x, y, x); }
    forall x, y, z ensures Plus(Plus(x, y), z) == Plus(x, Plus(y, z)) { StatsAdd(x, y, z); }
  }

  // ---- the fold as the report runs it

  /** `increment`. */
  function Increment(inherited: string -> bool, counts: multiset<string>, key: string): multiset<string> {
    counts + Counted(inherited, key)
  }

  /** The loops over annotations and alerts; reading the id of a null entry raises. */
  method IncrementAll(inherited: string -> bool, counts: multiset<string>, ids: seq<Option<string>>)
    returns (r: multiset<string>, raised: bool)
    ensures raised <==> None in ids
    ensures !raised ==> r == counts + Tally(inherited, ids)
  {
    r := counts;
    var i := 0;
    while i < |ids|
      invariant 0 <= i <= |ids|
      invariant None !in ids[..i]
      invariant r == counts + Tally(inherited, ids[..i])
    {
      if ids[i].None? { return r, true; }
      assert ids[..i + 1][..i] == ids[..i];
      r := Increment(inherited, r, ids[i].value);
      i := i + 1;
    }
    assert ids[..i] == ids;
    raised := false;
  }

  predicate HasNull(e: Event) {
    None in e.annotations || None in e.alerts
  }

  method AddFlags(flags: Flags, e: Event) returns (r: Flags)
    ensures r == PlusFlags(flags, FlagsOf(e))
  {
    hide SloStatus;
    var slo := SloStatus(e);
    r := flags;
    if |e.alerts| > 0 { r := r.(alertEvents := r.alertEvents + 1); }
    if e.status == "ok" { r := r.(ok := r.ok + 1); }
    if e.status == "error" { r := r.(errors := r.errors + 1); }
    if slo != "unavailable" { r := r.(sloObserved := r.sloObserved + 1); }
    if slo == "breach" { r := r.(sloBreached := r.sloBreached + 1); }
    if e.budgetStatus == "exceeded" { r := r.(budgetExceeded := r.budgetExceeded + 1); }
  }

  method AddCounts(inherited: string -> bool, counts: Counts, e: Event) returns (r: Counts, raised: bool)
    ensures raised <==> HasNull(e)
    ensures !raised ==> r == PlusCounts(counts, CountsOf(inherited, e))
  {
    hide Counted, Tally, SloStatus;
    r := counts;
    var annotations, alerts;
    annotations, raised := IncrementAll(inherited, counts.annotations, e.annotations);
    if raised { return; }
    alerts, raised := IncrementAll(inherited, counts.alerts, e.alerts);
    if raised { return; }
    r := Counts(
      Increment(inherited, counts.statuses, e.status),
      Increment(inherited, counts.tokenSources, e.tokenSource),
      Increment(inherited, counts.pricingSources, e.pricingSource),
      Increment(inherited, counts.slos, SloStatus(e)),
      Increment(inherited, counts.budgets, e.budgetStatus),
      annotations, alerts);
  }

  /** `addLlmOpsCounters`, on the statistics of the report or of a bucket. */
  method AddCounters(inherited: string -> bool, stats: Stats, e: Event) returns (r: Stats, raised: bool)
    ensures raised <==> HasNull(e)
    ensures !raised ==> r == Plus(stats, One(inherited, e))
  {
    hide HasNull, PlusCounts, PlusFlags, CountsOf, FlagsOf, PlusAmounts;
    r := stats;
    var counts;
    counts, raised := AddCounts(inherited, stats.counts, e);
    if raised { return; }
    var flags := AddFlags(stats.flags, e);
    r := Stats(stats.events + 1, PlusAmounts(stats.amounts, e.amounts), flags, counts);
  }

  /** `addLlmOpsCounters(getLlmOpsBucket(buckets, key), event)` for a key that is no inherited name. */
  method AddToBucket(inherited: string -> bool, buckets: map<string, Stats>, key: string, e: Event)
    returns (r: map<string, Stats>, raised: bool)
    ensures raised <==> HasNull(e)
    ensures !raised ==> r == buckets[key := Plus(BucketAt(Adding(inherited), buckets, key), One(inherited, e))]
  {
    hide HasNull, Plus, One;
    r := buckets;
    if key !in r { r := r[key := NO_STATS]; }
    var stats;
    stats, raised := AddCounters(inherited, r[key], e);
    if !raised { r := r[key := stats]; }
  }

  lemma OneMore(inherited: string -> bool, es: seq<Event>, e: Event, key: Event -> string)
    ensures var a := Adding(inherited);
      && Fold(a, es + [e]) == Plus(Fold(a, es), One(inherited, e))
      && Buckets(a, es + [e], key) ==
           Buckets(a, es, key)[key(e) := Plus(BucketAt(a, Buckets(a, es, key), key(e)), One(inherited, e))]
  {
    hide One, Plus;
    assert (es + [e])[..|es|] == es;
  }

  /** The event makes the report raise a TypeError. */
  predicate Breaks(inherited: string -> bool, e: Event) {
    HasNull(e) || inherited(OperationOf(e))
  }

  /** Names of inherited members are no route or template keys, and no latency states. */
  ghost predicate Names(inherited: string -> bool) {
    && (forall k :: inherited(k) ==> ':' !in k && '@' !in k)
    && !inherited("unnamed") && !inherited("pass") && !inherited("breach") && !inherited("unavailable")
  }

  predicate IsCompletion(e: Event) {
    e.operation == Some("llm_completion")
  }

  function Calls(events: seq<Event>): seq<Event> {
    Keep(events, IsModelCall)
  }

  function Completions(events: seq<Event>): seq<Event> {
    Keep(events, IsCompletion)
  }

  lemma OneMoreCompletion(inherited: string -> bool, es: seq<Event>, e: Event)
    ensures var a := Adding(inherited);
      var before := Buckets(a, Completions(es), TemplateOf);
      Buckets(a, Completions(es + [e]), TemplateOf) == (
        if IsCompletion(e) then before[TemplateOf(e) := Plus(BucketAt(a, before, TemplateOf(e)), One(inherited, e))]
        else before)
  {
    hide One, Plus, IsCompletion, TemplateOf, Buckets;
    assert (es + [e])[..|es|] == es;
    OneMore(inherited, Completions(es), e, TemplateOf);
    assert Completions(es) + [] == Completions(es);
  }

  class ModelCalls {
    const inherited: string -> bool
    var totals: Stats
    var byOperation: map<string, Stats>
    var byRoute: map<string, Stats>
    var byTemplate: map<string, Stats>

    constructor (inherited: string -> bool)
      ensures this.inherited == inherited && totals == NO_STATS && byOperation == byRoute == byTemplate == map[]
    {
      this.inherited := inherited;
      totals := NO_STATS;
      byOperation, byRoute, byTemplate := map[], map[], map[];
    }

    /** The state after the counted events es. */
    ghost predicate Holds(es: seq<Event>)
      reads this
    {
      var a := Adding(inherited);
      && totals == Fold(a, es)
      && byOperation == Buckets(a, es, OperationOf)
      && byRoute == Buckets(a, es, RouteOf)
      && byTemplate == Buckets(a, Completions(es), TemplateOf)
    }

    /** `addLlmOpsEvent`. */
    method AddEvent(e: Event, ghost es: seq<Event>) returns (raised: bool)
      requires Holds(es)
      modifies this
      ensures raised <==> Breaks(inherited, e)
      ensures !raised ==> Holds(es + [e])
    {
      hide One, Plus, HasNull, IsCompletion, RouteOf, TemplateOf, OperationOf, Adding, Fold, Buckets, BucketAt;
      OneMore(inherited, es, e, OperationOf);
      OneMore(inherited, es, e, RouteOf);
      OneMoreCompletion(inherited, es, e);
      totals, raised := AddCounters(inherited, totals, e);
      if raised || inherited(OperationOf(e)) { return true; }
      byOperation, raised := AddToBucket(inherited, byOperation, OperationOf(e), e);
      byRoute, raised := AddToBucket(inherited, byRoute, RouteOf(e), e);
      if IsCompletion(e) { byTemplate, raised := AddToBucket(inherited, byTemplate, TemplateOf(e), e); }
    }

    /** The loop of `buildObservabilityReport` over the events, as far as model calls go. */
    method AddAll(events: seq<Event>) returns (raised: bool)
      requires Holds([])
      modifies this
      ensures raised <==> exists i :: 0 <= i < |events| && IsModelCall(events[i]) && Breaks(inherited, events[i])
      ensures !raised ==> Holds(Calls(events))
    {
      hide Holds, IsModelCall, Breaks;
      var i := 0;
      while i < |events|
        invariant 0 <= i <= |events|
        invariant Holds(Calls(events[..i]))
        invariant forall j :: 0 <= j < i ==> !(IsModelCall(events[j]) && Breaks(inherited, events[j]))
      {
        assert events[..i + 1][..i] == events[..i];
        if IsModelCall(events[i]) {
          raised := AddEvent(events[i], Calls(events[..i]));
          if raised { return; }
        } else {
          assert Calls(events[..i]) + [] == Calls(events[..i]);
        }
        i := i + 1;
      }
      assert events[..i] == events;
      raised := false;
    }
  }
}
