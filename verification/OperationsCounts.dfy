/** What each counter of the observability report counts, event by event. */
module OperationsCounts {
  import opened Common
  import opened BucketFold
  import opened JsText
  import opened OperationsReport
  import opened OperationsFold
  import opened OperationsTheorems

  /** How many of the events are so. */
  ghost function Number(es: seq<Event>, p: Event -> bool): nat {
    |set i: nat | i < |es| && p(es[i])|
  }

  lemma NumberOfMore(es: seq<Event>, p: Event -> bool)
    ensures Number([], p) == 0
    ensures es != [] ==> Number(es, p) == Number(es[..|es| - 1], p) + (if p(es[|es| - 1]) then 1 else 0)
  {
    if es != [] {
      var n := |es| - 1;
      var before := set i: nat | i < n && p(es[..n][i]);
      var all := set i: nat | i < |es| && p(es[i]);
      assert all == if p(es[n]) then before + {n} else before;
    }
  }

  lemma TotalsOfMore(inherited: string -> bool, es: seq<Event>)
    ensures Totals(inherited, []) == NO_STATS
    ensures es != [] ==> Totals(inherited, es) == Plus(Totals(inherited, es[..|es| - 1]), One(inherited, es[|es| - 1]))
  {
    hide Plus, One;
  }

  /** The latency is over its objective: it says so, or says nothing valid and both numbers are there and say so. */
  predicate Breaches(e: Event) {
    || e.explicitSlo == "breach"
    || (e.explicitSlo !in ["pass", "breach", "unavailable"] && e.latencyMs.Some? && e.sloMs.Some? && e.latencyMs.value > e.sloMs.value)
  }

  predicate Keeps(e: Event) {
    || e.explicitSlo == "pass"
    || (e.explicitSlo !in ["pass", "breach", "unavailable"] && e.latencyMs.Some? && e.sloMs.Some? && e.latencyMs.value <= e.sloMs.value)
  }

  lemma SloMeans(e: Event)
    ensures SloStatus(e) == if Breaches(e) then "breach" else if Keeps(e) then "pass" else "unavailable"
  {
    assert |"pass"| == 4 && |"breach"| == 6 && |"unavailable"| == 11;
  }

  predicate IsOk(e: Event) { e.status == "ok" }
  predicate IsError(e: Event) { e.status == "error" }
  predicate HasAlerts(e: Event) { |e.alerts| > 0 }
  predicate OverBudget(e: Event) { e.budgetStatus == "exceeded" }
  predicate HasSlo(e: Event) { Breaches(e) || Keeps(e) }

  /** Each of the six flag counters is the number of events with its property. */
  lemma {:induction false} FlagsCount(inherited: string -> bool, es: seq<Event>)
    ensures var f := Totals(inherited, es).flags;
      && f.ok == Number(es, IsOk) && f.errors == Number(es, IsError)
      && f.alertEvents == Number(es, HasAlerts) && f.budgetExceeded == Number(es, OverBudget)
      && f.sloObserved == Number(es, HasSlo) && f.sloBreached == Number(es, Breaches)
  {
    hide Number, SloStatus, Breaches, Keeps, CountsOf, PlusCounts, PlusAmounts, Totals, FlagsOf;
    TotalsOfMore(inherited, es);
    NumberOfMore(es, IsOk);
    NumberOfMore(es, IsError);
    NumberOfMore(es, HasAlerts);
    NumberOfMore(es, OverBudget);
    NumberOfMore(es, HasSlo);
    NumberOfMore(es, Breaches);
    if es != [] {
      FlagsCount(inherited, es[..|es| - 1]);
      FlagsOfOne(es[|es| - 1]);
    }
  }

  lemma FlagsOfOne(e: Event)
    ensures var f := FlagsOf(e);
      && f.ok == Flag(IsOk(e)) && f.errors == Flag(IsError(e)) && f.alertEvents == Flag(HasAlerts(e))
      && f.budgetExceeded == Flag(OverBudget(e)) && f.sloObserved == Flag(HasSlo(e)) && f.sloBreached == Flag(Breaches(e))
  {
    hide Breaches, Keeps, SloStatus;
    SloMeans(e);
    assert |"pass"| == 4 && |"breach"| == 6 && |"unavailable"| == 11;
  }

  function Is(key: Event -> string, k: string): Event -> bool {
    e => key(e) == k
  }

  /** The number of events with this key. */
  ghost function WithKey(es: seq<Event>, key: Event -> string, k: string): nat {
    Number(es, Is(key, k))
  }

  lemma WithKeyOfMore(es: seq<Event>, key: Event -> string, k: string)
    ensures WithKey([], key, k) == 0
    ensures es != [] ==> WithKey(es, key, k) == WithKey(es[..|es| - 1], key, k) + Flag(key(es[|es| - 1]) == k)
  {
    hide Number;
    NumberOfMore(es, Is(key, k));
  }

  /** The counts of key k, in each of the five count objects. */
  ghost predicate CountsAt(c: Counts, k: string, statuses: nat, tokenSources: nat, pricingSources: nat, budgets: nat, slos: nat) {
    && c.statuses[k] == statuses && c.tokenSources[k] == tokenSources && c.pricingSources[k] == pricingSources
    && c.budgets[k] == budgets && c.slos[k] == slos
  }

  lemma PlusCountsAt(a: Counts, b: Counts, k: string)
    ensures CountsAt(PlusCounts(a, b), k, a.statuses[k] + b.statuses[k], a.tokenSources[k] + b.tokenSources[k],
                     a.pricingSources[k] + b.pricingSources[k], a.budgets[k] + b.budgets[k], a.slos[k] + b.slos[k])
  {
  }

  lemma CountsOfOne(inherited: string -> bool, e: Event, k: string)
    ensures var c := CountsOf(inherited, e);
      if inherited(k) then CountsAt(c, k, 0, 0, 0, 0, 0)
      else CountsAt(c, k, Flag(e.status == k), Flag(e.tokenSource == k), Flag(e.pricingSource == k), Flag(e.budgetStatus == k),
                    Flag(SloStatus(e) == k))
  {
    hide Counted, SloStatus, Tally;
    CountedAt(inherited, e.status, k);
    CountedAt(inherited, e.tokenSource, k);
    CountedAt(inherited, e.pricingSource, k);
    CountedAt(inherited, e.budgetStatus, k);
    CountedAt(inherited, SloStatus(e), k);
  }

  /** The count of a key is the number of events with it; the inherited names are not counted. */
  lemma {:induction false} KeysCount(inherited: string -> bool, es: seq<Event>, k: string)
    ensures var c := Totals(inherited, es).counts;
      if inherited(k) then CountsAt(c, k, 0, 0, 0, 0, 0)
      else CountsAt(c, k, WithKey(es, StatusOf, k), WithKey(es, TokenSourceOf, k), WithKey(es, PricingSourceOf, k),
                    WithKey(es, BudgetStatusOf, k), WithKey(es, SloStatus, k))
  {
    hide WithKey, SloStatus, CountsOf, PlusCounts, FlagsOf, PlusFlags, PlusAmounts, Totals;
    TotalsOfMore(inherited, es);
    WithKeyOfMore(es, StatusOf, k);
    WithKeyOfMore(es, TokenSourceOf, k);
    WithKeyOfMore(es, PricingSourceOf, k);
    WithKeyOfMore(es, BudgetStatusOf, k);
    WithKeyOfMore(es, SloStatus, k);
    if es != [] {
      var front, e := es[..|es| - 1], es[|es| - 1];
      KeysCount(inherited, front, k);
      CountsOfOne(inherited, e, k);
      PlusCountsAt(Totals(inherited, front).counts, CountsOf(inherited, e), k);
    }
  }

  lemma CountedAt(inherited: string -> bool, key: string, k: string)
    ensures Counted(inherited, key)[k] == if key == k && !inherited(k) then 1 else 0
  {
  }

  /** How often an id stands in the lists of the events. */
  ghost function Occurrences(es: seq<Event>, ids: Event -> seq<Option<string>>, k: string): nat {
    if es == [] then 0 else Occurrences(es[..|es| - 1], ids, k) + multiset(ids(es[|es| - 1]))[Some(k)]
  }

  function AnnotationsOf(e: Event): seq<Option<string>> { e.annotations }
  function AlertsOf(e: Event): seq<Option<string>> { e.alerts }

  lemma {:induction false} TallyAt(inherited: string -> bool, ids: seq<Option<string>>, k: string)
    requires !inherited(k)
    ensures Tally(inherited, ids)[k] == multiset(ids)[Some(k)]
  {
    if ids != [] {
      var n := |ids| - 1;
      TallyAt(inherited, ids[..n], k);
      assert ids == ids[..n] + [ids[n]];
      if ids[n].Some? { CountedAt(inherited, ids[n].value, k); }
    }
  }

  /** The count of an annotation or alert is how often it stands in the events' lists. */
  lemma {:induction false} ListsCount(inherited: string -> bool, es: seq<Event>, k: string)
    requires !inherited(k)
    ensures var c := Totals(inherited, es).counts;
      c.annotations[k] == Occurrences(es, AnnotationsOf, k) && c.alerts[k] == Occurrences(es, AlertsOf, k)
  {
    hide FlagsOf, PlusFlags, PlusAmounts, Tally, Counted, SloStatus, Totals;
    TotalsOfMore(inherited, es);
    if es != [] {
      ListsCount(inherited, es[..|es| - 1], k);
      TallyAt(inherited, es[|es| - 1].annotations, k);
      TallyAt(inherited, es[|es| - 1].alerts, k);
    }
  }

  /** The sum of one amount over the events. */
  function Summed(es: seq<Event>, amount: Amounts -> real): real {
    if es == [] then 0.0 else Summed(es[..|es| - 1], amount) + amount(es[|es| - 1].amounts)
  }

  /** The additive amounts are the sums of the events' own. */
  lemma {:induction false} AmountsAdd(inherited: string -> bool, es: seq<Event>)
    ensures var a := Totals(inherited, es).amounts;
      && a.latency == Summed(es, (x: Amounts) => x.latency) && a.cost == Summed(es, (x: Amounts) => x.cost)
      && a.inCharacters as real == Summed(es, (x: Amounts) => x.inCharacters as real)
      && a.outCharacters as real == Summed(es, (x: Amounts) => x.outCharacters as real)
      && a.inTokens as real == Summed(es, (x: Amounts) => x.inTokens as real)
      && a.outTokens as real == Summed(es, (x: Amounts) => x.outTokens as real)
      && a.tokens as real == Summed(es, (x: Amounts) => x.tokens as real)
      && a.items as real == Summed(es, (x: Amounts) => x.items as real)
  {
    hide FlagsOf, PlusFlags, CountsOf, PlusCounts;
    if es != [] { AmountsAdd(inherited, es[..|es| - 1]); }
  }

  // ---- which events count, and under which keys

  /** Exactly the model calls that are no mirror of the gateway count. */
  lemma OneMoreCall(events: seq<Event>, e: Event)
    ensures Calls(events + [e]) ==
      if e.traceType == "llmops" && e.eventType == "llmops_metric" && !e.mirror then Calls(events) + [e] else Calls(events)
  {
    assert (events + [e])[..|events|] == events;
  }

  /** Keys of buckets are trimmed and not empty; trimmed text is its own key, and white space before it does not matter. */
  lemma KeysAreTrimmed(raw: string)
    ensures BucketKey(raw) != "" && Trimmed(BucketKey(raw))
    ensures Trimmed(raw) ==> BucketKey(raw) == if raw == "" then "unknown" else raw
    ensures BucketKey(" " + raw) == BucketKey(raw)
  {
    hide TrimEnd;
    TrimIsTrimmed(raw);
    assert (" " + raw)[1..] == raw;
  }

  // ---- skills

  ghost function ItemNumber(items: seq<SkillItem>, p: SkillItem -> bool): nat {
    |set i: nat | i < |items| && p(items[i])|
  }

  lemma ItemNumberOfMore(items: seq<SkillItem>, p: SkillItem -> bool)
    ensures ItemNumber([], p) == 0
    ensures items != [] ==> ItemNumber(items, p) == ItemNumber(items[..|items| - 1], p) + (if p(items[|items| - 1]) then 1 else 0)
  {
    if items != [] {
      var n := |items| - 1;
      var before := set i: nat | i < n && p(items[..n][i]);
      var all := set i: nat | i < |items| && p(items[i]);
      assert all == if p(items[n]) then before + {n} else before;
    }
  }

  predicate Skips(i: SkillItem) { i.SkillRun? && i.status == "skipped" }
  predicate Attempts(i: SkillItem) { i.SkillRun? && i.status != "skipped" }
  predicate Retries(i: SkillItem) { i.SkillRun? && i.phase in ["retry", "follow_up"] }
  predicate Fails(i: SkillItem) { i.SkillRun? && (i.status == "failed" || i.failed) }
  predicate Selects(i: SkillItem) { i.Summary? && i.selected }
  predicate Abstains(i: SkillItem) { i.abstained }

  /** What the summaries among the items report of themselves. */
  function Reported(items: seq<SkillItem>, number: SkillItem -> nat): nat {
    if items == [] then 0
    else Reported(items[..|items| - 1], number) + (if items[|items| - 1].Summary? then number(items[|items| - 1]) else 0)
  }

  /** The counters of skills: runs count one by one, summaries add what they report. */
  lemma {:induction false} SkillCounts(items: seq<SkillItem>)
    ensures var s := Fold(AddingSkills(), items);
      && s.attempts == ItemNumber(items, Attempts) + Reported(items, (i: SkillItem) => if i.Summary? then i.attempts else 0)
      && s.skipped == ItemNumber(items, Skips) + Reported(items, (i: SkillItem) => if i.Summary? then i.skipped else 0)
      && s.retries == ItemNumber(items, Retries) + Reported(items, (i: SkillItem) => if i.Summary? then i.retries else 0)
      && s.errors == ItemNumber(items, Fails) + Reported(items, (i: SkillItem) => if i.Summary? then i.errors else 0)
      && s.selected == ItemNumber(items, Selects) && s.abstained == ItemNumber(items, Abstains)
  {
    hide ItemNumber;
    ItemNumberOfMore(items, Attempts);
    ItemNumberOfMore(items, Skips);
    ItemNumberOfMore(items, Retries);
    ItemNumberOfMore(items, Fails);
    ItemNumberOfMore(items, Selects);
    ItemNumberOfMore(items, Abstains);
    if items != [] { SkillCounts(items[..|items| - 1]); }
  }
}
