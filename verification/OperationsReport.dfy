/**
 The event fold of server/evaluation/observability-report.js: the counters of model calls, overall and by operation,
 route and prompt template, and the skill statistics.

 Numbers are what the readers of the report make of an event (`toNumber`, `toNonNegativeInteger`). Count objects and
 bucket objects are plain JavaScript objects: a key that is the name of an inherited member (`inherited`) finds that
 member. A count of such a key is no number; a bucket of such a key makes the report raise.
 */
module OperationsReport {
  import opened Common
  import opened BucketFold
  import opened JsText

  datatype Template = Template(id: string, version: string, fingerprint: string)

  /** A null entry of a list is None. `operation`: the text as it came; `latencyMs`, `sloMs`: None without a finite number. */
  datatype Event = Event(
    traceType: string, eventType: string, mirror: bool, operation: Option<string>, providerId: string, routeId: string, modelId: string,
    template: Option<Template>, status: string, tokenSource: string, pricingSource: string, explicitSlo: string,
    budgetStatus: string, latencyMs: Option<real>, sloMs: Option<real>, amounts: Amounts,
    annotations: seq<Option<string>>, alerts: seq<Option<string>>)

  datatype Amounts = Amounts(
    latency: real, cost: real, inCharacters: nat, outCharacters: nat, inTokens: nat, outTokens: nat, tokens: nat, items: nat)

  datatype Flags = Flags(alertEvents: nat, ok: nat, errors: nat, sloObserved: nat, sloBreached: nat, budgetExceeded: nat)

  /** Count objects, as multisets of the keys counted with numbers. */
  datatype Counts = Counts(
    statuses: multiset<string>, tokenSources: multiset<string>, pricingSources: multiset<string>, slos: multiset<string>,
    budgets: multiset<string>, annotations: multiset<string>, alerts: multiset<string>)

  datatype Stats = Stats(events: nat, amounts: Amounts, flags: Flags, counts: Counts)

  const NO_AMOUNTS := Amounts(0.0, 0.0, 0, 0, 0, 0, 0, 0)
  const NO_FLAGS := Flags(0, 0, 0, 0, 0, 0)
  const NO_COUNTS := Counts(multiset{}, multiset{}, multiset{}, multiset{}, multiset{}, multiset{}, multiset{})
  const NO_STATS := Stats(0, NO_AMOUNTS, NO_FLAGS, NO_COUNTS)

  /** `isLlmOpsMetricEvent`. */
  predicate IsModelCall(e: Event) {
    e.traceType == "llmops" && e.eventType == "llmops_metric" && !e.mirror
  }

  /** `getLlmOpsLatencySloStatus`. */
  function SloStatus(e: Event): string {
    if e.explicitSlo == "pass" || e.explicitSlo == "breach" || e.explicitSlo == "unavailable" then e.explicitSlo
    else if e.latencyMs.None? || e.sloMs.None? then "unavailable"
    else if e.latencyMs.value <= e.sloMs.value then "pass"
    else "breach"
  }

  /** The key `getLlmOpsBucket` looks up. */
  function BucketKey(raw: string): string {
    if Trim(raw) == "" then "unknown" else Trim(raw)
  }

  function OperationOf(e: Event): string {
    BucketKey(e.operation.GetOr("unknown"))
  }

  function RouteOf(e: Event): string {
    BucketKey(e.providerId + ":" + e.routeId + ":" + e.modelId)
  }

  function TemplateOf(e: Event): string {
    BucketKey(match e.template case None => "unnamed" case Some(t) => t.id + "@" + t.version + "#" + t.fingerprint)
  }

  // ---- what one event adds

  function Counted(inherited: string -> bool, key: string): multiset<string> {
    if inherited(key) then multiset{} else multiset{key}
  }

  function Tally(inherited: string -> bool, ids: seq<Option<string>>): multiset<string> {
    if ids == [] then multiset{}
    else
      var last := ids[|ids| - 1];
      Tally(inherited, ids[..|ids| - 1]) + (if last.None? then multiset{} else Counted(inherited, last.value))
  }

  function Flag(b: bool): nat {
    if b then 1 else 0
  }

  function FlagsOf(e: Event): Flags {
    Flags(Flag(e.alerts != []), Flag(e.status == "ok"), Flag(e.status == "error"), Flag(SloStatus(e) != "unavailable"),
          Flag(SloStatus(e) == "breach"), Flag(e.budgetStatus == "exceeded"))
  }

  function CountsOf(inherited: string -> bool, e: Event): Counts {
    Counts(Counted(inherited, e.status), Counted(inherited, e.tokenSource), Counted(inherited, e.pricingSource),
           Counted(inherited, SloStatus(e)), Counted(inherited, e.budgetStatus), Tally(inherited, e.annotations),
           Tally(inherited, e.alerts))
  }

  function One(inherited: string -> bool, e: Event): Stats {
    Stats(1, e.amounts, FlagsOf(e), CountsOf(inherited, e))
  }

  function PlusAmounts(a: Amounts, b: Amounts): Amounts {
    Amounts(a.latency + b.latency, a.cost + b.cost, a.inCharacters + b.inCharacters, a.outCharacters + b.outCharacters,
            a.inTokens + b.inTokens, a.outTokens + b.outTokens, a.tokens + b.tokens, a.items + b.items)
  }

  function PlusFlags(a: Flags, b: Flags): Flags {
    Flags(a.alertEvents + b.alertEvents, a.ok + b.ok, a.errors + b.errors, a.sloObserved + b.sloObserved,
          a.sloBreached + b.sloBreached, a.budgetExceeded + b.budgetExceeded)
  }

  function PlusCounts(a: Counts, b: Counts): Counts {
    Counts(a.statuses + b.statuses, a.tokenSources + b.tokenSources, a.pricingSources + b.pricingSources, a.slos + b.slos,
           a.budgets + b.budgets, a.annotations + b.annotations, a.alerts + b.alerts)
  }

  function Plus(a: Stats, b: Stats): Stats {
    Stats(a.events + b.events, PlusAmounts(a.amounts, b.amounts), PlusFlags(a.flags, b.flags), PlusCounts(a.counts, b.counts))
  }

  function Adding(inherited: string -> bool): Adder<Stats, Event> {
    Adder(NO_STATS, Plus, e => One(inherited, e))
  }
}
