/** Conservation in the observability report, and the skill statistics. */
module OperationsTheorems {
  import opened Common
  import opened BucketFold
  import opened JsText
  import opened OperationsReport
  import opened OperationsFold

  function Totals(inherited: string -> bool, es: seq<Event>): Stats {
    Fold(Adding(inherited), es)
  }

  /** How many of the events have a key that is an inherited name: their counts are lost. */
  function Lost(inherited: string -> bool, es: seq<Event>, key: Event -> string): nat {
    if es == [] then 0 else Lost(inherited, es[..|es| - 1], key) + Flag(inherited(key(es[|es| - 1])))
  }

  function StatusOf(e: Event): string { e.status }
  function TokenSourceOf(e: Event): string { e.tokenSource }
  function PricingSourceOf(e: Event): string { e.pricingSource }
  function BudgetStatusOf(e: Event): string { e.budgetStatus }

  lemma CountedSize(inherited: string -> bool, key: string)
    ensures |Counted(inherited, key)| + Flag(inherited(key)) == 1
  {
  }

  /** The counts of each kind sum to the number of events, less those whose key is an inherited name. */
  lemma {:induction false} CountsSumToTheTotal(inherited: string -> bool, es: seq<Event>)
    ensures var s := Totals(inherited, es);
      && s.events == |es|
      && |s.counts.statuses| + Lost(inherited, es, StatusOf) == |es|
      && |s.counts.tokenSources| + Lost(inherited, es, TokenSourceOf) == |es|
      && |s.counts.pricingSources| + Lost(inherited, es, PricingSourceOf) == |es|
      && |s.counts.budgets| + Lost(inherited, es, BudgetStatusOf) == |es|
      && |s.counts.slos| + Lost(inherited, es, SloStatus) == |es|
  {
    hide Counted, FlagsOf, PlusFlags, PlusAmounts, Tally, SloStatus;
    if es != [] {
      var e := es[|es| - 1];
      CountsSumToTheTotal(inherited, es[..|es| - 1]);
      CountedSize(inherited, e.status);
      CountedSize(inherited, e.tokenSource);
      CountedSize(inherited, e.pricingSource);
      CountedSize(inherited, e.budgetStatus);
      CountedSize(inherited, SloStatus(e));
    }
  }

  lemma SloStates(inherited: string -> bool, e: Event)
    requires Names(inherited)
    ensures SloStatus(e) in {"pass", "breach", "unavailable"} && Counted(inherited, SloStatus(e)) == multiset{SloStatus(e)}
    ensures FlagsOf(e).sloObserved == 1 - multiset{SloStatus(e)}["unavailable"]
    ensures FlagsOf(e).sloBreached == multiset{SloStatus(e)}["breach"] <= FlagsOf(e).sloObserved
    ensures FlagsOf(e).ok + FlagsOf(e).errors <= 1 && FlagsOf(e).alertEvents <= 1 && FlagsOf(e).budgetExceeded <= 1
  {
    assert |"pass"| == 4 && |"breach"| == 6 && |"unavailable"| == 11;
    assert "ok"[0] == 'o' && "error"[0] == 'e';
  }

  /** breached <= observed <= total, read off the latency states; and no event is both ok and an error. */
  lemma {:induction false} LatencyCounts(inherited: string -> bool, es: seq<Event>)
    requires Names(inherited)
    ensures var s := Totals(inherited, es);
      && |s.counts.slos| == |es|
      && s.flags.sloObserved + s.counts.slos["unavailable"] == |es|
      && s.flags.sloBreached == s.counts.slos["breach"]
      && s.flags.sloBreached <= s.flags.sloObserved <= s.events == |es|
      && s.flags.ok + s.flags.errors <= |es| && s.flags.alertEvents <= |es| && s.flags.budgetExceeded <= |es|
  {
    hide Counted, FlagsOf, PlusAmounts, Tally, SloStatus, Names;
    if es != [] {
      LatencyCounts(inherited, es[..|es| - 1]);
      SloStates(inherited, es[|es| - 1]);
    }
  }

  /** The buckets add up to the totals, in every counter: by operation, by route, and by template for completions. */
  lemma BucketsConserve(inherited: string -> bool, es: seq<Event>)
    ensures var a := Adding(inherited);
      && SumOf(a, Buckets(a, es, OperationOf)) == Totals(inherited, es)
      && SumOf(a, Buckets(a, es, RouteOf)) == Totals(inherited, es)
      && SumOf(a, Buckets(a, Completions(es), TemplateOf)) == Totals(inherited, Completions(es))
  {
    hide Adding;
    AddingIsLawful(inherited);
    BucketsAddUp(Adding(inherited), es, OperationOf);
    BucketsAddUp(Adding(inherited), es, RouteOf);
    BucketsAddUp(Adding(inherited), Completions(es), TemplateOf);
  }

  /** Counters of a concatenation are the sums of the parts. */
  lemma ReportsAdd(inherited: string -> bool, xs: seq<Event>, ys: seq<Event>, k: string)
    ensures Totals(inherited, Calls(xs + ys)) == Plus(Totals(inherited, Calls(xs)), Totals(inherited, Calls(ys)))
    ensures var a := Adding(inherited);
      BucketAt(a, Buckets(a, Calls(xs + ys), OperationOf), k) ==
        Plus(BucketAt(a, Buckets(a, Calls(xs), OperationOf), k), BucketAt(a, Buckets(a, Calls(ys), OperationOf), k))
  {
    hide Plus, Fold, Buckets, BucketAt;
    AddingIsLawful(inherited);
    KeepConcat(xs, ys, IsModelCall);
    FoldConcat(Adding(inherited), Calls(xs), Calls(ys));
    BucketsOfConcat(Adding(inherited), Calls(xs), Calls(ys), OperationOf, k);
  }

  /** Reordering the events changes no counter and no bucket. */
  lemma ReportsIgnoreOrder(inherited: string -> bool, xs: seq<Event>, ys: seq<Event>)
    requires multiset(xs) == multiset(ys)
    ensures var a := Adding(inherited);
      && Totals(inherited, Calls(xs)) == Totals(inherited, Calls(ys))
      && Buckets(a, Calls(xs), OperationOf) == Buckets(a, Calls(ys), OperationOf)
      && Buckets(a, Calls(xs), RouteOf) == Buckets(a, Calls(ys), RouteOf)
      && Buckets(a, Completions(Calls(xs)), TemplateOf) == Buckets(a, Completions(Calls(ys)), TemplateOf)
  {
    hide Plus, Fold, Buckets, BucketAt, Adding, Keep;
    AddingIsLawful(inherited);
    KeepPermutation(xs, ys, IsModelCall);
    KeepPermutation(Calls(xs), Calls(ys), IsCompletion);
    FoldPermutation(Adding(inherited), Calls(xs), Calls(ys));
    BucketsPermutation(Adding(inherited), Calls(xs), Calls(ys), OperationOf);
    BucketsPermutation(Adding(inherited), Calls(xs), Calls(ys), RouteOf);
    BucketsPermutation(Adding(inherited), Completions(Calls(xs)), Completions(Calls(ys)), TemplateOf);
  }

  /** A route or template key is never an inherited name, so only the operation can make a bucket raise. */
  lemma RouteAndTemplateKeysAreSafe(inherited: string -> bool, e: Event)
    requires Names(inherited)
    ensures !inherited(RouteOf(e)) && !inherited(TemplateOf(e))
  {
    hide Trim;
    var route := e.providerId + ":" + e.routeId + ":" + e.modelId;
    assert route[|e.providerId|] == ':';
    TrimKeeps(route, ':');
    match e.template
    case None => TrimIsTrimmed("unnamed");
    case Some(t) =>
      var text := t.id + "@" + t.version + "#" + t.fingerprint;
      assert text[|t.id|] == '@';
      TrimKeeps(text, '@');
  }

  /**
   The bucket of an operation goes by the trimmed name, the choice of completions by the name as it came: the two agree
   exactly if no completion has white space around its name.
   */
  lemma {:induction false} CompletionsAreABucketIff(es: seq<Event>)
    ensures Completions(es) == Part(es, OperationOf, "llm_completion") <==>
      forall i :: 0 <= i < |es| && OperationOf(es[i]) == "llm_completion" ==> IsCompletion(es[i])
    ensures |Completions(es)| <= |Part(es, OperationOf, "llm_completion")|
  {
    hide OperationOf, IsCompletion;
    if es != [] {
      var n := |es| - 1;
      CompletionsAreABucketIff(es[..n]);
      CompletionIsOne(es[n]);
      var c, p := Completions(es[..n]), Part(es[..n], OperationOf, "llm_completion");
      assert forall i :: 0 <= i < n ==> es[..n][i] == es[i];
      if IsCompletion(es[n]) {
        assert (c + [es[n]])[..|c|] == c && (p + [es[n]])[..|p|] == p;
      } else {
        assert c + [] == c;
        assert OperationOf(es[n]) != "llm_completion" ==> p + [] == p;
      }
    }
  }

  lemma CompletionIsOne(e: Event)
    ensures IsCompletion(e) ==> OperationOf(e) == "llm_completion"
  {
    hide Trim;
    TrimIsTrimmed("llm_completion");
  }

  // ---- skill statistics

  /** A summary of a skill, or one of its runs, with its numbers as the report reads them. */
  datatype SkillItem =
    | Summary(key: string, selected: bool, attempts: nat, skipped: nat, retries: nat, errors: nat, abstained: bool,
              durationMs: real, citations: nat)
    | SkillRun(key: string, status: string, phase: string, failed: bool, abstained: bool, durationMs: real, citations: nat)

  datatype SkillStats = SkillStats(
    selected: nat, attempts: nat, skipped: nat, retries: nat, errors: nat, abstained: nat, durationMs: real, citations: nat)

  const NO_SKILL := SkillStats(0, 0, 0, 0, 0, 0, 0.0, 0)

  function PlusSkill(a: SkillStats, b: SkillStats): SkillStats {
    SkillStats(a.selected + b.selected, a.attempts + b.attempts, a.skipped + b.skipped, a.retries + b.retries,
               a.errors + b.errors, a.abstained + b.abstained, a.durationMs + b.durationMs, a.citations + b.citations)
  }

  function OneSkill(i: SkillItem): SkillStats {
    match i
    case Summary(_, selected, attempts, skipped, retries, errors, abstained, ms, citations) =>
      SkillStats(Flag(selected), attempts, skipped, retries, errors, Flag(abstained), ms, citations)
    case SkillRun(_, status, phase, failed, abstained, ms, citations) =>
      SkillStats(0, Flag(status != "skipped"), Flag(status == "skipped"), Flag(phase == "retry" || phase == "follow_up"),
                 Flag(status == "failed" || failed), Flag(abstained), ms, citations)
  }

  function AddingSkills(): Adder<SkillStats, SkillItem> {
    Adder(NO_SKILL, PlusSkill, OneSkill)
  }

  lemma AddingSkillsIsLawful()
    ensures Lawful(AddingSkills())
  {
  }

  function KeyOf(i: SkillItem): string {
    i.key
  }

  /** The map of skill statistics, which `addSkillSummary` and `addSkillRun` update in place. */
  class SkillBoard {
    var stats: map<string, SkillStats>

    constructor ()
      ensures stats == map[]
    {
      stats := map[];
    }

    method Add(i: SkillItem)
      modifies this
      ensures stats == old(stats)[i.key := PlusSkill(BucketAt(AddingSkills(), old(stats), i.key), OneSkill(i))]
    {
      var s := if i.key in stats then stats[i.key] else NO_SKILL;
      match i {
      case Summary(_, selected, attempts, skipped, retries, errors, _, _, _) =>
        s := s.(selected := s.selected + Flag(selected), attempts := s.attempts + attempts, skipped := s.skipped + skipped,
                retries := s.retries + retries, errors := s.errors + errors);
      case SkillRun(_, status, phase, failed, _, _, _) =>
        if status == "skipped" { s := s.(skipped := s.skipped + 1); } else { s := s.(attempts := s.attempts + 1); }
        if phase == "retry" || phase == "follow_up" { s := s.(retries := s.retries + 1); }
        if status == "failed" || failed { s := s.(errors := s.errors + 1); }
      }
      s := s.(abstained := s.abstained + Flag(i.abstained), durationMs := s.durationMs + i.durationMs,
              citations := s.citations + i.citations);
      stats := stats[i.key := s];
    }

    /** The loop over the summaries of an event, or over its runs. */
    method AddItems(items: seq<SkillItem>, ghost before: seq<SkillItem>)
      requires stats == Buckets(AddingSkills(), before, KeyOf)
      modifies this
      ensures stats == Buckets(AddingSkills(), before + items, KeyOf)
    {
      hide Buckets, BucketAt, AddingSkills, PlusSkill, OneSkill;
      var j := 0;
      assert before + items[..0] == before;
      while j < |items|
        invariant 0 <= j <= |items|
        invariant stats == Buckets(AddingSkills(), before + items[..j], KeyOf)
      {
        OneMoreSkill(before + items[..j], items[j]);
        Add(items[j]);
        assert before + items[..j + 1] == before + items[..j] + [items[j]];
        j := j + 1;
      }
      assert items[..j] == items;
    }

    /** The loop over the events: summaries come first, runs count only without one. */
    method AddEvents(events: seq<(seq<SkillItem>, seq<SkillItem>)>)
      requires stats == map[]
      modifies this
      ensures stats == Buckets(AddingSkills(), Observed(events), KeyOf)
    {
      var i := 0;
      while i < |events|
        invariant 0 <= i <= |events|
        invariant stats == Buckets(AddingSkills(), Observed(events[..i]), KeyOf)
      {
        assert events[..i + 1][..i] == events[..i];
        var items := if |events[i].0| > 0 then events[i].0 else events[i].1;
        AddItems(items, Observed(events[..i]));
        i := i + 1;
      }
      assert events[..i] == events;
    }
  }

  lemma OneMoreSkill(es: seq<SkillItem>, i: SkillItem)
    ensures var a := AddingSkills();
      Buckets(a, es + [i], KeyOf) == Buckets(a, es, KeyOf)[i.key := PlusSkill(BucketAt(a, Buckets(a, es, KeyOf), i.key), OneSkill(i))]
  {
    hide PlusSkill, OneSkill;
    assert (es + [i])[..|es|] == es;
  }

  /** The items the report counts, in order. */
  function Observed(events: seq<(seq<SkillItem>, seq<SkillItem>)>): seq<SkillItem> {
    if events == [] then []
    else
      var e := events[|events| - 1];
      Observed(events[..|events| - 1]) + (if |e.0| > 0 then e.0 else e.1)
  }

  /** A skill's numbers are those of its own items; over all skills they add up to those of all items, in any order. */
  lemma SkillsConserve(xs: seq<SkillItem>, ys: seq<SkillItem>, k: string)
    requires multiset(xs) == multiset(ys)
    ensures var a := AddingSkills();
      && BucketAt(a, Buckets(a, xs, KeyOf), k) == Fold(a, Part(xs, KeyOf, k))
      && SumOf(a, Buckets(a, xs, KeyOf)) == Fold(a, xs)
      && Buckets(a, xs, KeyOf) == Buckets(a, ys, KeyOf)
  {
    hide Fold, Buckets, BucketAt, AddingSkills;
    AddingSkillsIsLawful();
    BucketIsPart(AddingSkills(), xs, KeyOf, k);
    BucketsAddUp(AddingSkills(), xs, KeyOf);
    BucketsPermutation(AddingSkills(), xs, ys, KeyOf);
  }
}
