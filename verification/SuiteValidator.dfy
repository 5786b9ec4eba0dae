/**
 The suite validator (server/evaluation/quality-current-suite-validator.js) and the harness that produces what it checks
 (server/evaluation/agent-eval-harness.js).
 */
module SuiteValidator {
  import opened Common

  // ---- what a report holds

  /** A field that should be a boolean. */
  datatype Flag = IsTrue | IsFalse | NotBoolean

  datatype Check = Check(id: string, passed: Flag)

  /** `failedCheckCount`: None for what is no number. */
  datatype CaseResult = CaseResult(id: string, checks: seq<Check>, passed: Flag, failedCheckCount: Option<int>)

  datatype MetricName =
    | CaseCount | CheckCount | FailedCaseCount | FailedCheckCount | PassedCaseCount | PassedCheckCount | OverallPassRate | CheckPassRate

  /** A metric is a number or null; an absent one is undefined. */
  datatype MetricValue = Number(value: real) | NullValue

  const METRICS := [
    CaseCount, CheckCount, FailedCaseCount, FailedCheckCount, PassedCaseCount, PassedCheckCount, OverallPassRate, CheckPassRate]

  datatype Summary = Summary(metrics: map<MetricName, MetricValue>, status: string)

  function AllChecks(cases: seq<CaseResult>): seq<Check> {
    if cases == [] then [] else AllChecks(cases[..|cases| - 1]) + cases[|cases| - 1].checks
  }

  function PassedChecks(checks: seq<Check>): (n: nat)
    ensures n <= |checks|
  {
    if checks == [] then 0 else PassedChecks(checks[..|checks| - 1]) + (if checks[|checks| - 1].passed.IsTrue? then 1 else 0)
  }

  function PassedCases(cases: seq<CaseResult>): (n: nat)
    ensures n <= |cases|
  {
    if cases == [] then 0 else PassedCases(cases[..|cases| - 1]) + (if cases[|cases| - 1].passed.IsTrue? then 1 else 0)
  }

  /** `ratio`; `round` stands for the four decimals. */
  function Ratio(round: real -> real, n: nat, d: nat): MetricValue {
    if d == 0 then NullValue else Number(round(n as real / d as real))
  }

  // ---- the producers

  function ToFlag(b: bool): Flag {
    if b then IsTrue else IsFalse
  }

  /** `buildCheck`. */
  function BuildCheck(id: string, passed: bool): Check {
    Check(id, ToFlag(passed))
  }

  /** `finishCase`. */
  function FinishCase(id: string, checks: seq<Check>): CaseResult {
    var failed := |checks| - PassedChecks(checks);
    CaseResult(id, checks, ToFlag(failed == 0), Some(failed))
  }

  /** `buildMetricSummary`, without the categories. */
  function BuildMetricSummary(round: real -> real, cases: seq<CaseResult>): map<MetricName, MetricValue> {
    var checks := AllChecks(cases);
    map[
      CaseCount := Number(|cases| as real), CheckCount := Number(|checks| as real),
      FailedCaseCount := Number((|cases| - PassedCases(cases)) as real),
      FailedCheckCount := Number((|checks| - PassedChecks(checks)) as real),
      PassedCaseCount := Number(PassedCases(cases) as real), PassedCheckCount := Number(PassedChecks(checks) as real),
      OverallPassRate := Ratio(round, PassedCases(cases), |cases|),
      CheckPassRate := Ratio(round, PassedChecks(checks), |checks|)]
  }

  /** The status the planner and trajectory runs write: it looks at the cases only. */
  function RunStatus(cases: seq<CaseResult>): string {
    if |cases| - PassedCases(cases) > 0 then "fail" else "pass"
  }

  // ---- the validator

  datatype Error =
    | PassedType(id: string) | Passed(id: string) | FailedCount(id: string) | CheckPassedType(caseId: string, id: string)
    | Metric(name: MetricName) | Status

  /** `buildRawCaseMetrics`, by name. */
  function RawMetric(round: real -> real, cases: seq<CaseResult>, name: MetricName): MetricValue {
    var checks := AllChecks(cases);
    var passed, passedChecks := PassedCases(cases), PassedChecks(checks);
    match name
    case CaseCount => Number(|cases| as real)
    case CheckCount => Number(|checks| as real)
    case FailedCaseCount => Number((|cases| - passed) as real)
    case FailedCheckCount => Number((|checks| - passedChecks) as real)
    case PassedCaseCount => Number(passed as real)
    case PassedCheckCount => Number(passedChecks as real)
    case OverallPassRate => Ratio(round, passed, |cases|)
    case CheckPassRate => Ratio(round, passedChecks, |checks|)
  }

  function ExpectedStatus(cases: seq<CaseResult>): string {
    if PassedCases(cases) < |cases| || PassedChecks(AllChecks(cases)) < |AllChecks(cases)| then "fail" else "pass"
  }

  ghost predicate AllPassed(checks: seq<Check>) {
    forall i :: 0 <= i < |checks| ==> checks[i].passed.IsTrue?
  }

  /** A case says what its checks say: one boolean, one count, and booleans in the checks. */
  ghost predicate CaseIsRight(c: CaseResult) {
    && !c.passed.NotBoolean? && (c.passed.IsTrue? <==> AllPassed(c.checks))
    && c.failedCheckCount == Some(|c.checks| - PassedChecks(c.checks))
    && forall i :: 0 <= i < |c.checks| ==> !c.checks[i].passed.NotBoolean?
  }

  ghost predicate SuiteIsRight(round: real -> real, cases: seq<CaseResult>, s: Summary) {
    && (forall i :: 0 <= i < |cases| ==> CaseIsRight(cases[i]))
    && (forall name: MetricName :: name in s.metrics && s.metrics[name] == RawMetric(round, cases, name))
    && s.status == ExpectedStatus(cases)
  }

  lemma {:induction false} AllPassedIffCounted(checks: seq<Check>)
    ensures AllPassed(checks) <==> PassedChecks(checks) == |checks|
  {
    if checks != [] {
      var n := |checks| - 1;
      AllPassedIffCounted(checks[..n]);
      assert forall i :: 0 <= i < n ==> checks[..n][i] == checks[i];
    }
  }

  /** Among the first n checks one of this id has no boolean. */
  ghost predicate BadCheck(c: CaseResult, n: nat, id: string)
    requires n <= |c.checks|
  {
    exists j :: 0 <= j < n && c.checks[j].id == id && c.checks[j].passed.NotBoolean?
  }

  /** What an error says of a case. */
  ghost predicate CaseFault(c: CaseResult, e: Error) {
    match e
    case PassedType(id) => id == c.id && c.passed.NotBoolean?
    case Passed(id) => id == c.id && !c.passed.NotBoolean? && !(c.passed.IsTrue? <==> AllPassed(c.checks))
    case FailedCount(id) => id == c.id && c.failedCheckCount != Some(|c.checks| - PassedChecks(c.checks))
    case CheckPassedType(caseId, id) =>
      caseId == c.id && BadCheck(c, |c.checks|, id)
    case Metric(_) => false
    case Status => false
  }

  /** The loop over the checks of a case. */
  method ValidateChecks(c: CaseResult, found: seq<Error>) returns (errors: seq<Error>)
    ensures forall e :: e in errors <==> e in found || (e.CheckPassedType? && CaseFault(c, e))
  {
    errors := found;
    var i := 0;
    while i < |c.checks|
      invariant 0 <= i <= |c.checks|
      invariant forall e :: e in errors <==> e in found || (e.CheckPassedType? && e.caseId == c.id && BadCheck(c, i, e.id))
    {
      if c.checks[i].passed.NotBoolean? { errors := errors + [CheckPassedType(c.id, c.checks[i].id)]; }
      i := i + 1;
    }
  }

  method ValidateCase(c: CaseResult, found: seq<Error>) returns (errors: seq<Error>)
    ensures forall e :: e in errors <==> e in found || CaseFault(c, e)
  {
    hide AllPassed;
    var failed := |c.checks| - PassedChecks(c.checks);
    AllPassedIffCounted(c.checks);
    errors := found;
    if c.passed.NotBoolean? {
      errors := errors + [PassedType(c.id)];
    } else if c.passed != ToFlag(failed == 0) {
      errors := errors + [Passed(c.id)];
    }
    if c.failedCheckCount != Some(failed) { errors := errors + [FailedCount(c.id)]; }
    errors := ValidateChecks(c, errors);
  }

  function Rank(name: MetricName): (j: nat)
    ensures j < |METRICS| && METRICS[j] == name
  {
    match name
    case CaseCount => 0
    case CheckCount => 1
    case FailedCaseCount => 2
    case FailedCheckCount => 3
    case PassedCaseCount => 4
    case PassedCheckCount => 5
    case OverallPassRate => 6
    case CheckPassRate => 7
  }

  predicate MetricFits(round: real -> real, cases: seq<CaseResult>, s: Summary, name: MetricName) {
    name in s.metrics && s.metrics[name] == RawMetric(round, cases, name)
  }

  /** What an error says of a suite. */
  ghost predicate Fault(round: real -> real, cases: seq<CaseResult>, s: Summary, e: Error) {
    || (exists i :: 0 <= i < |cases| && CaseFault(cases[i], e))
    || (e.Metric? && !MetricFits(round, cases, s, e.name))
    || (e.Status? && s.status != ExpectedStatus(cases))
  }

  /** `validateCheckSuiteIntegrity`, up to the raw integrity: it reports every fault, and nothing else. */
  method ValidateSuite(round: real -> real, cases: seq<CaseResult>, s: Summary) returns (errors: seq<Error>)
    ensures forall e :: e in errors <==> Fault(round, cases, s, e)
  {
    hide CaseFault, ExpectedStatus, MetricFits;
    errors := [];
    var i := 0;
    while i < |cases|
      invariant 0 <= i <= |cases|
      invariant forall e :: e in errors <==> exists j :: 0 <= j < i && CaseFault(cases[j], e)
    {
      errors := ValidateCase(cases[i], errors);
      i := i + 1;
    }
    var k := 0;
    while k < |METRICS|
      invariant 0 <= k <= |METRICS|
      invariant forall e :: e in errors <==>
        || (exists j :: 0 <= j < |cases| && CaseFault(cases[j], e))
        || (e.Metric? && Rank(e.name) < k && !MetricFits(round, cases, s, e.name))
    {
      RankOfEntry(k);
      if !MetricFits(round, cases, s, METRICS[k]) { errors := errors + [Metric(METRICS[k])]; }
      k := k + 1;
    }
    if s.status != ExpectedStatus(cases) { errors := errors + [Status]; }
  }

  lemma RankOfEntry(k: nat)
    requires k < |METRICS|
    ensures Rank(METRICS[k]) == k && forall name: MetricName :: Rank(name) == k ==> name == METRICS[k]
  {
  }

  lemma CaseIsRightIff(c: CaseResult)
    ensures CaseIsRight(c) <==> forall e :: !CaseFault(c, e)
  {
    hide AllPassed;
    if forall e :: !CaseFault(c, e) {
      assert !CaseFault(c, PassedType(c.id)) && !CaseFault(c, Passed(c.id)) && !CaseFault(c, FailedCount(c.id));
      forall j | 0 <= j < |c.checks| ensures !c.checks[j].passed.NotBoolean? {
        assert !CaseFault(c, CheckPassedType(c.id, c.checks[j].id));
      }
    }
  }

  /** No fault is found exactly in a suite that is right: its passes, its counts, its metrics and its status. */
  lemma NoFaultIff(round: real -> real, cases: seq<CaseResult>, s: Summary)
    ensures (forall e :: !Fault(round, cases, s, e)) <==> SuiteIsRight(round, cases, s)
  {
    hide CaseIsRight, CaseFault, ExpectedStatus, RawMetric;
    forall i | 0 <= i < |cases| ensures CaseIsRight(cases[i]) <==> forall e :: !CaseFault(cases[i], e) { CaseIsRightIff(cases[i]); }
    CasesHaveNoMetricFault(cases);
    if forall e :: !Fault(round, cases, s, e) {
      assert !Fault(round, cases, s, Status);
      forall name: MetricName ensures name in s.metrics && s.metrics[name] == RawMetric(round, cases, name) {
        assert !Fault(round, cases, s, Metric(name));
      }
      forall i | 0 <= i < |cases| ensures CaseIsRight(cases[i]) {
        forall e ensures !CaseFault(cases[i], e) { assert !Fault(round, cases, s, e); }
      }
    }
  }

  lemma CasesHaveNoMetricFault(cases: seq<CaseResult>)
    ensures forall i, e: Error :: 0 <= i < |cases| && (e.Metric? || e.Status?) ==> !CaseFault(cases[i], e)
  {
  }

  // ---- what the metrics count

  ghost function PassedPlaces(checks: seq<Check>): set<nat> {
    set j: nat | j < |checks| && checks[j].passed.IsTrue?
  }

  lemma {:induction false} PassedChecksCount(checks: seq<Check>)
    ensures PassedChecks(checks) == |PassedPlaces(checks)|
  {
    if checks != [] {
      var n := |checks| - 1;
      PassedChecksCount(checks[..n]);
      var before := PassedPlaces(checks[..n]);
      assert n !in before;
      assert PassedPlaces(checks) == if checks[n].passed.IsTrue? then before + {n} else before;
    }
  }

  ghost function PassedCaseSet(cases: seq<CaseResult>): set<nat> {
    set i: nat | i < |cases| && cases[i].passed.IsTrue?
  }

  lemma {:induction false} PassedCasesCount(cases: seq<CaseResult>)
    ensures PassedCases(cases) == |PassedCaseSet(cases)|
  {
    if cases != [] {
      var n := |cases| - 1;
      PassedCasesCount(cases[..n]);
      var before := PassedCaseSet(cases[..n]);
      assert n !in before;
      assert PassedCaseSet(cases) == if cases[n].passed.IsTrue? then before + {n} else before;
    }
  }

  /** The checks of all cases add up. */
  ghost function CheckTotal(cases: seq<CaseResult>): nat {
    if cases == [] then 0 else CheckTotal(cases[..|cases| - 1]) + |cases[|cases| - 1].checks|
  }

  ghost function PassedCheckTotal(cases: seq<CaseResult>): nat {
    if cases == [] then 0 else PassedCheckTotal(cases[..|cases| - 1]) + |PassedPlaces(cases[|cases| - 1].checks)|
  }

  lemma {:induction false} ChecksAddUp(cases: seq<CaseResult>)
    ensures |AllChecks(cases)| == CheckTotal(cases) && PassedChecks(AllChecks(cases)) == PassedCheckTotal(cases) <= CheckTotal(cases)
  {
    hide PassedChecks;
    if cases != [] {
      var n := |cases| - 1;
      ChecksAddUp(cases[..n]);
      PassedOfConcat(AllChecks(cases[..n]), cases[n].checks);
      PassedChecksCount(cases[n].checks);
    } else {
      NoChecks();
    }
  }

  lemma NoChecks()
    ensures PassedChecks([]) == 0
  {
  }

  /** A share, or null of nothing. */
  ghost predicate IsShare(round: real -> real, v: MetricValue, part: nat, whole: nat) {
    if whole == 0 then v == NullValue else v == Number(round(part as real / whole as real))
  }

  /**
   The eight metrics, as the validator recomputes them (and, by SameMetric, as the harness writes them): the cases and
   the checks, how many passed, how many did not, and the two shares.
   */
  lemma MetricsCount(round: real -> real, cases: seq<CaseResult>)
    ensures var n, p := |cases|, |PassedCaseSet(cases)|;
      var checks, passed := CheckTotal(cases), PassedCheckTotal(cases);
      && RawMetric(round, cases, CaseCount) == Number(n as real)
      && RawMetric(round, cases, PassedCaseCount) == Number(p as real)
      && RawMetric(round, cases, FailedCaseCount) == Number((n - p) as real)
      && RawMetric(round, cases, CheckCount) == Number(checks as real)
      && RawMetric(round, cases, PassedCheckCount) == Number(passed as real)
      && RawMetric(round, cases, FailedCheckCount) == Number((checks - passed) as real)
      && IsShare(round, RawMetric(round, cases, OverallPassRate), p, n)
      && IsShare(round, RawMetric(round, cases, CheckPassRate), passed, checks)
  {
    hide AllChecks, PassedChecks, PassedCases, PassedCaseSet, CheckTotal, PassedCheckTotal;
    ChecksAddUp(cases);
    PassedCasesCount(cases);
  }

  /** A finished case counts its checks that did not pass, and passes exactly if there is none. */
  lemma FinishedCounts(id: string, checks: seq<Check>)
    ensures var c := FinishCase(id, checks);
      && c.id == id && c.checks == checks && c.failedCheckCount == Some(|checks| - |PassedPlaces(checks)|)
      && (c.passed == if AllPassed(checks) then IsTrue else IsFalse)
  {
    hide PassedPlaces, PassedChecks;
    PassedChecksCount(checks);
    AllPassedIffCounted(checks);
  }

  // ---- producers and validator agree

  /** A case as the harness makes it: checks from `buildCheck`, finished by `finishCase`. */
  datatype Made = Made(id: string, checks: seq<(string, bool)>)

  function MadeChecks(m: Made): seq<Check> {
    seq(|m.checks|, i requires 0 <= i < |m.checks| => BuildCheck(m.checks[i].0, m.checks[i].1))
  }

  function MadeCases(ms: seq<Made>): (cases: seq<CaseResult>)
    ensures |cases| == |ms| && forall i :: 0 <= i < |ms| ==> cases[i] == FinishCase(ms[i].id, MadeChecks(ms[i]))
  {
    seq(|ms|, i requires 0 <= i < |ms| => FinishCase(ms[i].id, MadeChecks(ms[i])))
  }

  lemma FinishedIsRight(m: Made)
    ensures CaseIsRight(FinishCase(m.id, MadeChecks(m)))
  {
    AllPassedIffCounted(MadeChecks(m));
  }

  /** Where every case is right, a failed check fails its case, so looking at the cases is enough. */
  lemma {:induction false} FailedCheckFailsACase(cases: seq<CaseResult>)
    requires forall i :: 0 <= i < |cases| ==> CaseIsRight(cases[i])
    ensures PassedCases(cases) == |cases| <==> PassedChecks(AllChecks(cases)) == |AllChecks(cases)|
  {
    hide CaseIsRight, AllPassed;
    if cases != [] {
      var n := |cases| - 1;
      FailedCheckFailsACase(cases[..n]);
      AllPassedIffCounted(cases[n].checks);
      RightCase(cases[n]);
      PassedOfConcat(AllChecks(cases[..n]), cases[n].checks);
    }
  }

  lemma RightCase(c: CaseResult)
    requires CaseIsRight(c)
    ensures c.passed.IsTrue? <==> AllPassed(c.checks)
  {
  }

  lemma {:induction false} PassedOfConcat(a: seq<Check>, b: seq<Check>)
    ensures PassedChecks(a + b) == PassedChecks(a) + PassedChecks(b)
    decreases |b|
  {
    if b == [] {
      assert a + b == a;
    } else {
      assert (a + b)[..|a + b| - 1] == a + b[..|b| - 1];
      PassedOfConcat(a, b[..|b| - 1]);
    }
  }

  /** Whatever the checks say, the validator finds no fault with cases and metrics from the harness and the runs' status. */
  lemma ProducersAgree(round: real -> real, ms: seq<Made>)
    ensures var cases := MadeCases(ms);
      forall e :: !Fault(round, cases, Summary(BuildMetricSummary(round, cases), RunStatus(cases)), e)
  {
    hide Fault, CaseIsRight, MadeCases, BuildMetricSummary, RawMetric, PassedCases, PassedChecks, AllChecks;
    var cases := MadeCases(ms);
    forall i | 0 <= i < |cases| ensures CaseIsRight(cases[i]) { FinishedIsRight(ms[i]); }
    FailedCheckFailsACase(cases);
    var metrics := BuildMetricSummary(round, cases);
    forall name: MetricName ensures name in metrics && metrics[name] == RawMetric(round, cases, name) {
      SameMetric(round, cases, name);
    }
    NoFaultIff(round, cases, Summary(metrics, RunStatus(cases)));
  }

  lemma SameMetric(round: real -> real, cases: seq<CaseResult>, name: MetricName)
    ensures var metrics := BuildMetricSummary(round, cases); name in metrics && metrics[name] == RawMetric(round, cases, name)
  {
    hide PassedCases, PassedChecks, AllChecks, Ratio;
  }

  // ---- ids

  /** `findDuplicateIds`, as the set of what it lists in order. */
  method FindDuplicateIds<T(==)>(ids: seq<T>) returns (duplicates: set<T>)
    ensures duplicates == set i, j | 0 <= i < j < |ids| && ids[i] == ids[j] :: ids[i]
  {
    var seen: set<T> := {};
    duplicates := {};
    var i := 0;
    while i < |ids|
      invariant 0 <= i <= |ids|
      invariant seen == set k | 0 <= k < i :: ids[k]
      invariant duplicates == set j, k | 0 <= j < k < i && ids[j] == ids[k] :: ids[j]
    {
      if ids[i] in seen { duplicates := duplicates + {ids[i]}; }
      seen := seen + {ids[i]};
      i := i + 1;
    }
  }

  ghost predicate Unique<T>(ids: seq<T>) {
    forall i, j :: 0 <= i < j < |ids| ==> ids[i] != ids[j]
  }

  function Members<T(==)>(ids: seq<T>): set<T> {
    set k | 0 <= k < |ids| :: ids[k]
  }

  /** `difference`. */
  function Difference(left: seq<string>, right: seq<string>): set<string> {
    Members(left) - Members(right)
  }

  /** The id part of `validateCaseContract` for one list of ids. */
  method IdsAreRight(actual: seq<string>, expected: seq<string>) returns (right: bool)
    ensures right <==> "" !in actual && Unique(actual) && Members(actual) == Members(expected)
  {
    var duplicates := FindDuplicateIds(actual);
    var missing, extra := Difference(expected, actual), Difference(actual, expected);
    right := "" !in actual && duplicates == {} && missing == {} && extra == {};
    UniqueIff(actual, duplicates);
    assert Members(actual) == Members(expected) <==> missing == {} && extra == {} by {
      if missing == {} && extra == {} { assert Members(actual) <= Members(expected) <= Members(actual); }
    }
  }

  lemma UniqueIff<T>(ids: seq<T>, duplicates: set<T>)
    requires duplicates == set i, j | 0 <= i < j < |ids| && ids[i] == ids[j] :: ids[i]
    ensures duplicates == {} <==> Unique(ids)
  {
    if !Unique(ids) {
      var i, j :| 0 <= i < j < |ids| && ids[i] == ids[j];
      assert ids[i] in duplicates;
    }
  }

  lemma {:induction false} UniqueCounts(ids: seq<string>, x: string)
    requires Unique(ids)
    ensures multiset(ids)[x] == if x in ids then 1 else 0
  {
    if ids != [] {
      var n := |ids| - 1;
      UniqueCounts(ids[..n], x);
      assert ids == ids[..n] + [ids[n]];
    }
  }

  /** The checks on ids pass exactly if the actual ids are a rearrangement of the unique, non-empty expected ones. */
  lemma RightIffRearranged(actual: seq<string>, expected: seq<string>)
    requires Unique(expected) && "" !in expected
    ensures "" !in actual && Unique(actual) && Members(actual) == Members(expected) <==> multiset(actual) == multiset(expected)
  {
    if multiset(actual) == multiset(expected) {
      forall x ensures x in actual <==> x in expected { assert x in multiset(actual) <==> x in multiset(expected); }
      RearrangedIsUnique(actual, expected);
      SameMembers(actual, expected);
    }
    if Unique(actual) && Members(actual) == Members(expected) {
      forall x: string ensures multiset(actual)[x] == multiset(expected)[x] {
        UniqueCounts(actual, x);
        UniqueCounts(expected, x);
        assert x in actual <==> x in Members(actual);
        assert x in expected <==> x in Members(expected);
      }
      assert multiset(actual) == multiset(expected);
    }
  }

  lemma SameMembers(a: seq<string>, b: seq<string>)
    requires forall x :: x in a <==> x in b
    ensures Members(a) == Members(b)
  {
    assert forall x :: x in Members(a) <==> x in a;
    assert forall x :: x in Members(b) <==> x in b;
  }

  lemma RearrangedIsUnique(actual: seq<string>, expected: seq<string>)
    requires Unique(expected) && multiset(actual) == multiset(expected)
    ensures Unique(actual)
  {
    forall i, j | 0 <= i < j < |actual| ensures actual[i] != actual[j] {
      UniqueCounts(expected, actual[i]);
      TwoPlaces(actual, i, j);
    }
  }

  lemma TwoPlaces(ids: seq<string>, i: nat, j: nat)
    requires i < j < |ids|
    ensures ids[i] == ids[j] ==> multiset(ids)[ids[i]] >= 2
  {
    assert ids == ids[..i] + [ids[i]] + ids[i + 1..j] + [ids[j]] + ids[j + 1..];
  }

  // ---- upload records

  /** A field: None for what is no safe integer. */
  type Num = Option<int>

  /** `paused`: None if it is no array; an entry that is no integer is None. */
  datatype Upload = Upload(
    totalBytes: Num, totalChunks: Num, chunkSize: Num, paused: Option<seq<Option<int>>>,
    skippedChunks: Num, skippedBytes: Num, resumedBytes: Num, merged: bool, pathsMatch: bool)

  function Min(a: int, b: int): int {
    if a < b then a else b
  }

  /** The chunks a corpus file needs; a size that is not positive never fits a record. */
  function ExpectedChunks(corpusBytes: Num, chunkSize: Num): Num {
    if corpusBytes.Some? && chunkSize.Some? && chunkSize.value > 0 then Some(CeilDiv(corpusBytes.value, chunkSize.value)) else None
  }

  function SkippedBytes(paused: seq<Option<int>>, total: int, size: int): int {
    if paused == [] then 0
    else
      var last := paused[|paused| - 1];
      SkippedBytes(paused[..|paused| - 1], total, size) + (if last.Some? then Min(size, total - last.value * size) else 0)
  }

  predicate PausedAreChunks(paused: seq<Option<int>>, totalChunks: Num) {
    && (forall i :: 0 <= i < |paused| ==> paused[i].Some? && totalChunks.Some? && 0 <= paused[i].value < totalChunks.value)
    && (forall i, j :: 0 <= i < j < |paused| ==> paused[i] != paused[j])
  }

  predicate PausedAreFirst(paused: seq<Option<int>>, expectedChunks: Num) {
    && expectedChunks.Some?
    && |paused| == (if expectedChunks.value / 2 > 1 then expectedChunks.value / 2 else 1)
    && forall i :: 0 <= i < |paused| ==> paused[i] == Some(i)
  }

  /** The `valid` of `validateSyntheticRawIdentities`. */
  predicate UploadIsValid(u: Upload, corpusBytes: Num, requiredChunkSize: Num) {
    var expected := ExpectedChunks(corpusBytes, requiredChunkSize);
    && u.totalBytes.Some? && u.totalBytes == corpusBytes
    && u.chunkSize.Some? && u.chunkSize.value > 0 && u.chunkSize == requiredChunkSize
    && u.totalChunks.Some? && u.totalChunks == expected
    && u.paused.Some? && PausedAreChunks(u.paused.value, u.totalChunks)
    && u.skippedChunks.Some? && 0 < u.skippedChunks.value < u.totalChunks.value && u.skippedChunks.value == |u.paused.value|
    && u.skippedBytes.Some? && u.skippedBytes.value > 0
    && u.skippedBytes.value == SkippedBytes(u.paused.value, u.totalBytes.value, u.chunkSize.value)
    && u.resumedBytes.Some? && u.resumedBytes.value > 0
    && u.skippedBytes.value + u.resumedBytes.value == u.totalBytes.value
    && u.merged && PausedAreFirst(u.paused.value, expected) && u.pathsMatch
  }

  function FirstIndices(k: nat): (s: seq<Option<int>>)
    ensures |s| == k && forall i :: 0 <= i < k ==> s[i] == Some(i)
  {
    seq(k, i => Some(i))
  }

  /** What an accepted record says, in closed form. */
  ghost predicate Resumed(u: Upload, corpusBytes: Num, requiredChunkSize: Num) {
    && corpusBytes.Some? && requiredChunkSize.Some? && requiredChunkSize.value > 0
    && var total, size := corpusBytes.value, requiredChunkSize.value;
       var n := CeilDiv(total, size);
       && n >= 2
       && u.totalBytes == Some(total) && u.chunkSize == Some(size) && u.totalChunks == Some(n)
       && u.paused == Some(FirstIndices(n / 2)) && u.skippedChunks == Some(n / 2)
       && u.skippedBytes == Some(n / 2 * size) && u.resumedBytes == Some(total - n / 2 * size)
       && u.merged && u.pathsMatch
  }

  lemma FullChunk(total: int, size: int, n: int, i: int)
    requires size > 0 && n == CeilDiv(total, size) && 0 <= i <= n - 2
    ensures Min(size, total - i * size) == size && (i + 1) * size < total
  {
    assert (n - 1) * size < total by { CeilBelow(total, size); }
    assert (i + 1) * size <= (n - 1) * size by { Below(i + 1, n - 1, size); }
    assert (i + 1) * size == i * size + size;
  }

  lemma Below(a: int, b: int, size: int)
    requires a <= b && size > 0
    ensures a * size <= b * size
  {
  }

  lemma CeilBelow(total: int, size: int)
    requires size > 0
    ensures (CeilDiv(total, size) - 1) * size < total <= CeilDiv(total, size) * size
  {
    var n := CeilDiv(total, size);
    assert n * size <= total + size - 1 < n * size + size;
    assert (n - 1) * size == n * size - size;
  }

  lemma {:induction false} SkippedAreFull(paused: seq<Option<int>>, total: int, size: int, n: int)
    requires size > 0 && n == CeilDiv(total, size) && |paused| <= n - 1 && forall i :: 0 <= i < |paused| ==> paused[i] == Some(i)
    ensures SkippedBytes(paused, total, size) == |paused| * size
    decreases |paused|
  {
    hide Min, CeilDiv;
    if paused != [] {
      var k := |paused| - 1;
      SkippedAreFull(paused[..k], total, size, n);
      FullChunk(total, size, n, k);
      assert (k + 1) * size == k * size + size;
    } else {
      assert |paused| * size == 0;
    }
  }

  /**
   A record is accepted exactly if it tells of a file of at least two chunks, the first half of them (rounded down)
   skipped whole, and the rest, which is not empty, uploaded on resume.
   */
  lemma UploadIsValidIffResumed(u: Upload, corpusBytes: Num, requiredChunkSize: Num)
    ensures UploadIsValid(u, corpusBytes, requiredChunkSize) <==> Resumed(u, corpusBytes, requiredChunkSize)
  {
    hide CeilDiv, SkippedBytes, Min;
    if corpusBytes.Some? && requiredChunkSize.Some? && requiredChunkSize.value > 0 {
      var total, size := corpusBytes.value, requiredChunkSize.value;
      var n := CeilDiv(total, size);
      if UploadIsValid(u, corpusBytes, requiredChunkSize) {
        assert n >= 2;
        assert u.paused.value == FirstIndices(n / 2);
        SkippedAreFull(u.paused.value, total, size, n);
      }
      if Resumed(u, corpusBytes, requiredChunkSize) {
        SkippedAreFull(u.paused.value, total, size, n);
        FullChunk(total, size, n, n / 2 - 1);
        assert n / 2 * size >= size by { Below(1, n / 2, size); }
      }
    }
  }
}
