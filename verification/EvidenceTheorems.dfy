/** Writer and reader of the evaluation evidence: when they agree, and when they do not. */
module EvidenceTheorems {
  import opened Common
  import opened KeyedLists
  import opened CanonicalJson
  import opened CanonicalText
  import opened Evidence
  import opened JsText

  // ---- reading back what was written

  lemma {:induction false} FindOther(fields: seq<Pair<Json>>, key: string, v: Json, other: string)
    requires other != key
    ensures Find(SetField(fields, key, v), other) == Find(fields, other)
  {
    if fields != [] && fields[0].key != key { FindOther(fields[1..], key, v, other); }
  }

  /** The evidence field does not change the public configuration. */
  lemma ConfigIgnoresEvidence(env: Env, report: seq<Pair<Json>>, v: Json, reportType: string)
    ensures PublicConfig(env, Obj(SetField(report, "evidence", v)), reportType) == PublicConfig(env, Obj(report), reportType)
  {
    hide SetField, Find, Pick, Ids, Sanitize;
    FindOther(report, "evidence", v, "summary");
    FindOther(report, "evidence", v, "cases");
    FindOther(report, "evidence", v, "checks");
    FindOther(report, "evidence", v, "version");
    FindOther(report, "evidence", v, "signals");
  }

  /** The report type chooses the same fields before and after its normalization. */
  predicate TypeIsStable(reportType: string) {
    BranchOf(reportType) == BranchOf(Norm(reportType))
  }

  /** The known report types. */
  const TYPES := ["synthetic", "rerank", "planner", "trajectory", "recovery_observability", "runtime_smoke", "rollout_readiness"]

  lemma KnownTypes(t: string)
    ensures BranchOf(t) != Other <==> t in TYPES
    ensures t in TYPES ==> t != "" && forall i :: 0 <= i < |t| ==> !White(t[i])
  {
    assert forall i :: 0 <= i < |TYPES| ==> TYPES[i] != "" && forall j :: 0 <= j < |TYPES[i]| ==> !White(TYPES[i][j]);
  }

  /** That is so exactly for a type without stray white space, and for one that names no known type anyway. */
  lemma StableIff(t: string)
    ensures TypeIsStable(t) <==> Norm(t) == t || Norm(t) !in TYPES
  {
    KnownTypes(t);
    KnownTypes(Norm(t));
    if t in TYPES { CollapseOfDense(t); }
  }

  lemma {:induction false} CollapseBeforeSpace(t: string)
    requires t != "" && forall i :: 0 <= i < |t| ==> !White(t[i])
    ensures Collapse(t + " ") == t + " " && TrimStart(t + " ") == t + " " && TrimEnd(t + " ") == t
  {
    assert (t + " ")[1..] == t[1..] + " ";
    assert (t + " ")[..|t|] == t;
    if t[1..] == "" {
      assert t[1..] + " " == " ";
      assert Collapse(" ") == " " + Collapse("");
    } else {
      CollapseBeforeSpace(t[1..]);
    }
  }

  /** White space around a known type is lost, so such a type is not stable. */
  lemma SpacesUnsettle(t: string)
    requires t in TYPES
    ensures Norm(" " + t + " ") == t && !TypeIsStable(" " + t + " ")
  {
    hide Collapse, TrimStart, TrimEnd;
    KnownTypes(t);
    CollapseBeforeSpace(t);
    SpaceBefore(t + " ");
    assert " " + t + " " == " " + (t + " ");
    KnownTypes(" " + t + " ");
    assert (" " + t + " ")[0] == ' ' && White(' ');
  }

  lemma SpaceBefore(t: string)
    requires t != "" && !White(t[0])
    ensures Collapse(" " + t) == " " + Collapse(t) && TrimStart(" " + t) == TrimStart(t)
  {
    assert (" " + t)[1..] == t;
  }

  /** The written hash is the one the reader computes. */
  lemma HashIsReadBack(env: Env, report: seq<Pair<Json>>, o: Options, rendered: Evidence -> Json)
    requires Attach(env, report, o, rendered).Some? && TypeIsStable(o.reportType)
    ensures var a := Attach(env, report, o, rendered).value;
      var expected := PublicConfig(env, a.report, a.evidence.reportType);
      expected.Some? && a.evidence.configHash == Hash(env, expected.value)
  {
    hide RawConfig, Canon, Sanitize, SetField;
    var e := Attach(env, report, o, rendered).value.evidence;
    ConfigIgnoresEvidence(env, report, rendered(e), e.reportType);
    SanitizeIsIdempotent(env.secret, RawConfig(Obj(report), BranchOf(o.reportType)).value);
  }

  /** Default evidence of a stable report type is never refused for its configuration. */
  lemma NeverConfigHashMismatch(env: Env, report: seq<Pair<Json>>, o: Options, rendered: Evidence -> Json, spec: Spec, check: Check)
    requires Lawful(env) && Attach(env, report, o, rendered).Some? && TypeIsStable(o.reportType)
    ensures FailureReason(env, Attach(env, report, o, rendered).value, spec, check) !in {ConfigHashMismatch, TypeError}
  {
    hide PublicConfig, Hash, Attach, CorpusFits, TypeIsStable;
    HashIsReadBack(env, report, o, rendered);
    var a := Attach(env, report, o, rendered).value;
    assert env.isSha256(a.evidence.configHash) by { HashIsSha(env, PublicConfig(env, a.report, a.evidence.reportType).value); }
  }

  lemma HashIsSha(env: Env, v: Json)
    requires Lawful(env)
    ensures env.isSha256(Hash(env, v)) && Hash(env, v) != ""
  {
    assert env.isSha256(env.digest(Written(Canon(v))));
  }

  /** What a reader demands of a run, apart from the configuration. */
  ghost predicate Fits(env: Env, o: Options, spec: Spec, check: Check) {
    var at := env.parseDate(Norm(o.generatedAt));
    && spec.reportType == Norm(o.reportType) && spec.reportId == Norm(o.reportId)
    && o.corpus.relativePath != "" && o.corpus.contentHash != ""
    && check.reportPassed
    && "unknown" != Norm(o.commitSha) == check.targetCommit
    && o.dirty == Some(false)
    && at.Some? && 0.0 <= check.nowMs - at.value <= check.maxAgeMs
    && CorpusFits(env, Corpus(Norm(o.corpus.id), o.corpus.relativePath, o.corpus.contentHash, Norm(o.corpus.version)), spec, check)
    && spec.providerId == Norm(o.providerId) && spec.providerMode == Norm(o.providerMode)
    && (spec.profile == "" || spec.profile == TextOr(o.profile, "default"))
    && spec.modelRouteId == (if o.modelRouteId.None? || o.modelRouteId.value == "" then None else Some(Norm(o.modelRouteId.value)))
    && !o.cacheEnabled
  }

  /** With all else as asked for, the configuration decides: by the two hashes. */
  lemma ConfigDecides(env: Env, report: seq<Pair<Json>>, o: Options, config: Json, rendered: Evidence -> Json, spec: Spec, check: Check)
    requires Lawful(env) && Fits(env, o, spec, check)
    ensures FailureReason(env, AttachGiven(env, report, o, config, rendered), spec, check) ==
      match PublicConfig(env, Obj(report), spec.reportType)
      case None => TypeError
      case Some(read) => if Hash(env, Sanitize(env.secret, config)) == Hash(env, read) then Ok else ConfigHashMismatch
  {
    hide PublicConfig, Hash, CorpusFits, SetField, Sanitize, Trim, Collapse;
    var e := Build(env, o, config);
    ConfigIgnoresEvidence(env, report, rendered(e), spec.reportType);
    HashIsSha(env, Sanitize(env.secret, config));
  }

  // ---- the reason of a refusal

  /** What is wrong with a report's evidence, reason by reason. */
  ghost predicate Wrong(env: Env, a: Attached, spec: Spec, check: Check, r: Reason) {
    var e, at, config := a.evidence, env.parseDate(a.evidence.generatedAt), PublicConfig(env, a.report, spec.reportType);
    match r
    case Ok => false
    case MissingLineage => !HasLineage(e, spec)
    case ReportFailed => !check.reportPassed
    case UnknownCommit => e.commitSha == "unknown"
    case CommitMismatch => e.commitSha != check.targetCommit
    case DirtyWorktree => e.dirty != Some(false)
    case InvalidGeneratedAt => at.None?
    case FutureReport => at.Some? && at.value > check.nowMs
    case StaleReport => at.Some? && check.nowMs - at.value > check.maxAgeMs
    case TypeError => config.None?
    case ConfigHashMismatch => config.Some? && (!env.isSha256(e.configHash) || e.configHash != Hash(env, config.value))
    case WrongCorpus => !CorpusFits(env, e.corpus, spec, check)
    case WrongProvider => e.providerId != spec.providerId || e.providerMode != spec.providerMode
    case WrongProfile => spec.profile != "" && e.profile != spec.profile
    case WrongModelRoute => e.modelRouteId != spec.modelRouteId
    case SemanticCacheEnabled => e.cacheEnabled
  }

  /** The order of the checks. */
  function Place(r: Reason): nat {
    match r
    case MissingLineage => 0 case ReportFailed => 1 case UnknownCommit => 2 case CommitMismatch => 3 case DirtyWorktree => 4
    case InvalidGeneratedAt => 5 case FutureReport => 6 case StaleReport => 7 case TypeError => 8 case ConfigHashMismatch => 9
    case WrongCorpus => 10 case WrongProvider => 11 case WrongProfile => 12 case WrongModelRoute => 13
    case SemanticCacheEnabled => 14 case Ok => 15
  }

  /** The verdict is ok exactly if nothing is wrong, and else the first thing that is wrong. */
  lemma ReasonIsFirstWrong(env: Env, a: Attached, spec: Spec, check: Check)
    ensures var reason := FailureReason(env, a, spec, check);
      && (reason == Ok <==> forall r :: !Wrong(env, a, spec, check, r))
      && forall r :: r != Ok ==>
           (reason == r <==> Wrong(env, a, spec, check, r) && forall q :: Place(q) < Place(r) ==> !Wrong(env, a, spec, check, q))
  {
    hide PublicConfig, Hash, CorpusFits, HasLineage;
    var reason := FailureReason(env, a, spec, check);
    forall q | Place(q) < Place(reason) ensures !Wrong(env, a, spec, check, q) { }
    assert reason != Ok ==> Wrong(env, a, spec, check, reason);
    forall r | r != Ok && Wrong(env, a, spec, check, r) && reason != r ensures Place(reason) < Place(r) { }
  }

  /** Nothing but the configuration is wrong. */
  ghost predicate WrongAtMostInConfig(env: Env, a: Attached, spec: Spec, check: Check) {
    forall r :: r != ConfigHashMismatch && r != TypeError ==> !Wrong(env, a, spec, check, r)
  }

  lemma FittingIsRight(env: Env, a: Attached, config: Json, o: Options, spec: Spec, check: Check)
    requires Lawful(env) && a.evidence == Build(env, o, config) && Fits(env, o, spec, check)
    ensures WrongAtMostInConfig(env, a, spec, check)
  {
    hide PublicConfig, Hash, CorpusFits, Collapse, Trim, Sanitize;
    HashIsSha(env, Sanitize(env.secret, config));
  }

  lemma RightIsFitting(env: Env, a: Attached, config: Json, o: Options, spec: Spec, check: Check)
    requires Lawful(env) && a.evidence == Build(env, o, config) && WrongAtMostInConfig(env, a, spec, check)
    ensures Fits(env, o, spec, check)
  {
    hide Wrong, Build, Fits, Lawful;
    RightPartsFit(env, a, config, o, spec, check);
  }

  lemma RightPartsFit(env: Env, a: Attached, config: Json, o: Options, spec: Spec, check: Check)
    requires a.evidence == Build(env, o, config)
    requires !Wrong(env, a, spec, check, MissingLineage) && !Wrong(env, a, spec, check, ReportFailed)
    requires !Wrong(env, a, spec, check, UnknownCommit) && !Wrong(env, a, spec, check, CommitMismatch)
    requires !Wrong(env, a, spec, check, DirtyWorktree) && !Wrong(env, a, spec, check, InvalidGeneratedAt)
    requires !Wrong(env, a, spec, check, FutureReport) && !Wrong(env, a, spec, check, StaleReport)
    requires !Wrong(env, a, spec, check, WrongCorpus) && !Wrong(env, a, spec, check, WrongProvider)
    requires !Wrong(env, a, spec, check, WrongProfile) && !Wrong(env, a, spec, check, WrongModelRoute)
    requires !Wrong(env, a, spec, check, SemanticCacheEnabled)
    ensures Fits(env, o, spec, check)
  {
    hide PublicConfig, Hash, CorpusFits, Collapse, Trim, Sanitize;
  }

  /** Writer and reader agree: the evidence of a run is accepted exactly if the run is the one the reader asks for. */
  lemma AcceptedIff(env: Env, report: seq<Pair<Json>>, o: Options, rendered: Evidence -> Json, spec: Spec, check: Check)
    requires Lawful(env) && Attach(env, report, o, rendered).Some? && TypeIsStable(o.reportType)
    ensures FailureReason(env, Attach(env, report, o, rendered).value, spec, check) == Ok <==> Fits(env, o, spec, check)
  {
    hide Fits, FailureReason, PublicConfig, Hash, TypeIsStable, Lawful, AttachGiven;
    var a := Attach(env, report, o, rendered).value;
    var config := PublicConfig(env, Obj(report), o.reportType).value;
    BuiltInto(env, report, o, config, rendered);
    ReasonIsFirstWrong(env, a, spec, check);
    NeverConfigHashMismatch(env, report, o, rendered, spec, check);
    if Fits(env, o, spec, check) {
      FittingIsRight(env, a, config, o, spec, check);
      var reason := FailureReason(env, a, spec, check);
      assert reason != Ok ==> Wrong(env, a, spec, check, reason);
    } else if WrongAtMostInConfig(env, a, spec, check) {
      RightIsFitting(env, a, config, o, spec, check);
    }
  }

  lemma BuiltInto(env: Env, report: seq<Pair<Json>>, o: Options, config: Json, rendered: Evidence -> Json)
    ensures AttachGiven(env, report, o, config, rendered).evidence == Build(env, o, config)
  {
  }

  // ---- when the report type is not stable

  const MARKS: seq<Pair<Json>> := [Pair("other", Num(1.0)), Pair("chunkSize", Num(1.0)), Pair("topK", Num(1.0))]
  const MARKED: seq<Pair<Json>> := [Pair("summary", Obj([Pair("config", Obj(MARKS))]))]

  lemma FindFirst(p: Pair<Json>, rest: seq<Pair<Json>>, key: string)
    ensures Find([p] + rest, key) == if p.key == key then p.value else Find(rest, key)
  {
    assert ([p] + rest)[1..] == rest;
  }

  lemma FindOnly(p: Pair<Json>, key: string)
    ensures Get(Obj([p]), key) == if p.key == key then p.value else Undefined
  {
    FindFirst(p, [], key);
    assert [p] + [] == [p];
    FindNothing(key);
  }

  lemma MarkedConfig()
    ensures Get(Get(Obj(MARKED), "summary"), "config") == Obj(MARKS)
    ensures Get(Get(Obj(MARKED), "summary"), "retrieval").Undefined? && Get(Get(Obj(MARKED), "summary"), "version").Undefined?
    ensures Get(Get(Obj(MARKED), "summary"), "provider").Undefined?
    ensures Get(Obj(MARKED), "cases").Undefined? && Get(Obj(MARKED), "checks").Undefined?
    ensures Get(Obj(MARKED), "version").Undefined? && Get(Obj(MARKED), "signals").Undefined?
  {
    hide Get;
    forall key { FindOnly(Pair("config", Obj(MARKS)), key); }
    forall key { FindOnly(Pair("summary", Obj([Pair("config", Obj(MARKS))])), key); }
    assert |"config"| == 6 && |"retrieval"| == 9 && |"provider"| == 8 && |"version"| == 7;
    assert |"summary"| == 7 && |"cases"| == 5 && |"checks"| == 6 && |"signals"| == 7;
    assert "summary"[0] == 's' && "version"[0] == 'v' && "signals"[1] == 'i' && "summary"[1] == 'u';
  }

  lemma MarkAt(key: string)
    ensures Get(Obj(MARKS), key) == if key == "other" || key == "chunkSize" || key == "topK" then Num(1.0) else Undefined
  {
    hide Find;
    FindFirst(MARKS[0], MARKS[1..], key);
    FindFirst(MARKS[1], MARKS[2..], key);
    FindFirst(MARKS[2], [], key);
    assert MARKS == [MARKS[0]] + MARKS[1..] && MARKS[1..] == [MARKS[1]] + MARKS[2..] && MARKS[2..] == [MARKS[2]] + [];
    FindNothing(key);
  }

  lemma FindNothing(key: string)
    ensures Find([], key) == Undefined
  {
  }

  lemma {:induction false} PickNothing(v: Json, names: seq<string>)
    requires forall i :: 0 <= i < |names| ==> Get(v, names[i]).Undefined?
    ensures Pick(v, names) == []
  {
    if names != [] { PickNothing(v, names[1..]); }
  }

  lemma {:induction false} PickOne(v: Json, names: seq<string>, i: nat)
    requires i < |names| && !Get(v, names[i]).Undefined?
    requires forall j :: 0 <= j < |names| && j != i ==> Get(v, names[j]).Undefined?
    ensures Pick(v, names) == [Pair(names[i], Get(v, names[i]))]
  {
    if i == 0 { PickNothing(v, names[1..]); } else { PickOne(v, names[1..], i - 1); }
  }

  lemma MarkedPicks()
    ensures Pick(Obj(MARKS), SYNTHETIC_FIELDS) == [Pair("chunkSize", Num(1.0))]
    ensures Pick(Obj(MARKS), RERANK_FIELDS) == [Pair("topK", Num(1.0))]
    ensures Pick(Undefined, RETRIEVAL_FIELDS) == []
  {
    hide Get, Pick;
    forall key { MarkAt(key); }
    MarksAmongFields();
    PickOne(Obj(MARKS), SYNTHETIC_FIELDS, 1);
    PickOne(Obj(MARKS), RERANK_FIELDS, 0);
    forall key { GetOfUndefined(key); }
    PickNothing(Undefined, RETRIEVAL_FIELDS);
  }

  lemma GetOfUndefined(key: string)
    ensures Get(Undefined, key).Undefined?
  {
  }

  lemma MarksAmongFields()
    ensures SYNTHETIC_FIELDS[1] == "chunkSize" && RERANK_FIELDS[0] == "topK"
    ensures forall j :: 0 <= j < |SYNTHETIC_FIELDS| && j != 1 ==> SYNTHETIC_FIELDS[j] !in ["other", "chunkSize", "topK"]
    ensures forall j :: 0 < j < |RERANK_FIELDS| ==> RERANK_FIELDS[j] !in ["other", "chunkSize", "topK"]
  {
    assert |"other"| == 5 && |"chunkSize"| == 9 && |"topK"| == 4;
  }

  function MarkKeys(b: Branch): seq<string> {
    match b
    case Synthetic => ["chunkSize"]
    case Rerank => ["topK"]
    case Cases => ["caseIds", "provider", "version"]
    case RuntimeSmoke => ["planners", "version"]
    case Rollout => ["checkIds", "requiredRuntime", "version"]
    case Other => ["other", "chunkSize", "topK"]
  }

  /** The configuration of the marked report holds exactly these keys, so each kind of report shows another one. */
  lemma MarkedRaw(b: Branch)
    ensures var raw := RawConfig(Obj(MARKED), b);
      && raw.Some? && raw.value.Obj? && |raw.value.fields| == |MarkKeys(b)|
      && (forall i :: 0 <= i < |MarkKeys(b)| ==> raw.value.fields[i].key == MarkKeys(b)[i])
      && (forall i :: 0 <= i < |MarkKeys(b)| && MarkKeys(b)[i] != "provider" ==> !raw.value.fields[i].value.Undefined?)
      && (forall i :: 0 <= i < |MarkKeys(b)| ==> WellFormed(raw.value.fields[i].value))
  {
    hide Get, Pick;
    MarkedConfig();
    MarkedPicks();
    forall key { GetOfUndefined(key); }
  }

  /** The key that tells two kinds of report apart: in the configuration of one, and not of the other. */
  function Tell(a: Branch, b: Branch): string
    requires a != b
  {
    match a
    case Other => "other"
    case Synthetic => if b == Other then "other" else "chunkSize"
    case Rerank => if b == Other then "other" else "topK"
    case Cases => "caseIds"
    case RuntimeSmoke => "planners"
    case Rollout => "checkIds"
  }

  lemma Telling(a: Branch, b: Branch)
    requires a != b
    ensures Tell(a, b) in MarkKeys(a) <==> Tell(a, b) !in MarkKeys(b)
  {
    assert |"other"| == 5 && |"chunkSize"| == 9 && |"topK"| == 4 && |"caseIds"| == 7 && |"provider"| == 8 && |"version"| == 7;
    assert |"planners"| == 8 && |"checkIds"| == 8 && |"requiredRuntime"| == 15;
    assert "planners"[1] == 'l' && "provider"[1] == 'r' && "checkIds"[0] == 'c' && "caseIds"[0] == 'c' && "version"[0] == 'v';
    assert "planners"[0] == 'p';
  }

  lemma MarkKeysAreDistinct(b: Branch)
    ensures forall i, j :: 0 <= i < j < |MarkKeys(b)| ==> MarkKeys(b)[i] != MarkKeys(b)[j]
  {
    assert |"other"| == 5 && |"chunkSize"| == 9 && |"topK"| == 4 && |"caseIds"| == 7 && |"provider"| == 8 && |"version"| == 7;
    assert |"planners"| == 8 && |"checkIds"| == 8 && |"requiredRuntime"| == 15;
    assert "caseIds"[0] == 'c' && "version"[0] == 'v';
  }

  lemma MarkedMeaning(secret: string -> bool, b: Branch, key: string)
    requires !secret(key) && key != "provider"
    ensures var raw := RawConfig(Obj(MARKED), b);
      && raw.Some? && raw.value.Obj? && WellFormed(raw.value)
      && var m := MeaningOf(Sanitize(secret, raw.value)); m.MObj? && (key in m.fields <==> key in MarkKeys(b))
  {
    hide RawConfig, MeaningOf, Sanitize, MarkKeys, ToMap;
    MarkedRaw(b);
    MarkKeysAreDistinct(b);
    var fields := RawConfig(Obj(MARKED), b).value.fields;
    SanitizedMeaningAt(secret, fields, key);
    ToMapKeys(fields, key);
    if key in MarkKeys(b) {
      var i :| 0 <= i < |MarkKeys(b)| && MarkKeys(b)[i] == key;
      ToMapEntry(fields, i);
      assert HasKey(fields, key);
    }
  }

  /** The report whose configuration tells the kinds of report apart is refused under any other kind than its own. */
  lemma MarkedConfigsDiffer(env: Env, a: Branch, b: Branch)
    requires a != b && !env.secret(Tell(a, b))
    ensures var x, y := RawConfig(Obj(MARKED), a), RawConfig(Obj(MARKED), b);
      && x.Some? && y.Some?
      && Written(Canon(Sanitize(env.secret, x.value))) != Written(Canon(Sanitize(env.secret, y.value)))
  {
    hide RawConfig, MeaningOf, Sanitize, MarkKeys, Canon, Tell, Written, WellFormed;
    var key := Tell(a, b);
    TellIsNotProvider(a, b);
    MarkedMeaning(env.secret, a, key);
    MarkedMeaning(env.secret, b, key);
    Telling(a, b);
    var x, y := Sanitize(env.secret, RawConfig(Obj(MARKED), a).value), Sanitize(env.secret, RawConfig(Obj(MARKED), b).value);
    SanitizeKeepsForm(env.secret, RawConfig(Obj(MARKED), a).value);
    SanitizeKeepsForm(env.secret, RawConfig(Obj(MARKED), b).value);
    ObjectOfMeaning(x);
    ObjectOfMeaning(y);
    WrittenMeaningKeys(x.fields, key);
    WrittenMeaningKeys(y.fields, key);
    SameTextIff(x, y);
  }

  lemma ObjectOfMeaning(v: Json)
    requires MeaningOf(v).MObj?
    ensures v.Obj?
  {
  }

  /**
   A report type whose normalization chooses other fields: some report's evidence, perfect in all else, is refused for
   its configuration, unless two different configurations have one digest.
   */
  lemma UnstableTypeMismatches(env: Env, o: Options, rendered: Evidence -> Json, spec: Spec, check: Check)
    requires Lawful(env) && Fits(env, o, spec, check) && !TypeIsStable(o.reportType)
    requires forall a, b :: a != b ==> !env.secret(Tell(a, b))
    ensures var a, x, y := Attach(env, MARKED, o, rendered), PublicConfig(env, Obj(MARKED), o.reportType),
                           PublicConfig(env, Obj(MARKED), spec.reportType);
      && a.Some? && x.Some? && y.Some?
      && FailureReason(env, a.value, spec, check) == if Collide(env, x.value, y.value) then Ok else ConfigHashMismatch
  {
    hide FailureReason, Fits, RawConfig, Sanitize, Canon, Written, Tell, Hash, AttachGiven;
    assert spec.reportType == Norm(o.reportType) by { FitsType(env, o, spec, check); }
    var written, read := BranchOf(o.reportType), BranchOf(spec.reportType);
    MarkedConfigsDiffer(env, written, read);
    var x := PublicConfig(env, Obj(MARKED), o.reportType).value;
    ConfigDecides(env, MARKED, o, x, rendered, spec, check);
    SanitizeIsIdempotent(env.secret, RawConfig(Obj(MARKED), written).value);
  }

  lemma FitsType(env: Env, o: Options, spec: Spec, check: Check)
    requires Fits(env, o, spec, check)
    ensures spec.reportType == Norm(o.reportType)
  {
  }

  /** A concrete one: spaces around "synthetic". */
  lemma SpacedTypeIsRefused(env: Env, o: Options, rendered: Evidence -> Json, spec: Spec, check: Check)
    requires Lawful(env) && Fits(env, o, spec, check) && o.reportType == " synthetic "
    requires forall a, b :: a != b ==> !env.secret(Tell(a, b))
    ensures var a, x, y := Attach(env, MARKED, o, rendered), PublicConfig(env, Obj(MARKED), " synthetic "),
                           PublicConfig(env, Obj(MARKED), "synthetic");
      && a.Some? && x.Some? && y.Some?
      && FailureReason(env, a.value, spec, check) == if Collide(env, x.value, y.value) then Ok else ConfigHashMismatch
  {
    hide FailureReason, Fits, PublicConfig, Attach, Norm, TypeIsStable;
    assert TYPES[0] == "synthetic";
    assert " " + "synthetic" + " " == " synthetic ";
    SpacesUnsettle("synthetic");
    FitsType(env, o, spec, check);
    UnstableTypeMismatches(env, o, rendered, spec, check);
  }

  lemma TellIsNotProvider(a: Branch, b: Branch)
    requires a != b
    ensures Tell(a, b) != "provider"
  {
    assert |"provider"| == 8 && "planners"[1] == 'l' && "provider"[1] == 'r' && "checkIds"[0] == 'c';
  }

  /**
   Evidence of a configuration the caller gave, perfect in all else, is accepted exactly if what JSON writes of the two
   configurations means the same, or if their digests collide.
   */
  lemma GivenConfigIff(env: Env, report: seq<Pair<Json>>, o: Options, given: Json, rendered: Evidence -> Json, spec: Spec, check: Check)
    requires Lawful(env) && Fits(env, o, spec, check) && PublicConfig(env, Obj(report), spec.reportType).Some?
    requires WellFormed(given) && WellFormed(PublicConfig(env, Obj(report), spec.reportType).value)
    ensures var reason := FailureReason(env, AttachGiven(env, report, o, given, rendered), spec, check);
      var x, y := Sanitize(env.secret, given), PublicConfig(env, Obj(report), spec.reportType).value;
      && reason in {Ok, ConfigHashMismatch}
      && (reason == Ok <==> MeaningOf(Written(x)) == MeaningOf(Written(y)) || Collide(env, x, y))
  {
    hide FailureReason, Fits, PublicConfig, Sanitize, Canon, Written, AttachGiven, MeaningOf;
    ConfigDecides(env, report, o, given, rendered, spec, check);
    SanitizeKeepsForm(env.secret, given);
    SameTextIff(Sanitize(env.secret, given), PublicConfig(env, Obj(report), spec.reportType).value);
  }
}
