/**
 Evaluation evidence: what `buildEvaluationEvidence` and `attachEvaluationEvidence` write into a report
 (server/evaluation/eval-evidence.js), and what `getEvaluationEvidenceFailureReason` reads out of it
 (server/evaluation/eval-evidence-validation.js).

 Reports are JSON trees. SHA-256 over the canonical text, the pattern of secret names and the date parser are
 uninterpreted (`Env`).
 */
module Evidence {
  import opened Common
  import opened KeyedLists
  import opened CanonicalJson
  import opened CanonicalText
  import opened JsText

  /** `digest` is SHA-256 of the text JSON writes for a tree. */
  datatype Env = Env(
    digest: Json -> string, isSha256: string -> bool, secret: string -> bool, parseDate: string -> Option<real>)

  /** Digests look like SHA-256. */
  ghost predicate Lawful(env: Env) {
    forall v :: env.isSha256(env.digest(v)) && env.digest(v) != ""
  }

  /** `hashCanonicalJson`. */
  function Hash(env: Env, v: Json): string {
    env.digest(Written(Canon(v)))
  }

  /** These two trees have different canonical texts, and yet one digest. */
  ghost predicate Collide(env: Env, a: Json, b: Json) {
    Written(Canon(a)) != Written(Canon(b)) && Hash(env, a) == Hash(env, b)
  }

  /** `normalizeText`: white space collapsed and trimmed, or the fallback if nothing is left. */
  function TextOr(t: string, fallback: string): string {
    var r := Trim(Collapse(t));
    if r == "" then fallback else r
  }

  function Norm(t: string): string {
    TextOr(t, "unknown")
  }

  // ---- reading reports

  /** `value ?? other`. */
  function Or(v: Json, other: Json): Json {
    if v.Undefined? || v.Null? then other else v
  }

  predicate Truthy(v: Json) {
    !v.Undefined? && !v.Null? && v != Bool(false) && v != Num(0.0) && v != Str("")
  }

  /** `pickPublicFields`. */
  function Pick(v: Json, names: seq<string>): seq<Pair<Json>> {
    if names == [] then []
    else (if Get(v, names[0]).Undefined? then [] else [Pair(names[0], Get(v, names[0]))]) + Pick(v, names[1..])
  }

  function TruthyIds(items: seq<Json>): seq<Json> {
    if items == [] then []
    else (if Truthy(Get(items[0], "id")) then [Get(items[0], "id")] else []) + TruthyIds(items[1..])
  }

  /** `(value ?? []).map((item) => item.id).filter(Boolean)`; None for the TypeError of a value that is no such list. */
  function Ids(v: Json): Option<Json> {
    match Or(v, Arr([]))
    case Arr(items) => if Null in items || Undefined in items then None else Some(Arr(TruthyIds(items)))
    case _ => None
  }

  datatype Branch = Synthetic | Rerank | Cases | RuntimeSmoke | Rollout | Other

  function BranchOf(reportType: string): Branch {
    if reportType == "synthetic" then Synthetic
    else if reportType == "rerank" then Rerank
    else if reportType == "planner" || reportType == "trajectory" || reportType == "recovery_observability" then Cases
    else if reportType == "runtime_smoke" then RuntimeSmoke
    else if reportType == "rollout_readiness" then Rollout
    else Other
  }

  const RETRIEVAL_FIELDS := ["vectorStoreProvider", "hybridEnabled", "hybridFusion"]
  const SYNTHETIC_FIELDS := [
    "chunkStrategy", "chunkSize", "chunkOverlap", "retrievalTopK", "compareTopKPerDoc", "maxComparisonSources",
    "minRelevanceScore", "nearDuplicateGuardEnabled", "uploadChunkSizeBytes"]
  const RERANK_FIELDS := ["topK", "topKPerDoc", "candidateMultiplier", "embeddingProvider", "rerankProvider", "rerankWeight"]

  /** The public configuration before it is sanitized. */
  function RawConfig(report: Json, branch: Branch): Option<Json> {
    var summary := Get(report, "summary");
    match branch
    case Synthetic =>
      var retrieval := Pick(Get(summary, "retrieval"), RETRIEVAL_FIELDS);
      Some(Obj(Pick(Get(summary, "config"), SYNTHETIC_FIELDS) + (if retrieval == [] then [] else [Pair("retrieval", Obj(retrieval))])))
    case Rerank => Some(Obj(Pick(Get(summary, "config"), RERANK_FIELDS)))
    case Cases =>
      (match Ids(Get(report, "cases"))
       case None => None
       case Some(ids) => Some(Obj([
         Pair("caseIds", ids), Pair("provider", Or(Get(summary, "provider"), Undefined)),
         Pair("version", Or(Get(summary, "version"), Str("unknown")))])))
    case RuntimeSmoke =>
      Some(Obj([
        Pair("planners", Or(Get(Get(report, "checks"), "planners"), Obj([]))),
        Pair("version", Or(Get(report, "version"), Str("1.0.0")))]))
    case Rollout =>
      (match Ids(Get(report, "checks"))
       case None => None
       case Some(ids) => Some(Obj([
         Pair("checkIds", ids), Pair("requiredRuntime", Or(Get(Get(Get(report, "signals"), "runtime"), "required"), Obj([]))),
         Pair("version", Or(Get(summary, "version"), Str("unknown")))])))
    case Other => Some(Or(Get(summary, "config"), Obj([])))
  }

  /** `getPublicEvaluationConfig`. */
  function PublicConfig(env: Env, report: Json, reportType: string): Option<Json> {
    match RawConfig(report, BranchOf(reportType)) case None => None case Some(v) => Some(Sanitize(env.secret, v))
  }

  // ---- the evidence

  datatype Corpus = Corpus(id: string, relativePath: string, contentHash: string, version: string)

  /** `dirty`: None for "unknown". `generatorVersion`, `sourceReports` and the suite are always filled in. */
  datatype Evidence = Evidence(
    reportType: string, reportId: string, runId: string, generatedAt: string, commitSha: string, dirty: Option<bool>,
    command: string, profile: string, corpus: Corpus, configHash: string, providerId: string, providerMode: string,
    modelRouteId: Option<string>, cacheEnabled: bool)

  /** The options of one run; paths and content hashes are read before. */
  datatype Options = Options(
    reportType: string, reportId: string, runId: string, generatedAt: string, commitSha: string, dirty: Option<bool>,
    command: string, profile: string, corpus: Corpus, providerId: string, providerMode: string,
    modelRouteId: Option<string>, cacheEnabled: bool)

  /** `buildEvaluationEvidence`. */
  function Build(env: Env, o: Options, publicConfig: Json): Evidence {
    Evidence(
      Norm(o.reportType), Norm(o.reportId), Norm(o.runId), Norm(o.generatedAt), Norm(o.commitSha), o.dirty,
      Norm(o.command), TextOr(o.profile, "default"),
      Corpus(Norm(o.corpus.id), o.corpus.relativePath, o.corpus.contentHash, Norm(o.corpus.version)),
      Hash(env, Sanitize(env.secret, publicConfig)), Norm(o.providerId), Norm(o.providerMode),
      if o.modelRouteId.None? || o.modelRouteId.value == "" then None else Some(Norm(o.modelRouteId.value)), o.cacheEnabled)
  }

  datatype Attached = Attached(report: Json, evidence: Evidence)

  function SetField(fields: seq<Pair<Json>>, key: string, v: Json): seq<Pair<Json>> {
    if fields == [] then [Pair(key, v)]
    else if fields[0].key == key then [Pair(key, v)] + fields[1..]
    else [fields[0]] + SetField(fields[1..], key, v)
  }

  /** `attachEvaluationEvidence`, with a given configuration; `rendered` shows the evidence as a tree. */
  function AttachGiven(env: Env, report: seq<Pair<Json>>, o: Options, config: Json, rendered: Evidence -> Json): Attached {
    var e := Build(env, o, config);
    Attached(Obj(SetField(report, "evidence", rendered(e))), e)
  }

  /** The same with the default, public configuration; None for the TypeError of the configuration. */
  function Attach(env: Env, report: seq<Pair<Json>>, o: Options, rendered: Evidence -> Json): Option<Attached> {
    match PublicConfig(env, Obj(report), o.reportType)
    case None => None
    case Some(config) => Some(AttachGiven(env, report, o, config, rendered))
  }

  // ---- the reader

  datatype Spec = Spec(
    reportType: string, reportId: string, corpus: Option<Corpus>, providerId: string, providerMode: string,
    profile: string, modelRouteId: Option<string>)

  /** What the reader is told besides: the corpus hash it expects, if any, and the age in milliseconds it allows. */
  datatype Check = Check(reportPassed: bool, targetCommit: string, nowMs: real, maxAgeMs: real, expectedCorpusHash: Option<string>)

  datatype Reason =
    | Ok | MissingLineage | ReportFailed | UnknownCommit | CommitMismatch | DirtyWorktree | InvalidGeneratedAt
    | FutureReport | StaleReport | ConfigHashMismatch | WrongCorpus | WrongProvider | WrongProfile | WrongModelRoute
    | SemanticCacheEnabled | TypeError

  /** `hasCompleteEvaluationLineage`. */
  predicate HasLineage(e: Evidence, spec: Spec) {
    && e.reportType == spec.reportType && e.reportId == spec.reportId
    && e.runId != "" && e.generatedAt != "" && e.command != "" && e.profile != ""
    && e.corpus.id != "" && e.corpus.relativePath != "" && e.corpus.contentHash != "" && e.corpus.version != ""
    && e.configHash != "" && e.providerId != "" && e.providerMode != ""
  }

  predicate CorpusFits(env: Env, c: Corpus, spec: Spec, check: Check) {
    spec.corpus.None? || (
      && c.id == spec.corpus.value.id && c.relativePath == spec.corpus.value.relativePath
      && c.version == spec.corpus.value.version && env.isSha256(c.contentHash)
      && (check.expectedCorpusHash.Some? ==> c.contentHash == check.expectedCorpusHash.value))
  }

  /** `getEvaluationEvidenceFailureReason` for a report that is there. */
  function FailureReason(env: Env, a: Attached, spec: Spec, check: Check): Reason {
    var e := a.evidence;
    if !HasLineage(e, spec) then MissingLineage
    else if !check.reportPassed then ReportFailed
    else if e.commitSha == "unknown" then UnknownCommit
    else if e.commitSha != check.targetCommit then CommitMismatch
    else if e.dirty != Some(false) then DirtyWorktree
    else if env.parseDate(e.generatedAt).None? then InvalidGeneratedAt
    else
      var at := env.parseDate(e.generatedAt).value;
      if at > check.nowMs then FutureReport
      else if check.nowMs - at > check.maxAgeMs then StaleReport
      else
        match PublicConfig(env, a.report, spec.reportType)
        case None => TypeError
        case Some(config) =>
          if !env.isSha256(e.configHash) || e.configHash != Hash(env, config) then ConfigHashMismatch
          else if !CorpusFits(env, e.corpus, spec, check) then WrongCorpus
          else if e.providerId != spec.providerId || e.providerMode != spec.providerMode then WrongProvider
          else if spec.profile != "" && e.profile != spec.profile then WrongProfile
          else if e.modelRouteId != spec.modelRouteId then WrongModelRoute
          else if e.cacheEnabled then SemanticCacheEnabled
          else Ok
  }
}
