/** What evidence shows of a report: its public configuration, kind by kind, and the texts of its run. */
module EvidenceContent {
  import opened Common
  import opened KeyedLists
  import opened CanonicalJson
  import opened Evidence
  import opened EvidenceTheorems
  import opened JsText

  // ---- the public configuration

  lemma {:induction false} PickShows(v: Json, names: seq<string>, key: string)
    ensures Find(Pick(v, names), key) == if key in names then Get(v, key) else Undefined
  {
    if names != [] {
      assert names == [names[0]] + names[1..];
      PickShows(v, names[1..], key);
      FindAfter(v, names[0], Pick(v, names[1..]), key);
    }
  }

  lemma FindAfter(v: Json, name: string, rest: seq<Pair<Json>>, key: string)
    ensures Find((if Get(v, name).Undefined? then [] else [Pair(name, Get(v, name))]) + rest, key) ==
      if key == name && !Get(v, name).Undefined? then Get(v, name) else Find(rest, key)
  {
    if Get(v, name).Undefined? { assert [] + rest == rest; } else { FindFirst(Pair(name, Get(v, name)), rest, key); }
  }

  lemma {:induction false} FindConcat(a: seq<Pair<Json>>, b: seq<Pair<Json>>, key: string)
    ensures Find(a + b, key) == if Find(a, key).Undefined? && !HasKey(a, key) then Find(b, key) else Find(a, key)
  {
    if a == [] {
      assert a + b == b;
    } else {
      assert a + b == [a[0]] + (a[1..] + b);
      FindFirst(a[0], a[1..] + b, key);
      FindConcat(a[1..], b, key);
      assert HasKey(a, key) <==> a[0].key == key || HasKey(a[1..], key) by {
        if HasKey(a[1..], key) { var i :| 0 <= i < |a| - 1 && a[1..][i].key == key; assert a[i + 1].key == key; }
        if HasKey(a, key) && a[0].key != key { var i :| 0 <= i < |a| && a[i].key == key; assert a[1..][i - 1].key == key; }
      }
    }
  }

  lemma {:induction false} PickKeys(v: Json, names: seq<string>, key: string)
    requires HasKey(Pick(v, names), key)
    ensures key in names && !Get(v, key).Undefined?
  {
    if names != [] {
      var i :| 0 <= i < |Pick(v, names)| && Pick(v, names)[i].key == key;
      var shown := if Get(v, names[0]).Undefined? then 0 else 1;
      if i >= shown {
        assert Pick(v, names[1..])[i - shown].key == key;
        PickKeys(v, names[1..], key);
      }
    }
  }

  /** The configuration of a synthetic report: the listed fields of its own, and those of its retrieval, if it has any. */
  lemma SyntheticShows(report: Json, key: string)
    ensures var config := RawConfig(report, Synthetic);
      var own, retrieval := Get(Get(report, "summary"), "config"), Get(Get(report, "summary"), "retrieval");
      && config.Some?
      && (key in SYNTHETIC_FIELDS ==> Get(config.value, key) == Get(own, key))
      && (key == "retrieval" ==>
            if Pick(retrieval, RETRIEVAL_FIELDS) == [] then Get(config.value, key) == Undefined
            else Get(config.value, key) == Obj(Pick(retrieval, RETRIEVAL_FIELDS)))
      && (key !in SYNTHETIC_FIELDS && key != "retrieval" ==> Get(config.value, key) == Undefined)
  {
    hide Find, Pick;
    var own, retrieval := Get(Get(report, "summary"), "config"), Get(Get(report, "summary"), "retrieval");
    var first := Pick(own, SYNTHETIC_FIELDS);
    var shown := Pick(retrieval, RETRIEVAL_FIELDS);
    var second := if shown == [] then [] else [Pair("retrieval", Obj(shown))];
    PickShows(own, SYNTHETIC_FIELDS, key);
    if HasKey(first, key) { PickKeys(own, SYNTHETIC_FIELDS, key); }
    FindConcat(first, second, key);
    FindNothing(key);
    FindOnly(Pair("retrieval", Obj(shown)), key);
    RetrievalIsNotOwn();
  }

  lemma RetrievalIsNotOwn()
    ensures "retrieval" !in SYNTHETIC_FIELDS
  {
    assert forall i :: 0 <= i < |SYNTHETIC_FIELDS| ==> |SYNTHETIC_FIELDS[i]| != 9 || SYNTHETIC_FIELDS[i][0] == 'c';
  }

  /** The configuration of a rerank report: the listed fields. */
  lemma RerankShows(report: Json, key: string)
    ensures var config := RawConfig(report, Rerank);
      && config.Some?
      && Get(config.value, key) == if key in RERANK_FIELDS then Get(Get(Get(report, "summary"), "config"), key) else Undefined
  {
    hide Find, Pick;
    PickShows(Get(Get(report, "summary"), "config"), RERANK_FIELDS, key);
  }

  lemma FindTwo(p: Pair<Json>, q: Pair<Json>, key: string)
    ensures Get(Obj([p, q]), key) == if p.key == key then p.value else if q.key == key then q.value else Undefined
  {
    assert [p, q] == [p] + [q];
    FindFirst(p, [q], key);
    FindOnly(q, key);
  }

  lemma FindThree(p: Pair<Json>, q: Pair<Json>, r: Pair<Json>, key: string)
    ensures Get(Obj([p, q, r]), key) ==
      if p.key == key then p.value else if q.key == key then q.value else if r.key == key then r.value else Undefined
  {
    assert [p, q, r] == [p] + [q, r];
    FindFirst(p, [q, r], key);
    FindTwo(q, r, key);
  }

  /** Neither undefined nor null. */
  predicate IsGiven(v: Json) {
    v != Undefined && v != Null
  }

  /** A field's value, or what stands for it. */
  ghost predicate ShowsOr(config: Json, key: string, v: Json, other: Json) {
    Get(config, key) == if IsGiven(v) then v else other
  }

  /** The ids of the items that have one, in order, are those that JavaScript takes for true. */
  lemma {:induction false} IdsShown(items: seq<Json>, id: Json)
    ensures id in TruthyIds(items) <==>
      id !in [Undefined, Null, Bool(false), Num(0.0), Str("")] && exists i :: 0 <= i < |items| && Get(items[i], "id") == id
    ensures |TruthyIds(items)| <= |items|
  {
    hide Get;
    if items != [] {
      IdsShown(items[1..], id);
      var first, rest := if Truthy(Get(items[0], "id")) then [Get(items[0], "id")] else [], TruthyIds(items[1..]);
      assert id in first + rest <==> id in first || id in rest;
      if exists i :: 0 <= i < |items| && Get(items[i], "id") == id {
        var i :| 0 <= i < |items| && Get(items[i], "id") == id;
        assert i > 0 ==> Get(items[1..][i - 1], "id") == id;
      }
      if exists i :: 0 <= i < |items[1..]| && Get(items[1..][i], "id") == id {
        var i :| 0 <= i < |items[1..]| && Get(items[1..][i], "id") == id;
        assert Get(items[i + 1], "id") == id;
      }
    }
  }

  /** Planner, trajectory and recovery reports show their cases' ids, the provider and the version. */
  lemma CasesShow(report: Json, items: seq<Json>)
    requires Get(report, "cases") == Arr(items) && Null !in items && Undefined !in items
    ensures var config, summary := RawConfig(report, Cases), Get(report, "summary");
      && config.Some? && Get(config.value, "caseIds") == Arr(TruthyIds(items))
      && ShowsOr(config.value, "provider", Get(summary, "provider"), Undefined)
      && ShowsOr(config.value, "version", Get(summary, "version"), Str("unknown"))
  {
    hide Get;
    var summary := Get(report, "summary");
    var p, q, r := Pair("caseIds", Arr(TruthyIds(items))), Pair("provider", Or(Get(summary, "provider"), Undefined)),
                   Pair("version", Or(Get(summary, "version"), Str("unknown")));
    assert |"caseIds"| == 7 && |"provider"| == 8 && |"version"| == 7 && "caseIds"[0] == 'c' && "version"[0] == 'v';
    FindThree(p, q, r, "caseIds");
    FindThree(p, q, r, "provider");
    FindThree(p, q, r, "version");
  }

  /** Runtime smoke reports show their planners and their version. */
  lemma RuntimeSmokeShows(report: Json)
    ensures var config := RawConfig(report, RuntimeSmoke);
      && config.Some?
      && ShowsOr(config.value, "planners", Get(Get(report, "checks"), "planners"), Obj([]))
      && ShowsOr(config.value, "version", Get(report, "version"), Str("1.0.0"))
  {
    hide Get;
    var p, q := Pair("planners", Or(Get(Get(report, "checks"), "planners"), Obj([]))),
                Pair("version", Or(Get(report, "version"), Str("1.0.0")));
    assert |"planners"| == 8 && |"version"| == 7;
    FindTwo(p, q, "planners");
    FindTwo(p, q, "version");
  }

  /** Rollout reports show their checks' ids, the required runtime and the version. */
  lemma RolloutShows(report: Json, items: seq<Json>)
    requires Get(report, "checks") == Arr(items) && Null !in items && Undefined !in items
    ensures var config := RawConfig(report, Rollout);
      && config.Some? && Get(config.value, "checkIds") == Arr(TruthyIds(items))
      && ShowsOr(config.value, "requiredRuntime", Get(Get(Get(report, "signals"), "runtime"), "required"), Obj([]))
      && ShowsOr(config.value, "version", Get(Get(report, "summary"), "version"), Str("unknown"))
  {
    hide Get;
    var p, q, r := Pair("checkIds", Arr(TruthyIds(items))),
                   Pair("requiredRuntime", Or(Get(Get(Get(report, "signals"), "runtime"), "required"), Obj([]))),
                   Pair("version", Or(Get(Get(report, "summary"), "version"), Str("unknown")));
    assert |"checkIds"| == 8 && |"requiredRuntime"| == 15 && |"version"| == 7;
    FindThree(p, q, r, "checkIds");
    FindThree(p, q, r, "requiredRuntime");
    FindThree(p, q, r, "version");
  }

  /** Any other report shows its whole configuration, or an empty object. */
  lemma OtherShows(report: Json)
    ensures var config, own := RawConfig(report, Other), Get(Get(report, "summary"), "config");
      config == Some(if IsGiven(own) then own else Obj([]))
  {
    hide Get;
  }

  // ---- the texts of the run

  /** Text without white space, which normalization leaves alone. */
  ghost predicate Dense(t: string) {
    t != "" && forall i :: 0 <= i < |t| ==> !White(t[i])
  }

  lemma DenseStays(t: string)
    requires Dense(t)
    ensures Norm(t) == t && TextOr(t, "default") == t
  {
    CollapseOfDense(t);
  }

  /** Evidence carries the run's own texts, as far as they have no white space, and the hash of its configuration. */
  lemma EvidenceCarries(env: Env, o: Options, config: Json)
    ensures var e := Build(env, o, config);
      && (Dense(o.reportType) ==> e.reportType == o.reportType) && (Dense(o.reportId) ==> e.reportId == o.reportId)
      && (Dense(o.runId) ==> e.runId == o.runId) && (Dense(o.generatedAt) ==> e.generatedAt == o.generatedAt)
      && (Dense(o.commitSha) ==> e.commitSha == o.commitSha) && e.dirty == o.dirty
      && (Dense(o.command) ==> e.command == o.command) && (Dense(o.profile) ==> e.profile == o.profile)
      && (Dense(o.corpus.id) ==> e.corpus.id == o.corpus.id) && (Dense(o.corpus.version) ==> e.corpus.version == o.corpus.version)
      && e.corpus.relativePath == o.corpus.relativePath && e.corpus.contentHash == o.corpus.contentHash
      && (Dense(o.providerId) ==> e.providerId == o.providerId) && (Dense(o.providerMode) ==> e.providerMode == o.providerMode)
      && (forall route :: o.modelRouteId == Some(route) && Dense(route) ==> e.modelRouteId == Some(route))
      && (o.modelRouteId == None ==> e.modelRouteId == None) && e.cacheEnabled == o.cacheEnabled
  {
    hide Norm, TextOr, Dense, Hash;
    forall t | Dense(t) ensures Norm(t) == t && TextOr(t, "default") == t { DenseStays(t); }
    assert !Dense("") by { EmptyIsNotDense(); }
  }

  lemma EmptyIsNotDense()
    ensures !Dense("")
  {
  }
}
