/**
 Answer and evidence scores of server/evaluation/qasper-answer-metrics.js. Texts are the token lists their
 normalization leaves; numbers are exact reals.
 */
module AnswerMetrics {
  import opened Common

  // ---- token F1

  /** The tokens the two lists share, each as often as both have it. */
  ghost function Shared(p: seq<string>, g: seq<string>): multiset<string> {
    multiset(p) * multiset(g)
  }

  ghost function F1(p: seq<string>, g: seq<string>): real {
    if p == [] || g == [] then (if p == g then 1.0 else 0.0)
    else Ratio(2 * |Shared(p, g)|, |p| + |g|)
  }

  function Ratio(a: nat, b: nat): real
    requires b > 0
  {
    a as real / b as real
  }

  lemma SharedStep(q: multiset<string>, g: multiset<string>, t: string)
    ensures (q + multiset{t}) * g == (if q[t] < g[t] then q * g + multiset{t} else q * g)
    ensures g - (q + multiset{t}) == (g - q) - multiset{t}
  {
  }

  lemma SharedSize(q: multiset<string>, g: multiset<string>, t: string)
    ensures |(q + multiset{t}) * g| == |q * g| + (if q[t] < g[t] then 1 else 0)
  {
    SharedStep(q, g, t);
  }

  /** The counts map holds what is left of a multiset. */
  ghost predicate Counts(counts: map<string, nat>, m: multiset<string>) {
    forall t :: (if t in counts then counts[t] else 0) == m[t]
  }

  method CountTokens(gold: seq<string>) returns (counts: map<string, nat>)
    ensures Counts(counts, multiset(gold))
  {
    counts := map[];
    var i := 0;
    while i < |gold|
      invariant 0 <= i <= |gold|
      invariant Counts(counts, multiset(gold[..i]))
    {
      assert gold[..i + 1] == gold[..i] + [gold[i]];
      counts := counts[gold[i] := (if gold[i] in counts then counts[gold[i]] else 0) + 1];
      i := i + 1;
    }
    assert gold[..i] == gold;
  }

  lemma CountsLessOne(counts: map<string, nat>, m: multiset<string>, t: string)
    requires Counts(counts, m) && m[t] > 0
    ensures t in counts && counts[t] == m[t] && Counts(counts[t := counts[t] - 1], m - multiset{t})
  {
  }

  lemma SharedPrefix(q: multiset<string>, g: multiset<string>, t: string, counts: map<string, nat>)
    requires Counts(counts, g - q)
    ensures var remaining := if t in counts then counts[t] else 0;
      && |(q + multiset{t}) * g| == |q * g| + (if remaining > 0 then 1 else 0)
      && Counts(if remaining > 0 then counts[t := remaining - 1] else counts, g - (q + multiset{t}))
  {
    hide Counts;
    CountOf(counts, g - q, t);
    SharedSize(q, g, t);
    SharedStep(q, g, t);
    if (g - q)[t] > 0 {
      CountsLessOne(counts, g - q, t);
    } else {
      assert (g - q) - multiset{t} == g - q;
    }
  }

  lemma CountOf(counts: map<string, nat>, m: multiset<string>, t: string)
    requires Counts(counts, m)
    ensures (if t in counts then counts[t] else 0) == m[t]
  {
  }

  method CountShared(predicted: seq<string>, gold: seq<string>) returns (same: nat)
    ensures same == |Shared(predicted, gold)|
  {
    hide Counts;
    var counts := CountTokens(gold);
    ghost var g := multiset(gold);
    ghost var q: multiset<string> := multiset{};
    assert q * g == multiset{} && g - q == g;
    same := 0;
    var i := 0;
    while i < |predicted|
      invariant 0 <= i <= |predicted|
      invariant q == multiset(predicted[..i])
      invariant Counts(counts, g - q)
      invariant same == |q * g|
    {
      var token := predicted[i];
      SharedPrefix(q, g, token, counts);
      assert predicted[..i + 1] == predicted[..i] + [token];
      q := q + multiset{token};
      var remaining := if token in counts then counts[token] else 0;
      if remaining > 0 {
        same := same + 1;
        counts := counts[token := remaining - 1];
      }
      i := i + 1;
    }
    assert predicted[..i] == predicted;
  }

  function Harmonic(precision: real, recall: real): real {
    if precision + recall == 0.0 then 0.0 else (2.0 * precision * recall) / (precision + recall)
  }

  /** 2PR/(P+R) in terms of the counts. */
  lemma HarmonicMean(same: nat, p: nat, g: nat)
    requires 0 < same <= p && same <= g
    ensures Harmonic(Ratio(same, p), Ratio(same, g)) == Ratio(2 * same, p + g)
  {
    var s, x, y := same as real, p as real, g as real;
    var precision, recall := s / x, s / y;
    assert precision * x == s && recall * y == s;
    HarmonicStep(s, x, y, precision, recall);
    assert (p + g) as real == x + y;
  }

  lemma HarmonicStep(s: real, x: real, y: real, precision: real, recall: real)
    requires s > 0.0 && x > 0.0 && y > 0.0 && precision > 0.0 && recall > 0.0
    requires precision * x == s && recall * y == s
    ensures precision + recall > 0.0 && (2.0 * precision * recall) / (precision + recall) == (2.0 * s) / (x + y)
  {
    var r := (2.0 * s) / (x + y);
    assert r * (x + y) == 2.0 * s;
    assert precision * recall * (x + y) == s * (precision + recall) by {
      assert precision * recall * x == (precision * x) * recall;
      assert precision * recall * y == (recall * y) * precision;
    }
    assert r * (precision + recall) * s == r * (precision * recall * (x + y));
    assert r * (precision * recall * (x + y)) == (r * (x + y)) * (precision * recall);
    assert (r * (precision + recall) - 2.0 * precision * recall) * s == 0.0;
    assert r * (precision + recall) == 2.0 * precision * recall;
  }

  /** `qasperTokenF1`, from the tokens on. */
  method TokenF1(predicted: seq<string>, gold: seq<string>) returns (score: real)
    ensures score == F1(predicted, gold)
  {
    hide Ratio, Harmonic, Shared;
    if |predicted| == 0 || |gold| == 0 {
      return if |predicted| == |gold| then 1.0 else 0.0;
    }
    var same := CountShared(predicted, gold);
    SharedIsPart(predicted, gold);
    if same == 0 {
      NoShare(|predicted| + |gold|);
      return 0.0;
    }
    HarmonicMean(same, |predicted|, |gold|);
    var precision := Ratio(same, |predicted|);
    var recall := Ratio(same, |gold|);
    score := Harmonic(precision, recall);
  }

  lemma NoShare(n: nat)
    requires n > 0
    ensures Ratio(0, n) == 0.0
  {
  }

  lemma SharedIsPart(p: seq<string>, g: seq<string>)
    ensures |Shared(p, g)| <= |p| && |Shared(p, g)| <= |g|
  {
    assert multiset(p) == Shared(p, g) + (multiset(p) - Shared(p, g));
    assert multiset(g) == Shared(p, g) + (multiset(g) - Shared(p, g));
  }

  lemma F1IsSymmetric(p: seq<string>, g: seq<string>)
    ensures F1(p, g) == F1(g, p)
  {
    assert Shared(p, g) == Shared(g, p);
  }

  /** The order of the tokens does not matter. */
  lemma F1IgnoresOrder(p: seq<string>, g: seq<string>, p': seq<string>, g': seq<string>)
    requires multiset(p) == multiset(p') && multiset(g) == multiset(g')
    ensures F1(p, g) == F1(p', g')
  {
    assert |multiset(p)| == |p| && |multiset(p')| == |p'| && |multiset(g)| == |g| && |multiset(g')| == |g'|;
  }

  lemma RatioRange(a: nat, b: nat)
    requires b > 0 && a <= b
    ensures 0.0 <= Ratio(a, b) <= 1.0 && (Ratio(a, b) == 1.0 <==> a == b) && (Ratio(a, b) == 0.0 <==> a == 0)
  {
    var r, n := Ratio(a, b), b as real;
    assert r * n == a as real;
    assert (r - 1.0) * n == r * n - n;
    SignOfProduct(r, n);
    SignOfProduct(r - 1.0, n);
  }

  /** The score lies in [0, 1]; it is 1 exactly for equal multisets of tokens, 0 exactly without a shared token. */
  lemma F1Range(p: seq<string>, g: seq<string>)
    ensures 0.0 <= F1(p, g) <= 1.0
    ensures F1(p, g) == 1.0 <==> multiset(p) == multiset(g)
    ensures F1(p, g) == 0.0 <==> Shared(p, g) == multiset{} && (p != [] || g != [])
  {
    SharedIsPart(p, g);
    if p == [] || g == [] {
      assert |multiset(p)| == |p| && |multiset(g)| == |g|;
    } else {
      RatioRange(2 * |Shared(p, g)|, |p| + |g|);
      FullShare(p, g);
    }
  }

  lemma FullShare(p: seq<string>, g: seq<string>)
    ensures 2 * |Shared(p, g)| == |p| + |g| <==> multiset(p) == multiset(g)
  {
    var s := Shared(p, g);
    assert multiset(p) == s + (multiset(p) - s);
    assert multiset(g) == s + (multiset(g) - s);
    assert |multiset(p)| == |p| && |multiset(g)| == |g|;
    if 2 * |s| == |p| + |g| {
      assert multiset(p) - s == multiset{} && multiset(g) - s == multiset{};
    }
    if multiset(p) == multiset(g) { assert s == multiset(p); }
  }

  /** `qasperAnswerF1`: the best score over the references, 0 without one. */
  ghost function AnswerF1(p: seq<string>, references: seq<seq<string>>): (best: real)
    ensures references == [] ==> best == 0.0
    ensures forall i :: 0 <= i < |references| ==> F1(p, references[i]) <= best
    ensures references != [] ==> exists i :: 0 <= i < |references| && best == F1(p, references[i])
  {
    if references == [] then 0.0
    else
      var n := |references| - 1;
      var last := F1(p, references[n]);
      if n == 0 then last
      else
        var before := AnswerF1(p, references[..n]);
        if last > before then last else before
  }

  /** An answer scores 1 exactly if it has the very tokens of some reference. */
  lemma PerfectAnswer(p: seq<string>, references: seq<seq<string>>)
    ensures 0.0 <= AnswerF1(p, references) <= 1.0
    ensures AnswerF1(p, references) == 1.0 <==> exists i :: 0 <= i < |references| && multiset(references[i]) == multiset(p)
  {
    hide F1;
    forall i | 0 <= i < |references|
      ensures 0.0 <= F1(p, references[i]) <= 1.0 && (F1(p, references[i]) == 1.0 <==> multiset(references[i]) == multiset(p))
    {
      F1Range(p, references[i]);
    }
  }

  // ---- evidence pages

  /** The distinct positive pages, ascending. */
  function PageInsert(page: int, s: seq<int>): seq<int> {
    if s == [] || page < s[0] then [page] + s
    else if page == s[0] then s
    else [s[0]] + PageInsert(page, s[1..])
  }

  function PageList(pages: seq<int>): seq<int> {
    if pages == [] then []
    else
      var rest := PageList(pages[..|pages| - 1]);
      if pages[|pages| - 1] > 0 then PageInsert(pages[|pages| - 1], rest) else rest
  }

  ghost predicate Increasing(s: seq<int>) {
    forall i, j :: 0 <= i < j < |s| ==> s[i] < s[j]
  }

  ghost function Members(s: seq<int>): set<int> {
    set x | x in s
  }

  lemma IncreasingCons(x: int, s: seq<int>)
    requires Increasing(s) && (s == [] || x < s[0])
    ensures Increasing([x] + s)
  {
    forall j | 0 <= j < |s| ensures x < s[j] { if j > 0 { assert s[0] < s[j]; } }
  }

  lemma IncreasingTail(s: seq<int>)
    requires Increasing(s) && |s| > 0
    ensures Increasing(s[1..]) && (|s| > 1 ==> s[0] < s[1])
  {
  }

  lemma {:induction false} PageInserted(page: int, s: seq<int>)
    requires Increasing(s)
    ensures Increasing(PageInsert(page, s)) && PageInsert(page, s) != []
    ensures PageInsert(page, s)[0] == (if s == [] || page < s[0] then page else s[0])
  {
    hide Increasing;
    if s == [] || page < s[0] {
      IncreasingCons(page, s);
    } else if page > s[0] {
      IncreasingTail(s);
      PageInserted(page, s[1..]);
      IncreasingCons(s[0], PageInsert(page, s[1..]));
    }
  }

  lemma {:induction false} PageInsertMembers(page: int, s: seq<int>, x: int)
    ensures x in PageInsert(page, s) <==> x == page || x in s
  {
    if s != [] {
      assert s == [s[0]] + s[1..];
      PageInsertMembers(page, s[1..], x);
    }
  }

  /** `toPageList` lists exactly the positive pages, each once, in order. */
  lemma {:induction false} PageListIsSorted(pages: seq<int>)
    ensures Increasing(PageList(pages)) && Members(PageList(pages)) == set x | x in pages && x > 0
  {
    if pages != [] {
      var n := |pages| - 1;
      PageListIsSorted(pages[..n]);
      var rest := PageList(pages[..n]);
      assert pages == pages[..n] + [pages[n]];
      if pages[n] > 0 { PageInserted(pages[n], rest); }
      forall x ensures x in PageList(pages) <==> x in pages && x > 0 {
        assert x in rest <==> x in Members(rest);
        PageInsertMembers(pages[n], rest, x);
      }
    }
  }

  datatype Evidence = Evidence(citationPrecision: Option<real>, citedHit: Option<bool>, contextHit: Option<bool>)

  function InBoth(pages: seq<int>, expected: seq<int>): nat {
    if pages == [] then 0
    else InBoth(pages[..|pages| - 1], expected) + (if pages[|pages| - 1] in expected then 1 else 0)
  }

  /** `scoreQasperEvidence` before the rounding of the precision. */
  function ScoreEvidence(abstained: bool, cited: seq<int>, context: seq<int>, expected: seq<int>, shouldAbstain: bool): Evidence {
    if shouldAbstain then Evidence(None, None, None)
    else
      var e := PageList(expected);
      var c := if abstained then [] else PageList(cited);
      Evidence(
        if c == [] then None else Some(Ratio(InBoth(c, e), |c|)),
        Some(InBoth(c, e) > 0),
        Some(InBoth(PageList(context), e) > 0))
  }

  lemma OneMoreMember(s: set<int>, e: set<int>, x: int)
    requires x !in s
    ensures |s + {x}| == |s| + 1 && |(s + {x}) * e| == |s * e| + (if x in e then 1 else 0)
  {
    if x in e { assert (s + {x}) * e == s * e + {x}; } else { assert (s + {x}) * e == s * e; }
  }

  lemma {:induction false} InBothCounts(pages: seq<int>, expected: seq<int>)
    requires Increasing(pages)
    ensures InBoth(pages, expected) == |Members(pages) * Members(expected)| && |pages| == |Members(pages)|
  {
    hide Members, Increasing;
    if pages == [] {
      NoMembers();
      assert Members(pages) * Members(expected) == {};
    } else {
      var n := |pages| - 1;
      LastMember(pages);
      InBothCounts(pages[..n], expected);
      IsMember(expected, pages[n]);
      OneMoreMember(Members(pages[..n]), Members(expected), pages[n]);
    }
  }

  lemma IsMember(s: seq<int>, x: int)
    ensures x in Members(s) <==> x in s
  {
  }

  lemma NoMembers()
    ensures Members([]) == {}
  {
  }

  lemma LastMember(pages: seq<int>)
    requires Increasing(pages) && pages != []
    ensures var n := |pages| - 1;
      Increasing(pages[..n]) && Members(pages) == Members(pages[..n]) + {pages[n]} && pages[n] !in Members(pages[..n])
  {
    var n := |pages| - 1;
    assert pages == pages[..n] + [pages[n]];
  }

  /**
   An answer's citation precision is the share of its distinct cited pages that are evidence pages, 1 exactly if all
   are; it hits exactly if one is; an abstention cites nothing and misses. A question to abstain from is not scored.
   */
  lemma EvidenceMeaning(abstained: bool, cited: seq<int>, context: seq<int>, expected: seq<int>)
    ensures var c, e := (if abstained then {} else set x | x in cited && x > 0), set x | x in expected && x > 0;
      var r := ScoreEvidence(abstained, cited, context, expected, false);
      && (r.citationPrecision.None? <==> c == {})
      && (c != {} ==> r.citationPrecision == Some(Ratio(|c * e|, |c|)))
      && r.citedHit == Some(c * e != {})
      && r.contextHit == Some((set x | x in context && x > 0) * e != {})
    ensures ScoreEvidence(abstained, cited, context, expected, true) == Evidence(None, None, None)
  {
    hide PageList, InBoth, Increasing;
    PageListIsSorted(expected);
    PageListIsSorted(context);
    PageListIsSorted(cited);
    EmptyIsIncreasing();
    var c, e := (if abstained then [] else PageList(cited)), PageList(expected);
    InBothCounts(c, e);
    InBothCounts(PageList(context), e);
    assert c == [] <==> Members(c) == {};
  }

  lemma EmptyIsIncreasing()
    ensures Increasing([])
  {
  }

  lemma PrecisionIsOneIff(c: set<int>, e: set<int>)
    requires c != {}
    ensures 0.0 <= Ratio(|c * e|, |c|) <= 1.0 && (Ratio(|c * e|, |c|) == 1.0 <==> c <= e)
  {
    assert c == c * e + (c - e);
    assert |c| == |c * e| + |c - e|;
    RatioRange(|c * e|, |c|);
  }
}
