/**
 The paired bootstrap of server/evaluation/paired-bootstrap.js: the seeded generator, the plain and the clustered
 interval, and the paired deltas. JavaScript numbers are exact reals; `round` stands for the rounding of the report.
 */
module PairedBootstrap {
  import opened Common
  import opened Sorting

  // ---- the generator

  type Unit = u: real | 0.0 <= u < 1.0 witness 0.0

  /** What `>>> 0` leaves of a number. */
  type Word = s: int | 0 <= s < 0x1_0000_0000

  function NextState(s: Word): Word {
    (s + 0x6d2b79f5) % 0x1_0000_0000
  }

  /** The mulberry32 mixing of a state; the products and the sum wrap at 32 bits. */
  function Mix(state: Word): bv32 {
    var s := state as bv32;
    var t := (s ^ (s >> 15)) * (s | 1);
    var u := t ^ (t + (t ^ (t >> 7)) * (t | 61));
    u ^ (u >> 14)
  }

  function Fraction(n: int): Unit
    requires 0 <= n < 0x1_0000_0000
  {
    n as real / 4294967296.0
  }

  function Output(s: Word): Unit {
    Fraction(Mix(s) as int)
  }

  function StateAt(s: Word, k: nat): Word {
    if k == 0 then s else NextState(StateAt(s, k - 1))
  }

  /** All draws of a generator in this state. */
  function Stream(s: Word): nat -> Unit {
    k => Output(StateAt(s, k + 1))
  }

  /** `createSeededRandom`. */
  class SeededRandom {
    var state: Word

    constructor (seed: int)
      ensures state == seed % 0x1_0000_0000
    {
      state := seed % 0x1_0000_0000;
    }

    method Next() returns (u: Unit)
      modifies this
      ensures state == NextState(old(state)) && u == Output(state)
    {
      state := NextState(state);
      u := Output(state);
    }
  }

  // ---- drawing

  function Pick(u: Unit, n: nat): (k: nat)
    requires n > 0
    ensures k < n
  {
    PickInRange(u, n);
    (u * n as real).Floor
  }

  lemma PickInRange(u: Unit, n: nat)
    requires n > 0
    ensures 0 <= (u * n as real).Floor < n
  {
    assert u * n as real < n as real;
  }

  /** The sum of m drawn values, from draw number `from` on. */
  function DrawnSum(values: seq<real>, d: nat -> Unit, from: nat, m: nat): real
    requires |values| > 0
  {
    if m == 0 then 0.0 else DrawnSum(values, d, from, m - 1) + values[Pick(d(from + m - 1), |values|)]
  }

  function DrawnCount(sizes: seq<nat>, d: nat -> Unit, from: nat, m: nat): nat
    requires |sizes| > 0
  {
    if m == 0 then 0 else DrawnCount(sizes, d, from, m - 1) + sizes[Pick(d(from + m - 1), |sizes|)]
  }

  /** A quotient of reals; 0 stands for NaN, which no caller here meets. */
  function Mean(sum: real, n: nat): real {
    if n == 0 then 0.0 else sum / n as real
  }

  function Draws(k: nat, n: nat): nat {
    k * n
  }

  lemma NextDraws(k: nat, n: nat)
    ensures Draws(0, n) == 0 && Draws(k + 1, n) == Draws(k, n) + n
  {
  }

  // ---- the samples

  function MeanSamples(diffs: seq<real>, d: nat -> Unit, k: nat): (s: seq<real>)
    requires |diffs| > 0
    ensures |s| == k
  {
    if k == 0 then []
    else MeanSamples(diffs, d, k - 1) + [Mean(DrawnSum(diffs, d, Draws(k - 1, |diffs|), |diffs|), |diffs|)]
  }

  function Total(values: seq<real>): real {
    if values == [] then 0.0 else Total(values[..|values| - 1]) + values[|values| - 1]
  }

  function Sums(groups: seq<seq<real>>): (s: seq<real>)
    ensures |s| == |groups| && forall i :: 0 <= i < |s| ==> s[i] == Total(groups[i])
  {
    seq(|groups|, i requires 0 <= i < |groups| => Total(groups[i]))
  }

  function Sizes(groups: seq<seq<real>>): (s: seq<nat>)
    ensures |s| == |groups| && forall i :: 0 <= i < |s| ==> s[i] == |groups[i]|
  {
    seq(|groups|, i requires 0 <= i < |groups| => |groups[i]|)
  }

  function ClusterSamples(groups: seq<seq<real>>, d: nat -> Unit, k: nat): (s: seq<real>)
    requires |groups| > 0
    ensures |s| == k
  {
    if k == 0 then []
    else
      var n := |groups|;
      var from := Draws(k - 1, n);
      ClusterSamples(groups, d, k - 1) + [Mean(DrawnSum(Sums(groups), d, from, n), DrawnCount(Sizes(groups), d, from, n))]
  }

  function NonEmpty(clusters: seq<seq<real>>): (groups: seq<seq<real>>)
    ensures forall i :: 0 <= i < |groups| ==> groups[i] != []
  {
    if clusters == [] then []
    else
      var n := |clusters| - 1;
      NonEmpty(clusters[..n]) + (if clusters[n] == [] then [] else [clusters[n]])
  }

  // ---- the interval

  /** Nothing to resample; an error, since no sample stands at the percentiles; or the two rounded percentiles. */
  datatype Interval = NoData | Raises | Interval(low: real, high: real)

  function Low(iterations: nat): (i: nat)
    ensures iterations > 0 ==> i < iterations
  {
    iterations * 25 / 1000
  }

  function High(iterations: nat): (i: nat)
    ensures iterations > 0 ==> Low(iterations) <= i < iterations
  {
    iterations * 975 / 1000
  }

  function Percentiles(samples: seq<real>, round: real -> real): Interval {
    if samples == [] then Raises
    else
      var s := Sort(samples);
      Interval(round(s[Low(|samples|)]), round(s[High(|samples|)]))
  }

  function MeanInterval(diffs: seq<real>, d: nat -> Unit, iterations: nat, round: real -> real): Interval {
    if diffs == [] then NoData else Percentiles(MeanSamples(diffs, d, iterations), round)
  }

  function ClusterInterval(clusters: seq<seq<real>>, d: nat -> Unit, iterations: nat, round: real -> real): Interval {
    var groups := NonEmpty(clusters);
    if groups == [] then NoData else Percentiles(ClusterSamples(groups, d, iterations), round)
  }

  /** One resample of plain values: the inner loop. */
  method ResampleMean(diffs: seq<real>, random: SeededRandom, ghost s: Word, ghost from: nat) returns (mean: real)
    requires |diffs| > 0 && random.state == StateAt(s, from)
    modifies random
    ensures random.state == StateAt(s, from + |diffs|)
    ensures mean == Mean(DrawnSum(diffs, Stream(s), from, |diffs|), |diffs|)
  {
    hide Output, Pick, Mean, NextState;
    var sum := 0.0;
    var draw := 0;
    while draw < |diffs|
      invariant 0 <= draw <= |diffs|
      invariant random.state == StateAt(s, from + draw)
      invariant sum == DrawnSum(diffs, Stream(s), from, draw)
    {
      var u := random.Next();
      assert u == Stream(s)(from + draw);
      sum := sum + diffs[Pick(u, |diffs|)];
      draw := draw + 1;
    }
    mean := Mean(sum, |diffs|);
  }

  /** `bootstrapMeanInterval`: consumes exactly iterations x |diffs| draws. */
  method BootstrapMeanInterval(diffs: seq<real>, iterations: nat, random: SeededRandom, round: real -> real) returns (r: Interval)
    modifies random
    ensures r == MeanInterval(diffs, Stream(old(random.state)), iterations, round)
    ensures random.state == StateAt(old(random.state), if diffs == [] then 0 else Draws(iterations, |diffs|))
  {
    hide Output, Mean, NextState, DrawnSum, Draws, Percentiles;
    if diffs == [] { return NoData; }
    ghost var s := random.state;
    var samples: seq<real> := [];
    var index := 0;
    NextDraws(0, |diffs|);
    while index < iterations
      invariant 0 <= index <= iterations
      invariant random.state == StateAt(s, Draws(index, |diffs|))
      invariant samples == MeanSamples(diffs, Stream(s), index)
    {
      var mean := ResampleMean(diffs, random, s, Draws(index, |diffs|));
      samples := samples + [mean];
      NextDraws(index, |diffs|);
      index := index + 1;
    }
    r := Percentiles(samples, round);
  }

  /** One resample of clusters. */
  method ResampleClusters(groups: seq<seq<real>>, sums: seq<real>, random: SeededRandom, ghost s: Word, ghost from: nat)
    returns (mean: real)
    requires |groups| > 0 && sums == Sums(groups) && random.state == StateAt(s, from)
    modifies random
    ensures random.state == StateAt(s, from + |groups|)
    ensures mean == Mean(DrawnSum(sums, Stream(s), from, |groups|), DrawnCount(Sizes(groups), Stream(s), from, |groups|))
  {
    hide Output, Pick, Mean, NextState, Sums, Sizes;
    var sum := 0.0;
    var count := 0;
    var draw := 0;
    while draw < |groups|
      invariant 0 <= draw <= |groups|
      invariant random.state == StateAt(s, from + draw)
      invariant sum == DrawnSum(sums, Stream(s), from, draw)
      invariant count == DrawnCount(Sizes(groups), Stream(s), from, draw)
    {
      var u := random.Next();
      assert u == Stream(s)(from + draw);
      var pick := Pick(u, |groups|);
      sum := sum + sums[pick];
      count := count + |groups[pick]|;
      draw := draw + 1;
    }
    mean := Mean(sum, count);
  }

  /** `bootstrapClusterMeanInterval`: one draw per non-empty cluster and iteration. */
  method BootstrapClusterMeanInterval(clusters: seq<seq<real>>, iterations: nat, random: SeededRandom, round: real -> real)
    returns (r: Interval)
    modifies random
    ensures r == ClusterInterval(clusters, Stream(old(random.state)), iterations, round)
    ensures random.state == StateAt(old(random.state), Draws(iterations, |NonEmpty(clusters)|))
  {
    hide Output, Mean, NextState, DrawnSum, DrawnCount, Draws, Percentiles, Sums, Sizes;
    var groups := NonEmpty(clusters);
    if groups == [] {
      NoDraws(iterations);
      return NoData;
    }
    ghost var s := random.state;
    var sums := Sums(groups);
    var samples: seq<real> := [];
    var index := 0;
    NextDraws(0, |groups|);
    while index < iterations
      invariant 0 <= index <= iterations
      invariant random.state == StateAt(s, Draws(index, |groups|))
      invariant samples == ClusterSamples(groups, Stream(s), index)
    {
      var mean := ResampleClusters(groups, sums, random, s, Draws(index, |groups|));
      samples := samples + [mean];
      NextDraws(index, |groups|);
      index := index + 1;
    }
    r := Percentiles(samples, round);
  }

  lemma NoDraws(k: nat)
    ensures Draws(k, 0) == 0
  {
  }

  // ---- paired deltas

  datatype PairedDelta = PairedDelta(cases: nat, ci95: Interval, delta: Option<real>)

  function Seeded(seed: int): Word {
    seed % 0x1_0000_0000
  }

  function PairedDeltaOf(diffs: seq<real>, iterations: nat, seed: int, round: real -> real): PairedDelta {
    if diffs == [] then PairedDelta(0, NoData, None)
    else PairedDelta(|diffs|, MeanInterval(diffs, Stream(Seeded(seed)), iterations, round), Some(round(Mean(Total(diffs), |diffs|))))
  }

  /** `pairedDeltaOfDiffs`; with no iterations it raises. */
  method PairedDeltaOfDiffs(diffs: seq<real>, iterations: nat, seed: int, round: real -> real) returns (r: PairedDelta)
    ensures r == PairedDeltaOf(diffs, iterations, seed, round)
  {
    hide MeanInterval, Stream, Mean, Draws, StateAt;
    if diffs == [] { return PairedDelta(0, NoData, None); }
    var random := new SeededRandom(seed);
    var ci95 := BootstrapMeanInterval(diffs, iterations, random, round);
    var sum := 0.0;
    var i := 0;
    while i < |diffs|
      invariant 0 <= i <= |diffs|
      invariant sum == Total(diffs[..i])
    {
      assert diffs[..i + 1][..i] == diffs[..i];
      sum := sum + diffs[i];
      i := i + 1;
    }
    assert diffs[..i] == diffs;
    r := PairedDelta(|diffs|, ci95, Some(round(Mean(sum, |diffs|))));
  }

  /** A row's id and its field, read as `Number(x) || 0`. */
  datatype Row = Row(id: string, value: real)

  /** A map built from the rows keeps the last row of an id. */
  function LastValue(rows: seq<Row>, id: string): Option<real> {
    if rows == [] then None
    else if rows[|rows| - 1].id == id then Some(rows[|rows| - 1].value)
    else LastValue(rows[..|rows| - 1], id)
  }

  /** The differences `pairedMeanDelta` compares. */
  function PairedDiffs(rows: seq<Row>, other: seq<Row>): seq<real> {
    if rows == [] then []
    else
      var r := rows[|rows| - 1];
      PairedDiffs(rows[..|rows| - 1], other) + (
        match LastValue(other, r.id) case None => [] case Some(v) => [r.value - v])
  }
}
