/** What the bootstrap intervals promise, for every sequence of draws. */
module BootstrapTheorems {
  import opened Common
  import opened Sorting
  import opened PairedBootstrap

  // ---- what is drawn

  /** Draw u of n stands for value j: it falls in the j-th of n equal parts of the unit interval. */
  predicate FallsIn(u: Unit, n: nat, j: nat) {
    j as real <= u * n as real < (j + 1) as real
  }

  /** How many of m draws stand for value j. */
  function Hits(d: nat -> Unit, from: nat, m: nat, n: nat, j: nat): nat {
    if m == 0 then 0 else Hits(d, from, m - 1, n, j) + (if FallsIn(d(from + m - 1), n, j) then 1 else 0)
  }

  /** The values before the j-th, each as often as it is hit. */
  function HitSum(values: seq<real>, d: nat -> Unit, from: nat, m: nat, j: nat): real
    requires j <= |values|
  {
    if j == 0 then 0.0 else HitSum(values, d, from, m, j - 1) + Times(Hits(d, from, m, |values|, j - 1), values[j - 1])
  }

  lemma PickFallsIn(u: Unit, n: nat, j: nat)
    requires n > 0
    ensures FallsIn(u, n, j) <==> j == Pick(u, n)
  {
  }

  lemma {:induction false} OneMoreHit(values: seq<real>, d: nat -> Unit, from: nat, m: nat, j: nat)
    requires j <= |values| && |values| > 0 && m > 0
    ensures var pick := Pick(d(from + m - 1), |values|);
      HitSum(values, d, from, m, j) == HitSum(values, d, from, m - 1, j) + (if pick < j then values[pick] else 0.0)
  {
    hide Pick, FallsIn, Times;
    if j > 0 {
      OneMoreHit(values, d, from, m, j - 1);
      PickFallsIn(d(from + m - 1), |values|, j - 1);
      NextTimes(Hits(d, from, m - 1, |values|, j - 1), 1, values[j - 1]);
    }
  }

  /** A resample sums each value as often as draws fall in its part of the unit interval. */
  lemma {:induction false} SumByHits(values: seq<real>, d: nat -> Unit, from: nat, m: nat)
    requires |values| > 0
    ensures DrawnSum(values, d, from, m) == HitSum(values, d, from, m, |values|)
  {
    hide Pick, Hits, Times;
    if m == 0 {
      NoHits(values, d, from, |values|);
    } else {
      SumByHits(values, d, from, m - 1);
      OneMoreHit(values, d, from, m, |values|);
    }
  }

  lemma {:induction false} NoHits(values: seq<real>, d: nat -> Unit, from: nat, j: nat)
    requires j <= |values|
    ensures HitSum(values, d, from, 0, j) == 0.0
  {
    hide Times;
    if j > 0 {
      NoHits(values, d, from, j - 1);
      NextTimes(0, 0, values[j - 1]);
    }
  }

  // ---- one question per cluster

  function Singletons(diffs: seq<real>): (c: seq<seq<real>>)
    ensures |c| == |diffs| && forall i :: 0 <= i < |c| ==> c[i] == [diffs[i]]
  {
    seq(|diffs|, i requires 0 <= i < |diffs| => [diffs[i]])
  }

  lemma {:induction false} NonEmptyOf(clusters: seq<seq<real>>)
    requires forall i :: 0 <= i < |clusters| ==> clusters[i] != []
    ensures NonEmpty(clusters) == clusters
  {
    if clusters != [] {
      var n := |clusters| - 1;
      NonEmptyOf(clusters[..n]);
      assert clusters[n] != [];
      assert clusters[..n] + [clusters[n]] == clusters;
    }
  }

  lemma {:induction false} CountOfOnes(sizes: seq<nat>, d: nat -> Unit, from: nat, m: nat)
    requires |sizes| > 0 && forall i :: 0 <= i < |sizes| ==> sizes[i] == 1
    ensures DrawnCount(sizes, d, from, m) == m
  {
    hide Pick;
    if m > 0 { CountOfOnes(sizes, d, from, m - 1); }
  }

  lemma SumsOfSingletons(diffs: seq<real>)
    ensures Sums(Singletons(diffs)) == diffs
  {
    forall i | 0 <= i < |diffs| ensures Total(Singletons(diffs)[i]) == diffs[i] {
      assert Singletons(diffs)[i] == [diffs[i]] && [diffs[i]][..0] == [];
    }
  }

  lemma {:induction false} SamplesOfSingletons(diffs: seq<real>, d: nat -> Unit, k: nat)
    requires |diffs| > 0
    ensures ClusterSamples(Singletons(diffs), d, k) == MeanSamples(diffs, d, k)
  {
    hide DrawnSum, DrawnCount, Mean, Draws, Singletons, Sums, Sizes;
    if k > 0 {
      SamplesOfSingletons(diffs, d, k - 1);
      SumsOfSingletons(diffs);
      CountOfOnes(Sizes(Singletons(diffs)), d, Draws(k - 1, |diffs|), |diffs|);
    }
  }

  /** With one question per cluster, the clustered interval is the plain one, for the same draws. */
  lemma SingletonClustersArePlain(diffs: seq<real>, d: nat -> Unit, iterations: nat, round: real -> real)
    ensures ClusterInterval(Singletons(diffs), d, iterations, round) == MeanInterval(diffs, d, iterations, round)
  {
    hide ClusterSamples, MeanSamples, Percentiles;
    NonEmptyOf(Singletons(diffs));
    if diffs != [] { SamplesOfSingletons(diffs, d, iterations); }
  }

  // ---- the interval stays within the data

  ghost predicate Monotone(round: real -> real) {
    forall x, y :: x <= y ==> round(x) <= round(y)
  }

  ghost predicate Within(s: seq<real>, lo: real, hi: real) {
    forall i :: 0 <= i < |s| ==> lo <= s[i] <= hi
  }

  function Times(n: nat, x: real): real {
    n as real * x
  }

  lemma NextTimes(n: nat, m: nat, x: real)
    ensures Times(0, x) == 0.0 && Times(1, x) == x && Times(n + m, x) == Times(n, x) + Times(m, x)
  {
    assert (n + m) as real == n as real + m as real;
  }

  lemma MeanWithin(sum: real, n: nat, lo: real, hi: real)
    requires n > 0 && Times(n, lo) <= sum <= Times(n, hi)
    ensures lo <= Mean(sum, n) <= hi
  {
    var m := Mean(sum, n);
    assert m * n as real == sum;
    SignOfProduct(m - lo, n as real);
    SignOfProduct(hi - m, n as real);
  }

  lemma {:induction false} TotalWithin(s: seq<real>, lo: real, hi: real)
    requires Within(s, lo, hi)
    ensures Times(|s|, lo) <= Total(s) <= Times(|s|, hi)
  {
    hide Times;
    if s == [] {
      NextTimes(0, 0, lo);
      NextTimes(0, 0, hi);
    } else {
      TotalWithin(s[..|s| - 1], lo, hi);
      NextTimes(|s| - 1, 1, lo);
      NextTimes(|s| - 1, 1, hi);
    }
  }

  /** Drawn sums lie between the bounds times the number of values they stand for. */
  lemma {:induction false} DrawnWithin(sums: seq<real>, sizes: seq<nat>, d: nat -> Unit, from: nat, m: nat, lo: real, hi: real)
    requires |sums| == |sizes| > 0
    requires forall i :: 0 <= i < |sums| ==> Times(sizes[i], lo) <= sums[i] <= Times(sizes[i], hi)
    ensures Times(DrawnCount(sizes, d, from, m), lo) <= DrawnSum(sums, d, from, m) <= Times(DrawnCount(sizes, d, from, m), hi)
  {
    hide Times, Pick;
    if m == 0 {
      NextTimes(0, 0, lo);
      NextTimes(0, 0, hi);
    } else {
      DrawnWithin(sums, sizes, d, from, m - 1, lo, hi);
      var pick := Pick(d(from + m - 1), |sums|);
      NextTimes(DrawnCount(sizes, d, from, m - 1), sizes[pick], lo);
      NextTimes(DrawnCount(sizes, d, from, m - 1), sizes[pick], hi);
    }
  }

  lemma {:induction false} SomethingIsDrawn(sizes: seq<nat>, d: nat -> Unit, from: nat, m: nat)
    requires |sizes| > 0 && m > 0 && forall i :: 0 <= i < |sizes| ==> sizes[i] > 0
    ensures DrawnCount(sizes, d, from, m) > 0
  {
    hide Pick;
  }

  lemma {:induction false} ClusterSamplesWithin(groups: seq<seq<real>>, d: nat -> Unit, k: nat, lo: real, hi: real)
    requires |groups| > 0 && forall i :: 0 <= i < |groups| ==> groups[i] != [] && Within(groups[i], lo, hi)
    ensures Within(ClusterSamples(groups, d, k), lo, hi)
  {
    hide DrawnSum, DrawnCount, Mean, Draws, Sums, Sizes, Times;
    if k > 0 {
      ClusterSamplesWithin(groups, d, k - 1, lo, hi);
      var from := Draws(k - 1, |groups|);
      forall i | 0 <= i < |groups| ensures Times(Sizes(groups)[i], lo) <= Sums(groups)[i] <= Times(Sizes(groups)[i], hi) {
        TotalWithin(groups[i], lo, hi);
      }
      DrawnWithin(Sums(groups), Sizes(groups), d, from, |groups|, lo, hi);
      SomethingIsDrawn(Sizes(groups), d, from, |groups|);
      MeanWithin(DrawnSum(Sums(groups), d, from, |groups|), DrawnCount(Sizes(groups), d, from, |groups|), lo, hi);
    }
  }

  lemma PercentilesWithin(samples: seq<real>, round: real -> real, lo: real, hi: real)
    requires samples != [] && Within(samples, lo, hi) && Monotone(round)
    ensures var r := Percentiles(samples, round); r.Interval? && round(lo) <= r.low <= r.high <= round(hi)
  {
    hide Sort;
    var s := Sort(samples);
    var i, j := Low(|samples|), High(|samples|);
    SortIsSortedPermutation(samples);
    SortedEntry(samples, i);
    SortedEntry(samples, j);
    assert s[i] <= s[j];
  }

  /** The interval lies, in order, between the rounded bounds of the data; empty clusters do not count. */
  lemma ClusterIntervalWithinData(clusters: seq<seq<real>>, d: nat -> Unit, iterations: nat, round: real -> real, lo: real, hi: real)
    requires Monotone(round) && iterations > 0
    requires forall i :: 0 <= i < |clusters| ==> Within(clusters[i], lo, hi)
    ensures var r := ClusterInterval(clusters, d, iterations, round);
      if forall i :: 0 <= i < |clusters| ==> clusters[i] == [] then r == NoData
      else r.Interval? && round(lo) <= r.low <= r.high <= round(hi)
  {
    hide ClusterSamples, Percentiles, Within;
    GroupsOf(clusters, lo, hi);
    var groups := NonEmpty(clusters);
    if groups != [] {
      ClusterSamplesWithin(groups, d, iterations, lo, hi);
      PercentilesWithin(ClusterSamples(groups, d, iterations), round, lo, hi);
    }
  }

  lemma {:induction false} GroupsOf(clusters: seq<seq<real>>, lo: real, hi: real)
    requires forall i :: 0 <= i < |clusters| ==> Within(clusters[i], lo, hi)
    ensures forall i :: 0 <= i < |NonEmpty(clusters)| ==> Within(NonEmpty(clusters)[i], lo, hi)
    ensures NonEmpty(clusters) == [] <==> forall i :: 0 <= i < |clusters| ==> clusters[i] == []
  {
    hide Within;
    if clusters != [] { GroupsOf(clusters[..|clusters| - 1], lo, hi); }
  }

  lemma IntervalWithinData(diffs: seq<real>, d: nat -> Unit, iterations: nat, round: real -> real, lo: real, hi: real)
    requires Monotone(round) && iterations > 0 && diffs != [] && Within(diffs, lo, hi)
    ensures var r := MeanInterval(diffs, d, iterations, round); r.Interval? && round(lo) <= r.low <= r.high <= round(hi)
  {
    hide MeanInterval, ClusterInterval, Monotone;
    SingletonClustersArePlain(diffs, d, iterations, round);
    assert Singletons(diffs)[0] != [];
    ClusterIntervalWithinData(Singletons(diffs), d, iterations, round, lo, hi);
  }

  /** Only an iteration count of zero raises. */
  lemma RaisesIff(clusters: seq<seq<real>>, d: nat -> Unit, iterations: nat, round: real -> real)
    ensures ClusterInterval(clusters, d, iterations, round).Raises? <==> iterations == 0 && NonEmpty(clusters) != []
  {
  }

  // ---- shifting and scaling

  /** x |-> scale * x + shift with a positive scale. */
  datatype Line = Line(scale: real, shift: real)

  function At(f: Line, x: real): real {
    f.scale * x + f.shift
  }

  function AtEach(f: Line, s: seq<real>): (r: seq<real>)
    ensures |r| == |s| && forall i :: 0 <= i < |s| ==> r[i] == At(f, s[i])
  {
    seq(|s|, i requires 0 <= i < |s| => At(f, s[i]))
  }

  function AtAll(f: Line, groups: seq<seq<real>>): (r: seq<seq<real>>)
    ensures |r| == |groups| && forall i :: 0 <= i < |groups| ==> r[i] == AtEach(f, groups[i])
  {
    seq(|groups|, i requires 0 <= i < |groups| => AtEach(f, groups[i]))
  }

  /** The image of a sum of n values. */
  function AtSum(f: Line, sum: real, n: nat): real {
    f.scale * sum + n as real * f.shift
  }

  lemma AtSumAdds(f: Line, a: real, n: nat, b: real, m: nat)
    ensures AtSum(f, a + b, n + m) == AtSum(f, a, n) + AtSum(f, b, m)
    ensures AtSum(f, 0.0, 0) == 0.0 && AtSum(f, b, 1) == At(f, b)
  {
    assert (n + m) as real == n as real + m as real;
  }

  lemma MeanOfAtSum(f: Line, sum: real, n: nat)
    requires n > 0
    ensures Mean(AtSum(f, sum, n), n) == At(f, Mean(sum, n))
  {
    var m := Mean(sum, n);
    assert m * n as real == sum;
    assert AtSum(f, sum, n) == (f.scale * m + f.shift) * n as real;
  }

  lemma {:induction false} TotalOfImage(f: Line, s: seq<real>)
    ensures Total(AtEach(f, s)) == AtSum(f, Total(s), |s|)
  {
    hide At, AtEach, AtSum;
    if s == [] {
      AtSumAdds(f, 0.0, 0, 0.0, 0);
    } else {
      var n := |s| - 1;
      TotalOfImage(f, s[..n]);
      assert AtEach(f, s)[..n] == AtEach(f, s[..n]);
      AtSumAdds(f, Total(s[..n]), n, s[n], 1);
    }
  }

  lemma {:induction false} DrawnImage(f: Line, sums: seq<real>, sizes: seq<nat>, images: seq<real>, d: nat -> Unit, from: nat, m: nat)
    requires |sums| == |sizes| == |images| > 0
    requires forall i :: 0 <= i < |sums| ==> images[i] == AtSum(f, sums[i], sizes[i])
    ensures DrawnSum(images, d, from, m) == AtSum(f, DrawnSum(sums, d, from, m), DrawnCount(sizes, d, from, m))
  {
    hide AtSum, At, Pick;
    if m == 0 {
      AtSumAdds(f, 0.0, 0, 0.0, 0);
    } else {
      DrawnImage(f, sums, sizes, images, d, from, m - 1);
      var pick := Pick(d(from + m - 1), |sums|);
      AtSumAdds(f, DrawnSum(sums, d, from, m - 1), DrawnCount(sizes, d, from, m - 1), sums[pick], sizes[pick]);
    }
  }

  lemma {:induction false} SamplesOfImage(f: Line, groups: seq<seq<real>>, d: nat -> Unit, k: nat)
    requires |groups| > 0 && forall i :: 0 <= i < |groups| ==> groups[i] != []
    ensures ClusterSamples(AtAll(f, groups), d, k) == AtEach(f, ClusterSamples(groups, d, k))
  {
    hide DrawnSum, DrawnCount, Mean, Draws, Sums, Sizes, AtSum, At, AtEach, AtAll;
    if k > 0 {
      SamplesOfImage(f, groups, d, k - 1);
      var from := Draws(k - 1, |groups|);
      forall i | 0 <= i < |groups| ensures Sums(AtAll(f, groups))[i] == AtSum(f, Sums(groups)[i], Sizes(groups)[i]) {
        TotalOfImage(f, groups[i]);
      }
      assert Sizes(AtAll(f, groups)) == Sizes(groups);
      DrawnImage(f, Sums(groups), Sizes(groups), Sums(AtAll(f, groups)), d, from, |groups|);
      SomethingIsDrawn(Sizes(groups), d, from, |groups|);
      MeanOfAtSum(f, DrawnSum(Sums(groups), d, from, |groups|), DrawnCount(Sizes(groups), d, from, |groups|));
    }
  }

  lemma LineKeepsOrder(f: Line, x: real, y: real)
    requires f.scale > 0.0
    ensures x <= y <==> At(f, x) <= At(f, y)
  {
    if x < y { assert f.scale * (y - x) > 0.0; }
    if y < x { assert f.scale * (x - y) > 0.0; }
  }

  lemma {:induction false} InsertImage(f: Line, x: real, s: seq<real>)
    requires f.scale > 0.0
    ensures Insert(At(f, x), AtEach(f, s)) == AtEach(f, Insert(x, s))
  {
    hide At, AtEach;
    if s != [] {
      LineKeepsOrder(f, x, s[0]);
      InsertImage(f, x, s[1..]);
      assert AtEach(f, s)[1..] == AtEach(f, s[1..]);
    }
  }

  lemma {:induction false} SortImage(f: Line, s: seq<real>)
    requires f.scale > 0.0
    ensures Sort(AtEach(f, s)) == AtEach(f, Sort(s))
  {
    hide At, AtEach, Insert;
    if s != [] {
      SortImage(f, s[1..]);
      assert AtEach(f, s)[1..] == AtEach(f, s[1..]);
      InsertImage(f, s[0], Sort(s[1..]));
    }
  }

  lemma PercentilesOfImage(f: Line, samples: seq<real>, round: real -> real)
    requires f.scale > 0.0
    ensures Percentiles(AtEach(f, samples), round) == Percentiles(samples, x => round(At(f, x)))
  {
    hide At, AtEach, Sort;
    SortImage(f, samples);
  }

  lemma {:induction false} NonEmptyOfImage(f: Line, clusters: seq<seq<real>>)
    ensures NonEmpty(AtAll(f, clusters)) == AtAll(f, NonEmpty(clusters))
  {
    hide AtEach, AtAll;
    if clusters != [] {
      var n := |clusters| - 1;
      NonEmptyOfImage(f, clusters[..n]);
      assert AtAll(f, clusters)[..n] == AtAll(f, clusters[..n]);
    }
  }

  /** Shifted and positively scaled data shift and scale the interval, before its rounding. */
  lemma IntervalFollowsTheData(f: Line, clusters: seq<seq<real>>, d: nat -> Unit, iterations: nat, round: real -> real)
    requires f.scale > 0.0
    ensures ClusterInterval(AtAll(f, clusters), d, iterations, round) == ClusterInterval(clusters, d, iterations, x => round(At(f, x)))
  {
    hide At, AtEach, AtAll, ClusterSamples, Percentiles;
    var groups := NonEmpty(clusters);
    NonEmptyOfImage(f, clusters);
    if groups != [] {
      SamplesOfImage(f, groups, d, iterations);
      PercentilesOfImage(f, ClusterSamples(groups, d, iterations), round);
    }
  }

  const NEGATION := Line(-1.0, 0.0)

  /**
   Swapping the two arms negates the data: with m samples the percentiles stand at Low and High, and the new ones are
   the negated numbers at m - 1 - Low and m - 1 - High.
   */
  lemma SwappedArms(clusters: seq<seq<real>>, d: nat -> Unit, m: nat, round: real -> real)
    requires NonEmpty(clusters) != [] && m > 0
    ensures ClusterInterval(AtAll(NEGATION, clusters), d, m, round) == SwappedInterval(ClusterSamples(NonEmpty(clusters), d, m), round)
  {
    hide AtAll, AtEach, ClusterSamples, Sort, SwappedInterval, Percentiles, NonEmpty;
    var groups := NonEmpty(clusters);
    NonEmptyOfImage(NEGATION, clusters);
    SamplesOfImage(NEGATION, groups, d, m);
    NegatedIsAtEach(ClusterSamples(groups, d, m));
    NegatedPercentiles(ClusterSamples(groups, d, m), round);
  }

  function SwappedInterval(samples: seq<real>, round: real -> real): Interval
    requires samples != []
  {
    var m, s := |samples|, Sort(samples);
    Interval(round(-s[m - 1 - Low(m)]), round(-s[m - 1 - High(m)]))
  }

  lemma NegatedIsAtEach(s: seq<real>)
    ensures AtEach(Line(-1.0, 0.0), s) == Negated(s)
  {
  }

  lemma NegatedPercentiles(samples: seq<real>, round: real -> real)
    requires samples != []
    ensures Percentiles(Negated(samples), round) == SwappedInterval(samples, round)
  {
    hide Sort, Negated, Low, High;
    MirroredRank(samples, Low(|samples|));
    MirroredRank(samples, High(|samples|));
  }

  /** The two ranks mirror each other exactly if the number of samples is no multiple of 40; else they are one off. */
  lemma SwappedRanks(m: nat)
    requires m > 0
    ensures m - 1 - Low(m) == High(m) <==> m % 40 != 0
    ensures m % 40 == 0 ==> m - 1 - Low(m) == High(m) - 1 && m - 1 - High(m) == Low(m) - 1
  {
    var q, r := m / 40, m % 40;
    assert m == 40 * q + r;
    assert Low(m) == q && High(m) == 39 * q + r * 975 / 1000;
  }

  function Mirror(i: Interval): Interval {
    match i case Interval(low, high) => Interval(-high, -low) case _ => i
  }

  /** Swapping the arms negates and mirrors the interval, before its rounding. */
  ghost predicate SwapMirrors(clusters: seq<seq<real>>, d: nat -> Unit, m: nat) {
    ClusterInterval(AtAll(NEGATION, clusters), d, m, x => x) == Mirror(ClusterInterval(clusters, d, m, x => x))
  }

  /** It does so for all data and draws exactly if the number of samples is no multiple of 40; the default is 4000. */
  lemma SwapMirrorsIff(m: nat)
    requires m > 0
    ensures (forall clusters, d :: SwapMirrors(clusters, d, m)) <==> m % 40 != 0
  {
    hide SwapMirrors;
    if m % 40 == 0 {
      SwapNeedNotMirror(m);
    } else {
      forall clusters, d ensures SwapMirrors(clusters, d, m) { SwapDoesMirror(clusters, d, m); }
    }
  }

  lemma SwapDoesMirror(clusters: seq<seq<real>>, d: nat -> Unit, m: nat)
    requires m > 0 && m % 40 != 0
    ensures SwapMirrors(clusters, d, m)
  {
    hide ClusterSamples, Sort, AtAll, NonEmpty, Low, High;
    SwappedRanks(m);
    NonEmptyOfImage(NEGATION, clusters);
    if NonEmpty(clusters) != [] { SwappedArms(clusters, d, m, x => x); }
  }

  // data and draws that tell the ranks apart: the first q samples are 0, the others 1

  const ZERO_AND_ONE: seq<real> := [0.0, 1.0]

  function FirstDraws(q: nat): nat -> Unit {
    i => if i < 2 * q then 0.0 else 0.5
  }

  function Step(q: nat, k: nat): (s: seq<real>)
    ensures |s| == k && forall i :: 0 <= i < k ==> s[i] == if i < q then 0.0 else 1.0
  {
    seq(k, i => if i < q then 0.0 else 1.0)
  }

  lemma {:induction false} StepSamples(q: nat, k: nat)
    ensures MeanSamples(ZERO_AND_ONE, FirstDraws(q), k) == Step(q, k)
  {
    if k > 0 {
      StepSamples(q, k - 1);
      var d, from := FirstDraws(q), Draws(k - 1, 2);
      var x := if k - 1 < q then 0.0 else 1.0;
      OneStep(q, k - 1);
      assert Step(q, k) == Step(q, k - 1) + [x];
    }
  }

  lemma OneStep(q: nat, k: nat)
    ensures Mean(DrawnSum(ZERO_AND_ONE, FirstDraws(q), Draws(k, 2), 2), 2) == if k < q then 0.0 else 1.0
  {
    var d, from := FirstDraws(q), Draws(k, 2);
    var x := if k < q then 0.0 else 1.0;
    assert from == 2 * k;
    assert (0.5 * 2.0).Floor == 1 && (0.0 * 2.0).Floor == 0;
    assert ZERO_AND_ONE[Pick(d(from), 2)] == x && ZERO_AND_ONE[Pick(d(from + 1), 2)] == x;
    assert DrawnSum(ZERO_AND_ONE, d, from, 0) == 0.0;
    assert DrawnSum(ZERO_AND_ONE, d, from, 1) == x;
    assert DrawnSum(ZERO_AND_ONE, d, from, 2) == x + x;
  }

  lemma SortOfStep(q: nat, k: nat)
    ensures Sort(Step(q, k)) == Step(q, k)
  {
    hide Sort;
    SortIsSortedPermutation(Step(q, k));
    AscendingIsUnique(Sort(Step(q, k)), Step(q, k));
  }

  lemma SwapNeedNotMirror(m: nat)
    requires m > 0 && m % 40 == 0
    ensures !SwapMirrors(Singletons(ZERO_AND_ONE), FirstDraws(Low(m)), m)
  {
    hide ClusterSamples, MeanSamples, Sort, AtAll, NonEmpty, Low, High, Step, Singletons, FirstDraws;
    var q, clusters := Low(m), Singletons(ZERO_AND_ONE);
    var d := FirstDraws(q);
    SwappedRanks(m);
    RanksInside(m);
    NonEmptyOf(clusters);
    SwappedArms(clusters, d, m, x => x);
    SamplesOfSingletons(ZERO_AND_ONE, d, m);
    StepSamples(q, m);
    SortOfStep(q, m);
    assert ClusterInterval(clusters, d, m, x => x) == Interval(Step(q, m)[Low(m)], Step(q, m)[High(m)]);
  }

  lemma RanksInside(m: nat)
    requires m > 0 && m % 40 == 0
    ensures 0 < Low(m) < High(m) - 1
  {
    var q := m / 40;
    assert m == 40 * q && Low(m) == q && High(m) == 39 * q;
  }

  // ---- a run against itself

  /** Comparing rows with themselves gives no difference exactly if rows that share an id share the value. */
  lemma SelfDiffs(rows: seq<Row>)
    ensures (forall i :: 0 <= i < |PairedDiffs(rows, rows)| ==> PairedDiffs(rows, rows)[i] == 0.0) <==>
      forall i, j :: 0 <= i < j < |rows| && rows[i].id == rows[j].id ==> rows[i].value == rows[j].value
  {
    hide LastValue, PairedDiffs;
    forall i | 0 <= i < |rows| ensures LastValue(rows, rows[i].id).Some? { LastValueIs(rows, rows[i].id); }
    DiffsOf(rows, rows);
    var diffs := PairedDiffs(rows, rows);
    assert |diffs| == |rows| && forall i :: 0 <= i < |rows| ==> diffs[i] == rows[i].value - LastValue(rows, rows[i].id).value;
    if forall i :: 0 <= i < |rows| ==> diffs[i] == 0.0 {
      forall i, j | 0 <= i < j < |rows| && rows[i].id == rows[j].id ensures rows[i].value == rows[j].value {
        assert diffs[i] == 0.0 && diffs[j] == 0.0;
      }
    }
    if forall i, j :: 0 <= i < j < |rows| && rows[i].id == rows[j].id ==> rows[i].value == rows[j].value {
      forall i | 0 <= i < |rows| ensures diffs[i] == 0.0 { LastValueIs(rows, rows[i].id); }
    }
  }

  lemma {:induction false} LastValueIs(rows: seq<Row>, id: string)
    ensures LastValue(rows, id).Some? <==> exists i :: 0 <= i < |rows| && rows[i].id == id
    ensures LastValue(rows, id).Some? ==> exists i :: 0 <= i < |rows| && rows[i].id == id && rows[i].value == LastValue(rows, id).value
  {
    if rows != [] {
      var n := |rows| - 1;
      LastValueIs(rows[..n], id);
      if rows[n].id != id && LastValue(rows, id).Some? {
        var i :| 0 <= i < n && rows[..n][i].id == id && rows[..n][i].value == LastValue(rows[..n], id).value;
        assert rows[i].id == id;
      }
    }
  }

  /** Of several rows with one id, the last one counts. */
  lemma {:induction false} LastRowCounts(rows: seq<Row>, i: nat)
    requires i < |rows| && forall j :: i < j < |rows| ==> rows[j].id != rows[i].id
    ensures LastValue(rows, rows[i].id) == Some(rows[i].value)
  {
    if i < |rows| - 1 { LastRowCounts(rows[..|rows| - 1], i); }
  }

  /** The rows whose id the other run has. */
  function Paired(rows: seq<Row>, other: seq<Row>): seq<Row> {
    if rows == [] then []
    else
      var r := rows[|rows| - 1];
      Paired(rows[..|rows| - 1], other) + (if exists j :: 0 <= j < |other| && other[j].id == r.id then [r] else [])
  }

  /** Rows without a partner do not count. */
  lemma {:induction false} UnpairedRowsDoNotCount(rows: seq<Row>, other: seq<Row>)
    ensures PairedDiffs(rows, other) == PairedDiffs(Paired(rows, other), other)
    ensures forall i :: 0 <= i < |Paired(rows, other)| ==> LastValue(other, Paired(rows, other)[i].id).Some?
  {
    hide LastValue;
    if rows != [] {
      var n := |rows| - 1;
      var front, r := Paired(rows[..n], other), rows[n];
      UnpairedRowsDoNotCount(rows[..n], other);
      LastValueIs(other, r.id);
      assert (front + [r])[..|front|] == front && front + [] == front;
    }
  }

  /** With every id found in the other rows, the differences stand row by row. */
  lemma {:induction false} DiffsOf(rows: seq<Row>, other: seq<Row>)
    requires forall i :: 0 <= i < |rows| ==> LastValue(other, rows[i].id).Some?
    ensures |PairedDiffs(rows, other)| == |rows|
    ensures forall i :: 0 <= i < |rows| ==> PairedDiffs(rows, other)[i] == rows[i].value - LastValue(other, rows[i].id).value
  {
    if rows != [] { DiffsOf(rows[..|rows| - 1], other); }
  }

  /** So a run against itself has the delta and the interval of no difference. */
  lemma SelfComparisonIsZero(rows: seq<Row>, iterations: nat, seed: int, round: real -> real)
    requires rows != [] && iterations > 0 && Monotone(round)
    requires forall i, j :: 0 <= i < j < |rows| && rows[i].id == rows[j].id ==> rows[i].value == rows[j].value
    ensures PairedDeltaOf(PairedDiffs(rows, rows), iterations, seed, round) ==
      PairedDelta(|rows|, Interval(round(0.0), round(0.0)), Some(round(0.0)))
  {
    hide PairedDiffs, MeanInterval, Total, LastValue;
    SelfDiffs(rows);
    forall i | 0 <= i < |rows| ensures LastValue(rows, rows[i].id).Some? { LastValueIs(rows, rows[i].id); }
    DiffsOf(rows, rows);
    var diffs := PairedDiffs(rows, rows);
    assert Within(diffs, 0.0, 0.0);
    IntervalWithinData(diffs, Stream(Seeded(seed)), iterations, round, 0.0, 0.0);
    TotalWithin(diffs, 0.0, 0.0);
  }
}
