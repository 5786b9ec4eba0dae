/** The draws of the seeded generator: a full-period counter, mixed. */
module SeededDraws {
  import opened Common
  import opened PairedBootstrap

  const WORD := 0x1_0000_0000
  const STEP := 0x6d2b79f5
  const INVERSE := 3696798301  // STEP * INVERSE is 1 modulo 2^32

  /** After k draws the state has gone k steps of 0x6d2b79f5 on from the seed, modulo 2^32. */
  lemma {:induction false} StateIs(s: Word, k: nat)
    ensures StateAt(s, k) == (s + k * STEP) % WORD
  {
    if k > 0 {
      StateIs(s, k - 1);
      Wrap(s + (k - 1) * STEP, STEP);
    }
  }

  lemma Wrap(a: int, b: int)
    ensures (a % WORD + b) % WORD == (a + b) % WORD
  {
    var q := a / WORD;
    assert a == q * WORD + a % WORD;
    ShiftedRemainder(a % WORD + b, q);
  }

  lemma ShiftedRemainder(a: int, q: int)
    ensures (a + q * WORD) % WORD == a % WORD
  {
  }

  /** Multiplying by the inverse undoes the multiplication by the step. */
  lemma InverseUndoes(k: int, q: int)
    ensures k * STEP == q * WORD ==> k == (q * INVERSE - k * 1576479847) * WORD
  {
  }

  lemma NoMultiple(k: nat, m: int)
    requires 0 < k < WORD
    ensures k != m * WORD
  {
  }

  /** A positive number of steps below 2^32 does not come back to the start. */
  lemma StepsDiffer(k: nat)
    requires 0 < k < WORD
    ensures (k * STEP) % WORD != 0
  {
    var q := QuotientOf(k * STEP);
    InverseUndoes(k, q);
    NoMultiple(k, q * INVERSE - k * 1576479847);
  }

  lemma QuotientOf(a: int) returns (q: int)
    ensures a == q * WORD + a % WORD
  {
    q := a / WORD;
  }

  /** No state comes twice among 2^32 draws. */
  lemma StatesDiffer(s: Word, i: nat, j: nat)
    requires i < j < WORD
    ensures StateAt(s, i) != StateAt(s, j)
  {
    StateIs(s, i);
    StateIs(s, j);
    StepsDiffer(j - i);
    RemaindersDiffer(s + i * STEP, s + j * STEP, (j - i) * STEP);
  }

  lemma RemaindersDiffer(a: int, b: int, gap: int)
    requires b - a == gap && gap % WORD != 0
    ensures a % WORD != b % WORD
  {
  }

  /** A seed counts modulo 2^32. */
  lemma SeedIs(seed: int, turns: int)
    requires 0 <= seed < WORD
    ensures Seeded(seed) == seed == Seeded(seed + turns * WORD)
  {
    ShiftedRemainder(seed, turns);
  }

  /** The reported delta is the rounded mean: the number that times their count gives the sum of the differences. */
  lemma DeltaIsTheMean(diffs: seq<real>, iterations: nat, seed: int, round: real -> real, x: real)
    requires diffs != [] && x * |diffs| as real == Total(diffs)
    ensures var r := PairedDeltaOf(diffs, iterations, seed, round); r.cases == |diffs| && r.delta == Some(round(x))
  {
    hide MeanInterval, Stream, Total;
    assert Mean(Total(diffs), |diffs|) == x;
  }

  /** The first three draws for seed 1. */
  lemma FirstDraws()
    ensures Stream(1)(0) == 2693262067.0 / 4294967296.0
    ensures Stream(1)(1) == 11749833.0 / 4294967296.0
    ensures Stream(1)(2) == 2265367787.0 / 4294967296.0
  {
    hide Output;
    FirstStates();
    FirstMixes();
    OutputIs(0x6d2b79f6, 2693262067);
    OutputIs(0xda56f3eb, 11749833);
    OutputIs(0x47826de0, 2265367787);
  }

  lemma FirstStates()
    ensures StateAt(1, 1) == 0x6d2b79f6 && StateAt(1, 2) == 0xda56f3eb && StateAt(1, 3) == 0x47826de0
  {
    assert StateAt(1, 0) == 1;
    assert StateAt(1, 1) == 0x6d2b79f6;
    assert StateAt(1, 2) == 0xda56f3eb;
  }

  lemma FirstMixes()
    ensures Mix(0x6d2b79f6) == 2693262067 && Mix(0xda56f3eb) == 11749833 && Mix(0x47826de0) == 2265367787
  {
  }

  lemma OutputIs(s: Word, n: int)
    requires 0 <= n < WORD && Mix(s) as int == n
    ensures Output(s) == n as real / 4294967296.0
  {
  }
}
