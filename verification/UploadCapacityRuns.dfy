/** Runs that overrun the caps as far as they can be: every process passes its check before any installs. */
module UploadCapacityRuns {
  import opened Common
  import opened Totals
  import opened UploadCapacity
  import opened UploadCapacityTheorems
  import UploadManifest

  /** The sessions found on disk. */
  function Found(sizes: seq<nat>): map<Id, Session> {
    map i: nat | i < |sizes| :: Session(sizes[i], 0, 0, 0)
  }

  function Sum(sizes: seq<nat>): nat {
    if sizes == [] then 0 else Sum(sizes[..|sizes| - 1]) + sizes[|sizes| - 1]
  }

  /** P processes, the first k of which have passed the check of a new session of this size. */
  function Passing(sizes: seq<nat>, processes: nat, size: nat, k: nat): State {
    State(Found(sizes), seq(processes, i requires 0 <= i < processes => if i < k then Passed(|sizes| + i, size, i + 1) else Free), k + 1)
  }

  function Reads(p: nat, n: nat): seq<Label> {
    if n == 0 then [] else Reads(p, n - 1) + [Read(p, n - 1)]
  }

  /** One creation up to its check, over n sessions on disk. */
  function Creation(p: nat, n: nat, size: nat): seq<Label> {
    [List(p, n + p, size, {})] + Reads(p, n) + [Check(p)]
  }

  function Creations(k: nat, n: nat, size: nat): seq<Label> {
    if k == 0 then [] else Creations(k - 1, n, size) + Creation(k - 1, n, size)
  }

  /** One more session of this size fits on top of those on disk, and some cap is set. */
  ghost predicate OneMoreFits(c: Config, sizes: seq<nat>, size: nat) {
    && (c.maxSessions > 0 || c.maxBytes > 0) && WithinCaps(c, |sizes|, Sum(sizes), size)
    && size <= c.maxFile && forall i :: 0 <= i < |sizes| ==> sizes[i] <= c.maxFile
  }

  lemma {:induction false} RunConcat(c: Config, s: State, a: seq<Label>, b: seq<Label>)
    ensures Run(c, s, a + b) == Run(c, Run(c, s, a), b)
    decreases |b|
  {
    hide Apply;
    if b == [] {
      assert a + b == a;
    } else {
      assert (a + b)[..|a + b| - 1] == a + b[..|b| - 1];
      RunConcat(c, s, a, b[..|b| - 1]);
    }
  }

  lemma RunOne(c: Config, s: State, l: Label)
    ensures Run(c, s, [l]) == Apply(c, s, l)
  {
    hide Apply;
    assert [l][..0] == [];
  }

  // ---- one creation

  function Unread(sizes: seq<nat>, n: nat): set<Id> {
    set i | i in Found(sizes) && i >= n
  }

  /** Process p has read the first n sessions. */
  function Reading(sizes: seq<nat>, processes: nat, size: nat, p: nat, n: nat): State
    requires n <= |sizes|
  {
    var slot := Scanning(|sizes| + p, size, p + 1, Unread(sizes, n), n, Sum(sizes[..n]));
    var s := Passing(sizes, processes, size, p);
    State(s.open, seq(processes, i requires 0 <= i < processes => if i == p then slot else if i < p then Passed(|sizes| + i, size, i + 1) else Free), p + 2)
  }

  lemma Lists(c: Config, sizes: seq<nat>, processes: nat, size: nat, p: nat)
    requires p < processes && OneMoreFits(c, sizes, size)
    ensures Apply(c, Passing(sizes, processes, size, p), List(p, |sizes| + p, size, {})) == Reading(sizes, processes, size, p, 0)
  {
    var s, s' := Passing(sizes, processes, size, p), Reading(sizes, processes, size, p, 0);
    assert s.open.Keys + {} == Unread(sizes, 0);
    assert sizes[..0] == [];
    assert s.slots[p := s'.slots[p]] == s'.slots;
  }

  lemma ReadsOne(c: Config, sizes: seq<nat>, processes: nat, size: nat, p: nat, n: nat)
    requires p < processes && n < |sizes|
    ensures Apply(c, Reading(sizes, processes, size, p, n), Read(p, n)) == Reading(sizes, processes, size, p, n + 1)
  {
    var s, s' := Reading(sizes, processes, size, p, n), Reading(sizes, processes, size, p, n + 1);
    assert Unread(sizes, n) - {n} == Unread(sizes, n + 1);
    assert sizes[..n + 1][..n] == sizes[..n];
    assert s.slots[p := s'.slots[p]] == s'.slots;
  }

  lemma {:induction false} ReadsAll(c: Config, sizes: seq<nat>, processes: nat, size: nat, p: nat, n: nat)
    requires p < processes && n <= |sizes|
    ensures Run(c, Reading(sizes, processes, size, p, 0), Reads(p, n)) == Reading(sizes, processes, size, p, n)
  {
    hide Apply, Reading, Run;
    var s := Reading(sizes, processes, size, p, 0);
    if n == 0 {
      RunNothing(c, s);
    } else {
      ReadsAll(c, sizes, processes, size, p, n - 1);
      ReadsOne(c, sizes, processes, size, p, n - 1);
      RunConcat(c, s, Reads(p, n - 1), [Read(p, n - 1)]);
      RunOne(c, Reading(sizes, processes, size, p, n - 1), Read(p, n - 1));
    }
  }

  lemma RunNothing(c: Config, s: State)
    ensures Run(c, s, []) == s
  {
  }

  lemma Passes(c: Config, sizes: seq<nat>, processes: nat, size: nat, p: nat)
    requires p < processes && OneMoreFits(c, sizes, size)
    ensures Apply(c, Reading(sizes, processes, size, p, |sizes|), Check(p)) == Passing(sizes, processes, size, p + 1)
  {
    var s, s' := Reading(sizes, processes, size, p, |sizes|), Passing(sizes, processes, size, p + 1);
    assert Unread(sizes, |sizes|) == {};
    assert sizes[..|sizes|] == sizes;
    assert s.slots[p := s'.slots[p]] == s'.slots;
  }

  lemma Creates(c: Config, sizes: seq<nat>, processes: nat, size: nat, p: nat)
    requires p < processes && OneMoreFits(c, sizes, size)
    ensures Run(c, Passing(sizes, processes, size, p), Creation(p, |sizes|, size)) == Passing(sizes, processes, size, p + 1)
  {
    hide Apply, Reading, Passing, Run, OneMoreFits;
    var n := |sizes|;
    var s, l := Passing(sizes, processes, size, p), List(p, n + p, size, {});
    Lists(c, sizes, processes, size, p);
    RunOne(c, s, l);
    ReadsAll(c, sizes, processes, size, p, n);
    RunConcat(c, s, [l], Reads(p, n));
    Passes(c, sizes, processes, size, p);
    RunOne(c, Reading(sizes, processes, size, p, n), Check(p));
    RunConcat(c, s, [l] + Reads(p, n), [Check(p)]);
  }

  lemma {:induction false} AllCreate(c: Config, sizes: seq<nat>, processes: nat, size: nat, k: nat)
    requires k <= processes && OneMoreFits(c, sizes, size)
    ensures Run(c, Passing(sizes, processes, size, 0), Creations(k, |sizes|, size)) == Passing(sizes, processes, size, k)
  {
    hide Passing, Run, OneMoreFits, Creation;
    var s := Passing(sizes, processes, size, 0);
    if k == 0 {
      RunNothing(c, s);
    } else {
      AllCreate(c, sizes, processes, size, k - 1);
      Creates(c, sizes, processes, size, k - 1);
      RunConcat(c, s, Creations(k - 1, |sizes|, size), Creation(k - 1, |sizes|, size));
    }
  }

  // ---- the load

  function OpenKeys(n: nat): set<Key> {
    set i: nat | i < n :: OpenKey(i)
  }

  function PendingKeys(k: nat): set<Key> {
    set p: nat | p < k :: PendingKey(p)
  }

  function Measured(m: Measure, sizes: seq<nat>): nat {
    if m.CountSessions? then |sizes| else Sum(sizes)
  }

  lemma KeysOfPassing(sizes: seq<nat>, processes: nat, size: nat, k: nat)
    requires k <= processes
    ensures Keys(Passing(sizes, processes, size, k)) == OpenKeys(|sizes|) + PendingKeys(k)
  {
  }

  lemma {:induction false} OpenTotal(w: map<Key, nat>, m: Measure, sizes: seq<nat>, n: nat)
    requires n <= |sizes| && forall i :: 0 <= i < |sizes| ==> OpenKey(i) in w && w[OpenKey(i)] == Weight(m, sizes[i])
    ensures OpenKeys(n) <= w.Keys && Total(w, OpenKeys(n)) == Measured(m, sizes[..n])
  {
    if n == 0 {
      assert OpenKeys(0) == {};
    } else {
      OpenTotal(w, m, sizes, n - 1);
      assert OpenKeys(n) - {OpenKey(n - 1)} == OpenKeys(n - 1);
      TotalRemove(w, OpenKeys(n), OpenKey(n - 1));
      assert sizes[..n][..n - 1] == sizes[..n - 1];
    }
  }

  lemma {:induction false} PendingTotal(w: map<Key, nat>, x: nat, k: nat)
    requires forall p: nat :: p < k ==> PendingKey(p) in w && w[PendingKey(p)] == x
    ensures PendingKeys(k) <= w.Keys && Total(w, PendingKeys(k)) == k * x
  {
    if k == 0 {
      assert PendingKeys(0) == {};
    } else {
      PendingTotal(w, x, k - 1);
      assert PendingKeys(k) - {PendingKey(k - 1)} == PendingKeys(k - 1);
      TotalRemove(w, PendingKeys(k), PendingKey(k - 1));
      assert k * x == (k - 1) * x + x;
    }
  }

  lemma LoadOfPassing(sizes: seq<nat>, processes: nat, size: nat, k: nat, m: Measure)
    requires k <= processes
    ensures Load(Passing(sizes, processes, size, k), m) == Measured(m, sizes) + k * Weight(m, size)
  {
    var s := Passing(sizes, processes, size, k);
    var w := Weights(s, m);
    KeysOfPassing(sizes, processes, size, k);
    forall i | 0 <= i < |sizes| ensures OpenKey(i) in w && w[OpenKey(i)] == Weight(m, sizes[i]) { assert OpenKey(i) in OpenKeys(|sizes|); }
    forall p: nat | p < k ensures PendingKey(p) in w && w[PendingKey(p)] == Weight(m, size) { assert PendingKey(p) in PendingKeys(k); }
    OpenTotal(w, m, sizes, |sizes|);
    PendingTotal(w, Weight(m, size), k);
    assert sizes[..|sizes|] == sizes;
    TotalSplit(w, OpenKeys(|sizes|), PendingKeys(k));
  }

  lemma PassingStarts(c: Config, sizes: seq<nat>, processes: nat, size: nat)
    requires processes >= 1 && OneMoreFits(c, sizes, size)
    ensures Start(c, Passing(sizes, processes, size, 0)) && |Passing(sizes, processes, size, 0).slots| == processes
  {
    hide Load;
    forall m | Cap(c, m) > 0 ensures Load(Passing(sizes, processes, size, 0), m) <= Cap(c, m) {
      LoadOfPassing(sizes, processes, size, 0, m);
    }
  }

  /**
   If one more session fits on top of those on disk, then P processes can each pass the check for one: the load is
   then what was on disk and P new sessions.
   */
  lemma AllPass(c: Config, sizes: seq<nat>, processes: nat, size: nat)
    requires processes >= 1 && OneMoreFits(c, sizes, size)
    ensures var s := Passing(sizes, processes, size, 0);
      var s' := Run(c, s, Creations(processes, |sizes|, size));
      && Start(c, s) && |s.slots| == processes
      && Load(s', CountSessions) == |sizes| + processes
      && Load(s', CountBytes) == Sum(sizes) + processes * size
  {
    hide Load, Passing, Run, Start, OneMoreFits;
    PassingStarts(c, sizes, processes, size);
    AllCreate(c, sizes, processes, size, processes);
    LoadOfPassing(sizes, processes, size, processes, CountSessions);
    LoadOfPassing(sizes, processes, size, processes, CountBytes);
  }

  // ---- the bounds are reached

  /** A starting state of P processes and a run from it. */
  datatype Overrun = Overrun(start: State, labels: seq<Label>)

  ghost predicate RunsFrom(c: Config, o: Overrun, processes: nat) {
    Start(c, o.start) && |o.start.slots| == processes
  }

  ghost function LoadAfter(c: Config, o: Overrun, m: Measure): nat {
    Load(Run(c, o.start, o.labels), m)
  }

  function Ones(n: nat): (s: seq<nat>)
    ensures |s| == n && forall i :: 0 <= i < n ==> s[i] == 1
  {
    seq(n, i => 1)
  }

  lemma {:induction false} SumOfOnes(n: nat)
    ensures Sum(Ones(n)) == n
  {
    if n > 0 {
      SumOfOnes(n - 1);
      assert Ones(n)[..n - 1] == Ones(n - 1);
    }
  }

  /** For every session cap and every P, some run reaches maxSessions + (P-1), if files of one byte fit the byte cap. */
  lemma SessionBoundIsReached(c: Config, processes: nat) returns (o: Overrun)
    requires processes >= 1 && c.maxSessions >= 1 && c.maxFile >= 1 && (c.maxBytes > 0 ==> c.maxSessions <= c.maxBytes)
    ensures RunsFrom(c, o, processes) && LoadAfter(c, o, CountSessions) == c.maxSessions + (processes - 1)
  {
    var sizes := Ones(c.maxSessions - 1);
    SumOfOnes(c.maxSessions - 1);
    AllPass(c, sizes, processes, 1);
    o := Overrun(Passing(sizes, processes, 1, 0), Creations(processes, |sizes|, 1));
  }

  /** This many bytes, in files of at most `most` bytes. */
  function Files(total: nat, most: nat): (s: seq<nat>)
    requires most > 0
    ensures forall i :: 0 <= i < |s| ==> s[i] <= most
  {
    if total == 0 then [] else if total <= most then [total] else Files(total - most, most) + [most]
  }

  lemma {:induction false} FilesSum(total: nat, most: nat)
    requires most > 0
    ensures Sum(Files(total, most)) == total && |Files(total, most)| == CeilDiv(total, most)
    decreases total
  {
    hide CeilDiv;
    if total == 0 {
      CeilDivOfNothing(most);
    } else if total <= most {
      assert Sum([total]) == total by { assert [total][..0] == []; }
      UploadManifest.CeilDivExact(total, most, 1);
    } else {
      FilesSum(total - most, most);
      var rest := Files(total - most, most);
      assert (rest + [most])[..|rest|] == rest;
      CeilDivOfMore(total, most);
    }
  }

  lemma CeilDivOfNothing(b: nat)
    requires b > 0
    ensures CeilDiv(0, b) == 0
  {
  }

  lemma CeilDivOfMore(a: nat, b: nat)
    requires b > 0 && a > b
    ensures CeilDiv(a, b) == CeilDiv(a - b, b) + 1
  {
    hide CeilDiv;
    var n := CeilDiv(a - b, b);
    UploadManifest.CeilDivExact(a - b, b, 1);
    UploadManifest.CeilDivExact(a - b, b, n);
    assert b * (n - 1) + b == b * n;
    UploadManifest.CeilDivExact(a, b, n + 1);
  }

  /** Files that leave room for exactly one more of the largest size. */
  lemma FilesFill(c: Config)
    requires 1 <= c.maxFile <= c.maxBytes && (c.maxSessions > 0 ==> CeilDiv(c.maxBytes, c.maxFile) <= c.maxSessions)
    ensures var sizes := Files(c.maxBytes - c.maxFile, c.maxFile);
      OneMoreFits(c, sizes, c.maxFile) && Sum(sizes) == c.maxBytes - c.maxFile
  {
    hide CeilDiv, Files, Sum;
    var total := c.maxBytes - c.maxFile;
    FilesSum(total, c.maxFile);
    if total > 0 { CeilDivOfMore(c.maxBytes, c.maxFile); }
    else { CeilDivOfNothing(c.maxFile); UploadManifest.CeilDivExact(c.maxBytes, c.maxFile, 1); }
  }

  /**
   For every byte cap that admits a largest file, and every P, some run reaches maxBytes + (P-1) largest files, if the
   session cap admits as many sessions as it takes to fill the byte cap.
   */
  lemma ByteBoundIsReached(c: Config, processes: nat) returns (o: Overrun)
    requires processes >= 1 && 1 <= c.maxFile <= c.maxBytes
    requires c.maxSessions > 0 ==> CeilDiv(c.maxBytes, c.maxFile) <= c.maxSessions
    ensures RunsFrom(c, o, processes) && LoadAfter(c, o, CountBytes) == c.maxBytes + (processes - 1) * c.maxFile
  {
    hide Run, Start, Load, Passing, OneMoreFits, Files, CeilDiv;
    var sizes := Files(c.maxBytes - c.maxFile, c.maxFile);
    FilesFill(c);
    AllPass(c, sizes, processes, c.maxFile);
    assert (processes - 1) * c.maxFile == processes * c.maxFile - c.maxFile;
    o := Overrun(Passing(sizes, processes, c.maxFile, 0), Creations(processes, |sizes|, c.maxFile));
  }
}
