/** An upload from the first call to the last: a client that sends every chunk gets its file. */
module UploadSuccess {
  import opened Common
  import opened UploadClaims
  import opened UploadManifest
  import opened UploadProtocol
  import opened UploadTheorems
  import opened UploadRuns
  import opened UploadAlone
  import opened UploadFinalizing

  const FIVE: seq<bool> := [true, true, true, true, true]

  /** All tokens in use are older than the next one. */
  ghost predicate FreshFrom(s: State, id: Id) {
    (forall t :: t in s.threads ==> t < s.next) && (id in s.dirs ==> forall t :: t in s.dirs[id].temps ==> t < s.next)
  }

  lemma PartitionsAreValid(m: Manifest)
    requires Partitions(m)
    ensures ValidManifest(m)
  {
    SliceBounds(m, 0);
    assert 0 < ExpectedChunkSize(m, 0) <= m.chunkSize;
    assert SizeBefore(m, 1) == SizeBefore(m, 0) + ExpectedChunkSize(m, 0);
    TotalIsRightIffItPartitions(m);
  }

  lemma PartIsChunk(src: Source, k: nat)
    requires ValidSource(src) && k < |src.parts|
    ensures IsChunk(src.manifest, k, src.manifest.totalChunks, src.parts[k])
  {
    SliceBounds(src.manifest, k);
    assert src.parts[k] == Slice(src.file, src.manifest, k);
  }

  // ---- sending the chunks

  /** Indices of chunks of this source. */
  ghost predicate Indices(src: Source, order: seq<nat>) {
    forall i :: 0 <= i < |order| ==> order[i] < |src.parts|
  }

  /** The client stores these chunks of its file, one after the other. */
  ghost function Sends(p: Pid, id: Id, src: Source, order: seq<nat>, next: Tid): seq<Label>
    requires Indices(src, order)
    decreases |order|
  {
    if order == [] then []
    else
      var n := |order| - 1;
      Sends(p, id, src, order[..n], next) + SentOne(p, id, src, order[n], next + n)
  }

  /** One chunk stored by operation t, run alone. */
  function SentOne(p: Pid, id: Id, src: Source, k: nat, t: Tid): seq<Label>
    requires k < |src.parts|
  {
    [Start(p, StoreRequest(id, k, src.manifest.totalChunks, src.parts[k]))] + Calls(t, FIVE)
  }

  lemma SendsSnoc(p: Pid, id: Id, src: Source, order: seq<nat>, next: Tid)
    requires Indices(src, order) && order != []
    ensures var n := |order| - 1;
      Sends(p, id, src, order, next) == Sends(p, id, src, order[..n], next) + SentOne(p, id, src, order[n], next + n)
  {
  }

  /** The chunks there are, and those sent. */
  ghost function WithParts(chunks: map<nat, Bytes>, src: Source, order: seq<nat>): map<nat, Bytes>
    requires Indices(src, order)
  {
    if order == [] then chunks else WithParts(chunks, src, order[..|order| - 1])[order[|order| - 1] := src.parts[order[|order| - 1]]]
  }

  /** The session is open for this source and unclaimed; what it has of it already are its parts. */
  ghost predicate OpenFor(s: State, id: Id, src: Source) {
    && id in s.dirs && s.dirs[id].manifest == Some(src.manifest) && s.dirs[id].claim.None?
    && forall k :: k in s.dirs[id].chunks ==> k < |src.parts| && s.dirs[id].chunks[k] == src.parts[k]
  }

  /** Session id with these chunks, n tokens later. */
  function Holding(s: State, id: Id, chunks: map<nat, Bytes>, n: nat): State
    requires id in s.dirs
  {
    Put(s, id, s.dirs[id].(chunks := chunks)).(next := s.next + n)
  }

  lemma SendsOne(s: State, p: Pid, id: Id, src: Source, k: nat)
    requires p in s.live && Fresh(s, id) && OpenFor(s, id, src) && ValidSource(src) && k < |src.parts|
    ensures Run(s, SentOne(p, id, src, k, s.next))
      == Holding(s, id, s.dirs[id].chunks[k := src.parts[k]], 1)
  {
    hide Run, Calls, ValidSource;
    PartIsChunk(src, k);
    StoreAlone(s, p, id, k, src.manifest.totalChunks, src.parts[k]);
    if k in s.dirs[id].chunks {
      assert s.dirs[id].chunks[k := src.parts[k]] == s.dirs[id].chunks;
      PutSame(s, id, s.dirs[id]);
      assert s.dirs[id := s.dirs[id]] == s.dirs;
    }
  }

  /** However the chunks are ordered, repeated or resumed, the session then has exactly those it had and those sent. */
  lemma {:induction false} SendsAll(s: State, p: Pid, id: Id, src: Source, order: seq<nat>)
    requires p in s.live && FreshFrom(s, id) && OpenFor(s, id, src) && ValidSource(src)
    requires Indices(src, order)
    ensures Run(s, Sends(p, id, src, order, s.next)) == Holding(s, id, WithParts(s.dirs[id].chunks, src, order), |order|)
    decreases |order|
  {
    hide Run, ValidSource, Holding, Indices;
    if order == [] {
      SendsNothing(s, id, src);
      NothingRun(s);
    } else {
      IndicesFront(src, order);
      SendsAll(s, p, id, src, order[..|order| - 1]);
      SendsMore(s, p, id, src, order);
    }
  }

  lemma IndicesFront(src: Source, order: seq<nat>)
    requires Indices(src, order) && order != []
    ensures Indices(src, order[..|order| - 1]) && order[|order| - 1] < |src.parts|
  {
  }

  lemma SendsMore(s: State, p: Pid, id: Id, src: Source, order: seq<nat>)
    requires p in s.live && FreshFrom(s, id) && OpenFor(s, id, src) && ValidSource(src) && Indices(src, order) && order != []
    requires var front := order[..|order| - 1];
      Indices(src, front) && Run(s, Sends(p, id, src, front, s.next)) == Holding(s, id, WithParts(s.dirs[id].chunks, src, front), |front|)
    ensures Run(s, Sends(p, id, src, order, s.next)) == Holding(s, id, WithParts(s.dirs[id].chunks, src, order), |order|)
  {
    hide Run, Holding, ValidSource, Sends, SentOne, FreshFrom;
    var n, k := |order| - 1, order[|order| - 1];
    SendsSnoc(p, id, src, order, s.next);
    RunConcat(s, Sends(p, id, src, order[..n], s.next), SentOne(p, id, src, k, s.next + n));
    StaysOpen(s, id, src, order[..n]);
    SendsToHeld(s, p, id, src, WithParts(s.dirs[id].chunks, src, order[..n]), n, k);
  }

  lemma SendsToHeld(s: State, p: Pid, id: Id, src: Source, held: map<nat, Bytes>, n: nat, k: nat)
    requires id in s.dirs && ValidSource(src) && k < |src.parts|
    requires var s1 := Holding(s, id, held, n); p in s1.live && Fresh(s1, id) && OpenFor(s1, id, src) && s1.next == s.next + n
    ensures Run(Holding(s, id, held, n), SentOne(p, id, src, k, s.next + n)) == Holding(s, id, held[k := src.parts[k]], n + 1)
  {
    hide Run, Holding, ValidSource, SentOne, OpenFor, Fresh;
    SendsOne(Holding(s, id, held, n), p, id, src, k);
    HoldingTwice(s, id, held, n, held[k := src.parts[k]]);
  }

  lemma NothingRun(s: State)
    ensures Run(s, []) == s
  {
  }

  lemma SendsNothing(s: State, id: Id, src: Source)
    requires id in s.dirs
    ensures Holding(s, id, WithParts(s.dirs[id].chunks, src, []), 0) == s
  {
    assert WithParts(s.dirs[id].chunks, src, []) == s.dirs[id].chunks;
    assert s.dirs[id := s.dirs[id]] == s.dirs;
  }

  lemma HoldingTwice(s: State, id: Id, a: map<nat, Bytes>, n: nat, b: map<nat, Bytes>)
    requires id in s.dirs
    ensures var s1 := Holding(s, id, a, n);
      id in s1.dirs && s1.dirs[id].chunks == a && Holding(s1, id, b, 1) == Holding(s, id, b, n + 1)
  {
    var s1 := Holding(s, id, a, n);
    assert s1.dirs[id := s1.dirs[id].(chunks := b)] == s.dirs[id := s.dirs[id].(chunks := b)];
  }

  lemma StaysOpen(s: State, id: Id, src: Source, order: seq<nat>)
    requires FreshFrom(s, id) && OpenFor(s, id, src)
    requires Indices(src, order)
    ensures var s' := Holding(s, id, WithParts(s.dirs[id].chunks, src, order), |order|);
      && FreshFrom(s', id) && Fresh(s', id) && OpenFor(s', id, src) && s'.live == s.live && s'.next == s.next + |order|
      && s'.dirs[id].chunks == WithParts(s.dirs[id].chunks, src, order)
  {
    hide WithParts;
    forall k: nat ensures k in WithParts(s.dirs[id].chunks, src, order) ==> k < |src.parts| && WithParts(s.dirs[id].chunks, src, order)[k] == src.parts[k] {
      PartsSent(s.dirs[id].chunks, src, order, k);
    }
  }

  lemma {:induction false} PartsSent(chunks: map<nat, Bytes>, src: Source, order: seq<nat>, k: nat)
    requires Indices(src, order)
    ensures var r := WithParts(chunks, src, order);
      && (k in r <==> k in chunks || k in order)
      && (k in r ==> r[k] == if k in order && k < |src.parts| then src.parts[k] else if k in chunks then chunks[k] else r[k])
      && (k in order ==> k < |src.parts|)
  {
    if order != [] {
      var n := |order| - 1;
      PartsSent(chunks, src, order[..n], k);
      assert order == order[..n] + [order[n]];
    }
  }

  /** Sent or there already, every chunk makes the set complete. */
  lemma AllSentIsComplete(s: State, p: Pid, id: Id, src: Source, order: seq<nat>)
    requires p in s.live && FreshFrom(s, id) && OpenFor(s, id, src) && ValidSource(src)
    requires Indices(src, order)
    ensures var s' := Run(s, Sends(p, id, src, order, s.next));
      id in s'.dirs && (Claimable(s', id) <==> forall k: nat :: k < |src.parts| ==> k in order || k in s.dirs[id].chunks)
  {
    hide Run, Sends;
    SendsAll(s, p, id, src, order);
    var chunks := WithParts(s.dirs[id].chunks, src, order);
    forall k: nat ensures (k in chunks <==> k in order || k in s.dirs[id].chunks) && (k in chunks ==> k < |src.parts|) {
      PartsSent(s.dirs[id].chunks, src, order, k);
    }
  }

  // ---- the whole upload

  /** Open, send every chunk, claim, and finalize: the labels of one client's upload. */
  ghost function Upload(s: State, p: Pid, id: Id, src: Source, order: seq<nat>, to: Path, cleanup: bool, found: seq<bool>): seq<Label>
    requires Indices(src, order)
  {
    ([Start(p, InitRequest(id, src.manifest))] + Calls(s.next, FIVE))
    + (Sends(p, id, src, order, s.next + 2)
       + (([Start(p, ClaimRequest(id))] + Calls(s.next + 2 + |order|, FIVE))
          + ([Decide(s.next + 2 + |order|, Finalize(to, cleanup))] + Calls(s.next + 2 + |order|, found))))
  }

  /** Session id after its client sent the whole file. */
  function Full(s: State, id: Id, src: Source, n: nat): State {
    Put(s, id, Dir(s.next + 1, Some(src.manifest), Parts(src), None, {})).(next := s.next + 2 + n)
  }

  function Parts(src: Source): map<nat, Bytes> {
    map k: nat | k < |src.parts| :: src.parts[k]
  }

  lemma OpensAndSends(s: State, p: Pid, id: Id, src: Source, order: seq<nat>)
    requires p in s.live && FreshFrom(s, id) && id !in s.dirs && ValidSource(src)
    requires Indices(src, order)
    requires forall k: nat :: k < |src.parts| ==> k in order
    ensures Run(s, ([Start(p, InitRequest(id, src.manifest))] + Calls(s.next, FIVE)) + Sends(p, id, src, order, s.next + 2))
      == Full(s, id, src, |order|)
  {
    hide Run, Calls, ValidSource, Sends, Full, Operation, FreshFrom;
    var opening := [Start(p, InitRequest(id, src.manifest))] + Calls(s.next, FIVE);
    Opens(s, p, id, src);
    RunConcat(s, opening, Sends(p, id, src, order, s.next + 2));
    SendsAll(Opened(s, id, src.manifest), p, id, src, order);
    OpenedThenSent(s, id, src, order);
  }

  /** Session id just opened. */
  function Opened(s: State, id: Id, m: Manifest): State {
    Put(s, id, Dir(s.next + 1, Some(m), map[], None, {})).(next := s.next + 2)
  }

  lemma Opens(s: State, p: Pid, id: Id, src: Source)
    requires p in s.live && FreshFrom(s, id) && id !in s.dirs && ValidSource(src)
    ensures var s1 := Opened(s, id, src.manifest);
      && Run(s, [Start(p, InitRequest(id, src.manifest))] + Calls(s.next, FIVE)) == s1
      && FreshFrom(s1, id) && OpenFor(s1, id, src) && s1.live == s.live && s1.next == s.next + 2
  {
    ManifestIsValid(src);
    OpensEmpty(s, p, id, src.manifest);
  }

  lemma OpensEmpty(s: State, p: Pid, id: Id, m: Manifest)
    requires p in s.live && Fresh(s, id) && id !in s.dirs && ValidManifest(m)
    ensures Run(s, [Start(p, InitRequest(id, m))] + Calls(s.next, FIVE)) == Opened(s, id, m)
  {
    hide Run, Calls, Put;
    InitAlone(s, p, id, m);
    var d := Dir(s.next + 1, Some(m), map[], None, {});
    PutTwice(Later(s), id, d.(manifest := None), d);
    PutsLater(s, id, d.(manifest := None), d);
  }

  lemma PutsLater(s: State, id: Id, d: Dir, d': Dir)
    ensures Put(Later(Put(Later(s), id, d)), id, d') == Put(s, id, d').(next := s.next + 2)
    ensures Put(Later(s), id, d).dirs[id] == d && id in Later(Put(Later(s), id, d)).dirs
  {
    assert s.dirs[id := d][id := d'] == s.dirs[id := d'];
  }

  lemma OpenedThenSent(s: State, id: Id, src: Source, order: seq<nat>)
    requires Indices(src, order)
    requires forall k: nat :: k < |src.parts| ==> k in order
    ensures var s1 := Opened(s, id, src.manifest);
      Holding(s1, id, WithParts(s1.dirs[id].chunks, src, order), |order|) == Full(s, id, src, |order|)
  {
    forall k: nat ensures (k in WithParts(map[], src, order) <==> k < |src.parts|) && (k < |src.parts| ==> WithParts(map[], src, order)[k] == src.parts[k]) {
      PartsSent(map[], src, order, k);
    }
    assert WithParts(map[], src, order) == Parts(src);
    var s1 := Opened(s, id, src.manifest);
    assert s1.dirs[id := s1.dirs[id].(chunks := Parts(src))] == Full(s, id, src, |order|).dirs;
  }

  lemma ManifestIsValid(src: Source)
    requires ValidSource(src)
    ensures ValidManifest(src.manifest)
  {
    PartitionsAreValid(src.manifest);
  }

  /** The full session under the client's claim. */
  function Claimed(s: State, p: Pid, id: Id, src: Source, n: nat): State
    requires p in s.live
  {
    var t, s' := s.next + 2 + n, Full(s, id, src, n);
    Busy(Put(Later(s'), id, s'.dirs[id].(claim := Some(Claim(t, p, s.live[p], FinalizeClaim)))), t,
         Thread(p, s.live[p], id, Some(Seen(s.next + 1, src.manifest)), UploadProtocol.Holder(Idle)))
  }

  lemma ClaimsFull(s: State, p: Pid, id: Id, src: Source, n: nat)
    requires p in s.live && FreshFrom(s, id) && id !in s.dirs && ValidSource(src)
    ensures Run(Full(s, id, src, n), [Start(p, ClaimRequest(id))] + Calls(s.next + 2 + n, FIVE)) == Claimed(s, p, id, src, n)
  {
    hide Run, Calls, ValidSource;
    var s' := Full(s, id, src, n);
    PartsCount(src);
    ClaimAlone(s', p, id);
  }

  lemma PartsCount(src: Source)
    requires ValidSource(src)
    ensures |src.parts| == src.manifest.totalChunks
  {
  }

  lemma FinalizesFull(s: State, p: Pid, id: Id, src: Source, n: nat, to: Path, cleanup: bool, found: seq<bool>)
    requires p in s.live && FreshFrom(s, id) && id !in s.dirs && ValidSource(src) && to !in s.files
    requires Finds(found, true) && |found| >= 6 + src.manifest.totalChunks
    ensures var t, c := s.next + 2 + n, Claimed(s, p, id, src, n);
      var s' := Decided(c, t, Finalize(to, cleanup), found);
      && s'.files == s.files[to := MergedFile(id, src.file)]
      && s'.dirs == (if cleanup then s.dirs else c.dirs)
  {
    hide Run, Calls, Decided, Concat, Publishable;
    var t, c := s.next + 2 + n, Claimed(s, p, id, src, n);
    FullIsPublishable(s, p, id, src, n, to);
    MergeOfSlicesIsTheFile(src.file, src.manifest, Parts(src));
    FinalizeAlone(c, t, to, cleanup, true, found);
    assert c.dirs - {id} == s.dirs;
  }

  lemma FullIsPublishable(s: State, p: Pid, id: Id, src: Source, n: nat, to: Path)
    requires p in s.live && id !in s.dirs && ValidSource(src) && to !in s.files
    ensures Publishable(Claimed(s, p, id, src, n), s.next + 2 + n, to, true)
  {
    forall k: nat | k < src.manifest.totalChunks
      ensures |src.parts[k]| == SizeBefore(src.manifest, k + 1) - SizeBefore(src.manifest, k)
    {
      PartIsChunk(src, k);
    }
  }

  /**
   A client that opens a session, stores every chunk of its file in any order and any number of times, claims and
   finalizes to a free destination gets exactly its file there, if a declared digest matches.
   */
  lemma UploadSucceeds(s: State, p: Pid, id: Id, src: Source, order: seq<nat>, to: Path, cleanup: bool, found: seq<bool>)
    requires p in s.live && FreshFrom(s, id) && id !in s.dirs && to !in s.files && ValidSource(src)
    requires Indices(src, order)
    requires forall k: nat :: k < |src.parts| ==> k in order
    requires Finds(found, true) && |found| >= 6 + src.manifest.totalChunks
    ensures var s' := Run(s, Upload(s, p, id, src, order, to, cleanup, found));
      && s'.files == s.files[to := MergedFile(id, src.file)]
      && (cleanup ==> s'.dirs == s.dirs)
  {
    hide Run, Calls, ValidSource, Sends, Full, Claimed;
    var n := |order|;
    var t := s.next + 2 + n;
    var opening := [Start(p, InitRequest(id, src.manifest))] + Calls(s.next, FIVE);
    var sending := Sends(p, id, src, order, s.next + 2);
    var claiming := [Start(p, ClaimRequest(id))] + Calls(t, FIVE);
    var finishing := [Decide(t, Finalize(to, cleanup))] + Calls(t, found);
    OpensAndSends(s, p, id, src, order);
    ClaimsFull(s, p, id, src, n);
    FinalizesFull(s, p, id, src, n, to, cleanup, found);
    assert opening + (sending + (claiming + finishing)) == (opening + sending) + (claiming + finishing);
    RunConcat(s, opening + sending, claiming + finishing);
    RunConcat(Full(s, id, src, n), claiming, finishing);
  }
}
