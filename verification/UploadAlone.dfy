/**
 The operations of the upload store, each run by itself from its first call to its last: the whole state they leave,
 and so exactly when they succeed.
 */
module UploadAlone {
  import opened Common
  import opened UploadClaims
  import opened UploadManifest
  import opened UploadProtocol
  import opened UploadRuns

  /** State s with operation t at the calls of th. */
  function Busy(s: State, t: Tid, th: Thread): State {
    s.(threads := s.threads[t := th])
  }

  /** The token of the next operation is in use nowhere. */
  ghost predicate Fresh(s: State, id: Id) {
    s.next !in s.threads && (id in s.dirs ==> s.next !in s.dirs[id].temps)
  }

  function Later(s: State): State {
    s.(next := s.next + 1)
  }

  /** One call of operation t for each entry, with what the call finds outside the model. */
  function Calls(t: Tid, found: seq<bool>): seq<Label> {
    if found == [] then [] else [Go(t, found[0])] + Calls(t, found[1..])
  }

  lemma RunCalls(s: State, t: Tid, c: bool, found: seq<bool>)
    ensures Run(s, Calls(t, [c] + found)) == Run(Apply(s, Go(t, c)), Calls(t, found))
    ensures Run(s, Calls(t, [])) == s
  {
    hide Apply;
    assert ([c] + found)[1..] == found;
    RunOne(s, Go(t, c));
    RunConcat(s, [Go(t, c)], Calls(t, found));
  }

  /** The state after operation t made these calls. */
  function After(s: State, t: Tid, found: seq<bool>): State
    decreases |found|
  {
    if found == [] then s else After(Apply(s, Go(t, found[0])), t, found[1..])
  }

  lemma {:induction false} RunIsAfter(s: State, t: Tid, found: seq<bool>)
    ensures Run(s, Calls(t, found)) == After(s, t, found)
    decreases |found|
  {
    hide Apply, Run;
    if found == [] {
      RunCalls(s, t, true, []);
    } else {
      assert found == [found[0]] + found[1..];
      RunCalls(s, t, found[0], found[1..]);
      RunIsAfter(Apply(s, Go(t, found[0])), t, found[1..]);
    }
  }

  lemma AfterOne(s: State, t: Tid, c: bool, found: seq<bool>)
    ensures After(s, t, [c] + found) == After(Apply(s, Go(t, c)), t, found)
  {
    hide Apply;
    assert ([c] + found)[1..] == found;
  }

  lemma AfterNone(s: State, t: Tid)
    ensures After(s, t, []) == s
  {
  }

  lemma AfterThree(s: State, t: Tid, a: bool, b: bool, c: bool, found: seq<bool>)
    ensures After(s, t, [a, b, c] + found) == After(Apply(Apply(Apply(s, Go(t, a)), Go(t, b)), Go(t, c)), t, found)
  {
    hide Apply, After;
    assert [a, b, c] + found == [a] + ([b] + ([c] + found));
    AfterOne(s, t, a, [b] + ([c] + found));
    AfterOne(Apply(s, Go(t, a)), t, b, [c] + found);
    AfterOne(Apply(Apply(s, Go(t, a)), Go(t, b)), t, c, found);
  }

  /** An operation that has ended, or waits for its caller, makes no more calls. */
  lemma {:induction false} NothingMore(s: State, t: Tid, found: seq<bool>)
    requires t in s.threads ==> s.threads[t].pc == Holder(Idle)
    ensures After(s, t, found) == s
    decreases |found|
  {
    if found != [] {
      assert Apply(s, Go(t, found[0])) == s;
      NothingMore(s, t, found[1..]);
    }
  }

  /** Process p starts an operation, which then runs alone. */
  function Operation(s: State, p: Pid, r: Request, found: seq<bool>): State {
    Run(s, [Start(p, r)] + Calls(s.next, found))
  }

  lemma OperationIs(s: State, p: Pid, r: Request, found: seq<bool>)
    requires p in s.live && (r.RecoverRequest? ==> NoRecovery(s)) && (r.InitRequest? ==> ValidManifest(r.metadata))
    ensures Operation(s, p, r, found) == After(Busy(Later(s), s.next, Thread(p, s.live[p], r.id, None, FirstCall(r))), s.next, found)
  {
    hide Run;
    RunOne(s, Start(p, r));
    RunConcat(s, [Start(p, r)], Calls(s.next, found));
    RunIsAfter(Apply(s, Start(p, r)), s.next, found);
  }

  lemma BusyEnds(s: State, t: Tid, th: Thread)
    requires t !in s.threads
    ensures Done(Busy(s, t, th), t) == s
  {
    assert s.threads[t := th] - {t} == s.threads;
  }

  // ---- installing a file

  lemma WritesTemp(s: State, t: Tid, th: Thread, f: File, c: bool)
    requires th.pc == Installing(WriteTemp, f) && th.id in s.dirs
    ensures var d := s.dirs[th.id];
      Apply(Busy(s, t, th), Go(t, c)) == Busy(Put(s, th.id, d.(temps := d.temps + {t})), t, th.(pc := Installing(LinkTemp, f)))
  {
  }

  lemma LinksTemp(s: State, t: Tid, th: Thread, f: File, c: bool)
    requires th.pc == Installing(LinkTemp, f) && th.id in s.dirs && t in s.dirs[th.id].temps
    ensures var d := s.dirs[th.id];
      Apply(Busy(s, t, th), Go(t, c)) ==
        if TargetExists(d, f) then Busy(s, t, th.(pc := Installing(UnlinkTemp, f)))
        else Busy(Put(s, th.id, Installed(d, f, t, th)), t, th.(pc := AfterLink(f)))
  {
  }

  lemma UnlinksTemp(s: State, t: Tid, th: Thread, c: bool)
    requires th.pc.Installing? && th.pc.install == UnlinkTemp && th.id in s.dirs && t !in s.threads
    ensures var d := s.dirs[th.id]; Apply(Busy(s, t, th), Go(t, c)) == Put(s, th.id, d.(temps := d.temps - {t}))
  {
    assert s.threads[t := th] - {t} == s.threads;
  }

  lemma DropsTemp(s: State, t: Tid, th: Thread, c: bool)
    requires th.pc in {Holder(DropClaimTemp), Sweeper(DropSweepTemp)} && th.id in s.dirs
    ensures var d := s.dirs[th.id];
      Apply(Busy(s, t, th), Go(t, c)) ==
        Busy(Put(s, th.id, d.(temps := d.temps - {t})), t, th.(pc := if th.pc.Holder? then Holder(Idle) else Sweeper(Recheck)))
  {
  }

  /** The state after an installation: nothing new if the name is taken; a claim makes a holder. */
  function AfterInstall(s: State, t: Tid, th: Thread, f: File): State
    requires th.id in s.dirs
  {
    if TargetExists(s.dirs[th.id], f) then s
    else
      var s' := Put(s, th.id, Installed(s.dirs[th.id], f, t, th));
      match f
      case ClaimFile(FinalizeClaim) => Busy(s', t, th.(pc := Holder(Idle)))
      case ClaimFile(CleanupClaim) => Busy(s', t, th.(pc := Sweeper(Recheck)))
      case _ => s'
  }

  lemma TempsBack(d: Dir, t: Tid)
    requires t !in d.temps
    ensures d.(temps := d.temps + {t} - {t}) == d
  {
    assert d.temps + {t} - {t} == d.temps;
  }

  lemma PutSame(s: State, id: Id, d: Dir)
    requires id in s.dirs
    ensures Put(Put(s, id, d), id, s.dirs[id]) == s
  {
    assert s.dirs[id := s.dirs[id]] == s.dirs;
  }

  lemma InstallsAlone(s: State, t: Tid, th: Thread, f: File, a: bool, b: bool, c: bool)
    requires th.pc == Installing(WriteTemp, f) && th.id in s.dirs && t !in s.dirs[th.id].temps && t !in s.threads
    ensures Apply(Apply(Apply(Busy(s, t, th), Go(t, a)), Go(t, b)), Go(t, c)) == AfterInstall(s, t, th, f)
  {
    hide Apply, Put, Busy;
    var id, d := th.id, s.dirs[th.id];
    var d1 := d.(temps := d.temps + {t});
    var s1 := Put(s, id, d1);
    PutIs(s, id, d1);
    WritesTemp(s, t, th, f, a);
    LinksTemp(s1, t, th.(pc := Installing(LinkTemp, f)), f, b);
    if TargetExists(d, f) {
      UnlinksTemp(s1, t, th.(pc := Installing(UnlinkTemp, f)), c);
      TempsBack(d, t);
      PutSame(s, id, d1);
    } else {
      var d2 := Installed(d1, f, t, th);
      PutIs(s, id, d2);
      PutTwice(s, id, d1, d2);
      InstalledTemps(d, f, t, th);
      PutTwice(s, id, d2, Installed(d, f, t, th));
      if f.ClaimFile? { DropsTemp(Put(s, id, d2), t, th.(pc := AfterLink(f)), c); }
      else { UnlinksTemp(Put(s, id, d2), t, th.(pc := AfterLink(f)), c); }
    }
  }

  lemma PutIs(s: State, id: Id, d: Dir)
    ensures id in Put(s, id, d).dirs && Put(s, id, d).dirs[id] == d && Put(s, id, d).threads == s.threads
  {
  }

  lemma InstalledTemps(d: Dir, f: File, t: Tid, th: Thread)
    requires t !in d.temps
    ensures var d' := Installed(d.(temps := d.temps + {t}), f, t, th); d'.(temps := d'.temps - {t}) == Installed(d, f, t, th)
    ensures TargetExists(d.(temps := d.temps + {t}), f) == TargetExists(d, f)
    ensures Installed(d, f, t, th) == Installed(d, f, t, th.(pc := Holder(Idle)))
  {
    assert d.temps + {t} - {t} == d.temps;
  }

  // ---- initialize

  lemma InitReads(s: State, t: Tid, th: Thread, m: Manifest, c: bool)
    requires th.pc == Initializing(InitRead, m) && t !in s.threads
    ensures Apply(Busy(s, t, th), Go(t, c)) ==
      if ReadManifest(s, th.id).Some? then s else Busy(s, t, th.(pc := Initializing(InitMkdir, m)))
  {
    BusyEnds(s, t, th);
  }

  /** The session's directory, made if it was not there. */
  function Made(s: State, id: Id): State {
    if id in s.dirs then s else Later(Put(s, id, Dir(s.next, None, map[], None, {})))
  }

  lemma InitMakes(s: State, t: Tid, th: Thread, m: Manifest, c: bool)
    requires th.pc == Initializing(InitMkdir, m)
    ensures Apply(Busy(s, t, th), Go(t, c)) == Busy(Made(s, th.id), t, th.(pc := Installing(WriteTemp, ManifestFile(m))))
  {
    hide Apply, Busy;
    if th.id in s.dirs { InitFinds(s, t, th, m, c); } else { InitMakesOne(s, t, th, m, c); }
  }

  lemma InitFinds(s: State, t: Tid, th: Thread, m: Manifest, c: bool)
    requires th.pc == Initializing(InitMkdir, m) && th.id in s.dirs
    ensures Apply(Busy(s, t, th), Go(t, c)) == Busy(s, t, th.(pc := Installing(WriteTemp, ManifestFile(m))))
  {
  }

  lemma InitMakesOne(s: State, t: Tid, th: Thread, m: Manifest, c: bool)
    requires th.pc == Initializing(InitMkdir, m) && th.id !in s.dirs
    ensures Apply(Busy(s, t, th), Go(t, c)) ==
      Busy(Later(Put(s, th.id, Dir(s.next, None, map[], None, {}))), t, th.(pc := Installing(WriteTemp, ManifestFile(m))))
  {
  }

  /** A session is opened exactly if it has no manifest; the directory is made if need be. */
  lemma InitAlone(s: State, p: Pid, id: Id, m: Manifest)
    requires p in s.live && Fresh(s, id) && ValidManifest(m)
    ensures Operation(s, p, InitRequest(id, m), [true, true, true, true, true]) ==
      if ReadManifest(s, id).Some? then Later(s)
      else var s' := Made(Later(s), id); Put(s', id, s'.dirs[id].(manifest := Some(m)))
  {
    hide Apply, After, Operation, Busy, Made;
    var t, s0 := s.next, Later(s);
    var th := Thread(p, s.live[p], id, None, Initializing(InitRead, m));
    OperationIs(s, p, InitRequest(id, m), [true, true, true, true, true]);
    InitReads(s0, t, th, m, true);
    assert [true, true, true, true, true] == [true] + [true, true, true, true];
    AfterOne(Busy(s0, t, th), t, true, [true, true, true, true]);
    if ReadManifest(s0, id).Some? {
      NothingMore(s0, t, [true, true, true, true]);
    } else {
      var th1 := th.(pc := Initializing(InitMkdir, m));
      var s1 := Made(s0, id);
      MadeIs(s0, id);
      InitMakes(s0, t, th1, m, true);
      assert [true, true, true, true] == [true] + [true, true, true];
      AfterOne(Busy(s0, t, th1), t, true, [true, true, true]);
      var th2 := th.(pc := Installing(WriteTemp, ManifestFile(m)));
      InstallsAlone(s1, t, th2, ManifestFile(m), true, true, true);
      assert [true, true, true] == [true, true, true] + [];
      AfterThree(Busy(s1, t, th2), t, true, true, true, []);
      AfterNone(AfterInstall(s1, t, th2, ManifestFile(m)), t);
    }
  }

  lemma MadeIs(s: State, id: Id)
    ensures var s' := Made(s, id);
      && id in s'.dirs && s'.threads == s.threads
      && s'.dirs[id] == (if id in s.dirs then s.dirs[id] else Dir(s.next, None, map[], None, {}))
  {
  }

  // ---- store a chunk

  lemma StoreReads(s: State, t: Tid, th: Thread, k: nat, total: nat, data: Bytes, c: bool)
    requires th.pc == Storing(StoreReadManifest, k, total, data) && t !in s.threads
    ensures var m := ReadManifest(s, th.id);
      Apply(Busy(s, t, th), Go(t, c)) ==
        if m.None? then s
        else Busy(s, t, th.(seen := Some(Seen(s.dirs[th.id].born, m.value)), pc := Storing(StoreReadClaim, k, total, data)))
  {
    BusyEnds(s, t, th);
  }

  /** The index, the count and the size of the data are those of chunk k of this manifest. */
  ghost predicate IsChunk(m: Manifest, k: nat, total: nat, data: Bytes) {
    k < m.totalChunks && total == m.totalChunks && |data| == SizeBefore(m, k + 1) - SizeBefore(m, k)
  }

  lemma StoreChecks(s: State, t: Tid, th: Thread, k: nat, total: nat, data: Bytes, c: bool)
    requires th.pc == Storing(StoreReadClaim, k, total, data) && t !in s.threads && th.seen.Some?
    ensures Apply(Busy(s, t, th), Go(t, c)) ==
      if ReadClaim(s, th.id).Some? || !IsChunk(th.seen.value.manifest, k, total, data) then s
      else Busy(s, t, th.(pc := Installing(WriteTemp, ChunkFile(k, data))))
  {
    BusyEnds(s, t, th);
    var m := th.seen.value.manifest;
    assert SizeBefore(m, k + 1) == SizeBefore(m, k) + ExpectedChunkSize(m, k);
  }

  /** The store takes the chunk: the session is open and unclaimed, the data are chunk k, and chunk k is not there yet. */
  ghost predicate Takes(s: State, id: Id, k: nat, total: nat, data: Bytes) {
    && id in s.dirs && s.dirs[id].manifest.Some? && s.dirs[id].claim.None?
    && IsChunk(s.dirs[id].manifest.value, k, total, data) && k !in s.dirs[id].chunks
  }

  /** A chunk store adds exactly that chunk exactly then, and else leaves everything as it was. */
  lemma StoreAlone(s: State, p: Pid, id: Id, k: nat, total: nat, data: Bytes)
    requires p in s.live && Fresh(s, id)
    ensures Operation(s, p, StoreRequest(id, k, total, data), [true, true, true, true, true]) ==
      if Takes(s, id, k, total, data) then Put(Later(s), id, s.dirs[id].(chunks := s.dirs[id].chunks[k := data])) else Later(s)
  {
    hide Apply, After, Operation, Busy, IsChunk;
    var t, s0 := s.next, Later(s);
    var th := Thread(p, s.live[p], id, None, Storing(StoreReadManifest, k, total, data));
    OperationIs(s, p, StoreRequest(id, k, total, data), [true, true, true, true, true]);
    StoreReads(s0, t, th, k, total, data, true);
    assert [true, true, true, true, true] == [true] + [true, true, true, true];
    AfterOne(Busy(s0, t, th), t, true, [true, true, true, true]);
    if ReadManifest(s0, id).None? {
      NothingMore(s0, t, [true, true, true, true]);
    } else {
      var d := s.dirs[id];
      var th1 := th.(seen := Some(Seen(d.born, d.manifest.value)), pc := Storing(StoreReadClaim, k, total, data));
      StoreChecks(s0, t, th1, k, total, data, true);
      assert [true, true, true, true] == [true] + [true, true, true];
      AfterOne(Busy(s0, t, th1), t, true, [true, true, true]);
      if d.claim.Some? || !IsChunk(d.manifest.value, k, total, data) {
        NothingMore(s0, t, [true, true, true]);
      } else {
        var th2 := th1.(pc := Installing(WriteTemp, ChunkFile(k, data)));
        InstallsAlone(s0, t, th2, ChunkFile(k, data), true, true, true);
        assert [true, true, true] == [true, true, true] + [];
        AfterThree(Busy(s0, t, th2), t, true, true, true, []);
        AfterNone(AfterInstall(s0, t, th2, ChunkFile(k, data)), t);
      }
    }
  }

  // ---- claim for finalization

  lemma ClaimReads(s: State, t: Tid, th: Thread, c: bool)
    requires th.pc == Claiming(ClaimReadManifest) && t !in s.threads
    ensures var m := ReadManifest(s, th.id);
      Apply(Busy(s, t, th), Go(t, c)) ==
        if m.None? then s else Busy(s, t, th.(seen := Some(Seen(s.dirs[th.id].born, m.value)), pc := Claiming(ClaimList)))
  {
    BusyEnds(s, t, th);
  }

  lemma ClaimLists(s: State, t: Tid, th: Thread, c: bool)
    requires th.pc == Claiming(ClaimList) && t !in s.threads && th.id in s.dirs && th.seen.Some?
    ensures Apply(Busy(s, t, th), Go(t, c)) ==
      if Complete(s.dirs[th.id], th.seen.value.manifest) then Busy(s, t, th.(pc := Installing(WriteTemp, ClaimFile(FinalizeClaim))))
      else s
  {
    BusyEnds(s, t, th);
  }

  /** The session is open, unclaimed, and its chunks are exactly those its manifest prescribes. */
  ghost predicate Claimable(s: State, id: Id) {
    id in s.dirs && s.dirs[id].claim.None? && s.dirs[id].manifest.Some? && Complete(s.dirs[id], s.dirs[id].manifest.value)
  }

  /** The operation that holds the claim it just installed. */
  function ClaimHolder(s: State, p: Pid, id: Id): Thread
    requires p in s.live && id in s.dirs && s.dirs[id].manifest.Some?
  {
    Thread(p, s.live[p], id, Some(Seen(s.dirs[id].born, s.dirs[id].manifest.value)), Holder(Idle))
  }

  /** A claim is granted exactly then; else everything stays as it was. */
  lemma ClaimAlone(s: State, p: Pid, id: Id)
    requires p in s.live && Fresh(s, id)
    ensures Operation(s, p, ClaimRequest(id), [true, true, true, true, true]) ==
      if Claimable(s, id) then
        Busy(Put(Later(s), id, s.dirs[id].(claim := Some(Claim(s.next, p, s.live[p], FinalizeClaim)))), s.next, ClaimHolder(s, p, id))
      else Later(s)
  {
    hide Apply, After, Operation, Busy, Complete;
    var t, s0 := s.next, Later(s);
    var th := Thread(p, s.live[p], id, None, Claiming(ClaimReadManifest));
    OperationIs(s, p, ClaimRequest(id), [true, true, true, true, true]);
    ClaimReads(s0, t, th, true);
    assert [true, true, true, true, true] == [true] + [true, true, true, true];
    AfterOne(Busy(s0, t, th), t, true, [true, true, true, true]);
    if ReadManifest(s0, id).None? {
      NothingMore(s0, t, [true, true, true, true]);
    } else {
      var d := s.dirs[id];
      var th1 := th.(seen := Some(Seen(d.born, d.manifest.value)), pc := Claiming(ClaimList));
      ClaimLists(s0, t, th1, true);
      assert [true, true, true, true] == [true] + [true, true, true];
      AfterOne(Busy(s0, t, th1), t, true, [true, true, true]);
      if !Complete(d, d.manifest.value) {
        NothingMore(s0, t, [true, true, true]);
      } else {
        var f := ClaimFile(FinalizeClaim);
        var th2 := th1.(pc := Installing(WriteTemp, f));
        InstallsAlone(s0, t, th2, f, true, true, true);
        assert [true, true, true] == [true, true, true] + [];
        AfterThree(Busy(s0, t, th2), t, true, true, true, []);
        AfterNone(AfterInstall(s0, t, th2, f), t);
      }
    }
  }
}
