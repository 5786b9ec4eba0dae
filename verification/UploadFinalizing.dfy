/** What the holder of a finalize claim can do, each run by itself: finalize, release, clear. */
module UploadFinalizing {
  import opened Common
  import opened UploadClaims
  import opened UploadManifest
  import opened UploadProtocol
  import opened UploadRuns
  import opened UploadAlone

  /** Holder t at one of its calls. */
  function Holding(s: State, t: Tid, h: HolderStep): State
    requires t in s.threads
  {
    At(s, t, Holder(h))
  }

  /** The caller decides, and the holder then runs alone. */
  function Decided(s: State, t: Tid, d: Decision, found: seq<bool>): State {
    Run(s, [Decide(t, d)] + Calls(t, found))
  }

  lemma DecidedIs(s: State, t: Tid, d: Decision, found: seq<bool>)
    requires t in s.threads && s.threads[t].pc == Holder(Idle) && !d.Leave?
    ensures Decided(s, t, d, found) == After(Holding(s, t, FirstHolderCall(d)), t, found)
  {
    hide Run;
    RunOne(s, Decide(t, d));
    RunConcat(s, [Decide(t, d)], Calls(t, found));
    RunIsAfter(Apply(s, Decide(t, d)), t, found);
  }

  lemma AfterFirst(s: State, t: Tid, found: seq<bool>)
    requires found != []
    ensures After(s, t, found) == After(Apply(s, Go(t, found[0])), t, found[1..])
  {
    hide Apply;
  }

  lemma Rests(s: State, t: Tid, found: seq<bool>)
    requires t in s.threads
    ensures After(Holding(s, t, Idle), t, found) == Holding(s, t, Idle)
  {
    NothingMore(Holding(s, t, Idle), t, found);
  }

  lemma HoldingSame(s: State, t: Tid)
    requires t in s.threads && s.threads[t].pc == Holder(Idle)
    ensures Holding(s, t, Idle) == s
  {
    assert s.threads[t := s.threads[t]] == s.threads;
  }

  /** The merged bytes are at `to`; with a clean-up the session is gone and the operation has ended. */
  function Published(s: State, t: Tid, to: Path, cleanup: bool, bytes: Bytes): State
    requires t in s.threads
  {
    var id := s.threads[t].id;
    var s' := s.(files := s.files[to := MergedFile(id, bytes)]);
    if cleanup then Done(Remove(s', id, AfterMerge(to)), t) else Holding(s', t, Idle)
  }

  // ---- the calls of a finalize, from the last one back

  lemma Links(s: State, t: Tid, to: Path, cleanup: bool, m: Manifest, bytes: Bytes, c: bool)
    requires t in s.threads
    ensures Apply(Holding(s, t, FinLink(to, cleanup, m, bytes)), Go(t, c)) ==
      if to in s.files then Holding(s, t, Idle)
      else Holding(s.(files := s.files[to := MergedFile(s.threads[t].id, bytes)]), t, if cleanup then FinRemove(to, m) else Idle)
  {
  }

  lemma Removes(s: State, t: Tid, to: Path, m: Manifest, c: bool)
    requires t in s.threads
    ensures Apply(Holding(s, t, FinRemove(to, m)), Go(t, c)) == Done(Remove(s, s.threads[t].id, AfterMerge(to)), t)
  {
    assert s.threads[t := s.threads[t].(pc := Holder(FinRemove(to, m)))] - {t} == s.threads - {t};
  }

  lemma LinkEnds(s: State, t: Tid, to: Path, cleanup: bool, m: Manifest, bytes: Bytes, found: seq<bool>)
    requires t in s.threads && |found| >= 2
    ensures After(Holding(s, t, FinLink(to, cleanup, m, bytes)), t, found) ==
      if to in s.files then Holding(s, t, Idle) else Published(s, t, to, cleanup, bytes)
  {
    hide Apply, After, Holding;
    AfterFirst(Holding(s, t, FinLink(to, cleanup, m, bytes)), t, found);
    Links(s, t, to, cleanup, m, bytes, found[0]);
    if to in s.files {
      Rests(s, t, found[1..]);
    } else {
      var s' := s.(files := s.files[to := MergedFile(s.threads[t].id, bytes)]);
      if cleanup {
        AfterFirst(Holding(s', t, FinRemove(to, m)), t, found[1..]);
        Removes(s', t, to, m, found[1]);
        NothingMore(Published(s, t, to, cleanup, bytes), t, found[1..][1..]);
      } else {
        Rests(s', t, found[1..]);
      }
    }
  }

  lemma MergesOne(s: State, t: Tid, to: Path, cleanup: bool, m: Manifest, i: nat, bytes: Bytes, c: bool)
    requires t in s.threads && i < m.totalChunks && s.threads[t].id in s.dirs
    ensures var chunks := s.dirs[s.threads[t].id].chunks;
      Apply(Holding(s, t, FinMerge(to, cleanup, m, i, bytes)), Go(t, c)) ==
        if GoodChunk(m, chunks, i) then Holding(s, t, FinMerge(to, cleanup, m, i + 1, bytes + chunks[i])) else Holding(s, t, Idle)
  {
  }

  lemma MergesAll(s: State, t: Tid, to: Path, cleanup: bool, m: Manifest, bytes: Bytes, c: bool)
    requires t in s.threads
    ensures Apply(Holding(s, t, FinMerge(to, cleanup, m, m.totalChunks, bytes)), Go(t, c)) ==
      if |bytes| == m.fileSize && (m.hasSha256 ==> c) then Holding(s, t, FinLink(to, cleanup, m, bytes)) else Holding(s, t, Idle)
  {
  }

  /** From chunk i on every chunk has its size. */
  ghost predicate GoodFrom(m: Manifest, chunks: map<nat, Bytes>, i: nat) {
    forall k :: i <= k < m.totalChunks ==> GoodChunk(m, chunks, k)
  }

  /** Whether the digest matches is what the calls find, each time. */
  ghost predicate Finds(found: seq<bool>, digestMatches: bool) {
    forall i :: 0 <= i < |found| ==> found[i] == digestMatches
  }

  lemma {:induction false} MergeEnds(s: State, t: Tid, to: Path, cleanup: bool, m: Manifest, i: nat, found: seq<bool>, ok: bool)
    requires t in s.threads && s.threads[t].id in s.dirs && i <= m.totalChunks && |found| >= m.totalChunks - i + 3
    requires Finds(found, ok) && HasPrefix(s.dirs[s.threads[t].id].chunks, m.totalChunks)
    ensures var chunks := s.dirs[s.threads[t].id].chunks;
      var all := Concat(chunks, m.totalChunks);
      After(Holding(s, t, FinMerge(to, cleanup, m, i, Concat(chunks, i))), t, found) ==
        if GoodFrom(m, chunks, i) && |all| == m.fileSize && (m.hasSha256 ==> ok) && to !in s.files
        then Published(s, t, to, cleanup, all) else Holding(s, t, Idle)
    decreases m.totalChunks - i
  {
    hide Apply, After, Holding, Published, GoodChunk;
    var chunks := s.dirs[s.threads[t].id].chunks;
    AfterFirst(Holding(s, t, FinMerge(to, cleanup, m, i, Concat(chunks, i))), t, found);
    if i < m.totalChunks {
      MergesOne(s, t, to, cleanup, m, i, Concat(chunks, i), found[0]);
      if GoodChunk(m, chunks, i) {
        MergeEnds(s, t, to, cleanup, m, i + 1, found[1..], ok);
        assert GoodFrom(m, chunks, i) <==> GoodFrom(m, chunks, i + 1);
      } else {
        Rests(s, t, found[1..]);
      }
    } else {
      var all := Concat(chunks, i);
      MergesAll(s, t, to, cleanup, m, all, found[0]);
      if |all| == m.fileSize && (m.hasSha256 ==> ok) {
        LinkEnds(s, t, to, cleanup, m, all, found[1..]);
      } else {
        Rests(s, t, found[1..]);
      }
    }
  }

  lemma FinLists(s: State, t: Tid, to: Path, cleanup: bool, m: Manifest, c: bool)
    requires t in s.threads && s.threads[t].id in s.dirs
    ensures Apply(Holding(s, t, FinList(to, cleanup, m)), Go(t, c)) ==
      if Complete(s.dirs[s.threads[t].id], m) then Holding(s, t, FinMerge(to, cleanup, m, 0, [])) else Holding(s, t, Idle)
  {
  }

  /** The claim on disk is the finalize claim of this operation. */
  ghost predicate HasClaim(s: State, t: Tid)
    requires t in s.threads
  {
    match ReadClaim(s, s.threads[t].id)
    case None => false
    case Some(c) => c.token == t && c.purpose == FinalizeClaim
  }

  lemma FinReadsClaim(s: State, t: Tid, to: Path, cleanup: bool, m: Manifest, c: bool)
    requires t in s.threads
    ensures Apply(Holding(s, t, FinReadClaim(to, cleanup, m)), Go(t, c)) ==
      if HasClaim(s, t) then Holding(s, t, FinList(to, cleanup, m)) else Holding(s, t, Idle)
  {
  }

  lemma FinReadsManifest(s: State, t: Tid, to: Path, cleanup: bool, c: bool)
    requires t in s.threads
    ensures var m := ReadManifest(s, s.threads[t].id);
      Apply(Holding(s, t, FinReadManifest(to, cleanup)), Go(t, c)) ==
        if m.None? then Holding(s, t, Idle) else Holding(s, t, FinReadClaim(to, cleanup, m.value))
  {
  }

  /** Each prescribed chunk has the size that takes the file from the end of the chunk before it to its own. */
  ghost predicate RightSizes(m: Manifest, chunks: map<nat, Bytes>)
    requires HasPrefix(chunks, m.totalChunks)
  {
    forall k: nat :: k < m.totalChunks ==> |chunks[k]| == SizeBefore(m, k + 1) - SizeBefore(m, k)
  }

  /**
   The merge can be published: the session is open under the holder's finalize claim, its chunks are exactly the
   prescribed ones at their sizes and add up, a declared digest matches, and the destination is free.
   */
  ghost predicate Publishable(s: State, t: Tid, to: Path, digestMatches: bool)
    requires t in s.threads
  {
    var id := s.threads[t].id;
    && id in s.dirs && s.dirs[id].manifest.Some? && HasClaim(s, t)
    && var m, chunks := s.dirs[id].manifest.value, s.dirs[id].chunks;
       && (forall k: nat :: k in chunks <==> k < m.totalChunks)
       && RightSizes(m, chunks)
       && SizeBefore(m, m.totalChunks) == m.fileSize
       && (m.hasSha256 ==> digestMatches) && to !in s.files
  }

  lemma {:induction false} ConcatSize(m: Manifest, chunks: map<nat, Bytes>, n: nat)
    requires HasPrefix(chunks, n) && forall k :: 0 <= k < n ==> GoodChunk(m, chunks, k)
    ensures |Concat(chunks, n)| == SizeBefore(m, n)
  {
    if n > 0 {
      ConcatSize(m, chunks, n - 1);
      assert GoodChunk(m, chunks, n - 1);
    }
  }

  /** As many calls as the longest finalize of this session makes. */
  function LongestFinalize(s: State, id: Id): nat {
    6 + match ReadManifest(s, id) case None => 0 case Some(m) => m.totalChunks
  }

  lemma PublishableIs(s: State, t: Tid, to: Path, ok: bool)
    requires t in s.threads && s.threads[t].id in s.dirs && s.dirs[s.threads[t].id].manifest.Some?
    ensures var d := s.dirs[s.threads[t].id]; var m := d.manifest.value;
      Publishable(s, t, to, ok) <==>
        && HasClaim(s, t) && Complete(d, m) && GoodFrom(m, d.chunks, 0)
        && (HasPrefix(d.chunks, m.totalChunks) ==> |Concat(d.chunks, m.totalChunks)| == m.fileSize)
        && (m.hasSha256 ==> ok) && to !in s.files
  {
    hide HasClaim, Concat, RightSizes;
    var d := s.dirs[s.threads[t].id];
    var m := d.manifest.value;
    if Complete(d, m) {
      SizesAreGood(m, d.chunks);
      if GoodFrom(m, d.chunks, 0) { ConcatSize(m, d.chunks, m.totalChunks); }
    }
  }

  lemma SizesAreGood(m: Manifest, chunks: map<nat, Bytes>)
    requires HasPrefix(chunks, m.totalChunks)
    ensures GoodFrom(m, chunks, 0) <==> RightSizes(m, chunks)
  {
    hide SizeBefore, ExpectedChunkSize;
    if RightSizes(m, chunks) {
      forall k | 0 <= k < m.totalChunks ensures GoodChunk(m, chunks, k) { NextSize(m, k); }
    }
    if GoodFrom(m, chunks, 0) {
      forall k: nat | k < m.totalChunks ensures |chunks[k]| == SizeBefore(m, k + 1) - SizeBefore(m, k) {
        NextSize(m, k);
        assert GoodChunk(m, chunks, k);
      }
    }
  }

  lemma NextSize(m: Manifest, k: nat)
    ensures SizeBefore(m, k + 1) - SizeBefore(m, k) == ExpectedChunkSize(m, k)
  {
  }

  /**
   A finalize publishes exactly then: the destination holds the chunks in index order, and with a clean-up the session
   is removed and the operation has ended. Else nothing changes, and the caller still has its token.
   */
  lemma FinalizeAlone(s: State, t: Tid, to: Path, cleanup: bool, ok: bool, found: seq<bool>)
    requires t in s.threads && s.threads[t].pc == Holder(Idle)
    requires Finds(found, ok) && |found| >= LongestFinalize(s, s.threads[t].id)
    ensures Publishable(s, t, to, ok) ==> HasPrefix(s.dirs[s.threads[t].id].chunks, s.dirs[s.threads[t].id].manifest.value.totalChunks)
    ensures var s', id := Decided(s, t, Finalize(to, cleanup), found), s.threads[t].id;
      if Publishable(s, t, to, ok) then
        var d := s.dirs[id];
        && s'.files == s.files[to := MergedFile(id, Concat(d.chunks, d.manifest.value.totalChunks))]
        && s'.dirs == (if cleanup then s.dirs - {id} else s.dirs)
        && s'.removed == (if cleanup then s.removed + [Removal(id, d, AfterMerge(to))] else s.removed)
        && s'.threads == (if cleanup then s.threads - {t} else s.threads)
        && s'.live == s.live && s'.next == s.next
      else s' == s
  {
    hide Apply, After, Holding, HasClaim, Publishable, Decided, Complete;
    var id := s.threads[t].id;
    HoldingSame(s, t);
    FinalizeEnds(s, t, to, cleanup, ok, found);
    if id in s.dirs && s.dirs[id].manifest.Some? && Publishable(s, t, to, ok) {
      PublishedIs(s, t, to, cleanup, Concat(s.dirs[id].chunks, s.dirs[id].manifest.value.totalChunks));
    }
    if Publishable(s, t, to, ok) { PublishableNeeds(s, t, to, ok); }
  }

  lemma PublishableNeeds(s: State, t: Tid, to: Path, ok: bool)
    requires t in s.threads && Publishable(s, t, to, ok)
    ensures s.threads[t].id in s.dirs && s.dirs[s.threads[t].id].manifest.Some?
    ensures HasPrefix(s.dirs[s.threads[t].id].chunks, s.dirs[s.threads[t].id].manifest.value.totalChunks)
  {
  }

  lemma PublishedIs(s: State, t: Tid, to: Path, cleanup: bool, bytes: Bytes)
    requires t in s.threads && s.threads[t].pc == Holder(Idle) && s.threads[t].id in s.dirs
    ensures var s', id := Published(s, t, to, cleanup, bytes), s.threads[t].id;
      && s'.files == s.files[to := MergedFile(id, bytes)]
      && s'.dirs == (if cleanup then s.dirs - {id} else s.dirs)
      && s'.removed == (if cleanup then s.removed + [Removal(id, s.dirs[id], AfterMerge(to))] else s.removed)
      && s'.threads == (if cleanup then s.threads - {t} else s.threads)
      && s'.live == s.live && s'.next == s.next
  {
    assert s.threads[t := s.threads[t]] == s.threads;
  }

  lemma FinalizeEnds(s: State, t: Tid, to: Path, cleanup: bool, ok: bool, found: seq<bool>)
    requires t in s.threads && s.threads[t].pc == Holder(Idle)
    requires Finds(found, ok) && |found| >= LongestFinalize(s, s.threads[t].id)
    ensures Publishable(s, t, to, ok) ==> HasPrefix(s.dirs[s.threads[t].id].chunks, s.dirs[s.threads[t].id].manifest.value.totalChunks)
    ensures Decided(s, t, Finalize(to, cleanup), found) ==
      if Publishable(s, t, to, ok) then
        var d := s.dirs[s.threads[t].id];
        Published(s, t, to, cleanup, Concat(d.chunks, d.manifest.value.totalChunks))
      else Holding(s, t, Idle)
  {
    hide Apply, After, Holding, HasClaim, Publishable, Decided, Published, Complete, GoodFrom;
    var id := s.threads[t].id;
    DecidedIs(s, t, Finalize(to, cleanup), found);
    AfterFirst(Holding(s, t, FinReadManifest(to, cleanup)), t, found);
    FinReadsManifest(s, t, to, cleanup, found[0]);
    var f1 := found[1..];
    if Publishable(s, t, to, ok) { PublishableNeeds(s, t, to, ok); }
    if ReadManifest(s, id).None? {
      Rests(s, t, f1);
    } else {
      var d := s.dirs[id];
      var m := d.manifest.value;
      PublishableIs(s, t, to, ok);
      AfterFirst(Holding(s, t, FinReadClaim(to, cleanup, m)), t, f1);
      FinReadsClaim(s, t, to, cleanup, m, f1[0]);
      var f2 := f1[1..];
      if !HasClaim(s, t) {
        Rests(s, t, f2);
      } else {
        AfterFirst(Holding(s, t, FinList(to, cleanup, m)), t, f2);
        FinLists(s, t, to, cleanup, m, f2[0]);
        var f3 := f2[1..];
        if !Complete(d, m) {
          Rests(s, t, f3);
        } else {
          CompleteHasPrefix(d, m);
          MergeEnds(s, t, to, cleanup, m, 0, f3, ok);
        }
      }
    }
  }

  lemma CompleteHasPrefix(d: Dir, m: Manifest)
    requires Complete(d, m)
    ensures HasPrefix(d.chunks, m.totalChunks)
  {
  }

  // ---- release and clear

  /** A release takes the claim off the session exactly if it is the caller's own, and ends the operation. */
  lemma ReleaseAlone(s: State, t: Tid, c: bool, c': bool)
    requires t in s.threads && s.threads[t].pc == Holder(Idle)
    ensures var s', id := Decided(s, t, Release, [c, c']), s.threads[t].id;
      s' == Done(
        if id in s.dirs && s.dirs[id].claim.Some? && s.dirs[id].claim.value.token == t
        then WithDir(s, id, s.dirs[id].(claim := None)) else s, t)
  {
    hide Apply, After, Decided;
    DecidedIs(s, t, Release, [c, c']);
    AfterFirst(Holding(s, t, ReleaseRead), t, [c, c']);
    ReleaseReads(s, t, c);
    assert [c, c'][1..] == [c'];
    if TokenMatches(s, t) {
      AfterFirst(Holding(s, t, ReleaseUnlink), t, [c']);
      ReleaseUnlinks(s, t, c');
      assert [c'][1..] == [];
      AfterNone(Done(Unclaimed(s, s.threads[t].id), t), t);
    } else {
      NothingMore(Done(s, t), t, [c']);
    }
  }

  lemma ReleaseReads(s: State, t: Tid, c: bool)
    requires t in s.threads
    ensures Apply(Holding(s, t, ReleaseRead), Go(t, c)) == if TokenMatches(s, t) then Holding(s, t, ReleaseUnlink) else Done(s, t)
  {
    assert s.threads[t := s.threads[t].(pc := Holder(ReleaseRead))] - {t} == s.threads - {t};
  }

  lemma ReleaseUnlinks(s: State, t: Tid, c: bool)
    requires t in s.threads
    ensures Apply(Holding(s, t, ReleaseUnlink), Go(t, c)) == Done(Unclaimed(s, s.threads[t].id), t)
  {
    assert s.threads[t := s.threads[t].(pc := Holder(ReleaseUnlink))] - {t} == s.threads - {t};
  }

  /** A clear removes the session, as cleared and with all it held, and ends the operation. */
  lemma ClearAlone(s: State, t: Tid, c: bool)
    requires t in s.threads && s.threads[t].pc == Holder(Idle)
    ensures var s', id := Decided(s, t, Clear, [c]), s.threads[t].id;
      && s'.dirs == s.dirs - {id} && s'.files == s.files && s'.threads == s.threads - {t}
      && s'.removed == s.removed + (if id in s.dirs then [Removal(id, s.dirs[id], Cleared)] else [])
  {
    hide Apply, After, Decided;
    DecidedIs(s, t, Clear, [c]);
    AfterFirst(Holding(s, t, ClearRemove), t, [c]);
    assert [c][1..] == [];
    ClearRemoves(s, t, c);
    AfterNone(Done(Remove(s, s.threads[t].id, Cleared), t), t);
    if s.threads[t].id !in s.dirs { assert s.dirs - {s.threads[t].id} == s.dirs; }
  }

  lemma ClearRemoves(s: State, t: Tid, c: bool)
    requires t in s.threads
    ensures Apply(Holding(s, t, ClearRemove), Go(t, c)) == Done(Remove(s, s.threads[t].id, Cleared), t)
  {
    assert s.threads[t := s.threads[t].(pc := Holder(ClearRemove))] - {t} == s.threads - {t};
  }
}
