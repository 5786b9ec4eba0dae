/** The expiry sweep and the recovery of one session, each run by itself. */
module UploadUpkeep {
  import opened Common
  import opened UploadClaims
  import opened UploadManifest
  import opened UploadProtocol
  import opened UploadRuns
  import opened UploadAlone

  // ---- the sweep

  lemma SweepStats(s: State, t: Tid, th: Thread, c: bool)
    requires th.pc == Sweeping(SweepStat) && t !in s.threads
    ensures Apply(Busy(s, t, th), Go(t, c)) == if ReadClaim(s, th.id).Some? then s else Busy(s, t, th.(pc := Sweeping(SweepAge)))
  {
    BusyEnds(s, t, th);
  }

  lemma SweepAges(s: State, t: Tid, th: Thread, aged: bool)
    requires th.pc == Sweeping(SweepAge) && t !in s.threads
    ensures Apply(Busy(s, t, th), Go(t, aged)) ==
      if th.id in s.dirs && aged then Busy(s, t, th.(pc := Installing(WriteTemp, ClaimFile(CleanupClaim)))) else s
  {
    BusyEnds(s, t, th);
  }

  lemma Rechecks(s: State, t: Tid, th: Thread, stillAged: bool)
    requires th.pc == Sweeper(Recheck)
    ensures Apply(Busy(s, t, th), Go(t, stillAged)) == Busy(s, t, th.(pc := Sweeper(if stillAged then SweepRemove else SweepReleaseRead)))
  {
  }

  lemma SweepRemoves(s: State, t: Tid, th: Thread, c: bool)
    requires th.pc == Sweeper(SweepRemove) && t !in s.threads
    ensures Apply(Busy(s, t, th), Go(t, c)) == if c then Remove(s, th.id, Expired) else Busy(s, t, th.(pc := Sweeper(SweepReleaseRead)))
  {
    BusyEnds(s, t, th);
    assert s.threads[t := th] - {t} == s.threads;
  }

  lemma SweepReleases(s: State, t: Tid, th: Thread, c: bool, c': bool)
    requires th.pc == Sweeper(SweepReleaseRead) && t !in s.threads && th.id in s.dirs
    requires s.dirs[th.id].claim.Some? && s.dirs[th.id].claim.value.token == t
    ensures Apply(Apply(Busy(s, t, th), Go(t, c)), Go(t, c')) == Put(s, th.id, s.dirs[th.id].(claim := None))
  {
    hide Apply;
    SweepReleaseReads(s, t, th, c);
    SweepReleaseUnlinks(s, t, th.(pc := Sweeper(SweepReleaseUnlink)), c');
  }

  lemma SweepReleaseReads(s: State, t: Tid, th: Thread, c: bool)
    requires th.pc == Sweeper(SweepReleaseRead) && th.id in s.dirs
    requires s.dirs[th.id].claim.Some? && s.dirs[th.id].claim.value.token == t
    ensures Apply(Busy(s, t, th), Go(t, c)) == Busy(s, t, th.(pc := Sweeper(SweepReleaseUnlink)))
  {
  }

  lemma SweepReleaseUnlinks(s: State, t: Tid, th: Thread, c: bool)
    requires th.pc == Sweeper(SweepReleaseUnlink) && t !in s.threads && th.id in s.dirs
    ensures Apply(Busy(s, t, th), Go(t, c)) == Put(s, th.id, s.dirs[th.id].(claim := None))
  {
    assert s.threads[t := th] - {t} == s.threads;
  }

  /** What one sweep finds: the age at the first look and at the recheck, and whether the removal works. */
  datatype Looks = Looks(aged: bool, stillAged: bool, removes: bool)

  function Found(l: Looks): seq<bool> {
    [true, l.aged] + ([true, true, true] + [l.stillAged, l.removes, true, true])
  }

  /** The session under the sweep's own claim. */
  function Cleaning(s: State, p: Pid, id: Id): State
    requires p in s.live && id in s.dirs
  {
    Put(Later(s), id, s.dirs[id].(claim := Some(Claim(s.next, p, s.live[p], CleanupClaim))))
  }

  /**
   A sweep removes a session, with all it held, exactly if it is unclaimed, old at both looks, and the removal works.
   Else everything stays, and no claim of the sweep's own is left.
   */
  lemma SweepAlone(s: State, p: Pid, id: Id, l: Looks)
    requires p in s.live && Fresh(s, id)
    ensures Operation(s, p, SweepRequest(id), Found(l)) ==
      if id in s.dirs && s.dirs[id].claim.None? && l.aged && l.stillAged && l.removes then Remove(Cleaning(s, p, id), id, Expired)
      else Later(s)
  {
    hide Apply, After, Operation, Busy, Remove;
    var t, s0 := s.next, Later(s);
    var th := Thread(p, s.live[p], id, None, Sweeping(SweepStat));
    OperationIs(s, p, SweepRequest(id), Found(l));
    var rest := [true, true, true] + [l.stillAged, l.removes, true, true];
    assert Found(l) == [true] + ([l.aged] + rest);
    AfterOne(Busy(s0, t, th), t, true, [l.aged] + rest);
    SweepStats(s0, t, th, true);
    if ReadClaim(s0, id).Some? {
      NothingMore(s0, t, [l.aged] + rest);
    } else {
      var th1 := th.(pc := Sweeping(SweepAge));
      AfterOne(Busy(s0, t, th1), t, l.aged, rest);
      SweepAges(s0, t, th1, l.aged);
      if id !in s.dirs || !l.aged {
        NothingMore(s0, t, rest);
      } else {
        var f := ClaimFile(CleanupClaim);
        var th2 := th.(pc := Installing(WriteTemp, f));
        InstallsAlone(s0, t, th2, f, true, true, true);
        AfterThree(Busy(s0, t, th2), t, true, true, true, [l.stillAged, l.removes, true, true]);
        SweepsOn(s, p, id, l);
      }
    }
  }

  /** From the recheck on. */
  lemma SweepsOn(s: State, p: Pid, id: Id, l: Looks)
    requires p in s.live && Fresh(s, id) && id in s.dirs && s.dirs[id].claim.None?
    ensures var th := Thread(p, s.live[p], id, None, Sweeper(Recheck));
      After(Busy(Cleaning(s, p, id), s.next, th), s.next, [l.stillAged, l.removes, true, true]) ==
        if l.stillAged && l.removes then Remove(Cleaning(s, p, id), id, Expired) else Later(s)
  {
    hide Apply, After, Busy, Remove;
    var t, s1 := s.next, Cleaning(s, p, id);
    var th := Thread(p, s.live[p], id, None, Sweeper(Recheck));
    assert [l.stillAged, l.removes, true, true] == [l.stillAged] + ([l.removes] + [true, true]);
    AfterOne(Busy(s1, t, th), t, l.stillAged, [l.removes] + [true, true]);
    Rechecks(s1, t, th, l.stillAged);
    var read := th.(pc := Sweeper(SweepReleaseRead));
    if l.stillAged {
      var th1 := th.(pc := Sweeper(SweepRemove));
      AfterOne(Busy(s1, t, th1), t, l.removes, [true, true]);
      SweepRemoves(s1, t, th1, l.removes);
      if l.removes {
        RemoveKeepsThreads(s1, id);
        NothingMore(Remove(s1, id, Expired), t, [true, true]);
      } else {
        Releases(s, p, id, read, [true, true]);
      }
    } else {
      assert [l.removes] + [true, true] == [l.removes, true] + [true];
      Releases(s, p, id, read, [l.removes, true] + [true]);
    }
  }

  lemma RemoveKeepsThreads(s: State, id: Id)
    ensures Remove(s, id, Expired).threads == s.threads
  {
  }

  lemma Releases(s: State, p: Pid, id: Id, th: Thread, found: seq<bool>)
    requires p in s.live && Fresh(s, id) && id in s.dirs && s.dirs[id].claim.None? && |found| >= 2
    requires th == Thread(p, s.live[p], id, None, Sweeper(SweepReleaseRead))
    ensures After(Busy(Cleaning(s, p, id), s.next, th), s.next, found) == Later(s)
  {
    hide Apply, After, Busy;
    var t, s1 := s.next, Cleaning(s, p, id);
    assert found == [found[0]] + ([found[1]] + found[2..]);
    AfterOne(Busy(s1, t, th), t, found[0], [found[1]] + found[2..]);
    AfterOne(Apply(Busy(s1, t, th), Go(t, found[0])), t, found[1], found[2..]);
    SweepReleases(s1, t, th, found[0], found[1]);
    PutTwice(Later(s), id, s1.dirs[id], s1.dirs[id].(claim := None));
    PutSame(Later(s), id, s1.dirs[id]);
    NothingMore(Later(s), t, found[2..]);
  }

  // ---- the recovery

  lemma RecoverReads(s: State, t: Tid, th: Thread, c: bool)
    requires th.pc == Recovering(RecoverRead) && t !in s.threads
    ensures var claim := ReadClaim(s, th.id);
      Apply(Busy(s, t, th), Go(t, c)) ==
        if claim.None? || OwnerSeemsAlive(claim.value, th.pid, th.instance, s.live.Keys) then s
        else Busy(s, t, th.(pc := Recovering(RecoverUnlink(claim.value))))
  {
    BusyEnds(s, t, th);
  }

  lemma RecoverUnlinks(s: State, t: Tid, th: Thread, c: bool)
    requires th.pc.Recovering? && th.pc.recover.RecoverUnlink? && t !in s.threads && th.id in s.dirs
    ensures Apply(Busy(s, t, th), Go(t, c)) == Put(s, th.id, s.dirs[th.id].(claim := None))
  {
    assert s.threads[t := th] - {t} == s.threads;
  }

  /** A recovery takes the claim off a session exactly if the claim's owner looks dead to its process. */
  lemma RecoverAlone(s: State, p: Pid, id: Id)
    requires p in s.live && Fresh(s, id) && NoRecovery(s)
    ensures var claim := ReadClaim(s, id);
      Operation(s, p, RecoverRequest(id), [true, true]) ==
        if claim.Some? && !OwnerSeemsAlive(claim.value, p, s.live[p], s.live.Keys)
        then Put(Later(s), id, s.dirs[id].(claim := None)) else Later(s)
  {
    hide Apply, After, Operation, Busy, OwnerSeemsAlive;
    var t, s0 := s.next, Later(s);
    var th := Thread(p, s.live[p], id, None, Recovering(RecoverRead));
    OperationIs(s, p, RecoverRequest(id), [true, true]);
    assert [true, true] == [true] + [true];
    AfterOne(Busy(s0, t, th), t, true, [true]);
    RecoverReads(s0, t, th, true);
    var claim := ReadClaim(s0, id);
    if claim.None? || OwnerSeemsAlive(claim.value, p, s.live[p], s.live.Keys) {
      NothingMore(s0, t, [true]);
    } else {
      var th1 := th.(pc := Recovering(RecoverUnlink(claim.value)));
      assert [true] == [true] + [];
      AfterOne(Busy(s0, t, th1), t, true, []);
      RecoverUnlinks(s0, t, th1, true);
      AfterNone(Put(s0, id, s.dirs[id].(claim := None)), t);
    }
  }
}
