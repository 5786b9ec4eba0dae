/**
 Two runs of the upload protocol that show what its promises need: recoveries must not overlap, and the set a
 finalize claim sits on is complete only as long as the session was not removed and opened again meanwhile.
 */
module UploadCounterexamples {
  import opened Common
  import opened UploadClaims
  import opened UploadManifest
  import opened UploadProtocol
  import opened UploadSafety
  import opened UploadRuns
  import opened UploadAlone
  import UploadUpkeep

  const ONE_BYTE := Manifest(1, 1, 1, false)
  const CHUNK: Bytes := [7]
  const EXPIRED := UploadUpkeep.Looks(true, true, true)

  /** The labels of an operation that runs alone. */
  function Five(p: Pid, r: Request, t: Tid): seq<Label> {
    [Start(p, r)] + Calls(t, [true, true, true, true, true])
  }

  /** The state after session id was opened where there was none. */
  function OpenedState(s: State, id: Id): State {
    Put(s, id, Dir(s.next + 1, Some(ONE_BYTE), map[], None, {})).(next := s.next + 2)
  }

  lemma Opens(s: State, p: Pid, id: Id)
    requires p in s.live && id !in s.dirs && s.next !in s.threads
    ensures Run(s, Five(p, InitRequest(id, ONE_BYTE), s.next)) == OpenedState(s, id)
  {
    hide Run, Calls;
    InitAlone(s, p, id, ONE_BYTE);
    PutTwice(s, id, Dir(s.next + 1, None, map[], None, {}), OpenedState(s, id).dirs[id]);
  }

  /** The state after the session's only chunk was stored. */
  function StoredState(s: State, id: Id): State
    requires id in s.dirs
  {
    Put(s, id, s.dirs[id].(chunks := map[0 := CHUNK])).(next := s.next + 1)
  }

  lemma Stores(s: State, p: Pid, id: Id)
    requires p in s.live && s.next !in s.threads
    requires id in s.dirs && s.dirs[id] == Dir(s.dirs[id].born, Some(ONE_BYTE), map[], None, {})
    ensures Run(s, Five(p, StoreRequest(id, 0, 1, CHUNK), s.next)) == StoredState(s, id)
  {
    hide Run, Calls, IsChunk, Put;
    OneByteIsChunk();
    StoreAlone(s, p, id, 0, 1, CHUNK);
    assert s.dirs[id].chunks[0 := CHUNK] == map[0 := CHUNK];
    PutLater(s, id, s.dirs[id].(chunks := map[0 := CHUNK]));
  }

  lemma PutLater(s: State, id: Id, d: Dir)
    ensures Put(Later(s), id, d) == Put(s, id, d).(next := s.next + 1)
  {
  }

  lemma OneByteIsChunk()
    ensures IsChunk(ONE_BYTE, 0, 1, CHUNK)
  {
    assert SizeBefore(ONE_BYTE, 1) == SizeBefore(ONE_BYTE, 0) + ExpectedChunkSize(ONE_BYTE, 0);
  }

  /** Process 1 runs, session 0 is complete and unclaimed, nothing is in flight. */
  function CompleteSession(sole: bool): State {
    State(map[0 := Dir(2, Some(ONE_BYTE), map[0 := CHUNK], None, {})], map[], map[1 := 0], map[], 4, [], sole)
  }

  function ToCompleteSession(): seq<Label> {
    [Spawn(1)] + (Five(1, InitRequest(0, ONE_BYTE), 1) + Five(1, StoreRequest(0, 0, 1, CHUNK), 3))
  }

  lemma CompletesSession(sole: bool)
    ensures Run(Boot(sole), ToCompleteSession()) == CompleteSession(sole)
  {
    hide Run, Alone;
    var s0 := Boot(sole);
    var s1 := s0.(live := map[1 := 0], next := 1);
    RunOne(s0, Spawn(1));
    assert Apply(s0, Spawn(1)) == s1;
    var opening := Five(1, InitRequest(0, ONE_BYTE), 1);
    var storing := Five(1, StoreRequest(0, 0, 1, CHUNK), 3);
    Opens(s1, 1, 0);
    var s2 := OpenedState(s1, 0);
    Stores(s2, 1, 0);
    assert StoredState(s2, 0).dirs == CompleteSession(sole).dirs;
    RunConcat(s1, opening, storing);
    RunConcat(s0, [Spawn(1)], opening + storing);
  }

  // ---- overlapping recoveries

  /**
   Two recoveries that overlap can take a claim from a running holder: both read a dead owner's claim, one unlinks
   it, the session is claimed again, and the other one unlinks the new claim.
   */
  lemma OverlappingRecoveriesBreakAClaim() returns (ls: seq<Label>, t: Tid)
    ensures var s := Run(Boot(false), ls);
      && t in s.threads && s.threads[t].pc == Holder(Idle)
      && Alive(s, ClaimOf(t, s.threads[t])) && ReadClaim(s, s.threads[t].id) == None
  {
    hide Run, Alone, ToCompleteSession, Overlap, UploadRuns.Goes;
    var s0 := CompleteSession(false);
    var s1 := ClaimedState(s0, 1, 0);
    var s2 := OverlappedState();
    var s3 := ClaimedState(s2, 2, 0);
    t := 9;
    CompletesSession(false);
    UnclaimedIsClaimable(s0, 1, 0);
    RecoveriesOverlap();
    UnclaimedIsClaimable(s2, 2, 0);
    assert s3.threads[8].pc.recover.RecoverUnlink?;
    RunOne(s3, Go(8, true));
    var a, b, e := ToCompleteSession(), Alone(1, ClaimRequest(0), 4, 5), Alone(2, ClaimRequest(0), 9, 5);
    RunConcat(Boot(false), a, b);
    RunConcat(Boot(false), a + b, Overlap());
    RunConcat(Boot(false), a + b + Overlap(), e);
    RunConcat(Boot(false), a + b + Overlap() + e, [Go(8, true)]);
    ls := a + b + Overlap() + e + [Go(8, true)];
  }

  function DeadClaim(): Claim {
    Claim(4, 1, 0, FinalizeClaim)
  }

  /** The claim's owner dies, two processes start and read its claim, and the first one unlinks it. */
  function Overlap(): seq<Label> {
    [Crash(1), Spawn(2), Spawn(3), Start(2, RecoverRequest(0)), Start(3, RecoverRequest(0)), Go(7, true), Go(8, true), Go(7, true)]
  }

  function OverlappedState(): State {
    State(map[0 := Dir(2, Some(ONE_BYTE), map[0 := CHUNK], None, {})], map[], map[2 := 5, 3 := 6],
          map[8 := Thread(3, 6, 0, None, Recovering(RecoverUnlink(DeadClaim())))], 9, [], false)
  }

  /** Processes 2 and 3 in their recoveries, over a claim whose owner is gone. */
  function BothRecover(two: Pc, three: Pc): State {
    OverlappedState().(
      dirs := map[0 := Dir(2, Some(ONE_BYTE), map[0 := CHUNK], Some(DeadClaim()), {})],
      threads := map[7 := Thread(2, 5, 0, None, two), 8 := Thread(3, 6, 0, None, three)])
  }

  lemma RecoveriesStart()
    ensures Run(ClaimedState(CompleteSession(false), 1, 0), Overlap()[..5]) == BothRecover(Recovering(RecoverRead), Recovering(RecoverRead))
  {
    var s1 := ClaimedState(CompleteSession(false), 1, 0);
    var b := BothRecover(Recovering(RecoverRead), Recovering(RecoverRead));
    assert s1.dirs == b.dirs by { assert CompleteSession(false).dirs[0].temps - {4} == {}; }
    var a1 := b.(live := map[], threads := map[], next := 5);
    var a2 := b.(live := map[2 := 5], threads := map[], next := 6);
    var a3 := b.(threads := map[], next := 7);
    var a4 := b.(threads := map[7 := Thread(2, 5, 0, None, Recovering(RecoverRead))], next := 8);
    assert Apply(s1, Crash(1)) == a1;
    assert Apply(a1, Spawn(2)) == a2;
    assert Apply(a2, Spawn(3)) == a3;
    assert Apply(a3, Start(2, RecoverRequest(0))) == a4;
    assert Apply(a4, Start(3, RecoverRequest(0))) == b;
    hide Apply;
    RunFiveLabels(s1, Crash(1), Spawn(2), Spawn(3), Start(2, RecoverRequest(0)), Start(3, RecoverRequest(0)));
    assert Overlap()[..5] == [Crash(1), Spawn(2), Spawn(3), Start(2, RecoverRequest(0)), Start(3, RecoverRequest(0))];
  }

  lemma RunFiveLabels(s: State, a: Label, b: Label, c: Label, d: Label, e: Label)
    ensures Run(s, [a, b, c, d, e]) == Apply(Apply(Apply(Apply(Apply(s, a), b), c), d), e)
  {
    hide Apply, Run;
    RunOne(s, a);
    RunNext(s, [a], b);
    assert [a] + [b] == [a, b];
    RunNext(s, [a, b], c);
    assert [a, b] + [c] == [a, b, c];
    RunNext(s, [a, b, c], d);
    assert [a, b, c] + [d] == [a, b, c, d];
    RunNext(s, [a, b, c, d], e);
    assert [a, b, c, d] + [e] == [a, b, c, d, e];
  }

  lemma RecoveriesOverlap()
    ensures Run(ClaimedState(CompleteSession(false), 1, 0), Overlap()) == OverlappedState()
  {
    var s1 := ClaimedState(CompleteSession(false), 1, 0);
    var r, u := Recovering(RecoverRead), Recovering(RecoverUnlink(DeadClaim()));
    RecoveriesStart();
    RecoveriesRead();
    hide Apply, Run;
    RunNext(s1, Overlap()[..5], Go(7, true));
    assert Overlap()[..5] + [Go(7, true)] == Overlap()[..6];
    RunNext(s1, Overlap()[..6], Go(8, true));
    assert Overlap()[..6] + [Go(8, true)] == Overlap()[..7];
    RunNext(s1, Overlap()[..7], Go(7, true));
    assert Overlap()[..7] + [Go(7, true)] == Overlap();
  }

  lemma RecoveriesRead()
    ensures var r, u := Recovering(RecoverRead), Recovering(RecoverUnlink(DeadClaim()));
      && Apply(BothRecover(r, r), Go(7, true)) == BothRecover(u, r)
      && Apply(BothRecover(u, r), Go(8, true)) == BothRecover(u, u)
      && Apply(BothRecover(u, u), Go(7, true)) == OverlappedState()
  {
    hide Apply;
    FirstReads();
    SecondReads();
    FirstUnlinks();
  }

  lemma FirstReads()
    ensures var r, u := Recovering(RecoverRead), Recovering(RecoverUnlink(DeadClaim()));
      Apply(BothRecover(r, r), Go(7, true)) == BothRecover(u, r)
  {
    var r, u := Recovering(RecoverRead), Recovering(RecoverUnlink(DeadClaim()));
    assert BothRecover(r, r).threads[7 := Thread(2, 5, 0, None, u)] == BothRecover(u, r).threads;
  }

  lemma SecondReads()
    ensures var r, u := Recovering(RecoverRead), Recovering(RecoverUnlink(DeadClaim()));
      Apply(BothRecover(u, r), Go(8, true)) == BothRecover(u, u)
  {
    var r, u := Recovering(RecoverRead), Recovering(RecoverUnlink(DeadClaim()));
    assert BothRecover(u, r).threads[8 := Thread(3, 6, 0, None, u)] == BothRecover(u, u).threads;
  }

  lemma FirstUnlinks()
    ensures var u := Recovering(RecoverUnlink(DeadClaim())); Apply(BothRecover(u, u), Go(7, true)) == OverlappedState()
  {
    var u := Recovering(RecoverUnlink(DeadClaim()));
    assert BothRecover(u, u).threads - {7} == OverlappedState().threads;
    assert BothRecover(u, u).dirs[0 := OverlappedState().dirs[0]] == OverlappedState().dirs;
  }

  // ---- a claim on an incomplete set

  /**
   A finalize claim can sit on an incomplete set: the claim lists the complete chunks, the session expires, it is
   opened again, and the claim file is installed in the new, empty directory.
   */
  lemma ExpiryCanLeaveAnIncompleteClaim() returns (ls: seq<Label>, t: Tid)
    ensures var s := Run(Boot(true), ls);
      && t in s.threads && s.threads[t].pc.Holder? && ReadClaim(s, s.threads[t].id) == Some(ClaimOf(t, s.threads[t]))
      && s.dirs[s.threads[t].id].manifest == Some(ONE_BYTE) && s.dirs[s.threads[t].id].chunks == map[]
  {
    var s0 := CompleteSession(true);
    var s1 := ListedState();
    var s2 := SweptState(s1, 0);
    var s3 := OpenedState(s2, 0);
    var th := s1.threads[4];
    CompletesSession(true);
    ClaimsUpToList();
    SweepsAway(s1, 0);
    Opens(s2, 1, 0);
    LateInstall(s3, th);
    t := 4;
    hide Run, Alone, Apply, ToCompleteSession;
    var a, b, c, e, g := ToCompleteSession(), Alone(1, ClaimRequest(0), 4, 2),
                         [Start(1, SweepRequest(0))] + Calls(5, UploadUpkeep.Found(EXPIRED)),
                         Five(1, InitRequest(0, ONE_BYTE), 6), [Go(4, true)] + [Go(4, true)];
    RunConcat(Boot(true), a, b);
    RunConcat(Boot(true), a + b, c);
    RunConcat(Boot(true), a + b + c, e);
    RunConcat(Boot(true), a + b + c + e, g);
    ls := a + b + c + e + g;
  }

  /** The claim has listed the complete set and is about to write its temporary file. */
  function ListedState(): State {
    With(CompleteSession(true), 4, Thread(1, 0, 0, Some(Seen(2, ONE_BYTE)), Installing(WriteTemp, ClaimFile(FinalizeClaim))))
  }

  lemma ClaimsUpToList()
    ensures Run(CompleteSession(true), Alone(1, ClaimRequest(0), 4, 2)) == ListedState()
  {
    hide Apply, Run, Alone;
    var s0, r := CompleteSession(true), ClaimRequest(0);
    var th := Thread(1, 0, 0, Some(Seen(2, ONE_BYTE)), Claiming(ClaimList));
    Starts(s0, 1, r);
    UploadRuns.ClaimReads(s0, 4, th.(seen := None, pc := Claiming(ClaimReadManifest)));
    UploadRuns.ClaimLists(s0, 4, th);
    RunAlone(s0, 1, r, 0);
    RunAlone(s0, 1, r, 1);
  }

  lemma LateInstall(s: State, th: Thread)
    requires 4 in s.threads && s.threads[4] == th && th.id == 0 && th.pc == Installing(WriteTemp, ClaimFile(FinalizeClaim))
    requires 0 in s.dirs && s.dirs[0].claim == None
    ensures var s' := Run(s, [Go(4, true)] + [Go(4, true)]);
      && 4 in s'.threads && s'.threads[4] == th.(pc := Holder(DropClaimTemp))
      && 0 in s'.dirs && s'.dirs[0].claim == Some(ClaimOf(4, s'.threads[4]))
      && s'.dirs[0].manifest == s.dirs[0].manifest && s'.dirs[0].chunks == s.dirs[0].chunks
  {
    var s1 := Apply(s, Go(4, true));
    assert s1.threads[4] == th.(pc := Installing(LinkTemp, ClaimFile(FinalizeClaim)));
    RunOne(s, Go(4, true));
    RunNext(s, [Go(4, true)], Go(4, true));
  }

  function SweptState(s: State, id: Id): State
    requires id in s.dirs
  {
    s.(dirs := s.dirs - {id}, next := s.next + 1,
       removed := s.removed + [Removal(id, s.dirs[id].(claim := Some(Claim(s.next, 1, 0, CleanupClaim))), Expired)])
  }

  /** A sweep by process 1 of an expired session, run by itself. */
  lemma SweepsAway(s: State, id: Id)
    requires s.live == map[1 := 0] && s.next !in s.threads && id in s.dirs && s.dirs[id].claim == None && s.dirs[id].temps == {}
    ensures Run(s, [Start(1, SweepRequest(id))] + Calls(s.next, UploadUpkeep.Found(EXPIRED))) == SweptState(s, id)
  {
    hide Run, Calls;
    UploadUpkeep.SweepAlone(s, 1, id, EXPIRED);
    var d := s.dirs[id].(claim := Some(Claim(s.next, 1, 0, CleanupClaim)));
    assert s.dirs[id := d] - {id} == s.dirs - {id};
  }
}
