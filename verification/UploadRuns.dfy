/**
 Runs of the upload protocol: the chunk set under a finalize claim of a session that was never removed, and claiming
 again after a crash.
 */
module UploadRuns {
  import opened Common
  import opened UploadClaims
  import opened UploadManifest
  import opened UploadProtocol
  import opened UploadSafety
  import opened UploadTheorems

  // ---- while a session was never removed, its claimed chunk set is exactly the prescribed one

  /** No directory of this session was ever removed; other sessions may come and go. */
  ghost predicate NeverRemoved(s: State, id: Id) {
    forall k :: 0 <= k < |s.removed| ==> s.removed[k].id != id
  }

  ghost predicate TidyDir(d: Dir) {
    && (d.chunks != map[] ==> d.manifest.Some?)
    && (d.manifest.Some? ==> forall k :: k in d.chunks ==> k < d.manifest.value.totalChunks)
  }

  ghost predicate TidyThread(s: State, th: Thread) {
    && (th.seen.Some? ==> th.id in s.dirs && s.dirs[th.id].born == th.seen.value.born)
    && (th.pc.Installing? && th.pc.file.ChunkFile? ==> th.seen.Some? && th.pc.file.index < th.seen.value.manifest.totalChunks)
  }

  ghost predicate Tidy(s: State, id: Id) {
    NeverRemoved(s, id) ==>
      && (id in s.dirs ==> TidyDir(s.dirs[id]))
      && (forall t :: t in s.threads && s.threads[t].id == id ==> TidyThread(s, s.threads[t]))
  }

  /** A session that is not removed by the step keeps its directory. */
  lemma StaysThere(s: State, s': State, t: Tid, id: Id)
    requires t in s.threads && Logs(s, s', s.threads[t].id) && NeverRemoved(s', id)
    ensures NeverRemoved(s, id) && (id in s.dirs ==> id in s'.dirs)
  {
    forall k | 0 <= k < |s.removed| ensures s.removed[k].id != id { assert s'.removed[k] == s.removed[k]; }
    if |s'.removed| == |s.removed| + 1 { assert s'.removed[|s.removed|].id == s.threads[t].id; }
  }

  /** The directories the other operations saw are still there. */
  lemma TidyFrame(s: State, s': State, t: Tid)
    requires Inv(s) && t in s.threads && GoodStep(s, s', t) && Logs(s, s', s.threads[t].id)
    requires var id := s.threads[t].id; Tidy(s, id) && NeverRemoved(s', id) && (id in s'.dirs ==> TidyDir(s'.dirs[id]))
    requires t in s'.threads ==> TidyThread(s', s'.threads[t])
    ensures Tidy(s', s.threads[t].id)
  {
    var id := s.threads[t].id;
    StaysThere(s, s', t, id);
    forall u | u in s'.threads && s'.threads[u].id == id ensures TidyThread(s', s'.threads[u]) {
      if u != t {
        assert TidyThread(s, s.threads[u]);
        if id in s.dirs { assert DirStep(s, s', s.threads[t], id); }
      }
    }
  }

  lemma TidyInstall(s: State, t: Tid)
    requires Inv(s) && t in s.threads && s.threads[t].pc.Installing?
    requires Tidy(s, s.threads[t].id) && NeverRemoved(s, s.threads[t].id)
    ensures var s' := StepInstall(s, t);
      && (t in s'.threads ==> TidyThread(s', s'.threads[t]))
      && (s.threads[t].id in s'.dirs ==> TidyDir(s'.dirs[s.threads[t].id]))
  {
    var me := s.threads[t];
    assert ThreadInv(s, t, me) && TidyThread(s, me);
    if me.id in s.dirs {
      var d := s.dirs[me.id];
      assert TidyDir(d);
      if me.pc.install.LinkTemp? && me.pc.file.ManifestFile? && d.manifest.None? { assert d.chunks == map[]; }
    }
  }

  lemma TidyQuiet(s: State, s': State, t: Tid)
    requires Inv(s) && t in s.threads && Tidy(s, s.threads[t].id) && NeverRemoved(s', s.threads[t].id)
    requires GoodStep(s, s', t) && Logs(s, s', s.threads[t].id)
    requires Quiet(s, s', s.threads[t].id)
    requires t in s'.threads ==> s'.threads[t].seen == s.threads[t].seen || SeesNow(s', s'.threads[t])
    requires t in s'.threads ==> ChecksIndex(s'.threads[t])
    ensures t in s'.threads ==> TidyThread(s', s'.threads[t])
    ensures s.threads[t].id in s'.dirs ==> TidyDir(s'.dirs[s.threads[t].id])
  {
    var id := s.threads[t].id;
    StaysThere(s, s', t, id);
    assert TidyThread(s, s.threads[t]);
    if id in s.dirs { assert DirStep(s, s', s.threads[t], id) && TidyDir(s.dirs[id]); }
  }

  ghost predicate SeesNow(s: State, th: Thread) {
    th.seen.Some? && th.id in s.dirs && s.dirs[th.id].born == th.seen.value.born
  }

  ghost predicate ChecksIndex(th: Thread) {
    th.pc.Installing? && th.pc.file.ChunkFile? ==> th.seen.Some? && th.pc.file.index < th.seen.value.manifest.totalChunks
  }

  lemma StepSees(s: State, t: Tid, choice: bool)
    requires t in s.threads && !s.threads[t].pc.Installing?
    ensures var s' := Step(s, t, choice);
      t in s'.threads ==> (s'.threads[t].seen == s.threads[t].seen || SeesNow(s', s'.threads[t])) && ChecksIndex(s'.threads[t])
  {
    if s.threads[t].pc.Holder? { HolderStaysHolder(s, t, choice); }
    else if s.threads[t].pc.Sweeper? { }
    else { OthersSee(s, t, choice); }
  }

  lemma OthersSee(s: State, t: Tid, choice: bool)
    requires t in s.threads && !s.threads[t].pc.Installing? && !s.threads[t].pc.Holder? && !s.threads[t].pc.Sweeper?
    ensures var s' := Step(s, t, choice);
      t in s'.threads ==> (s'.threads[t].seen == s.threads[t].seen || SeesNow(s', s'.threads[t])) && ChecksIndex(s'.threads[t])
  {
    if s.threads[t].pc.Storing? { StoreSees(s, t); }
    else if s.threads[t].pc.Claiming? { ClaimSees(s, t); }
    else { LooksSee(s, t, choice); }
  }

  lemma StoreSees(s: State, t: Tid)
    requires t in s.threads && s.threads[t].pc.Storing?
    ensures var s' := StepStore(s, t);
      t in s'.threads ==> (s'.threads[t].seen == s.threads[t].seen || SeesNow(s', s'.threads[t])) && ChecksIndex(s'.threads[t])
  {
  }

  lemma ClaimSees(s: State, t: Tid)
    requires t in s.threads && s.threads[t].pc.Claiming?
    ensures var s' := StepClaim(s, t);
      t in s'.threads ==> (s'.threads[t].seen == s.threads[t].seen || SeesNow(s', s'.threads[t])) && ChecksIndex(s'.threads[t])
  {
  }

  lemma LooksSee(s: State, t: Tid, choice: bool)
    requires t in s.threads
    requires s.threads[t].pc.Initializing? || s.threads[t].pc.Sweeping? || s.threads[t].pc.Recovering?
    ensures var s' := Step(s, t, choice);
      t in s'.threads ==> s'.threads[t].seen == s.threads[t].seen && ChecksIndex(s'.threads[t])
  {
    hide StepInit, StepSweeping, StepRecover, ChecksIndex;
    if s.threads[t].pc.Initializing? { InitSees(s, t); }
    else if s.threads[t].pc.Sweeping? { SweepingSees(s, t, choice); }
    else { RecoverSees(s, t); }
  }

  lemma InitSees(s: State, t: Tid)
    requires t in s.threads && s.threads[t].pc.Initializing?
    ensures var s' := StepInit(s, t); t in s'.threads ==> s'.threads[t].seen == s.threads[t].seen && ChecksIndex(s'.threads[t])
  {
  }

  lemma SweepingSees(s: State, t: Tid, choice: bool)
    requires t in s.threads && s.threads[t].pc.Sweeping?
    ensures var s' := StepSweeping(s, t, choice); t in s'.threads ==> s'.threads[t].seen == s.threads[t].seen && ChecksIndex(s'.threads[t])
  {
  }

  lemma RecoverSees(s: State, t: Tid)
    requires t in s.threads && s.threads[t].pc.Recovering?
    ensures var s' := StepRecover(s, t); t in s'.threads ==> s'.threads[t].seen == s.threads[t].seen && ChecksIndex(s'.threads[t])
  {
  }

  lemma FinLinkTidy(s: State, t: Tid, choice: bool)
    requires t in s.threads && s.threads[t].pc.Holder? && s.threads[t].pc.holder.FinLink?
    requires Tidy(s, s.threads[t].id) && NeverRemoved(s, s.threads[t].id)
    ensures var s' := StepHolder(s, t, choice);
      s'.dirs == s.dirs && (t in s'.threads ==> TidyThread(s', s'.threads[t]))
  {
    assert TidyThread(s, s.threads[t]);
  }

  /** A step leaves the directories of the other sessions alone. */
  lemma StepElsewhere(s: State, t: Tid, choice: bool, id: Id)
    requires t in s.threads && s.threads[t].id != id
    ensures var s' := Step(s, t, choice);
      (id in s'.dirs ==> id in s.dirs && s'.dirs[id] == s.dirs[id])
  {
    if s.threads[t].pc.Installing? { assert OnlyTouches(s, StepInstall(s, t), s.threads[t].id); }
    else if s.threads[t].pc.Holder? && s.threads[t].pc.holder.FinLink? { LinkKeepsDirs(s, t, choice); }
    else { QuietSteps(s, t, choice); }
  }

  lemma LinkKeepsDirs(s: State, t: Tid, choice: bool)
    requires t in s.threads && s.threads[t].pc.Holder? && s.threads[t].pc.holder.FinLink?
    ensures StepHolder(s, t, choice).dirs == s.dirs
  {
  }

  lemma StepOfOthersKeepsTidy(s: State, t: Tid, choice: bool, id: Id)
    requires Inv(s) && Tidy(s, id) && t in s.threads && s.threads[t].id != id
    ensures Tidy(Step(s, t, choice), id)
  {
    hide Step;
    var s' := Step(s, t, choice);
    StepIsGood(s, t, choice);
    StepLogs(s, t, choice);
    if NeverRemoved(s', id) {
      StaysThere(s, s', t, id);
      StepElsewhere(s, t, choice, id);
      forall u | u in s'.threads && s'.threads[u].id == id ensures TidyThread(s', s'.threads[u]) {
        assert TidyThread(s, s.threads[u]);
      }
    }
  }

  lemma StepOfOwnKeepsTidy(s: State, t: Tid, choice: bool)
    requires Inv(s) && t in s.threads && Tidy(s, s.threads[t].id)
    ensures Tidy(Step(s, t, choice), s.threads[t].id)
  {
    hide StepHolder, StepInstall, Quiet, GoodStep, TidyThread, TidyDir, Inv;
    var s' := Step(s, t, choice);
    StepIsGood(s, t, choice);
    StepLogs(s, t, choice);
    if NeverRemoved(s', s.threads[t].id) {
      StaysThere(s, s', t, s.threads[t].id);
      if s.threads[t].pc.Installing? { TidyInstall(s, t); }
      else if s.threads[t].pc.Holder? && s.threads[t].pc.holder.FinLink? { FinLinkTidy(s, t, choice); }
      else {
        QuietSteps(s, t, choice);
        StepSees(s, t, choice);
        TidyQuiet(s, s', t);
      }
      TidyFrame(s, s', t);
    }
  }

  /** Labels that are no calls leave the disk alone. */
  lemma OtherLabelsKeepTidy(s: State, s': State, id: Id)
    requires Tidy(s, id) && s'.dirs == s.dirs && s'.removed == s.removed
    requires forall t :: t in s'.threads ==> (t in s.threads && SameButCall(s.threads[t], s'.threads[t])) || IsFresh(s'.threads[t])
    ensures Tidy(s', id)
  {
    if NeverRemoved(s', id) {
      assert NeverRemoved(s, id);
      forall t | t in s'.threads && s'.threads[t].id == id ensures TidyThread(s', s'.threads[t]) {
        if t in s.threads && SameButCall(s.threads[t], s'.threads[t]) { assert TidyThread(s, s.threads[t]); }
      }
    }
  }

  ghost predicate SameButCall(a: Thread, b: Thread) {
    b.id == a.id && b.seen == a.seen && (b.pc == a.pc || b.pc.Holder?)
  }

  ghost predicate IsFresh(th: Thread) {
    th.seen.None? && !th.pc.Installing?
  }

  lemma ApplyKeepsTidy(s: State, l: Label, id: Id)
    requires Inv(s) && Tidy(s, id)
    ensures Tidy(Apply(s, l), id)
  {
    hide Tidy, Inv, Step;
    if l.Go? && l.tid in s.threads {
      if s.threads[l.tid].id == id { StepOfOwnKeepsTidy(s, l.tid, l.choice); } else { StepOfOthersKeepsTidy(s, l.tid, l.choice, id); }
    } else {
      OtherLabelsKeepTidy(s, Apply(s, l), id);
    }
  }

  lemma {:induction false} RunKeepsTidy(ls: seq<Label>, id: Id)
    ensures Tidy(Run(Boot(true), ls), id)
    decreases |ls|
  {
    if ls != [] {
      RunKeepsTidy(ls[..|ls| - 1], id);
      RunKeepsInv(ls[..|ls| - 1]);
      ApplyKeepsTidy(Run(Boot(true), ls[..|ls| - 1]), ls[|ls| - 1], id);
    }
  }

  /**
   A finalize claim sits on exactly the chunks the manifest prescribes, from the moment it is installed until its
   holder gives it up, if this session was never removed before. What happened to others does not matter.
   */
  lemma ClaimedSetIsExact(ls: seq<Label>, t: Tid)
    requires var s := Run(Boot(true), ls); t in s.threads && s.threads[t].pc.Holder? && NeverRemoved(s, s.threads[t].id)
    ensures var s := Run(Boot(true), ls); var id := s.threads[t].id;
      id in s.dirs && s.dirs[id].manifest.Some? && Complete(s.dirs[id], s.dirs[id].manifest.value)
  {
    var s := Run(Boot(true), ls);
    RunKeepsInv(ls);
    RunKeepsTidy(ls, s.threads[t].id);
    assert ThreadInv(s, t, s.threads[t]) && TidyThread(s, s.threads[t]) && TidyDir(s.dirs[s.threads[t].id]);
  }

  // ---- claiming again after a crash

  function Goes(t: Tid, n: nat): seq<Label> {
    if n == 0 then [] else Goes(t, n - 1) + [Go(t, true)]
  }

  lemma {:induction false} RunConcat(s: State, a: seq<Label>, b: seq<Label>)
    ensures Run(s, a + b) == Run(Run(s, a), b)
    decreases |b|
  {
    if b == [] {
      assert a + b == a;
    } else {
      assert (a + b)[..|a + b| - 1] == a + b[..|b| - 1];
      RunConcat(s, a, b[..|b| - 1]);
    }
  }

  lemma RunOne(s: State, l: Label)
    ensures Run(s, [l]) == Apply(s, l)
  {
    assert [l][..0] == [];
  }

  lemma RunNext(s: State, ls: seq<Label>, l: Label)
    ensures Run(s, ls + [l]) == Apply(Run(s, ls), l)
  {
    assert (ls + [l])[..|ls|] == ls;
  }

  /** The label sequence that starts an operation and runs it for n calls. */
  function Alone(p: Pid, r: Request, t: Tid, n: nat): seq<Label> {
    [Start(p, r)] + Goes(t, n)
  }

  lemma RunAlone(s: State, p: Pid, r: Request, n: nat)
    ensures Run(s, Alone(p, r, s.next, 0)) == Apply(s, Start(p, r))
    ensures Run(s, Alone(p, r, s.next, n + 1)) == Apply(Run(s, Alone(p, r, s.next, n)), Go(s.next, true))
  {
    assert Alone(p, r, s.next, 0) == [Start(p, r)];
    RunOne(s, Start(p, r));
    assert Alone(p, r, s.next, n + 1) == Alone(p, r, s.next, n) + [Go(s.next, true)];
    RunNext(s, Alone(p, r, s.next, n), Go(s.next, true));
  }

  /** State s with operation t in flight. */
  function With(s: State, t: Tid, th: Thread): State {
    s.(next := t + 1, threads := s.threads[t := th])
  }

  /** The operation's directory, rewritten. */
  function Put(s: State, id: Id, d: Dir): State {
    s.(dirs := s.dirs[id := d])
  }

  lemma Starts(s: State, p: Pid, r: Request)
    requires p in s.live && !r.RecoverRequest? && (r.InitRequest? ==> ValidManifest(r.metadata))
    ensures Apply(s, Start(p, r)) == With(s, s.next, Thread(p, s.live[p], r.id, None, FirstCall(r)))
  {
  }

  lemma ClaimReads(s: State, t: Tid, th: Thread)
    requires th.pc == Claiming(ClaimReadManifest) && th.id in s.dirs && s.dirs[th.id].manifest.Some?
    ensures Apply(With(s, t, th), Go(t, true)) ==
      With(s, t, th.(seen := Some(Seen(s.dirs[th.id].born, s.dirs[th.id].manifest.value)), pc := Claiming(ClaimList)))
  {
  }

  lemma ClaimLists(s: State, t: Tid, th: Thread)
    requires th.pc == Claiming(ClaimList) && th.id in s.dirs && th.seen.Some? && Complete(s.dirs[th.id], th.seen.value.manifest)
    ensures Apply(With(s, t, th), Go(t, true)) == With(s, t, th.(pc := Installing(WriteTemp, ClaimFile(FinalizeClaim))))
  {
  }

  /** A temporary file is written into the session's directory. */
  lemma Writes(s: State, t: Tid, th: Thread, f: File)
    requires th.pc == Installing(WriteTemp, f) && th.id in s.dirs
    ensures var d := s.dirs[th.id];
      Apply(With(s, t, th), Go(t, true)) == With(Put(s, th.id, d.(temps := d.temps + {t})), t, th.(pc := Installing(LinkTemp, f)))
  {
  }

  /** The temporary file is linked to a name that is still free. */
  lemma Links(s: State, t: Tid, th: Thread, f: File)
    requires th.pc == Installing(LinkTemp, f) && th.id in s.dirs && t in s.dirs[th.id].temps && !TargetExists(s.dirs[th.id], f)
    ensures Apply(With(s, t, th), Go(t, true)) == With(Put(s, th.id, Installed(s.dirs[th.id], f, t, th)), t, th.(pc := AfterLink(f)))
  {
  }

  lemma PutTwice(s: State, id: Id, d: Dir, d': Dir)
    ensures Put(Put(s, id, d), id, d') == Put(s, id, d')
  {
  }

  /** Both: the file is there, and so is the temporary one. */
  lemma Installs(s: State, t: Tid, th: Thread, f: File)
    requires th.pc == Installing(WriteTemp, f) && th.id in s.dirs && !TargetExists(s.dirs[th.id], f)
    ensures var d := s.dirs[th.id].(temps := s.dirs[th.id].temps + {t});
      Apply(Apply(With(s, t, th), Go(t, true)), Go(t, true)) == With(Put(s, th.id, Installed(d, f, t, th)), t, th.(pc := AfterLink(f)))
  {
    hide Apply;
    var d := s.dirs[th.id].(temps := s.dirs[th.id].temps + {t});
    Writes(s, t, th, f);
    Links(Put(s, th.id, d), t, th.(pc := Installing(LinkTemp, f)), f);
    PutTwice(s, th.id, d, Installed(d, f, t, th));
  }

  lemma DropsClaimTemp(s: State, t: Tid, th: Thread)
    requires th.pc == Holder(DropClaimTemp) && th.id in s.dirs
    ensures var d := s.dirs[th.id];
      Apply(With(s, t, th), Go(t, true)) == With(Put(s, th.id, d.(temps := d.temps - {t})), t, th.(pc := Holder(Idle)))
  {
  }

  /** The state after process p claimed session id. */
  function ClaimedState(s: State, p: Pid, id: Id): State
    requires p in s.live && id in s.dirs && s.dirs[id].manifest.Some?
  {
    var d := s.dirs[id];
    With(Put(s, id, d.(claim := Some(Claim(s.next, p, s.live[p], FinalizeClaim)), temps := d.temps - {s.next})), s.next,
         Thread(p, s.live[p], id, Some(Seen(d.born, d.manifest.value)), Holder(Idle)))
  }

  /** A complete, unclaimed session can be claimed: the operation run by itself ends up holding the claim. */
  lemma UnclaimedIsClaimable(s: State, p: Pid, id: Id)
    requires p in s.live && id in s.dirs && s.dirs[id].claim == None
    requires s.dirs[id].manifest.Some? && Complete(s.dirs[id], s.dirs[id].manifest.value)
    ensures Run(s, Alone(p, ClaimRequest(id), s.next, 5)) == ClaimedState(s, p, id)
  {
    hide Apply, Run, Alone;
    var t, d, r := s.next, s.dirs[id], ClaimRequest(id);
    var th := Thread(p, s.live[p], id, Some(Seen(d.born, d.manifest.value)), Claiming(ClaimList));
    Starts(s, p, r);
    ClaimReads(s, t, th.(seen := None, pc := Claiming(ClaimReadManifest)));
    ClaimLists(s, t, th);
    Installs(s, t, th.(pc := Installing(WriteTemp, ClaimFile(FinalizeClaim))), ClaimFile(FinalizeClaim));
    var d' := d.(temps := d.temps + {t}, claim := Some(Claim(t, p, s.live[p], FinalizeClaim)));
    DropsClaimTemp(Put(s, id, d'), t, th.(pc := Holder(DropClaimTemp)));
    PutTwice(s, id, d', d'.(temps := d'.temps - {t}));
    assert d.temps + {t} - {t} == d.temps - {t};
    RunFive(s, p, r);
  }

  lemma RunFive(s: State, p: Pid, r: Request)
    ensures var g := Go(s.next, true);
      Run(s, Alone(p, r, s.next, 5)) == Apply(Apply(Apply(Apply(Apply(Apply(s, Start(p, r)), g), g), g), g), g)
  {
    hide Apply, Run, Alone;
    RunAlone(s, p, r, 0);
    RunAlone(s, p, r, 1);
    RunAlone(s, p, r, 2);
    RunAlone(s, p, r, 3);
    RunAlone(s, p, r, 4);
  }

  /** A recovery by process p, run by itself, frees a session whose claim owner looks dead to it. */
  lemma RecoveryFrees(s: State, p: Pid, id: Id)
    requires NoRecovery(s) && p in s.live && id in s.dirs && s.dirs[id].claim.Some?
    requires var c := s.dirs[id].claim.value; !SeemsAlive(s, Thread(p, s.live[p], id, None, Recovering(RecoverRead)), c)
    ensures var s' := Run(s, Alone(p, RecoverRequest(id), s.next, 2));
      s'.live == s.live && id in s'.dirs && s'.dirs[id] == s.dirs[id].(claim := None)
  {
    hide Apply, Run, Alone;
    var t, r, c := s.next, RecoverRequest(id), s.dirs[id].claim.value;
    var th := Thread(p, s.live[p], id, None, Recovering(RecoverRead));
    RecoveryStarts(s, p, id);
    RecoveryReads(s, t, th);
    RecoveryUnlinks(s, t, th.(pc := Recovering(RecoverUnlink(c))));
    RunAlone(s, p, r, 0);
    RunAlone(s, p, r, 1);
  }

  lemma RecoveryStarts(s: State, p: Pid, id: Id)
    requires NoRecovery(s) && p in s.live
    ensures Apply(s, Start(p, RecoverRequest(id))) == With(s, s.next, Thread(p, s.live[p], id, None, Recovering(RecoverRead)))
  {
  }

  lemma RecoveryReads(s: State, t: Tid, th: Thread)
    requires th.pc == Recovering(RecoverRead) && th.id in s.dirs && s.dirs[th.id].claim.Some?
    requires !SeemsAlive(s, th, s.dirs[th.id].claim.value)
    ensures Apply(With(s, t, th), Go(t, true)) == With(s, t, th.(pc := Recovering(RecoverUnlink(s.dirs[th.id].claim.value))))
  {
  }

  lemma RecoveryUnlinks(s: State, t: Tid, th: Thread)
    requires th.pc.Recovering? && th.pc.recover.RecoverUnlink? && th.id in s.dirs
    ensures var s' := Apply(With(s, t, th), Go(t, true)); s'.live == s.live && s'.dirs == s.dirs[th.id := s.dirs[th.id].(claim := None)]
  {
  }

  /** Recoveries in progress are all of one process. */
  ghost predicate OnlyRecovers(s: State, pid: Pid) {
    forall t :: t in s.threads && s.threads[t].pc.Recovering? ==> s.threads[t].pid == pid
  }

  /** The holder's process crashes, and process p is there: started now, with the old process id or another, or running. */
  function Crashed(s: State, pid: Pid, p: Pid): State {
    Apply(Apply(s, Crash(pid)), Spawn(p))
  }

  /** A crash leaves the disk alone; the dead holder's claim stays behind, and looks dead to any process. */
  lemma CrashLeaves(s: State, t: Tid, p: Pid)
    requires Inv(s) && t in s.threads && s.threads[t].pc.Holder? && OnlyRecovers(s, s.threads[t].pid)
    ensures var s', id := Crashed(s, s.threads[t].pid, p), s.threads[t].id;
      && s'.dirs == s.dirs && NoRecovery(s') && p in s'.live
      && id in s.dirs && s.dirs[id].claim == Some(ClaimOf(t, s.threads[t]))
      && !SeemsAlive(s', Thread(p, s'.live[p], id, None, Recovering(RecoverRead)), ClaimOf(t, s.threads[t]))
  {
    assert ThreadInv(s, t, s.threads[t]);
  }

  /**
   After the crash of a holder, at any step of its finalize, the chunks are untouched, and once a recovery ran the
   session can be claimed again: by the restarted process, under the old or another process id, or by any other one.
   */
  lemma CrashedFinalizeIsClaimable(ls: seq<Label>, t: Tid, p: Pid) returns (more: seq<Label>, u: Tid)
    requires var s := Run(Boot(true), ls); t in s.threads && s.threads[t].pc.Holder? && NeverRemoved(s, s.threads[t].id)
    requires var s := Run(Boot(true), ls); OnlyRecovers(s, s.threads[t].pid)
    ensures var s := Run(Boot(true), ls);
      var id, s' := s.threads[t].id, Run(s, more);
      && id in s.dirs && [Crash(s.threads[t].pid), Spawn(p)] <= more
      && u in s'.threads && s'.threads[u].pc == Holder(Idle) && s'.threads[u].id == id && s'.threads[u].pid == p
      && ReadClaim(s', id) == Some(ClaimOf(u, s'.threads[u]))
      && s'.dirs[id].manifest == s.dirs[id].manifest && s'.dirs[id].chunks == s.dirs[id].chunks
  {
    hide Run, Alone;
    var s := Run(Boot(true), ls);
    var id, pid := s.threads[t].id, s.threads[t].pid;
    RunKeepsInv(ls);
    ClaimedSetIsExact(ls, t);
    var s1 := Crashed(s, pid, p);
    CrashLeaves(s, t, p);
    ApplyKeepsInv(s, Crash(pid));
    ApplyKeepsInv(Apply(s, Crash(pid)), Spawn(p));
    var crash := [Crash(pid)] + [Spawn(p)];
    RunOne(s, Crash(pid));
    RunNext(s, [Crash(pid)], Spawn(p));
    hide Apply;
    RecoveryFrees(s1, p, id);
    var freeing := Alone(p, RecoverRequest(id), s1.next, 2);
    var s2 := Run(s1, freeing);
    UnclaimedIsClaimable(s2, p, id);
    u := s2.next;
    var claiming := Alone(p, ClaimRequest(id), u, 5);
    RunConcat(s1, freeing, claiming);
    RunConcat(s, crash, freeing + claiming);
    more := crash + (freeing + claiming);
  }
}
