/**
 What every step of the upload protocol keeps: claim exclusivity, write-once directories, and a frozen
 chunk set under a finalize claim.
 */
module UploadSafety {
  import opened Common
  import opened UploadClaims
  import opened UploadManifest
  import opened UploadProtocol

  /** The operation believes it holds the claim of its session. */
  predicate Holds(th: Thread) {
    th.pc.Holder? || th.pc.Sweeper?
  }

  /** The claim file such an operation wrote. */
  function ClaimOf(t: Tid, th: Thread): Claim {
    Claim(t, th.pid, th.instance, if th.pc.Holder? then FinalizeClaim else CleanupClaim)
  }

  /** Every chunk the manifest prescribes is in the directory. */
  ghost predicate Full(d: Dir, m: Manifest) {
    d.manifest == Some(m) && HasPrefix(d.chunks, m.totalChunks)
  }

  /** What the progress of a finalize says about its directory. */
  ghost predicate Knows(s: State, d: Dir, id: Id, h: HolderStep) {
    match h
    case FinReadClaim(_, _, m) => d.manifest == Some(m)
    case FinList(_, _, m) => d.manifest == Some(m)
    case FinMerge(_, _, m, i, written) => Full(d, m) && i <= m.totalChunks && written == Concat(d.chunks, i)
    case FinLink(_, _, m, written) => Full(d, m) && written == Concat(d.chunks, m.totalChunks) && |written| == m.fileSize
    case FinRemove(to, m) => Full(d, m) && to in s.files && s.files[to] == MergedFile(id, Concat(d.chunks, m.totalChunks))
    case _ => true
  }

  /** Past the listing of a claim. */
  predicate SawComplete(pc: Pc) {
    pc.Holder? || (pc.Installing? && pc.file == ClaimFile(FinalizeClaim))
  }

  /** What an operation remembers still holds of the directory it saw, if that is still the one on disk. */
  ghost predicate Remembers(s: State, th: Thread) {
    && (SawComplete(th.pc) ==> th.seen.Some?)
    && (th.seen.Some? ==>
          && th.seen.value.born < s.next
          && (th.id in s.dirs && s.dirs[th.id].born == th.seen.value.born ==>
                && s.dirs[th.id].manifest == Some(th.seen.value.manifest)
                && (SawComplete(th.pc) ==> Full(s.dirs[th.id], th.seen.value.manifest))))
  }

  ghost predicate ThreadInv(s: State, t: Tid, th: Thread) {
    && t < s.next && th.instance < s.next
    && th.pid in s.live && s.live[th.pid] == th.instance
    && (Holds(th) ==> ReadClaim(s, th.id) == Some(ClaimOf(t, th)))
    && (th.pc.Holder? ==> Knows(s, s.dirs[th.id], th.id, th.pc.holder))
    && Remembers(s, th)
    && (th.pc.Recovering? && th.pc.recover.RecoverUnlink? ==>
          ReadClaim(s, th.id) == Some(th.pc.recover.found) && !Alive(s, th.pc.recover.found))
  }

  ghost predicate DirInv(s: State, d: Dir) {
    && d.born < s.next
    && (d.claim.Some? ==> d.claim.value.token < s.next && d.claim.value.instance < s.next)
  }

  ghost predicate Inv(s: State) {
    && s.soleRecovery
    && (forall t :: t in s.threads ==> ThreadInv(s, t, s.threads[t]))
    && (forall id :: id in s.dirs ==> DirInv(s, s.dirs[id]))
    && (forall p :: p in s.live ==> s.live[p] < s.next)
    && (forall t, u :: t in s.threads && u in s.threads && s.threads[t].pc.Recovering? && s.threads[u].pc.Recovering? ==> t == u)
  }

  // ---- frame: what one operation's step leaves to the others

  /** The directory only grows: nothing in it is overwritten, a claim stays. */
  ghost predicate Grows(d: Dir, d': Dir) {
    && d'.born == d.born
    && (d.manifest.Some? ==> d'.manifest == d.manifest)
    && (forall i :: i in d.chunks ==> i in d'.chunks && d'.chunks[i] == d.chunks[i])
    && (d.claim.Some? ==> d'.claim == d.claim)
  }

  /** The operation holds the claim at `id`, or is the recovery about to unlink it. */
  ghost predicate MayUnclaim(th: Thread, id: Id) {
    th.id == id && (Holds(th) || (th.pc.Recovering? && th.pc.recover.RecoverUnlink?))
  }

  /** What a step of operation `th` may do to the directory at `id`. */
  ghost predicate DirStep(s: State, s': State, th: Thread, id: Id)
    requires id in s.dirs
  {
    || (id in s'.dirs && Grows(s.dirs[id], s'.dirs[id]))
    || (MayUnclaim(th, id) && id in s'.dirs && Grows(s.dirs[id].(claim := None), s'.dirs[id]))
    || (Holds(th) && th.id == id && id !in s'.dirs)
  }

  /** Operation t stays the same operation or ends; the others are untouched. */
  ghost predicate ThreadStep(s: State, s': State, t: Tid)
    requires t in s.threads
  {
    || s'.threads == s.threads - {t}
    || (t in s'.threads && s'.threads == s.threads[t := s'.threads[t]]
        && var a, b := s.threads[t], s'.threads[t];
           b.pid == a.pid && b.instance == a.instance && b.id == a.id && (b.pc.Recovering? ==> a.pc.Recovering?))
  }

  ghost predicate GoodStep(s: State, s': State, t: Tid)
    requires t in s.threads
  {
    && s'.live == s.live && s'.soleRecovery == s.soleRecovery && s.next <= s'.next
    && ThreadStep(s, s', t)
    && (t in s'.threads ==> ThreadInv(s', t, s'.threads[t]))
    && (forall id :: id in s.dirs ==> DirStep(s, s', s.threads[t], id))
    && (forall id :: id in s'.dirs && id !in s.dirs ==> s.next <= s'.dirs[id].born)
    && (forall id :: id in s'.dirs ==> DirInv(s', s'.dirs[id]))
    && (forall p :: p in s.files ==> p in s'.files && s'.files[p] == s.files[p])
  }

  lemma KeepsKnowledge(s: State, s': State, d: Dir, d': Dir, id: Id, h: HolderStep)
    requires Grows(d, d')
    requires forall p :: p in s.files ==> p in s'.files && s'.files[p] == s.files[p]
    requires Knows(s, d, id, h)
    ensures Knows(s', d', id, h)
  {
    match h
    case FinMerge(_, _, m, i, _) => ConcatSameOnPrefix(d.chunks, d'.chunks, i);
    case FinLink(_, _, m, _) => ConcatSameOnPrefix(d.chunks, d'.chunks, m.totalChunks);
    case FinRemove(_, m) => ConcatSameOnPrefix(d.chunks, d'.chunks, m.totalChunks);
    case _ =>
  }

  lemma FrameThread(s: State, s': State, t: Tid, u: Tid)
    requires Inv(s) && t in s.threads && GoodStep(s, s', t)
    requires u in s.threads && u != t
    ensures ThreadInv(s', u, s'.threads[u])
  {
    var th := s.threads[u];
    assert ThreadInv(s, u, th) && ThreadInv(s, t, s.threads[t]);
    assert s'.threads[u] == th;
    if th.id in s.dirs {
      assert DirStep(s, s', s.threads[t], th.id);
      if Holds(th) || (th.pc.Recovering? && th.pc.recover.RecoverUnlink?) {
        assert !MayUnclaim(s.threads[t], th.id);
        if th.pc.Holder? {
          KeepsKnowledge(s, s', s.dirs[th.id], s'.dirs[th.id], th.id, th.pc.holder);
        }
      }
    }
  }

  lemma FrameInv(s: State, s': State, t: Tid)
    requires Inv(s) && t in s.threads && GoodStep(s, s', t)
    ensures Inv(s')
  {
    forall u | u in s'.threads ensures ThreadInv(s', u, s'.threads[u]) {
      if u != t { FrameThread(s, s', t, u); }
    }
  }

  // ---- the kinds of steps

  /** A step that leaves the disk alone. */
  lemma LocalIsGood(s: State, s': State, t: Tid)
    requires Inv(s) && t in s.threads
    requires s' == s.(threads := s'.threads) && ThreadStep(s, s', t)
    requires t in s'.threads ==> ThreadInv(s', t, s'.threads[t])
    ensures GoodStep(s, s', t)
  {
    forall id | id in s.dirs ensures DirStep(s, s', s.threads[t], id) && DirInv(s', s'.dirs[id]) {
      assert Grows(s.dirs[id], s'.dirs[id]) && DirInv(s, s.dirs[id]);
    }
  }

  /** A step that rewrites the directory of the operation's session. */
  lemma DirChangeIsGood(s: State, s': State, t: Tid, id: Id)
    requires Inv(s) && t in s.threads && s.threads[t].id == id
    requires s' == s.(threads := s'.threads, dirs := s'.dirs, next := s'.next) && s.next <= s'.next && ThreadStep(s, s', t)
    requires id in s'.dirs && s'.dirs == s.dirs[id := s'.dirs[id]] && DirInv(s', s'.dirs[id])
    requires if id in s.dirs then DirStep(s, s', s.threads[t], id) else s.next <= s'.dirs[id].born
    requires t in s'.threads ==> ThreadInv(s', t, s'.threads[t])
    ensures GoodStep(s, s', t)
  {
    forall k | k in s.dirs ensures DirStep(s, s', s.threads[t], k) {
      if k != id { assert Grows(s.dirs[k], s'.dirs[k]); }
    }
    forall k | k in s'.dirs ensures DirInv(s', s'.dirs[k]) {
      if k != id { assert DirInv(s, s.dirs[k]); }
    }
  }

  /** A step that removes the directory under the operation's own claim, and ends the operation. */
  lemma RemovalIsGood(s: State, t: Tid, cause: Cause)
    requires Inv(s) && t in s.threads && Holds(s.threads[t])
    ensures GoodStep(s, Done(Remove(s, s.threads[t].id, cause), t), t)
  {
    var s' := Done(Remove(s, s.threads[t].id, cause), t);
    forall k | k in s.dirs ensures DirStep(s, s', s.threads[t], k) {
      if k != s.threads[t].id { assert Grows(s.dirs[k], s'.dirs[k]); }
    }
    forall k | k in s'.dirs ensures DirInv(s', s'.dirs[k]) { assert DirInv(s, s.dirs[k]); }
  }

  lemma UnclaimIsGood(s: State, t: Tid)
    requires Inv(s) && t in s.threads && MayUnclaim(s.threads[t], s.threads[t].id)
    ensures GoodStep(s, Done(Unclaimed(s, s.threads[t].id), t), t)
  {
    var id := s.threads[t].id;
    var s' := Done(Unclaimed(s, id), t);
    if id in s.dirs {
      assert DirInv(s, s.dirs[id]);
      DirChangeIsGood(s, s', t, id);
    } else {
      LocalIsGood(s, s', t);
    }
  }

  // ---- every step is of one of these kinds

  lemma InstallIsGood(s: State, t: Tid)
    requires Inv(s) && t in s.threads && s.threads[t].pc.Installing?
    ensures GoodStep(s, StepInstall(s, t), t)
  {
    var me := s.threads[t];
    var s' := StepInstall(s, t);
    assert ThreadInv(s, t, me);
    if me.id in s.dirs {
      var d := s.dirs[me.id];
      assert DirInv(s, d);
      match me.pc.install
      case WriteTemp => DirChangeIsGood(s, s', t, me.id);
      case LinkTemp => LinkIsGood(s, t);
      case UnlinkTemp => DirChangeIsGood(s, s', t, me.id);
    } else {
      LocalIsGood(s, s', t);
    }
  }

  lemma LinkIsGood(s: State, t: Tid)
    requires Inv(s) && t in s.threads && s.threads[t].pc.Installing? && s.threads[t].pc.install.LinkTemp?
    requires s.threads[t].id in s.dirs
    ensures GoodStep(s, StepInstall(s, t), t)
  {
    var me := s.threads[t];
    var s' := StepInstall(s, t);
    var d := s.dirs[me.id];
    assert ThreadInv(s, t, me) && DirInv(s, d);
    if t !in d.temps || TargetExists(d, me.pc.file) {
      LocalIsGood(s, s', t);
    } else {
      assert Grows(d, s'.dirs[me.id]);
      DirChangeIsGood(s, s', t, me.id);
    }
  }

  lemma InitIsGood(s: State, t: Tid)
    requires Inv(s) && t in s.threads && s.threads[t].pc.Initializing?
    ensures GoodStep(s, StepInit(s, t), t)
  {
    var me := s.threads[t];
    assert ThreadInv(s, t, me);
    if me.pc.init.InitRead? || me.id in s.dirs {
      LocalIsGood(s, StepInit(s, t), t);
    } else {
      DirChangeIsGood(s, StepInit(s, t), t, me.id);
    }
  }

  lemma StoreIsGood(s: State, t: Tid)
    requires Inv(s) && t in s.threads && s.threads[t].pc.Storing?
    ensures GoodStep(s, StepStore(s, t), t)
  {
    assert ThreadInv(s, t, s.threads[t]);
    assert s.threads[t].id in s.dirs ==> DirInv(s, s.dirs[s.threads[t].id]);
    LocalIsGood(s, StepStore(s, t), t);
  }

  lemma ClaimIsGood(s: State, t: Tid)
    requires Inv(s) && t in s.threads && s.threads[t].pc.Claiming?
    ensures GoodStep(s, StepClaim(s, t), t)
  {
    assert ThreadInv(s, t, s.threads[t]);
    assert s.threads[t].id in s.dirs ==> DirInv(s, s.dirs[s.threads[t].id]);
    LocalIsGood(s, StepClaim(s, t), t);
  }

  lemma HolderIsGood(s: State, t: Tid, choice: bool)
    requires Inv(s) && t in s.threads && s.threads[t].pc.Holder?
    ensures GoodStep(s, StepHolder(s, t, choice), t)
  {
    var me := s.threads[t];
    var s' := StepHolder(s, t, choice);
    assert ThreadInv(s, t, me);
    match me.pc.holder
    case DropClaimTemp =>
      assert DirInv(s, s.dirs[me.id]);
      DirChangeIsGood(s, s', t, me.id);
    case Idle =>
      assert s.threads == s.threads[t := me];
      LocalIsGood(s, s', t);
    case ReleaseRead => LocalIsGood(s, s', t);
    case ReleaseUnlink => UnclaimIsGood(s, t);
    case FinMerge(_, _, _, _, _) => FinMergeIsGood(s, t, choice);
    case FinLink(_, _, _, _) => FinLinkIsGood(s, t, choice);
    case FinRemove(to, _) => RemovalIsGood(s, t, AfterMerge(to));
    case ClearRemove => RemovalIsGood(s, t, Cleared);
    case _ => FinCheckIsGood(s, t, choice);
  }

  lemma FinCheckIsGood(s: State, t: Tid, choice: bool)
    requires Inv(s) && t in s.threads && s.threads[t].pc.Holder?
    requires var h := s.threads[t].pc.holder; h.FinReadManifest? || h.FinReadClaim? || h.FinList?
    ensures GoodStep(s, StepHolder(s, t, choice), t)
  {
    assert ThreadInv(s, t, s.threads[t]);
    LocalIsGood(s, StepHolder(s, t, choice), t);
  }

  lemma FinMergeIsGood(s: State, t: Tid, choice: bool)
    requires Inv(s) && t in s.threads && s.threads[t].pc.Holder? && s.threads[t].pc.holder.FinMerge?
    ensures GoodStep(s, StepHolder(s, t, choice), t)
  {
    assert ThreadInv(s, t, s.threads[t]);
    LocalIsGood(s, StepHolder(s, t, choice), t);
  }

  lemma FinLinkIsGood(s: State, t: Tid, choice: bool)
    requires Inv(s) && t in s.threads && s.threads[t].pc.Holder? && s.threads[t].pc.holder.FinLink?
    ensures GoodStep(s, StepHolder(s, t, choice), t)
  {
    var s' := StepHolder(s, t, choice);
    assert ThreadInv(s, t, s.threads[t]);
    if s.threads[t].pc.holder.to in s.files {
      LocalIsGood(s, s', t);
    } else {
      forall k | k in s.dirs ensures DirStep(s, s', s.threads[t], k) && DirInv(s', s'.dirs[k]) {
        assert Grows(s.dirs[k], s'.dirs[k]) && DirInv(s, s.dirs[k]);
      }
    }
  }

  lemma SweepingIsGood(s: State, t: Tid, choice: bool)
    requires Inv(s) && t in s.threads && s.threads[t].pc.Sweeping?
    ensures GoodStep(s, StepSweeping(s, t, choice), t)
  {
    assert ThreadInv(s, t, s.threads[t]);
    LocalIsGood(s, StepSweeping(s, t, choice), t);
  }

  lemma SweeperIsGood(s: State, t: Tid, choice: bool)
    requires Inv(s) && t in s.threads && s.threads[t].pc.Sweeper?
    ensures GoodStep(s, StepSweeper(s, t, choice), t)
  {
    var me := s.threads[t];
    var s' := StepSweeper(s, t, choice);
    assert ThreadInv(s, t, me);
    match me.pc.sweeper
    case DropSweepTemp =>
      assert DirInv(s, s.dirs[me.id]);
      DirChangeIsGood(s, s', t, me.id);
    case SweepRemove => if choice { RemovalIsGood(s, t, Expired); } else { LocalIsGood(s, s', t); }
    case SweepReleaseUnlink => UnclaimIsGood(s, t);
    case _ => LocalIsGood(s, s', t);
  }

  lemma RecoverIsGood(s: State, t: Tid)
    requires Inv(s) && t in s.threads && s.threads[t].pc.Recovering?
    ensures GoodStep(s, StepRecover(s, t), t)
  {
    assert ThreadInv(s, t, s.threads[t]);
    if s.threads[t].pc.recover.RecoverUnlink? { UnclaimIsGood(s, t); } else { LocalIsGood(s, StepRecover(s, t), t); }
  }

  lemma StepIsGood(s: State, t: Tid, choice: bool)
    requires Inv(s) && t in s.threads
    ensures GoodStep(s, Step(s, t, choice), t)
  {
    match s.threads[t].pc
    case Installing(_, _) => InstallIsGood(s, t);
    case Initializing(_, _) => InitIsGood(s, t);
    case Storing(_, _, _, _) => StoreIsGood(s, t);
    case Claiming(_) => ClaimIsGood(s, t);
    case Holder(_) => HolderIsGood(s, t, choice);
    case Sweeping(_) => SweepingIsGood(s, t, choice);
    case Sweeper(_) => SweeperIsGood(s, t, choice);
    case Recovering(_) => RecoverIsGood(s, t);
  }

  // ---- every label keeps the invariant

  lemma StartKeepsInv(s: State, p: Pid, r: Request)
    requires Inv(s)
    ensures Inv(Apply(s, Start(p, r)))
  {
    var s' := Apply(s, Start(p, r));
    forall t | t in s'.threads ensures ThreadInv(s', t, s'.threads[t]) {
      if t in s.threads { assert ThreadInv(s, t, s.threads[t]); }
    }
    forall id | id in s'.dirs ensures DirInv(s', s'.dirs[id]) { assert DirInv(s, s.dirs[id]); }
  }

  lemma ProcessChangeKeepsInv(s: State, l: Label)
    requires Inv(s) && (l.Spawn? || l.Crash?)
    ensures Inv(Apply(s, l))
  {
    var s' := Apply(s, l);
    forall t | t in s'.threads ensures ThreadInv(s', t, s'.threads[t]) { assert ThreadInv(s, t, s.threads[t]); }
    forall id | id in s'.dirs ensures DirInv(s', s'.dirs[id]) { assert DirInv(s, s.dirs[id]); }
  }

  lemma DecideIsGood(s: State, t: Tid, d: Decision)
    requires Inv(s) && t in s.threads && s.threads[t].pc == Holder(Idle)
    ensures GoodStep(s, Apply(s, Decide(t, d)), t)
  {
    assert ThreadInv(s, t, s.threads[t]);
    LocalIsGood(s, Apply(s, Decide(t, d)), t);
  }

  /** The invariant is inductive over every label, crashes included. */
  lemma ApplyKeepsInv(s: State, l: Label)
    requires Inv(s)
    ensures Inv(Apply(s, l))
  {
    match l
    case Start(p, r) => StartKeepsInv(s, p, r);
    case Decide(t, d) =>
      if t in s.threads && s.threads[t].pc == Holder(Idle) {
        DecideIsGood(s, t, d);
        FrameInv(s, Apply(s, l), t);
      }
    case Go(t, choice) =>
      if t in s.threads {
        StepIsGood(s, t, choice);
        FrameInv(s, Apply(s, l), t);
      }
    case _ => ProcessChangeKeepsInv(s, l);
  }

  lemma {:induction false} RunKeepsInv(ls: seq<Label>)
    ensures Inv(Run(Boot(true), ls))
    decreases |ls|
  {
    if ls != [] {
      RunKeepsInv(ls[..|ls| - 1]);
      ApplyKeepsInv(Run(Boot(true), ls[..|ls| - 1]), ls[|ls| - 1]);
    }
  }

  lemma ReachableInv(s: State)
    requires Reachable(s)
    ensures Inv(s)
  {
    var ls :| s == Run(Boot(true), ls);
    RunKeepsInv(ls);
  }
}
