/** Recoveries that may overlap: what still holds, and exactly when one of them takes a claim from a running owner. */
module UploadRecovery {
  import opened Common
  import opened UploadClaims
  import opened UploadManifest
  import opened UploadProtocol
  import opened UploadSafety

  /** The operation's process runs, and the owner a recovery took for dead is dead. */
  ghost predicate Sound(s: State, th: Thread) {
    && th.pid in s.live && s.live[th.pid] == th.instance && th.instance < s.next
    && (th.pc.Recovering? && th.pc.recover.RecoverUnlink? ==>
          th.pc.recover.found.instance < s.next && !Alive(s, th.pc.recover.found))
  }

  ghost predicate WeakInv(s: State) {
    && (forall t :: t in s.threads ==> Sound(s, s.threads[t]))
    && (forall id :: id in s.dirs && s.dirs[id].claim.Some? ==> s.dirs[id].claim.value.instance < s.next)
    && (forall p :: p in s.live ==> s.live[p] < s.next)
  }

  /** What any call does to claims and operations. */
  ghost predicate PlainStep(s: State, s': State, t: Tid)
    requires t in s.threads
  {
    s'.live == s.live && s.next <= s'.next && ThreadStep(s, s', t) && NoOthersClaim(s.dirs, s'.dirs, s.threads[t].instance)
  }

  /** A claim file that was not there before names this instance. */
  ghost predicate NoOthersClaim(was: map<Id, Dir>, now: map<Id, Dir>, instance: nat) {
    forall id :: id in now && now[id].claim.Some? ==>
      (id in was && was[id].claim == now[id].claim) || now[id].claim.value.instance == instance
  }

  lemma SameClaims(dirs: map<Id, Dir>, id: Id, d: Dir, instance: nat)
    requires id in dirs && (d.claim == dirs[id].claim || d.claim == None || d.claim.value.instance == instance)
    ensures NoOthersClaim(dirs, dirs[id := d], instance) && NoOthersClaim(dirs, dirs - {id}, instance)
    ensures NoOthersClaim(dirs, dirs, instance)
  {
  }

  lemma NothingClaimed(dirs: map<Id, Dir>, instance: nat)
    ensures NoOthersClaim(dirs, dirs, instance)
  {
  }

  lemma InstallIsPlain(s: State, t: Tid)
    requires t in s.threads && s.threads[t].pc.Installing?
    ensures PlainStep(s, StepInstall(s, t), t)
  {
    hide NoOthersClaim, TargetExists, AfterLink;
    var me := s.threads[t];
    NothingClaimed(s.dirs, me.instance);
    if me.id in s.dirs {
      var d := s.dirs[me.id];
      match me.pc.install
      case WriteTemp => SameClaims(s.dirs, me.id, d.(temps := d.temps + {t}), me.instance);
      case LinkTemp => LinkIsPlain(d, me.pc.file, t, me); SameClaims(s.dirs, me.id, Installed(d, me.pc.file, t, me), me.instance);
      case UnlinkTemp => SameClaims(s.dirs, me.id, d.(temps := d.temps - {t}), me.instance);
    }
  }

  lemma LinkIsPlain(d: Dir, f: File, t: Tid, me: Thread)
    ensures var c := Installed(d, f, t, me).claim; c == d.claim || (c.Some? && c.value.instance == me.instance)
    ensures !AfterLink(f).Recovering?
  {
  }

  lemma InitIsPlain(s: State, t: Tid)
    requires t in s.threads && s.threads[t].pc.Initializing?
    ensures PlainStep(s, StepInit(s, t), t)
  {
  }

  lemma StoreIsPlain(s: State, t: Tid)
    requires t in s.threads && s.threads[t].pc.Storing?
    ensures PlainStep(s, StepStore(s, t), t)
  {
    hide ExpectedChunkSize;
  }

  lemma ClaimIsPlain(s: State, t: Tid)
    requires t in s.threads && s.threads[t].pc.Claiming?
    ensures PlainStep(s, StepClaim(s, t), t)
  {
    hide CompleteListing;
  }

  lemma AtIsPlain(s: State, s1: State, t: Tid, pc: Pc)
    requires t in s.threads && s1.threads == s.threads && s1.live == s.live && s1.next == s.next && !pc.Recovering?
    requires NoOthersClaim(s.dirs, s1.dirs, s.threads[t].instance)
    ensures PlainStep(s, At(s1, t, pc), t)
  {
  }

  lemma DoneIsPlain(s: State, s1: State, t: Tid)
    requires t in s.threads && s1.threads == s.threads && s1.live == s.live && s1.next == s.next
    requires NoOthersClaim(s.dirs, s1.dirs, s.threads[t].instance)
    ensures PlainStep(s, Done(s1, t), t)
  {
  }

  /** The ways an operation changes its directory's claim: not at all, or by taking it away. */
  lemma DiskIsPlain(s: State, t: Tid, cause: Cause)
    requires t in s.threads
    ensures var id, me := s.threads[t].id, s.threads[t].instance;
      && NoOthersClaim(s.dirs, s.dirs, me) && NoOthersClaim(s.dirs, WithoutTemp(s, t).dirs, me)
      && NoOthersClaim(s.dirs, Unclaimed(s, id).dirs, me) && NoOthersClaim(s.dirs, Remove(s, id, cause).dirs, me)
  {
    hide NoOthersClaim;
    var me := s.threads[t];
    NothingClaimed(s.dirs, me.instance);
    if me.id in s.dirs {
      SameClaims(s.dirs, me.id, s.dirs[me.id].(temps := s.dirs[me.id].temps - {t}), me.instance);
      SameClaims(s.dirs, me.id, s.dirs[me.id].(claim := None), me.instance);
    }
  }

  lemma HolderIsPlain(s: State, t: Tid, choice: bool)
    requires t in s.threads && s.threads[t].pc.Holder?
    ensures PlainStep(s, StepHolder(s, t, choice), t)
  {
    hide CompleteListing, TokenMatches, ExpectedChunkSize, ReadManifest, ReadClaim, NoOthersClaim, PlainStep, WithoutTemp, Unclaimed, Remove;
    var s', id := StepHolder(s, t, choice), s.threads[t].id;
    DiskIsPlain(s, t, Cleared);
    match s.threads[t].pc.holder
    case DropClaimTemp => TempKeeps(s, t); AtIsPlain(s, WithoutTemp(s, t), t, Holder(Idle));
    case ReleaseUnlink => UnclaimKeeps(s, id); DoneIsPlain(s, Unclaimed(s, id), t);
    case FinRemove(to, _) => DiskIsPlain(s, t, AfterMerge(to)); RemoveKeeps(s, id, AfterMerge(to)); DoneIsPlain(s, Remove(s, id, AfterMerge(to)), t);
    case ClearRemove => RemoveKeeps(s, id, Cleared); DoneIsPlain(s, Remove(s, id, Cleared), t);
    case FinLink(_, _, _, _) => LinkMovesOn(s, t, choice);
    case _ =>
      DoneIsPlain(s, s, t);
      OnlyMovesOn(s, t, choice);
      if s' != Done(s, t) {
        var h :| s' == At(s, t, Holder(h));
        AtIsPlain(s, s, t, Holder(h));
      }
  }

  lemma LinkMovesOn(s: State, t: Tid, choice: bool)
    requires t in s.threads && s.threads[t].pc.Holder? && s.threads[t].pc.holder.FinLink?
    ensures PlainStep(s, StepHolder(s, t, choice), t)
  {
    hide NoOthersClaim, PlainStep;
    var h := s.threads[t].pc.holder;
    NothingClaimed(s.dirs, s.threads[t].instance);
    AtIsPlain(s, s, t, Holder(Idle));
    AtIsPlain(s, s.(files := s.files[h.to := MergedFile(s.threads[t].id, h.written)]), t, Holder(if h.cleanup then FinRemove(h.to, h.manifest) else Idle));
  }

  /** The other calls of a holder change its own next call only. */
  lemma OnlyMovesOn(s: State, t: Tid, choice: bool)
    requires t in s.threads && s.threads[t].pc.Holder?
    requires var h := s.threads[t].pc.holder;
      !h.DropClaimTemp? && !h.ReleaseUnlink? && !h.FinLink? && !h.FinRemove? && !h.ClearRemove?
    ensures var s' := StepHolder(s, t, choice); s' == Done(s, t) || exists h :: s' == At(s, t, Holder(h))
  {
    hide At, Done, CompleteListing, TokenMatches, ExpectedChunkSize, ReadManifest, ReadClaim;
    if s.threads[t].pc.holder.Idle? { AtSame(s, t); }
  }

  lemma AtSame(s: State, t: Tid)
    requires t in s.threads
    ensures At(s, t, s.threads[t].pc) == s
  {
    assert s.threads[t := s.threads[t]] == s.threads;
  }

  lemma TempKeeps(s: State, t: Tid)
    requires t in s.threads
    ensures var s1 := WithoutTemp(s, t); s1.threads == s.threads && s1.live == s.live && s1.next == s.next
  {
  }

  lemma UnclaimKeeps(s: State, id: Id)
    ensures var s1 := Unclaimed(s, id); s1.threads == s.threads && s1.live == s.live && s1.next == s.next
  {
  }

  lemma RemoveKeeps(s: State, id: Id, cause: Cause)
    ensures var s1 := Remove(s, id, cause); s1.threads == s.threads && s1.live == s.live && s1.next == s.next
  {
  }

  lemma SweepIsPlain(s: State, t: Tid, choice: bool)
    requires t in s.threads && s.threads[t].pc.Sweeping?
    ensures PlainStep(s, StepSweeping(s, t, choice), t)
  {
  }

  lemma SweeperIsPlain(s: State, t: Tid, choice: bool)
    requires t in s.threads && s.threads[t].pc.Sweeper?
    ensures PlainStep(s, StepSweeper(s, t, choice), t)
  {
    hide TokenMatches, NoOthersClaim, PlainStep, WithoutTemp, Unclaimed, Remove;
    var s', id := StepSweeper(s, t, choice), s.threads[t].id;
    DiskIsPlain(s, t, Expired);
    TempKeeps(s, t);
    UnclaimKeeps(s, id);
    RemoveKeeps(s, id, Expired);
    match s.threads[t].pc.sweeper
    case DropSweepTemp => AtIsPlain(s, WithoutTemp(s, t), t, Sweeper(Recheck));
    case Recheck => AtIsPlain(s, s, t, Sweeper(if choice then SweepRemove else SweepReleaseRead));
    case SweepRemove => DoneIsPlain(s, Remove(s, id, Expired), t); AtIsPlain(s, s, t, Sweeper(SweepReleaseRead));
    case SweepReleaseRead => DoneIsPlain(s, s, t); AtIsPlain(s, s, t, Sweeper(SweepReleaseUnlink));
    case SweepReleaseUnlink => DoneIsPlain(s, Unclaimed(s, id), t);
  }

  lemma RecoverIsPlain(s: State, t: Tid)
    requires t in s.threads && s.threads[t].pc.Recovering?
    ensures PlainStep(s, StepRecover(s, t), t)
  {
  }

  lemma StepIsPlain(s: State, t: Tid, choice: bool)
    requires t in s.threads
    ensures PlainStep(s, Step(s, t, choice), t)
  {
    hide PlainStep;
    match s.threads[t].pc
    case Installing(_, _) => InstallIsPlain(s, t);
    case Initializing(_, _) => InitIsPlain(s, t);
    case Storing(_, _, _, _) => StoreIsPlain(s, t);
    case Claiming(_) => ClaimIsPlain(s, t);
    case Holder(_) => HolderIsPlain(s, t, choice);
    case Sweeping(_) => SweepIsPlain(s, t, choice);
    case Sweeper(_) => SweeperIsPlain(s, t, choice);
    case Recovering(_) => RecoverIsPlain(s, t);
  }

  /** The read of a recovery judges a claim by process ids, and never takes a running owner for dead. */
  lemma ReadJudges(s: State, t: Tid)
    requires WeakInv(s) && t in s.threads && s.threads[t].pc.Recovering?
    ensures var s' := StepRecover(s, t); t in s'.threads ==> Sound(s', s'.threads[t])
  {
    assert Sound(s, s.threads[t]);
  }

  lemma StepKeepsWeakInv(s: State, t: Tid, choice: bool)
    requires WeakInv(s) && t in s.threads
    ensures WeakInv(Step(s, t, choice))
  {
    hide Step;
    var s' := Step(s, t, choice);
    StepIsPlain(s, t, choice);
    forall u | u in s'.threads ensures Sound(s', s'.threads[u]) {
      if u == t && s'.threads[t].pc.Recovering? {
        StepOfRecovery(s, t, choice);
        ReadJudges(s, t);
      }
      assert Sound(s, s.threads[u]);
    }
    assert Sound(s, s.threads[t]);
  }

  lemma StepOfRecovery(s: State, t: Tid, choice: bool)
    requires t in s.threads && s.threads[t].pc.Recovering?
    ensures Step(s, t, choice) == StepRecover(s, t)
  {
  }

  lemma ApplyKeepsWeakInv(s: State, l: Label)
    requires WeakInv(s)
    ensures WeakInv(Apply(s, l))
  {
    hide Step;
    if l.Go? {
      if l.tid in s.threads { StepKeepsWeakInv(s, l.tid, l.choice); }
    } else {
      var s' := Apply(s, l);
      forall t | t in s'.threads ensures Sound(s', s'.threads[t]) {
        if t in s.threads { assert Sound(s, s.threads[t]); }
      }
    }
  }

  lemma {:induction false} RunKeepsWeakInv(sole: bool, ls: seq<Label>)
    ensures WeakInv(Run(Boot(sole), ls))
    decreases |ls|
  {
    if ls != [] {
      RunKeepsWeakInv(sole, ls[..|ls| - 1]);
      ApplyKeepsWeakInv(Run(Boot(sole), ls[..|ls| - 1]), ls[|ls| - 1]);
    }
  }

  /** The claim of a running owner goes. */
  ghost predicate TakesRunningClaim(s: State, s': State, id: Id) {
    ReadClaim(s, id).Some? && Alive(s, ReadClaim(s, id).value) && ReadClaim(s', id) == None
  }

  /**
   However recoveries overlap, the unlink of one takes a running owner's claim exactly if the claim on disk is no longer
   the one it read, and its owner runs.
   */
  lemma UnlinkTakesARunningClaimIff(sole: bool, ls: seq<Label>, t: Tid)
    requires var s := Run(Boot(sole), ls); t in s.threads && s.threads[t].pc.Recovering? && s.threads[t].pc.recover.RecoverUnlink?
    ensures var s := Run(Boot(sole), ls);
      var th := s.threads[t];
      TakesRunningClaim(s, StepRecover(s, t), th.id) <==>
        match ReadClaim(s, th.id)
        case None => false
        case Some(c) => c != th.pc.recover.found && Alive(s, c)
  {
    RunKeepsWeakInv(sole, ls);
    assert Sound(Run(Boot(sole), ls), Run(Boot(sole), ls).threads[t]);
  }
}
