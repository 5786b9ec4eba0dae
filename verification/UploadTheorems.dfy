/** The promises of the upload store, over every reachable state and every run. */
module UploadTheorems {
  import opened Common
  import opened UploadClaims
  import opened UploadManifest
  import opened UploadProtocol
  import opened UploadSafety

  // ---- claims

  /** A session has at most one claim holder; its process runs, and the claim file is the one it wrote. */
  lemma AtMostOneHolder(s: State, t: Tid, u: Tid)
    requires Reachable(s)
    requires t in s.threads && u in s.threads && Holds(s.threads[t]) && Holds(s.threads[u]) && s.threads[t].id == s.threads[u].id
    ensures t == u
    ensures ReadClaim(s, s.threads[t].id) == Some(ClaimOf(t, s.threads[t])) && Alive(s, ClaimOf(t, s.threads[t]))
  {
    ReachableInv(s);
    assert ThreadInv(s, t, s.threads[t]) && ThreadInv(s, u, s.threads[u]);
  }

  /**
   A claim leaves the disk in two ways only: its own holder takes it away (release, or a removal of the
   directory), or the recovery unlinks it, and then its owner is dead.
   */
  lemma ClaimEndsByHolderOrDeath(s: State, l: Label, id: Id, c: Claim)
    requires Inv(s)
    ensures ReadClaim(s, id) == Some(c) && ReadClaim(Apply(s, l), id) != Some(c) ==>
      && l.Go? && l.tid in s.threads && s.threads[l.tid].id == id
      && EndsClaim(s, s.threads[l.tid], l.tid, c)
  {
    if l.Go? && l.tid in s.threads && ReadClaim(s, id) == Some(c) {
      StepIsGood(s, l.tid, l.choice);
      assert DirStep(s, Apply(s, l), s.threads[l.tid], id);
      assert ThreadInv(s, l.tid, s.threads[l.tid]);
    }
  }

  /** The operation holds this claim, or is a recovery that met it after its owner had died. */
  ghost predicate EndsClaim(s: State, th: Thread, t: Tid, c: Claim) {
    (Holds(th) && c == ClaimOf(t, th)) || (th.pc.Recovering? && !Alive(s, c))
  }

  /**
   The recovery decides from process ids. It never takes a running owner for dead; it takes a dead owner for
   running exactly when another process than itself now has the owner's process id.
   */
  lemma RecoveryJudgesOwners(s: State, t: Tid, c: Claim)
    requires Inv(s) && t in s.threads
    ensures SeemsAlive(s, s.threads[t], c) <==>
      Alive(s, c) || (c.pid != s.threads[t].pid && c.pid in s.live && s.live[c.pid] != c.instance)
  {
    assert ThreadInv(s, t, s.threads[t]);
  }

  /**
   A finalize claim sits on all the chunks its manifest prescribes, if the directory is still the one the claim
   listed. (If it was removed and made anew in between, the set may be anything.)
   */
  lemma ClaimedSetIsFull(s: State, t: Tid)
    requires Reachable(s) && t in s.threads && s.threads[t].pc.Holder?
    ensures s.threads[t].id in s.dirs && s.threads[t].seen.Some?
    ensures var d, seen := s.dirs[s.threads[t].id], s.threads[t].seen.value;
      d.born == seen.born ==> Full(d, seen.manifest)
  {
    ReachableInv(s);
    assert ThreadInv(s, t, s.threads[t]);
  }

  // ---- write-once directories

  /** Same directory, nothing overwritten; the claim may differ. */
  ghost predicate Extends(d: Dir, d': Dir) {
    && d'.born == d.born
    && (d.manifest.Some? ==> d'.manifest == d.manifest)
    && (forall i :: i in d.chunks ==> i in d'.chunks && d'.chunks[i] == d.chunks[i])
  }

  /** The directory is still there with all it held, or was removed with all it held. */
  ghost predicate Survives(d: Dir, id: Id, s: State, from: nat)
    requires from <= |s.removed|
  {
    || (id in s.dirs && Extends(d, s.dirs[id]))
    || exists k :: from <= k < |s.removed| && s.removed[k].id == id && Extends(d, s.removed[k].dir)
  }

  /** A directory removed after its merge left the complete merged file behind. */
  ghost predicate LogInv(s: State) {
    forall k :: 0 <= k < |s.removed| && s.removed[k].cause.AfterMerge? ==> MergedBehind(s, s.removed[k])
  }

  ghost predicate MergedBehind(s: State, r: Removal)
    requires r.cause.AfterMerge?
  {
    && r.dir.manifest.Some? && Full(r.dir, r.dir.manifest.value)
    && r.cause.to in s.files
    && s.files[r.cause.to] == MergedFile(r.id, Concat(r.dir.chunks, r.dir.manifest.value.totalChunks))
  }

  /** One label: the log and the files only grow, and every directory survives. */
  lemma ApplyPreserves(s: State, l: Label)
    requires Inv(s) && LogInv(s)
    ensures var s' := Apply(s, l);
      && s.removed <= s'.removed && LogInv(s')
      && (forall p :: p in s.files ==> p in s'.files && s'.files[p] == s.files[p])
      && (forall id :: id in s.dirs ==> Survives(s.dirs[id], id, s', |s.removed|))
  {
    if l.Go? && l.tid in s.threads {
      StepPreserves(s, l.tid, l.choice);
    } else {
      SameDiskPreserves(s, Apply(s, l));
    }
  }

  lemma SameDiskPreserves(s: State, s': State)
    requires LogInv(s) && s'.dirs == s.dirs && s'.files == s.files && s'.removed == s.removed
    ensures LogInv(s') && forall id :: id in s.dirs ==> Survives(s.dirs[id], id, s', |s.removed|)
  {
    forall id | id in s.dirs ensures Survives(s.dirs[id], id, s', |s.removed|) { assert Extends(s.dirs[id], s'.dirs[id]); }
    forall k | 0 <= k < |s'.removed| && s'.removed[k].cause.AfterMerge? ensures MergedBehind(s', s'.removed[k]) {
      assert MergedBehind(s, s.removed[k]);
    }
  }

  lemma StepPreserves(s: State, t: Tid, choice: bool)
    requires Inv(s) && LogInv(s) && t in s.threads
    ensures var s' := Step(s, t, choice);
      && s.removed <= s'.removed && LogInv(s')
      && (forall p :: p in s.files ==> p in s'.files && s'.files[p] == s.files[p])
      && (forall id :: id in s.dirs ==> Survives(s.dirs[id], id, s', |s.removed|))
  {
    StepIsGood(s, t, choice);
    StepLogs(s, t, choice);
    GoodStepPreserves(s, Step(s, t, choice), t);
  }

  lemma GoodStepPreserves(s: State, s': State, t: Tid)
    requires LogInv(s) && t in s.threads && GoodStep(s, s', t) && Logs(s, s', s.threads[t].id)
    ensures s.removed <= s'.removed && LogInv(s')
    ensures forall id :: id in s.dirs ==> Survives(s.dirs[id], id, s', |s.removed|)
  {
    forall id | id in s.dirs ensures Survives(s.dirs[id], id, s', |s.removed|) {
      assert DirStep(s, s', s.threads[t], id);
      if id !in s'.dirs { assert s'.removed[|s.removed|].id == id && Extends(s.dirs[id], s'.removed[|s.removed|].dir); }
    }
    forall k | 0 <= k < |s'.removed| && s'.removed[k].cause.AfterMerge? ensures MergedBehind(s', s'.removed[k]) {
      if k < |s.removed| { assert MergedBehind(s, s.removed[k]); }
    }
  }

  /** A removal is logged with what it took. */
  ghost predicate Logs(s: State, s': State, id: Id) {
    || (s'.removed == s.removed && forall k :: k in s.dirs ==> k in s'.dirs)
    || (&& id in s.dirs && |s'.removed| == |s.removed| + 1 && s.removed <= s'.removed
        && (forall k :: k in s.dirs && k != id ==> k in s'.dirs)
        && var r := s'.removed[|s.removed|];
           r.id == id && r.dir == s.dirs[id] && (r.cause.AfterMerge? ==> MergedBehind(s', r)))
  }

  /** What a step adds to the log. */
  lemma StepLogs(s: State, t: Tid, choice: bool)
    requires Inv(s) && t in s.threads
    ensures Logs(s, Step(s, t, choice), s.threads[t].id)
  {
    if s.threads[t].pc.Holder? { HolderLogs(s, t, choice); }
    else if s.threads[t].pc.Sweeper? { SweeperLogs(s, t, choice); }
    else { OtherStepsTouch(s, t, choice); }
  }

  lemma OtherStepsTouch(s: State, t: Tid, choice: bool)
    requires t in s.threads && !s.threads[t].pc.Holder? && !s.threads[t].pc.Sweeper?
    ensures OnlyTouches(s, Step(s, t, choice), s.threads[t].id)
  {
  }

  lemma HolderLogs(s: State, t: Tid, choice: bool)
    requires Inv(s) && t in s.threads && s.threads[t].pc.Holder?
    ensures Logs(s, StepHolder(s, t, choice), s.threads[t].id)
  {
    assert ThreadInv(s, t, s.threads[t]);
  }

  lemma SweeperLogs(s: State, t: Tid, choice: bool)
    requires Inv(s) && t in s.threads && s.threads[t].pc.Sweeper?
    ensures Logs(s, StepSweeper(s, t, choice), s.threads[t].id)
  {
    assert ThreadInv(s, t, s.threads[t]);
  }

  lemma {:induction false} RunPreserves(s: State, ls: seq<Label>)
    requires Inv(s) && LogInv(s)
    ensures var s' := Run(s, ls);
      && Inv(s') && LogInv(s') && s.removed <= s'.removed
      && (forall p :: p in s.files ==> p in s'.files && s'.files[p] == s.files[p])
      && (forall id :: id in s.dirs ==> Survives(s.dirs[id], id, s', |s.removed|))
    decreases |ls|
  {
    if ls == [] {
      forall id | id in s.dirs ensures Survives(s.dirs[id], id, s, |s.removed|) { assert Extends(s.dirs[id], s.dirs[id]); }
    } else {
      var m := Run(s, ls[..|ls| - 1]);
      var s' := Run(s, ls);
      RunPreserves(s, ls[..|ls| - 1]);
      ApplyKeepsInv(m, ls[|ls| - 1]);
      ApplyPreserves(m, ls[|ls| - 1]);
      forall id | id in s.dirs ensures Survives(s.dirs[id], id, s', |s.removed|) {
        SurvivesTrans(s.dirs[id], id, s, m, s');
      }
    }
  }

  lemma SurvivesTrans(d: Dir, id: Id, s: State, m: State, s': State)
    requires s.removed <= m.removed <= s'.removed
    requires Survives(d, id, m, |s.removed|)
    requires forall k :: k in m.dirs ==> Survives(m.dirs[k], k, s', |m.removed|)
    ensures Survives(d, id, s', |s.removed|)
  {
    if id in m.dirs && Extends(d, m.dirs[id]) {
      assert Survives(m.dirs[id], id, s', |m.removed|);
    } else {
      var k :| |s.removed| <= k < |m.removed| && m.removed[k].id == id && Extends(d, m.removed[k].dir);
      assert s'.removed[k] == m.removed[k];
    }
  }

  /** From state s on, this session went away only after its merge. What happened to others does not matter. */
  ghost predicate OnlyMergedAway(s: State, s': State, id: Id) {
    forall k :: |s.removed| <= k < |s'.removed| && s'.removed[k].id == id ==> s'.removed[k].cause.AfterMerge?
  }

  /** The chunks of d are all on disk, or all in a complete merged file. */
  ghost predicate SafeChunks(s: State, id: Id, d: Dir) {
    || (id in s.dirs && Extends(d, s.dirs[id]))
    || exists to, d': Dir ::
         && Extends(d, d') && d'.manifest.Some? && HasPrefix(d'.chunks, d'.manifest.value.totalChunks)
         && to in s.files && s.files[to] == MergedFile(id, Concat(d'.chunks, d'.manifest.value.totalChunks))
  }

  /**
   Crash safety: whatever a session held at any point of a run is, at any later point, still there or in a complete
   merged file, whichever processes died in between, as long as this session did not expire and was not cleared in
   between. Merged files never change.
   */
  lemma CrashSafety(ls: seq<Label>, more: seq<Label>, id: Id)
    requires id in Run(Boot(true), ls).dirs && OnlyMergedAway(Run(Boot(true), ls), Run(Run(Boot(true), ls), more), id)
    ensures var s, s' := Run(Boot(true), ls), Run(Run(Boot(true), ls), more);
      && SafeChunks(s', id, s.dirs[id])
      && (forall p :: p in s.files ==> p in s'.files && s'.files[p] == s.files[p])
  {
    var s := Run(Boot(true), ls);
    var s' := Run(s, more);
    RunPreserves(Boot(true), ls);
    RunPreserves(s, more);
    assert Survives(s.dirs[id], id, s', |s.removed|);
    if !(id in s'.dirs && Extends(s.dirs[id], s'.dirs[id])) {
      var k :| |s.removed| <= k < |s'.removed| && s'.removed[k].id == id && Extends(s.dirs[id], s'.removed[k].dir);
      assert MergedBehind(s', s'.removed[k]);
    }
  }

  // ---- what a finalize writes

  /** The step that makes a merge visible writes exactly the session's chunks, all of them, and never over a file. */
  lemma FinalizeWritesTheSession(s: State, t: Tid, choice: bool, to: Path)
    requires Inv(s) && t in s.threads && to !in s.files && to in Step(s, t, choice).files
    ensures var id := s.threads[t].id;
      && id in s.dirs && s.dirs[id].manifest.Some?
      && var m := s.dirs[id].manifest.value;
         && HasPrefix(s.dirs[id].chunks, m.totalChunks)
         && Step(s, t, choice).files == s.files[to := MergedFile(id, Concat(s.dirs[id].chunks, m.totalChunks))]
         && |Concat(s.dirs[id].chunks, m.totalChunks)| == m.fileSize
         && ReadClaim(s, id) == Some(ClaimOf(t, s.threads[t]))
  {
    assert ThreadInv(s, t, s.threads[t]);
    FilesChangeAtLink(s, t, choice);
  }

  lemma FilesChangeAtLink(s: State, t: Tid, choice: bool)
    requires t in s.threads
    ensures Step(s, t, choice).files == s.files || LinksFile(s, s.threads[t], Step(s, t, choice))
  {
    if s.threads[t].pc.Holder? { HolderFilesChangeAtLink(s, t, choice); }
  }

  lemma HolderFilesChangeAtLink(s: State, t: Tid, choice: bool)
    requires t in s.threads && s.threads[t].pc.Holder?
    ensures StepHolder(s, t, choice).files == s.files || LinksFile(s, s.threads[t], StepHolder(s, t, choice))
  {
    hide CompleteListing, TokenMatches, ExpectedChunkSize, ReadManifest, ReadClaim;
  }

  ghost predicate LinksFile(s: State, th: Thread, s': State) {
    && th.pc.Holder? && th.pc.holder.FinLink?
    && s'.files == s.files[th.pc.holder.to := MergedFile(th.id, th.pc.holder.written)]
  }

  // ---- honest runs

  /** A file, the manifest its client declares for it, and the slices that manifest cuts it into. */
  datatype Source = Source(file: Bytes, manifest: Manifest, parts: seq<Bytes>)

  ghost predicate ValidSource(src: Source) {
    && Partitions(src.manifest) && src.manifest.fileSize == |src.file|
    && |src.parts| == src.manifest.totalChunks
    && forall k :: 0 <= k < |src.parts| ==> src.parts[k] == Slice(src.file, src.manifest, k)
  }

  /** The data sent for chunk k; indices past the last chunk are refused anyway. */
  ghost predicate IsSlice(src: Source, k: nat, data: Bytes) {
    k < |src.parts| ==> data == src.parts[k]
  }

  /** Clients declare and send one file for each session, in any order, any number of times. */
  ghost predicate HonestRequest(f: Id -> Source, r: Request) {
    match r
    case InitRequest(id, m) => m == f(id).manifest
    case StoreRequest(id, k, _, data) => IsSlice(f(id), k, data)
    case _ => true
  }

  ghost predicate Honest(f: Id -> Source, ls: seq<Label>) {
    && (forall id :: ValidSource(f(id)))
    && (forall i :: 0 <= i < |ls| && ls[i].Start? ==> HonestRequest(f, ls[i].request))
  }

  ghost predicate HonestDir(src: Source, d: Dir) {
    && (d.manifest.Some? ==> d.manifest.value == src.manifest)
    && (forall k :: k in d.chunks ==> IsSlice(src, k, d.chunks[k]))
  }

  ghost predicate HonestPc(src: Source, pc: Pc) {
    match pc
    case Installing(_, ManifestFile(m)) => m == src.manifest
    case Installing(_, ChunkFile(k, data)) => IsSlice(src, k, data)
    case Initializing(_, m) => m == src.manifest
    case Storing(_, k, _, data) => IsSlice(src, k, data)
    case _ => true
  }

  ghost predicate HonestState(f: Id -> Source, s: State) {
    && (forall id :: id in s.dirs ==> HonestDir(f(id), s.dirs[id]))
    && (forall t :: t in s.threads ==> HonestPc(f(s.threads[t].id), s.threads[t].pc))
    && (forall p :: p in s.files ==> s.files[p].bytes == f(s.files[p].id).file)
  }

  /** Enough to check: the operation's own next call, the directories it touched, and a new file. */
  lemma HonestFrame(f: Id -> Source, s: State, s': State, t: Tid)
    requires HonestState(f, s) && t in s.threads && ThreadStep(s, s', t)
    requires t in s'.threads ==> HonestPc(f(s.threads[t].id), s'.threads[t].pc)
    requires forall id :: id in s'.dirs && (id !in s.dirs || s'.dirs[id] != s.dirs[id]) ==> HonestDir(f(id), s'.dirs[id])
    requires forall p :: p in s'.files && (p !in s.files || s'.files[p] != s.files[p]) ==> s'.files[p].bytes == f(s'.files[p].id).file
    ensures HonestState(f, s')
  {
  }

  lemma StepKeepsHonest(f: Id -> Source, s: State, t: Tid, choice: bool)
    requires Inv(s) && HonestState(f, s) && t in s.threads
    requires forall id :: ValidSource(f(id))
    ensures HonestState(f, Step(s, t, choice))
  {
    var me := s.threads[t];
    StepIsGood(s, t, choice);
    assert HonestPc(f(me.id), me.pc);
    assert me.id in s.dirs ==> HonestDir(f(me.id), s.dirs[me.id]);
    StepMakesHonest(f(me.id), s, t, choice);
    HonestFrame(f, s, Step(s, t, choice), t);
  }

  /** The operation's part of an honest step: its next call, its directory, its merged file. */
  ghost predicate HonestStep(src: Source, s: State, s': State, t: Tid)
    requires t in s.threads
  {
    var id := s.threads[t].id;
    && (t in s'.threads ==> HonestPc(src, s'.threads[t].pc))
    && (forall k :: k in s'.dirs && k != id ==> k in s.dirs && s'.dirs[k] == s.dirs[k])
    && (id in s'.dirs ==> HonestDir(src, s'.dirs[id]))
    && (forall p :: p in s'.files && (p !in s.files || s'.files[p] != s.files[p]) ==> s'.files[p] == MergedFile(id, src.file))
  }

  lemma StepMakesHonest(src: Source, s: State, t: Tid, choice: bool)
    requires Inv(s) && t in s.threads && ValidSource(src) && HonestPc(src, s.threads[t].pc)
    requires s.threads[t].id in s.dirs ==> HonestDir(src, s.dirs[s.threads[t].id])
    ensures HonestStep(src, s, Step(s, t, choice), t)
  {
    if s.threads[t].pc.Installing? {
      InstallMakesHonest(src, s, t);
    } else if s.threads[t].pc.Holder? && s.threads[t].pc.holder.FinLink? {
      FinLinkMakesHonest(src, s, t, choice);
    } else {
      QuietSteps(s, t, choice);
      QuietMakesHonest(src, s, Step(s, t, choice), t);
    }
  }

  /** Manifest and chunks of the directory stay, and so do the other directories and the files. */
  ghost predicate Quiet(s: State, s': State, id: Id) {
    && s'.files == s.files
    && (forall k :: k in s'.dirs && k != id ==> k in s.dirs && s'.dirs[k] == s.dirs[k])
    && (id in s'.dirs && id in s.dirs ==> s'.dirs[id].manifest == s.dirs[id].manifest && s'.dirs[id].chunks == s.dirs[id].chunks)
    && (id in s'.dirs && id !in s.dirs ==> s'.dirs[id].manifest == None && s'.dirs[id].chunks == map[])
  }

  /** What a client sent is handed on, or forgotten. */
  ghost predicate PcFollows(a: Pc, b: Pc) {
    match b
    case Installing(_, ManifestFile(m)) => a.Initializing? && a.metadata == m
    case Installing(_, ChunkFile(k, data)) => a.Storing? && a.index == k && a.data == data
    case Initializing(_, m) => a.Initializing? && a.metadata == m
    case Storing(_, k, _, data) => a.Storing? && a.index == k && a.data == data
    case _ => true
  }

  lemma QuietSteps(s: State, t: Tid, choice: bool)
    requires t in s.threads && !s.threads[t].pc.Installing?
    requires s.threads[t].pc.Holder? ==> !s.threads[t].pc.holder.FinLink?
    ensures var s' := Step(s, t, choice);
      Quiet(s, s', s.threads[t].id) && (t in s'.threads ==> PcFollows(s.threads[t].pc, s'.threads[t].pc))
  {
    if s.threads[t].pc.Holder? { QuietHolder(s, t, choice); HolderStaysHolder(s, t, choice); }
    else if s.threads[t].pc.Sweeper? { QuietSweeper(s, t, choice); }
    else { QuietReader(s, t, choice); }
  }

  lemma QuietReader(s: State, t: Tid, choice: bool)
    requires t in s.threads
    requires var pc := s.threads[t].pc; pc.Initializing? || pc.Storing? || pc.Claiming? || pc.Sweeping? || pc.Recovering?
    ensures var s' := Step(s, t, choice);
      Quiet(s, s', s.threads[t].id) && (t in s'.threads ==> PcFollows(s.threads[t].pc, s'.threads[t].pc))
  {
    if s.threads[t].pc.Initializing? { QuietInit(s, t); }
    else if s.threads[t].pc.Storing? { QuietStore(s, t); }
    else { QuietLook(s, t, choice); }
  }

  lemma QuietLook(s: State, t: Tid, choice: bool)
    requires t in s.threads
    requires var pc := s.threads[t].pc; pc.Claiming? || pc.Sweeping? || pc.Recovering?
    ensures var s' := Step(s, t, choice);
      Quiet(s, s', s.threads[t].id) && (t in s'.threads ==> PcFollows(s.threads[t].pc, s'.threads[t].pc))
  {
    hide Quiet, StepClaim, StepSweeping, StepRecover;
    if s.threads[t].pc.Recovering? { QuietRecover(s, t); }
    else if s.threads[t].pc.Claiming? { QuietClaim(s, t); }
    else { QuietSweeping(s, t, choice); }
  }

  lemma QuietClaim(s: State, t: Tid)
    requires t in s.threads && s.threads[t].pc.Claiming?
    ensures var s' := StepClaim(s, t);
      Quiet(s, s', s.threads[t].id) && (t in s'.threads ==> PcFollows(s.threads[t].pc, s'.threads[t].pc))
  {
    hide Quiet, CompleteListing;
    SameDirsAreQuiet(s, StepClaim(s, t), s.threads[t].id);
  }

  lemma QuietSweeping(s: State, t: Tid, choice: bool)
    requires t in s.threads && s.threads[t].pc.Sweeping?
    ensures var s' := StepSweeping(s, t, choice);
      Quiet(s, s', s.threads[t].id) && (t in s'.threads ==> PcFollows(s.threads[t].pc, s'.threads[t].pc))
  {
    hide Quiet;
    SameDirsAreQuiet(s, StepSweeping(s, t, choice), s.threads[t].id);
  }

  lemma QuietRecover(s: State, t: Tid)
    requires t in s.threads && s.threads[t].pc.Recovering?
    ensures var s' := StepRecover(s, t);
      Quiet(s, s', s.threads[t].id) && (t in s'.threads ==> s'.threads[t].pc.Recovering?)
  {
  }

  lemma QuietInit(s: State, t: Tid)
    requires t in s.threads && s.threads[t].pc.Initializing?
    ensures var s' := StepInit(s, t);
      Quiet(s, s', s.threads[t].id) && (t in s'.threads ==> PcFollows(s.threads[t].pc, s'.threads[t].pc))
  {
  }

  lemma QuietStore(s: State, t: Tid)
    requires t in s.threads && s.threads[t].pc.Storing?
    ensures var s' := StepStore(s, t);
      Quiet(s, s', s.threads[t].id) && (t in s'.threads ==> PcFollows(s.threads[t].pc, s'.threads[t].pc))
  {
  }

  lemma QuietHolder(s: State, t: Tid, choice: bool)
    requires t in s.threads && s.threads[t].pc.Holder? && !s.threads[t].pc.holder.FinLink?
    ensures Quiet(s, StepHolder(s, t, choice), s.threads[t].id)
  {
    hide CompleteListing, TokenMatches, ExpectedChunkSize, ReadManifest, ReadClaim, Quiet;
    var s', id := StepHolder(s, t, choice), s.threads[t].id;
    match s.threads[t].pc.holder
    case DropClaimTemp => TempIsQuiet(s, s', t);
    case ReleaseUnlink => UnclaimIsQuiet(s, s', id);
    case FinRemove(_, _) => RemovalIsQuiet(s, s', id);
    case ClearRemove => RemovalIsQuiet(s, s', id);
    case _ => SameDirsAreQuiet(s, s', id);
  }

  lemma SameDirsAreQuiet(s: State, s': State, id: Id)
    requires s'.dirs == s.dirs && s'.files == s.files
    ensures Quiet(s, s', id)
  {
  }

  lemma TempIsQuiet(s: State, s': State, t: Tid)
    requires t in s.threads && s'.dirs == WithoutTemp(s, t).dirs && s'.files == s.files
    ensures Quiet(s, s', s.threads[t].id)
  {
  }

  lemma UnclaimIsQuiet(s: State, s': State, id: Id)
    requires s'.dirs == Unclaimed(s, id).dirs && s'.files == s.files
    ensures Quiet(s, s', id)
  {
  }

  lemma RemovalIsQuiet(s: State, s': State, id: Id)
    requires s'.dirs == s.dirs - {id} && s'.files == s.files
    ensures Quiet(s, s', id)
  {
  }

  lemma HolderStaysHolder(s: State, t: Tid, choice: bool)
    requires t in s.threads && s.threads[t].pc.Holder?
    ensures var s' := StepHolder(s, t, choice); t in s'.threads ==> s'.threads[t].pc.Holder? && s'.threads[t].seen == s.threads[t].seen
  {
    match s.threads[t].pc.holder
    case DropClaimTemp =>
    case FinMerge(_, _, _, _, _) =>
    case FinLink(_, _, _, _) =>
    case _ =>
  }

  lemma QuietSweeper(s: State, t: Tid, choice: bool)
    requires t in s.threads && s.threads[t].pc.Sweeper?
    ensures var s' := StepSweeper(s, t, choice);
      Quiet(s, s', s.threads[t].id) && (t in s'.threads ==> s'.threads[t].pc.Sweeper?)
  {
    match s.threads[t].pc.sweeper
    case DropSweepTemp =>
    case Recheck =>
    case SweepRemove =>
    case SweepReleaseRead =>
    case SweepReleaseUnlink =>
  }

  lemma QuietMakesHonest(src: Source, s: State, s': State, t: Tid)
    requires t in s.threads && Quiet(s, s', s.threads[t].id) && HonestPc(src, s.threads[t].pc)
    requires t in s'.threads ==> PcFollows(s.threads[t].pc, s'.threads[t].pc)
    requires s.threads[t].id in s.dirs ==> HonestDir(src, s.dirs[s.threads[t].id])
    ensures HonestStep(src, s, s', t)
  {
  }

  lemma InstallMakesHonest(src: Source, s: State, t: Tid)
    requires t in s.threads && s.threads[t].pc.Installing? && HonestPc(src, s.threads[t].pc)
    requires s.threads[t].id in s.dirs ==> HonestDir(src, s.dirs[s.threads[t].id])
    ensures HonestStep(src, s, StepInstall(s, t), t)
  {
    hide TargetExists, Installed, AfterLink;
    var me := s.threads[t];
    match me.pc.install
    case WriteTemp =>
    case LinkTemp => if me.id in s.dirs { LinkMakesHonest(src, s.dirs[me.id], me.pc.file, t, me); }
    case UnlinkTemp =>
  }

  lemma LinkMakesHonest(src: Source, d: Dir, file: File, t: Tid, me: Thread)
    requires HonestDir(src, d) && HonestPc(src, Installing(LinkTemp, file))
    ensures HonestDir(src, Installed(d, file, t, me)) && HonestPc(src, AfterLink(file)) && HonestPc(src, Installing(UnlinkTemp, file))
  {
  }

  lemma FinLinkMakesHonest(src: Source, s: State, t: Tid, choice: bool)
    requires Inv(s) && t in s.threads && ValidSource(src) && s.threads[t].pc.Holder? && s.threads[t].pc.holder.FinLink?
    requires s.threads[t].id in s.dirs ==> HonestDir(src, s.dirs[s.threads[t].id])
    ensures HonestStep(src, s, StepHolder(s, t, choice), t)
  {
    var me := s.threads[t];
    assert ThreadInv(s, t, me);
    MergeOfSlicesIsTheFile(src.file, me.pc.holder.manifest, s.dirs[me.id].chunks);
  }

  lemma ApplyKeepsHonest(f: Id -> Source, s: State, l: Label)
    requires Inv(s) && HonestState(f, s)
    requires forall id :: ValidSource(f(id))
    requires l.Start? ==> HonestRequest(f, l.request)
    ensures HonestState(f, Apply(s, l))
  {
    hide Step, HonestDir, Partitions;
    if l.Go? && l.tid in s.threads { StepKeepsHonest(f, s, l.tid, l.choice); }
  }

  /**
   The law of the store: when every client sends slices of the file it declared, in any order, duplicated,
   retried, interleaved with sweeps, recoveries and crashes, every merged file is exactly the declared file.
   */
  lemma {:induction false} MergedFilesAreTheSources(f: Id -> Source, ls: seq<Label>)
    requires Honest(f, ls)
    ensures HonestState(f, Run(Boot(true), ls))
    ensures var s := Run(Boot(true), ls); forall p :: p in s.files ==> s.files[p].bytes == f(s.files[p].id).file
    decreases |ls|
  {
    if ls != [] {
      var front, l := ls[..|ls| - 1], ls[|ls| - 1];
      MergedFilesAreTheSources(f, front);
      RunKeepsInv(front);
      ApplyKeepsHonest(f, Run(Boot(true), front), l);
    }
  }
}
