/**
 The upload store as a labelled transition system (server/upload-session-store.js).

 Processes share one directory of sessions. Every file-system call is one step, so the steps of any
 number of requests, sweeps and recoveries interleave freely, and a process may die between any two of
 them. `Apply` gives the state after one label; a label that is not enabled changes nothing.
 */
module UploadProtocol {
  import opened Common
  import opened UploadClaims
  import opened UploadManifest

  type Id = nat        // names one (user, workspace, file id); stands for its hash
  type Pid = nat
  type Tid = nat       // one operation in flight; also the UUID in the claim and the temporary file it writes
  type Path = nat      // a merge destination

  /** One session directory. `born` numbers its creation; nothing in the code reads it. */
  datatype Dir = Dir(born: nat, manifest: Option<Manifest>, chunks: map<nat, Bytes>, claim: Option<Claim>, temps: set<Tid>)

  /** The manifest an operation read, and in which directory. */
  datatype Seen = Seen(born: nat, manifest: Manifest)

  datatype File =
    | ManifestFile(manifest: Manifest)
    | ChunkFile(index: nat, data: Bytes)
    | ClaimFile(purpose: Purpose)

  // The next file-system call of an operation, with the values it has read so far, function by function.

  /** installBufferAtomically: write a temporary file, link it, unlink it. */
  datatype InstallStep = WriteTemp | LinkTemp | UnlinkTemp
  /** initializeUploadSession, under the tenant's lock. */
  datatype InitStep = InitRead | InitMkdir
  /** storeUploadChunk. */
  datatype StoreStep = StoreReadManifest | StoreReadClaim
  /** claimUploadSessionFinalization. */
  datatype ClaimStep = ClaimReadManifest | ClaimList
  /** The holder of a finalize claim: ending its install, idle with the token in hand, or in one of its calls. */
  datatype HolderStep =
    | DropClaimTemp
    | Idle
    | ReleaseRead | ReleaseUnlink
    | FinReadManifest(to: Path, cleanup: bool)
    | FinReadClaim(to: Path, cleanup: bool, manifest: Manifest)
    | FinList(to: Path, cleanup: bool, manifest: Manifest)
    | FinMerge(to: Path, cleanup: bool, manifest: Manifest, index: nat, written: Bytes)
    | FinLink(to: Path, cleanup: bool, manifest: Manifest, written: Bytes)
    | FinRemove(to: Path, manifest: Manifest)
    | ClearRemove
  /** One directory of cleanupExpiredUploadSessions, before and under its cleanup claim. */
  datatype SweepStep = SweepStat | SweepAge
  datatype SweeperStep = DropSweepTemp | Recheck | SweepRemove | SweepReleaseRead | SweepReleaseUnlink
  /** One directory of recoverInterruptedUploadFinalizations. */
  datatype RecoverStep = RecoverRead | RecoverUnlink(found: Claim)

  datatype Pc =
    | Installing(install: InstallStep, file: File)
    | Initializing(init: InitStep, metadata: Manifest)
    | Storing(store: StoreStep, index: nat, totalChunks: nat, data: Bytes)
    | Claiming(claiming: ClaimStep)
    | Holder(holder: HolderStep)
    | Sweeping(sweep: SweepStep)
    | Sweeper(sweeper: SweeperStep)
    | Recovering(recover: RecoverStep)

  /** An operation works for one process on one session; `seen` is the manifest it read, and in which directory. */
  datatype Thread = Thread(pid: Pid, instance: nat, id: Id, seen: Option<Seen>, pc: Pc)

  /** Why a directory went away, with its last content. */
  datatype Cause = Expired | Cleared | AfterMerge(to: Path)
  datatype Removal = Removal(id: Id, dir: Dir, cause: Cause)

  datatype MergedFile = MergedFile(id: Id, bytes: Bytes)

  /**
   `next` yields fresh tokens, instances and directory numbers; `removed` logs the removed directories;
   `soleRecovery` says whether a recovery starts only while no other one runs.
   */
  datatype State = State(
    dirs: map<Id, Dir>, files: map<Path, MergedFile>, live: map<Pid, nat>, threads: map<Tid, Thread>,
    next: nat, removed: seq<Removal>, soleRecovery: bool)

  datatype Request =
    | InitRequest(id: Id, metadata: Manifest)
    | StoreRequest(id: Id, index: nat, totalChunks: nat, data: Bytes)
    | ClaimRequest(id: Id)
    | SweepRequest(id: Id)
    | RecoverRequest(id: Id)

  datatype Decision = Finalize(to: Path, cleanup: bool) | Release | Clear | Leave

  /** `choice` stands for what a call finds outside the model: an entry's age, a digest, a failing removal. */
  datatype Label =
    | Spawn(pid: Pid)
    | Crash(pid: Pid)
    | Start(pid: Pid, request: Request)
    | Decide(tid: Tid, decision: Decision)
    | Go(tid: Tid, choice: bool)

  function Boot(soleRecovery: bool): State {
    State(map[], map[], map[], map[], 0, [], soleRecovery)
  }

  // ---- small state changes

  function At(s: State, t: Tid, pc: Pc): State
    requires t in s.threads
  {
    s.(threads := s.threads[t := s.threads[t].(pc := pc)])
  }

  /** The operation has read manifest m of the directory on disk. */
  function Reads(s: State, t: Tid, m: Manifest): State
    requires t in s.threads && s.threads[t].id in s.dirs
  {
    s.(threads := s.threads[t := s.threads[t].(seen := Some(Seen(s.dirs[s.threads[t].id].born, m)))])
  }

  function Done(s: State, t: Tid): State {
    s.(threads := s.threads - {t})
  }

  function WithDir(s: State, id: Id, d: Dir): State {
    s.(dirs := s.dirs[id := d])
  }

  /** A recursive removal is one step. */
  function Remove(s: State, id: Id, cause: Cause): State {
    if id in s.dirs then s.(dirs := s.dirs - {id}, removed := s.removed + [Removal(id, s.dirs[id], cause)]) else s
  }

  function Unclaimed(s: State, id: Id): State {
    if id in s.dirs then WithDir(s, id, s.dirs[id].(claim := None)) else s
  }

  /** `assertCompleteChunkSet`: the listed indices are exactly 0 .. totalChunks-1. */
  ghost predicate Complete(d: Dir, m: Manifest) {
    forall k: nat :: k in d.chunks <==> k < m.totalChunks
  }

  predicate CompleteListing(d: Dir, m: Manifest)
    ensures CompleteListing(d, m) <==> Complete(d, m)
  {
    && (forall i :: 0 <= i < m.totalChunks ==> i in d.chunks)
    && (forall k :: k in d.chunks ==> k < m.totalChunks)
  }

  function ReadManifest(s: State, id: Id): Option<Manifest> {
    if id in s.dirs then s.dirs[id].manifest else None
  }

  function ReadClaim(s: State, id: Id): Option<Claim> {
    if id in s.dirs then s.dirs[id].claim else None
  }

  /** The owner of a claim still runs. */
  predicate Alive(s: State, c: Claim) {
    c.pid in s.live && s.live[c.pid] == c.instance
  }

  /** `isFinalizationClaimOwnerAlive`, as the process `me` decides it from process ids. */
  predicate SeemsAlive(s: State, me: Thread, c: Claim) {
    OwnerSeemsAlive(c, me.pid, me.instance, s.live.Keys)
  }

  /** No merged file, log entry or other session's directory changes, and no directory goes away. */
  ghost predicate OnlyTouches(s: State, s': State, id: Id) {
    && s'.files == s.files && s'.removed == s.removed
    && (id in s.dirs ==> id in s'.dirs)
    && (forall k :: k != id ==> (k in s'.dirs <==> k in s.dirs))
    && (forall k :: k != id && k in s.dirs ==> s'.dirs[k] == s.dirs[k])
  }

  // ---- one file-system call

  function TargetExists(d: Dir, f: File): bool {
    match f
    case ManifestFile(_) => d.manifest.Some?
    case ChunkFile(i, _) => i in d.chunks
    case ClaimFile(_) => d.claim.Some?
  }

  function Installed(d: Dir, f: File, t: Tid, me: Thread): Dir {
    match f
    case ManifestFile(m) => d.(manifest := Some(m))
    case ChunkFile(i, data) => d.(chunks := d.chunks[i := data])
    case ClaimFile(purpose) => d.(claim := Some(Claim(t, me.pid, me.instance, purpose)))
  }

  function AfterLink(f: File): Pc {
    match f
    case ClaimFile(FinalizeClaim) => Holder(DropClaimTemp)
    case ClaimFile(CleanupClaim) => Sweeper(DropSweepTemp)
    case _ => Installing(UnlinkTemp, f)
  }

  function WithoutTemp(s: State, t: Tid): State
    requires t in s.threads
  {
    var id := s.threads[t].id;
    if id in s.dirs then WithDir(s, id, s.dirs[id].(temps := s.dirs[id].temps - {t})) else s
  }

  /** A vanished directory fails the write and the link; an existing target makes the link report "not installed". */
  function StepInstall(s: State, t: Tid): (s': State)
    requires t in s.threads && s.threads[t].pc.Installing?
    ensures OnlyTouches(s, s', s.threads[t].id)
  {
    var me := s.threads[t];
    match me.pc.install
    case WriteTemp =>
      if me.id !in s.dirs then Done(s, t)
      else
        var d := s.dirs[me.id];
        At(WithDir(s, me.id, d.(temps := d.temps + {t})), t, Installing(LinkTemp, me.pc.file))
    case LinkTemp =>
      if me.id !in s.dirs || t !in s.dirs[me.id].temps then Done(s, t)
      else if TargetExists(s.dirs[me.id], me.pc.file) then At(s, t, Installing(UnlinkTemp, me.pc.file))
      else At(WithDir(s, me.id, Installed(s.dirs[me.id], me.pc.file, t, me)), t, AfterLink(me.pc.file))
    case UnlinkTemp => Done(WithoutTemp(s, t), t)
  }

  function StepInit(s: State, t: Tid): (s': State)
    requires t in s.threads && s.threads[t].pc.Initializing?
    ensures OnlyTouches(s, s', s.threads[t].id)
  {
    var me := s.threads[t];
    match me.pc.init
    case InitRead =>
      if ReadManifest(s, me.id).Some? then Done(s, t) else At(s, t, me.pc.(init := InitMkdir))
    case InitMkdir =>
      var s' := if me.id in s.dirs then s else WithDir(s, me.id, Dir(s.next, None, map[], None, {})).(next := s.next + 1);
      At(s', t, Installing(WriteTemp, ManifestFile(me.pc.metadata)))
  }

  function StepStore(s: State, t: Tid): (s': State)
    requires t in s.threads && s.threads[t].pc.Storing?
    ensures OnlyTouches(s, s', s.threads[t].id)
  {
    var me := s.threads[t];
    match me.pc.store
    case StoreReadManifest =>
      var m := ReadManifest(s, me.id);
      if m.None? then Done(s, t) else At(Reads(s, t, m.value), t, me.pc.(store := StoreReadClaim))
    case StoreReadClaim =>
      if ReadClaim(s, me.id).Some? || me.seen.None? then Done(s, t)
      else
        var m := me.seen.value.manifest;
        if me.pc.index >= m.totalChunks || me.pc.totalChunks != m.totalChunks then Done(s, t)
        else if |me.pc.data| != ExpectedChunkSize(m, me.pc.index) then Done(s, t)
        else At(s, t, Installing(WriteTemp, ChunkFile(me.pc.index, me.pc.data)))
  }

  function StepClaim(s: State, t: Tid): (s': State)
    requires t in s.threads && s.threads[t].pc.Claiming?
    ensures OnlyTouches(s, s', s.threads[t].id)
  {
    var me := s.threads[t];
    match me.pc.claiming
    case ClaimReadManifest =>
      var m := ReadManifest(s, me.id);
      if m.None? then Done(s, t) else At(Reads(s, t, m.value), t, Claiming(ClaimList))
    case ClaimList =>
      if me.id in s.dirs && me.seen.Some? && CompleteListing(s.dirs[me.id], me.seen.value.manifest) then
        At(s, t, Installing(WriteTemp, ClaimFile(FinalizeClaim)))
      else Done(s, t)
  }

  /** The claim on disk carries this operation's token. */
  predicate TokenMatches(s: State, t: Tid)
    requires t in s.threads
  {
    var c := ReadClaim(s, s.threads[t].id);
    c.Some? && c.value.token == t
  }

  /** A failed finalize leaves the caller with its token. */
  function StepHolder(s: State, t: Tid, choice: bool): State
    requires t in s.threads && s.threads[t].pc.Holder?
  {
    var me := s.threads[t];
    var id := me.id;
    var back := At(s, t, Holder(Idle));
    match me.pc.holder
    case DropClaimTemp => At(WithoutTemp(s, t), t, Holder(Idle))
    case Idle => s
    case ReleaseRead => if TokenMatches(s, t) then At(s, t, Holder(ReleaseUnlink)) else Done(s, t)
    case ReleaseUnlink => Done(Unclaimed(s, id), t)
    case FinReadManifest(to, cl) =>
      var m := ReadManifest(s, id);
      if m.None? then back else At(s, t, Holder(FinReadClaim(to, cl, m.value)))
    case FinReadClaim(to, cl, m) =>
      if TokenMatches(s, t) && ReadClaim(s, id).value.purpose == FinalizeClaim then At(s, t, Holder(FinList(to, cl, m))) else back
    case FinList(to, cl, m) =>
      if id in s.dirs && CompleteListing(s.dirs[id], m) then At(s, t, Holder(FinMerge(to, cl, m, 0, []))) else back
    case FinMerge(to, cl, m, i, written) =>
      if i < m.totalChunks then
        if id !in s.dirs || i !in s.dirs[id].chunks then back
        else
          var chunk := s.dirs[id].chunks[i];
          if |chunk| != ExpectedChunkSize(m, i) then back
          else At(s, t, Holder(FinMerge(to, cl, m, i + 1, written + chunk)))
      else if |written| != m.fileSize then back
      else if m.hasSha256 && !choice then back
      else At(s, t, Holder(FinLink(to, cl, m, written)))
    case FinLink(to, cl, m, written) =>
      if to in s.files then back
      else At(s.(files := s.files[to := MergedFile(id, written)]), t, Holder(if cl then FinRemove(to, m) else Idle))
    case FinRemove(to, _) => Done(Remove(s, id, AfterMerge(to)), t)
    case ClearRemove => Done(Remove(s, id, Cleared), t)
  }

  function StepSweeping(s: State, t: Tid, choice: bool): (s': State)
    requires t in s.threads && s.threads[t].pc.Sweeping?
    ensures OnlyTouches(s, s', s.threads[t].id)
  {
    var me := s.threads[t];
    match me.pc.sweep
    case SweepStat => if ReadClaim(s, me.id).Some? then Done(s, t) else At(s, t, Sweeping(SweepAge))
    case SweepAge =>
      if me.id in s.dirs && choice then At(s, t, Installing(WriteTemp, ClaimFile(CleanupClaim))) else Done(s, t)
  }

  /** Its own directory goes away as expired, with all it held; merged files and the other sessions stay. */
  ghost predicate Expires(s: State, s': State, id: Id) {
    && s'.files == s.files && id in s.dirs
    && s'.dirs == s.dirs - {id} && s'.removed == s.removed + [Removal(id, s.dirs[id], Expired)]
  }

  function StepSweeper(s: State, t: Tid, choice: bool): (s': State)
    requires t in s.threads && s.threads[t].pc.Sweeper?
    ensures OnlyTouches(s, s', s.threads[t].id) || (s.threads[t].pc.sweeper.SweepRemove? && Expires(s, s', s.threads[t].id))
  {
    var me := s.threads[t];
    match me.pc.sweeper
    case DropSweepTemp => At(WithoutTemp(s, t), t, Sweeper(Recheck))
    case Recheck => At(s, t, Sweeper(if choice then SweepRemove else SweepReleaseRead))
    case SweepRemove => if choice then Done(Remove(s, me.id, Expired), t) else At(s, t, Sweeper(SweepReleaseRead))
    case SweepReleaseRead => if TokenMatches(s, t) then At(s, t, Sweeper(SweepReleaseUnlink)) else Done(s, t)
    case SweepReleaseUnlink => Done(Unclaimed(s, me.id), t)
  }

  function StepRecover(s: State, t: Tid): (s': State)
    requires t in s.threads && s.threads[t].pc.Recovering?
    ensures OnlyTouches(s, s', s.threads[t].id)
  {
    var me := s.threads[t];
    match me.pc.recover
    case RecoverRead =>
      var c := ReadClaim(s, me.id);
      if c.None? || SeemsAlive(s, me, c.value) then Done(s, t) else At(s, t, Recovering(RecoverUnlink(c.value)))
    case RecoverUnlink(_) => Done(Unclaimed(s, me.id), t)
  }

  function Step(s: State, t: Tid, choice: bool): State
    requires t in s.threads
  {
    match s.threads[t].pc
    case Installing(_, _) => StepInstall(s, t)
    case Initializing(_, _) => StepInit(s, t)
    case Storing(_, _, _, _) => StepStore(s, t)
    case Claiming(_) => StepClaim(s, t)
    case Holder(_) => StepHolder(s, t, choice)
    case Sweeping(_) => StepSweeping(s, t, choice)
    case Sweeper(_) => StepSweeper(s, t, choice)
    case Recovering(_) => StepRecover(s, t)
  }

  // ---- labels

  function FirstCall(r: Request): Pc {
    match r
    case InitRequest(_, m) => Initializing(InitRead, m)
    case StoreRequest(_, i, total, data) => Storing(StoreReadManifest, i, total, data)
    case ClaimRequest(_) => Claiming(ClaimReadManifest)
    case SweepRequest(_) => Sweeping(SweepStat)
    case RecoverRequest(_) => Recovering(RecoverRead)
  }

  function FirstHolderCall(d: Decision): HolderStep {
    match d
    case Finalize(to, cl) => FinReadManifest(to, cl)
    case Release => ReleaseRead
    case Clear => ClearRemove
    case Leave => Idle
  }

  /** What `validateMetadata` demands of the sizes; exact by TotalIsRightIffItPartitions. */
  predicate ValidManifest(m: Manifest) {
    m.fileSize > 0 && m.chunkSize > 0 && m.totalChunks == CeilDiv(m.fileSize, m.chunkSize)
  }

  predicate NoRecovery(s: State) {
    forall t :: t in s.threads ==> !s.threads[t].pc.Recovering?
  }

  function Apply(s: State, l: Label): State {
    match l
    case Spawn(p) =>
      if p in s.live then s else s.(live := s.live[p := s.next], next := s.next + 1)
    case Crash(p) =>
      s.(live := s.live - {p}, threads := map t | t in s.threads && s.threads[t].pid != p :: s.threads[t])
    case Start(p, r) =>
      if p !in s.live || (r.RecoverRequest? && s.soleRecovery && !NoRecovery(s)) then s
      else if r.InitRequest? && !ValidManifest(r.metadata) then s
      else s.(threads := s.threads[s.next := Thread(p, s.live[p], r.id, None, FirstCall(r))], next := s.next + 1)
    case Decide(t, d) =>
      if t !in s.threads || s.threads[t].pc != Holder(Idle) then s
      else if d.Leave? then Done(s, t)
      else At(s, t, Holder(FirstHolderCall(d)))
    case Go(t, choice) => if t in s.threads then Step(s, t, choice) else s
  }

  function Run(s: State, ls: seq<Label>): State
    decreases |ls|
  {
    if ls == [] then s else Apply(Run(s, ls[..|ls| - 1]), ls[|ls| - 1])
  }

  /** The states of all runs in which recoveries do not overlap. */
  ghost predicate Reachable(s: State) {
    exists ls :: s == Run(Boot(true), ls)
  }
}
