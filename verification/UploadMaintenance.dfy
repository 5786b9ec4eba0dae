/**
 The two loops that look after the sessions directory: the expiry sweep and the start-up recovery
 (server/upload-session-store.js).

 Any file-system call may fail, and other processes act between the sweep's calls. What one call meets is data:
 `Faults` says which calls fail, `Others` what the other processes do to the directory in between.
 */
module UploadMaintenance {
  import opened Common
  import opened UploadClaims

  /** The content of a claim file; everything `isValidFinalizationClaim` refuses is NotAClaim. */
  datatype Content = Valid(claim: Claim) | NotAClaim

  datatype ClaimFile = ClaimFile(content: Content, mtime: int)

  /** A manifest, chunk or temporary file, with its modification time. */
  datatype File = File(name: string, data: Bytes, mtime: int)

  /** A session directory: its files other than the claim file, and the claim file. */
  datatype Dir = Dir(files: seq<File>, claim: Option<ClaimFile>, mtime: int)

  /** An entry of the sessions directory. */
  datatype Entry = OtherFile | Session(dir: Dir)

  // ---- the sweep of one directory

  datatype Faults = Faults(
    stat: bool, list: bool, write: bool, link: bool, unlinkTemp: bool,
    relist: bool, remove: bool, releaseRead: bool, releaseUnlink: bool)

  /** What the other processes make of the directory before the claim is linked (None: gone), and before the recheck. */
  datatype Others = Others(beforeLink: Option<Dir>, beforeRecheck: seq<File>)

  datatype Sweep = Sweep(now: int, ttl: int, token: nat, pid: nat, instance: nat, temporary: File)

  function Max(a: int, b: int): int {
    if a > b then a else b
  }

  function Newest(files: seq<File>): (n: int)
    ensures n >= 0 && forall i :: 0 <= i < |files| ==> files[i].mtime <= n
    ensures n == 0 || exists i :: 0 <= i < |files| && files[i].mtime == n
  {
    if files == [] then 0
    else
      var rest, last := Newest(files[..|files| - 1]), files[|files| - 1];
      assert files[|files| - 1] == last;
      Max(rest, last.mtime)
  }

  /** The loop of `getSessionLastActivity`. */
  method NewestOf(files: seq<File>) returns (newest: int)
    ensures newest == Newest(files)
  {
    newest := 0;
    var i := 0;
    while i < |files|
      invariant 0 <= i <= |files|
      invariant newest == Newest(files[..i])
    {
      assert files[..i + 1][..i] == files[..i];
      newest := Max(newest, files[i].mtime);
      i := i + 1;
    }
    assert files[..i] == files;
  }

  /** `getSessionLastActivity` of an unclaimed directory. */
  function LastActivity(d: Dir): int {
    if d.files == [] then d.mtime else Newest(d.files)
  }

  /** Past its time to live, as far as the files tell; an empty directory goes by `fallback`. */
  ghost predicate Old(w: Sweep, files: seq<File>, fallback: int) {
    if files == [] then w.now - fallback >= w.ttl
    else w.now >= w.ttl && forall i :: 0 <= i < |files| ==> w.now - files[i].mtime >= w.ttl
  }

  lemma OldIffNewestIs(w: Sweep, files: seq<File>, fallback: int)
    ensures Old(w, files, fallback) <==> w.now - (if files == [] then fallback else Newest(files)) >= w.ttl
  {
  }

  function OwnClaim(w: Sweep): ClaimFile {
    ClaimFile(Valid(Claim(w.token, w.pid, w.instance, CleanupClaim)), w.now)
  }

  /** The sweep gets as far as linking its claim. */
  ghost predicate Tries(w: Sweep, d: Dir, f: Faults) {
    d.claim.None? && !f.stat && !f.list && Old(w, d.files, d.mtime)
  }

  /** And the claim is in place: the directory is still there, and nobody else holds a claim on it. */
  ghost predicate Claims(w: Sweep, d: Dir, f: Faults, o: Others) {
    Tries(w, d, f) && o.beforeLink.Some? && o.beforeLink.value.claim.None? && !f.write && !f.link
  }

  /** The session is removed. */
  ghost predicate Removes(w: Sweep, d: Dir, f: Faults, o: Others) {
    && Claims(w, d, f, o) && !f.unlinkTemp && !f.relist && !f.remove
    && Old(w, o.beforeRecheck, LastActivity(d))
  }

  /** The sweep's own claim stays behind. */
  ghost predicate LeavesClaim(w: Sweep, d: Dir, f: Faults, o: Others) {
    && Claims(w, d, f, o) && !Removes(w, d, f, o)
    && (f.unlinkTemp || f.releaseRead || f.releaseUnlink)
  }

  /** The entry is a session, and the sweep removed it. */
  ghost predicate Swept(e: Entry, w: Sweep, f: Faults, o: Others) {
    e.Session? && Removes(w, e.dir, f, o)
  }

  /** The claim at the link, or the sweep's own if that stays behind. */
  ghost function ClaimLeft(w: Sweep, d: Dir, f: Faults, o: Others): Option<ClaimFile>
    requires o.beforeLink.Some?
  {
    if LeavesClaim(w, d, f, o) then Some(OwnClaim(w)) else o.beforeLink.value.claim
  }

  /** The files the others left, and the sweep's temporary file if it could not be unlinked. */
  ghost function FilesLeft(w: Sweep, d: Dir, f: Faults, o: Others): seq<File>
    requires o.beforeLink.Some?
  {
    if f.unlinkTemp && !f.write then o.beforeLink.value.files + [w.temporary]
    else if Claims(w, d, f, o) then o.beforeRecheck
    else o.beforeLink.value.files
  }

  /**
   What the sweep makes of entry `e`: nothing if it does not try to claim; gone if the sweep or somebody else
   removed it; else still there with the files of the others.
   */
  ghost function SweptTo(e: Entry, w: Sweep, f: Faults, o: Others): Option<Entry> {
    if e.OtherFile? || !Tries(w, e.dir, f) then Some(e)
    else if o.beforeLink.None? || Removes(w, e.dir, f, o) then None
    else Some(Session(Dir(FilesLeft(w, e.dir, f, o), ClaimLeft(w, e.dir, f, o), o.beforeLink.value.mtime)))
  }

  ghost function SweptCount(es: seq<Entry>, ws: seq<Sweep>, f: seq<Faults>, o: seq<Others>): nat
    requires |es| == |ws| == |f| == |o|
    decreases |es|
  {
    if es == [] then 0
    else
      var n := |es| - 1;
      SweptCount(es[..n], ws[..n], f[..n], o[..n]) + (if Swept(es[n], ws[n], f[n], o[n]) then 1 else 0)
  }

  lemma NothingSwept(es: seq<Entry>, ws: seq<Sweep>, f: seq<Faults>, o: seq<Others>)
    requires |es| == |ws| == |f| == |o|
    ensures SweptCount(es[..0], ws[..0], f[..0], o[..0]) == 0
  {
  }

  lemma OneMoreSwept(es: seq<Entry>, ws: seq<Sweep>, f: seq<Faults>, o: seq<Others>, n: nat)
    requires n < |es| == |ws| == |f| == |o|
    ensures SweptCount(es[..n + 1], ws[..n + 1], f[..n + 1], o[..n + 1]) ==
      SweptCount(es[..n], ws[..n], f[..n], o[..n]) + (if Swept(es[n], ws[n], f[n], o[n]) then 1 else 0)
  {
    hide Swept;
    assert es[..n + 1][..n] == es[..n] && ws[..n + 1][..n] == ws[..n] && f[..n + 1][..n] == f[..n] && o[..n + 1][..n] == o[..n];
  }

  function Lookup(entries: map<string, Entry>, name: string): Option<Entry> {
    if name in entries then Some(entries[name]) else None
  }

  /** What one directory listing returns: names of entries, each once. */
  ghost predicate Listing(entries: map<string, Entry>, names: seq<string>) {
    && (forall i :: 0 <= i < |names| ==> names[i] in entries)
    && (forall i, j :: 0 <= i < j < |names| ==> names[i] != names[j])
  }

  ghost function Found(entries: map<string, Entry>, names: seq<string>): (es: seq<Entry>)
    requires Listing(entries, names)
    ensures |es| == |names| && forall i :: 0 <= i < |names| ==> Lookup(entries, names[i]) == Some(es[i])
  {
    seq(|names|, i requires 0 <= i < |names| => entries[names[i]])
  }

  ghost predicate OthersKept(was: map<string, Entry>, now: map<string, Entry>, name: string) {
    forall k :: k != name ==> Lookup(now, k) == Lookup(was, k)
  }

  class SessionStore {
    var entries: map<string, Entry>

    constructor (found: map<string, Entry>)
      ensures entries == found
    {
      entries := found;
    }

    /** `releaseSessionClaimFile`: removes the claim file if it carries the token; a failing call raises. */
    method ReleaseClaim(name: string, w: Sweep, f: Faults) returns (raised: bool)
      modifies this
      requires name in entries && entries[name].Session?
      ensures OthersKept(old(entries), entries, name)
      ensures var d := old(entries)[name].dir;
        var mine := d.claim.Some? && d.claim.value.content.Valid? && d.claim.value.content.claim.token == w.token;
        entries == (if mine && !f.releaseRead && !f.releaseUnlink then old(entries)[name := Session(d.(claim := None))]
                    else old(entries))
    {
      var d := entries[name].dir;
      if d.claim.None? { return false; }
      if f.releaseRead { return true; }
      if d.claim.value.content.NotAClaim? || d.claim.value.content.claim.token != w.token { return false; }
      if f.releaseUnlink { return true; }
      entries := entries[name := Session(d.(claim := None))];
      return false;
    }

    /** The loop body of `cleanupExpiredUploadSessions` for one entry of the listing. */
    method SweepOne(name: string, w: Sweep, f: Faults, o: Others) returns (removed: bool)
      modifies this
      requires name in entries
      ensures OthersKept(old(entries), entries, name)
      ensures Lookup(entries, name) == SweptTo(old(entries)[name], w, f, o)
      ensures removed <==> Swept(old(entries)[name], w, f, o)
    {
      removed := false;
      if entries[name].OtherFile? { return; }
      var d := entries[name].dir;
      if d.claim.Some? || f.stat { return; }
      if f.list { return; }
      var lastActivity := d.mtime;
      if d.files != [] { lastActivity := NewestOf(d.files); }
      OldIffNewestIs(w, d.files, d.mtime);
      if w.now - lastActivity < w.ttl { return; }
      // the other processes act
      if o.beforeLink.None? {
        entries := entries - {name};
        return;
      }
      entries := entries[name := Session(o.beforeLink.value)];
      var installed, raised := InstallClaim(name, w, f);
      assert OthersKept(old(entries), entries, name);
      if raised || !installed { return; }
      assert OthersKept(old(entries), entries, name);
      removed := SweepClaimed(name, w, f, o, lastActivity);
    }

    /** Under the sweep's claim: the recheck, the removal, and the release on every other path. */
    method SweepClaimed(name: string, w: Sweep, f: Faults, o: Others, lastActivity: int) returns (removed: bool)
      modifies this
      requires name in entries && entries[name].Session? && entries[name].dir.claim == Some(OwnClaim(w))
      ensures OthersKept(old(entries), entries, name)
      ensures removed <==> !f.relist && !f.remove && Old(w, o.beforeRecheck, lastActivity)
      ensures Lookup(entries, name) ==
        if removed then None
        else Some(Session(Dir(o.beforeRecheck, if f.releaseRead || f.releaseUnlink then Some(OwnClaim(w)) else None,
                              old(entries)[name].dir.mtime)))
    {
      // the other processes act again; they leave the claim alone
      removed := false;
      var d := entries[name].dir.(files := o.beforeRecheck);
      entries := entries[name := Session(d)];
      var owned := true;
      if !f.relist {
        var refreshed := lastActivity;
        if d.files != [] { refreshed := NewestOf(d.files); }
        OldIffNewestIs(w, d.files, lastActivity);
        if w.now - refreshed >= w.ttl && !f.remove {
          entries := entries - {name};
          owned := false;
          removed := true;
        }
      }
      assert OthersKept(old(entries), entries, name);
      if owned {
        var _ := ReleaseClaim(name, w, f);
      }
    }

    /** `installBufferAtomically` for the cleanup claim: a failing unlink of the temporary file raises after the link. */
    method InstallClaim(name: string, w: Sweep, f: Faults) returns (installed: bool, raised: bool)
      modifies this
      requires name in entries && entries[name].Session?
      ensures OthersKept(old(entries), entries, name)
      ensures name in entries && entries[name].Session?
      ensures var d := old(entries)[name].dir;
        var linked := d.claim.None? && !f.write && !f.link;
        && entries[name].dir == Dir(
             if f.unlinkTemp && !f.write then d.files + [w.temporary] else d.files,
             if linked then Some(OwnClaim(w)) else d.claim, d.mtime)
        && (installed && !raised <==> linked && !f.unlinkTemp)
        && (linked && f.unlinkTemp ==> raised)
    {
      if f.write { return false, true; }
      var d := entries[name].dir;
      raised := false;
      if d.claim.Some? {
        installed := false;
      } else if f.link {
        installed, raised := false, true;
      } else {
        installed := true;
        entries := entries[name := Session(d.(claim := Some(OwnClaim(w))))];
      }
      if f.unlinkTemp {
        d := entries[name].dir;
        entries := entries[name := Session(d.(files := d.files + [w.temporary]))];
        raised := true;
      }
    }

    /** The whole sweep over the listed names; each has its own faults, company and claim token. */
    method Cleanup(names: seq<string>, ws: seq<Sweep>, f: seq<Faults>, o: seq<Others>) returns (removedSessions: nat)
      modifies this
      requires |names| == |ws| == |f| == |o|
      requires Listing(entries, names)
      ensures forall i :: 0 <= i < |names| ==> Lookup(entries, names[i]) == SweptTo(Found(old(entries), names)[i], ws[i], f[i], o[i])
      ensures forall k :: k !in names ==> Lookup(entries, k) == Lookup(old(entries), k)
      ensures removedSessions == SweptCount(Found(old(entries), names), ws, f, o)
    {
      hide SweptTo, Swept, Found, SweptCount;
      removedSessions := 0;
      ghost var was := Found(entries, names);
      NothingSwept(was, ws, f, o);
      var n := 0;
      while n < |names|
        invariant 0 <= n <= |names|
        invariant forall i :: n <= i < |names| ==> Lookup(entries, names[i]) == Some(was[i])
        invariant forall i :: 0 <= i < n ==> Lookup(entries, names[i]) == SweptTo(was[i], ws[i], f[i], o[i])
        invariant forall k :: k !in names ==> Lookup(entries, k) == Lookup(old(entries), k)
        invariant removedSessions == SweptCount(was[..n], ws[..n], f[..n], o[..n])
      {
        assert names[n] in entries by { assert Lookup(entries, names[n]) == Some(was[n]); }
        var removed := SweepOne(names[n], ws[n], f[n], o[n]);
        OneMoreSwept(was, ws, f, o, n);
        if removed { removedSessions := removedSessions + 1; }
        n := n + 1;
      }
      assert was[..n] == was && ws[..n] == ws && f[..n] == f && o[..n] == o;
    }

    /** `recoverInterruptedUploadFinalizations` over the listed names. */
    method Recover(names: seq<string>, me: Process, faults: seq<RecoveryFaults>) returns (recoveredClaims: nat)
      modifies this
      requires |faults| == |names|
      requires Listing(entries, names)
      ensures forall i :: 0 <= i < |names| ==> Lookup(entries, names[i]) == Some(Recovered(Found(old(entries), names)[i], me, faults[i]))
      ensures forall k :: k !in names ==> Lookup(entries, k) == Lookup(old(entries), k)
      ensures recoveredClaims == FreedCount(Found(old(entries), names), me, faults)
    {
      hide Frees, Recovered, Found;
      recoveredClaims := 0;
      ghost var was := Found(entries, names);
      var n := 0;
      while n < |names|
        invariant 0 <= n <= |names|
        invariant forall i :: n <= i < |names| ==> Lookup(entries, names[i]) == Some(was[i])
        invariant forall i :: 0 <= i < n ==> Lookup(entries, names[i]) == Some(Recovered(was[i], me, faults[i]))
        invariant forall k :: k !in names ==> Lookup(entries, k) == Lookup(old(entries), k)
        invariant recoveredClaims == FreedCount(was[..n], me, faults[..n])
      {
        assert names[n] in entries by { assert Lookup(entries, names[n]) == Some(was[n]); }
        var freed := RecoverOne(names[n], me, faults[n]);
        assert was[..n + 1][..n] == was[..n] && faults[..n + 1][..n] == faults[..n];
        if freed { recoveredClaims := recoveredClaims + 1; }
        n := n + 1;
      }
      assert was[..n] == was && faults[..n] == faults;
    }

    /** The loop body of the recovery. */
    method RecoverOne(name: string, me: Process, f: RecoveryFaults) returns (freed: bool)
      modifies this
      requires name in entries
      ensures entries == old(entries)[name := Recovered(old(entries)[name], me, f)]
      ensures freed <==> Frees(old(entries)[name], me, f)
    {
      freed := false;
      if entries[name].OtherFile? { return; }
      var d := entries[name].dir;
      if d.claim.None? { return; }
      if f.read { return; }
      var content := d.claim.value.content;
      if content.NotAClaim? {
        if !f.unlink {
          entries := entries[name := Session(d.(claim := None))];
          freed := true;
        }
        return;
      }
      if SeemsAlive(me, content.claim) { return; }
      if !f.unlink {
        entries := entries[name := Session(d.(claim := None))];
        freed := true;
      }
    }
  }

  // ---- the recovery of one directory

  datatype Process = Process(pid: nat, instance: nat, running: set<nat>)  // `running`: the process ids in use

  datatype RecoveryFaults = RecoveryFaults(read: bool, unlink: bool)

  predicate SeemsAlive(me: Process, c: Claim) {
    OwnerSeemsAlive(c, me.pid, me.instance, me.running)
  }

  /** The recovery removes the claim file: readable, and either no valid claim or one whose owner is gone. */
  predicate Frees(e: Entry, me: Process, f: RecoveryFaults) {
    && e.Session? && e.dir.claim.Some? && !f.read && !f.unlink
    && (e.dir.claim.value.content.Valid? ==> !SeemsAlive(me, e.dir.claim.value.content.claim))
  }

  function Recovered(e: Entry, me: Process, f: RecoveryFaults): Entry {
    if Frees(e, me, f) then Session(e.dir.(claim := None)) else e
  }

  ghost function FreedCount(es: seq<Entry>, me: Process, faults: seq<RecoveryFaults>): nat
    requires |es| == |faults|
    decreases |es|
  {
    if es == [] then 0
    else
      var n := |es| - 1;
      FreedCount(es[..n], me, faults[..n]) + (if Frees(es[n], me, faults[n]) then 1 else 0)
  }

  // ---- what the sweep promises, and when it fails to

  /** A session under anyone's claim at the first look, or at the link, is never removed. */
  lemma ClaimedIsNeverSwept(w: Sweep, d: Dir, f: Faults, o: Others)
    requires d.claim.Some? || (o.beforeLink.Some? && o.beforeLink.value.claim.Some?)
    ensures !Removes(w, d, f, o) && !LeavesClaim(w, d, f, o)
  {
  }

  /**
   Once its claim is linked, the sweep can leave that claim behind exactly if one of three calls fails. A failing
   unlink of the temporary file alone is enough: it raises before the claim counts as owned, so nothing releases it.
   */
  lemma ClaimIsLeftOnlyByAFailure(w: Sweep, d: Dir, f: Faults)
    requires Tries(w, d, f) && !f.write && !f.link
    ensures (exists o :: LeavesClaim(w, d, f, o)) <==> f.unlinkTemp || f.releaseRead || f.releaseUnlink
  {
    var tooYoung := w.now - w.ttl + 1;
    var o := Others(Some(d), [File("0.part", [], tooYoung)]);
    assert !Old(w, o.beforeRecheck, LastActivity(d)) by { assert o.beforeRecheck[0].mtime == tooYoung; }
    assert Claims(w, d, f, o);
    if f.unlinkTemp || f.releaseRead || f.releaseUnlink { assert LeavesClaim(w, d, f, o); }
  }

  /**
   A session that stays keeps every file: whatever the others had in it when the sweep last left it to them. Only the
   sweep's own temporary file can come on top, and only if it could not be unlinked.
   */
  lemma SweepKeepsFiles(w: Sweep, d: Dir, f: Faults, o: Others, file: File)
    requires SweptTo(Session(d), w, f, o).Some?
    ensures var after := SweptTo(Session(d), w, f, o).value;
      && after.Session?
      && (o == Others(Some(d), d.files) && file in d.files ==> file in after.dir.files)
      && (file in after.dir.files ==>
            || file in d.files || file in o.beforeRecheck || (o.beforeLink.Some? && file in o.beforeLink.value.files)
            || (file == w.temporary && f.unlinkTemp))
  {
  }

  /** The recovery leaves a claim exactly if its owner seems to run, or its file could not be read or removed. */
  lemma RecoveryLeavesOwnedClaims(e: Entry, me: Process, f: RecoveryFaults)
    requires e.Session? && e.dir.claim.Some?
    ensures var r := Recovered(e, me, f);
      && r.Session? && r.dir.files == e.dir.files
      && (r.dir.claim.Some? ==> r == e)
      && (r.dir.claim.Some? <==>
            f.read || f.unlink || (e.dir.claim.value.content.Valid? && SeemsAlive(me, e.dir.claim.value.content.claim)))
  {
  }

  /** With no failing call and no company, exactly the expired, unclaimed sessions go. */
  lemma UndisturbedSweep(w: Sweep, d: Dir)
    ensures var calm := Faults(false, false, false, false, false, false, false, false, false);
      Removes(w, d, calm, Others(Some(d), d.files)) <==> d.claim.None? && Old(w, d.files, d.mtime)
  {
    OldIffNewestIs(w, d.files, d.mtime);
  }
}
