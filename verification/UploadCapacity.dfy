/**
 The caps on a tenant's open upload sessions (server/upload-session-store.js).

 Any number of processes share the sessions directory. The creations of one process run one at a time (its
 tenant lock), the creations of different processes do not see each other. A creation lists the directory,
 reads the listed manifests one by one while other processes create and remove sessions, decides, and installs.
 */
module UploadCapacity {
  import opened Totals

  type Id = nat

  /** An open session, with the process that created it and when that creation listed the directory and installed. */
  datatype Session = Session(size: nat, owner: nat, listed: nat, installed: nat)

  /** The one creation a process may have in progress. */
  datatype Slot =
    | Free
    | Scanning(id: Id, size: nat, listed: nat, todo: set<Id>, sessions: nat, bytes: nat)
    | Passed(id: Id, size: nat, listed: nat)

  /** A cap of 0 or less is no cap. `maxFile` is the largest size `validateMetadata` accepts. */
  datatype Config = Config(maxSessions: int, maxBytes: int, maxFile: nat)

  datatype State = State(open: map<Id, Session>, slots: seq<Slot>, clock: nat)

  datatype Label =
    | List(process: nat, id: Id, size: nat, others: set<Id>)  // `others`: listed directories without a manifest yet
    | Read(process: nat, id: Id)
    | Check(process: nat)
    | Install(process: nat)
    | Fail(process: nat)
    | Remove(id: Id)

  /** `assertTenantSessionCapacity` after the scan. */
  predicate WithinCaps(c: Config, sessions: nat, bytes: nat, size: nat) {
    && (c.maxSessions > 0 ==> sessions + 1 <= c.maxSessions)
    && (c.maxBytes > 0 ==> bytes + size <= c.maxBytes)
  }

  function Apply(c: Config, s: State, l: Label): State {
    match l
    case List(p, id, size, others) =>
      if p >= |s.slots| || s.slots[p] != Free || id in s.open || size > c.maxFile then s
      else
        var slot := if c.maxSessions <= 0 && c.maxBytes <= 0 then Passed(id, size, s.clock)
                    else Scanning(id, size, s.clock, s.open.Keys + others, 0, 0);
        s.(slots := s.slots[p := slot], clock := s.clock + 1)
    case Read(p, id) =>
      if p >= |s.slots| || !s.slots[p].Scanning? || id !in s.slots[p].todo then s
      else
        var slot := s.slots[p].(todo := s.slots[p].todo - {id});
        if id in s.open then
          s.(slots := s.slots[p := slot.(sessions := slot.sessions + 1, bytes := slot.bytes + s.open[id].size)])
        else s.(slots := s.slots[p := slot])
    case Check(p) =>
      if p >= |s.slots| || !s.slots[p].Scanning? || s.slots[p].todo != {} then s
      else
        var slot := s.slots[p];
        s.(slots := s.slots[p := if WithinCaps(c, slot.sessions, slot.bytes, slot.size)
                                 then Passed(slot.id, slot.size, slot.listed) else Free])
    case Install(p) =>
      if p >= |s.slots| || !s.slots[p].Passed? then s
      else
        var slot := s.slots[p];
        var s' := s.(slots := s.slots[p := Free], clock := s.clock + 1);
        if slot.id in s.open then s' else s'.(open := s.open[slot.id := Session(slot.size, p, slot.listed, s.clock)])
    case Fail(p) => if p >= |s.slots| then s else s.(slots := s.slots[p := Free])
    case Remove(id) => s.(open := s.open - {id})
  }

  function Run(c: Config, s: State, ls: seq<Label>): State
    decreases |ls|
  {
    if ls == [] then s else Apply(c, Run(c, s, ls[..|ls| - 1]), ls[|ls| - 1])
  }

  // ---- what is counted: open sessions and creations past the check

  datatype Key = OpenKey(id: Id) | PendingKey(process: nat)

  /** The two quantities the caps bound. */
  datatype Measure = CountSessions | CountBytes

  function Weight(m: Measure, size: nat): nat {
    if m.CountSessions? then 1 else size
  }

  function Cap(c: Config, m: Measure): int {
    if m.CountSessions? then c.maxSessions else c.maxBytes
  }

  function Seen(m: Measure, slot: Slot): nat
    requires slot.Scanning?
  {
    if m.CountSessions? then slot.sessions else slot.bytes
  }

  function Keys(s: State): set<Key> {
    (set id | id in s.open :: OpenKey(id)) + (set p: nat | p < |s.slots| && s.slots[p].Passed? :: PendingKey(p))
  }

  /** A creation past its check counts as a session that is not installed yet. */
  function ItemAt(s: State, k: Key): Session
    requires k in Keys(s)
  {
    match k
    case OpenKey(id) => s.open[id]
    case PendingKey(p) => Session(s.slots[p].size, p, s.slots[p].listed, s.clock)
  }

  function Weights(s: State, m: Measure): map<Key, nat> {
    map k | k in Keys(s) :: Weight(m, ItemAt(s, k).size)
  }

  ghost function Load(s: State, m: Measure): nat {
    Total(Weights(s, m), Keys(s))
  }

  /** What was installed before time n and is still open. */
  function Before(s: State, n: nat): set<Key> {
    set k | k in Keys(s) && ItemAt(s, k).installed < n
  }

  // ---- the invariant

  /** Sessions that were open at the start have both times 0. */
  ghost predicate Timed(s: State, k: Key)
    requires k in Keys(s)
  {
    var i := ItemAt(s, k);
    (k.OpenKey? && i.listed == 0 && i.installed == 0)
    || (1 <= i.listed < i.installed <= s.clock && i.owner < |s.slots| && (k.OpenKey? ==> i.installed < s.clock))
  }

  /** Creations of one process do not overlap in time. */
  ghost predicate Apart(s: State, j: Key, k: Key)
    requires j in Keys(s) && k in Keys(s)
  {
    var a, b := ItemAt(s, j), ItemAt(s, k);
    a.listed >= 1 && b.listed >= 1 && a.owner == b.owner && j != k ==> a.installed < b.listed || b.installed < a.listed
  }

  /** A creation that passed its check fitted on top of all that was installed before it listed, and still does. */
  ghost predicate Fitted(c: Config, s: State, k: Key, m: Measure)
    requires k in Keys(s)
  {
    var i := ItemAt(s, k);
    i.size <= c.maxFile
    && (i.listed >= 1 && Cap(c, m) > 0 ==> Total(Weights(s, m), Before(s, i.listed)) + Weight(m, i.size) <= Cap(c, m))
  }

  /** What a scan has counted covers what was installed before it listed, is still open, and is not still to be read. */
  ghost predicate Scans(c: Config, s: State, p: nat, m: Measure)
    requires p < |s.slots| && s.slots[p].Scanning?
  {
    var slot := s.slots[p];
    && slot.size <= c.maxFile
    && 1 <= slot.listed < s.clock
    && (forall id :: id in s.open && s.open[id].owner == p && s.open[id].listed >= 1 ==> s.open[id].installed < slot.listed)
    && Total(Weights(s, m), Before(s, slot.listed) - ToRead(s, slot.todo)) <= Seen(m, slot)
  }

  function ToRead(s: State, todo: set<Id>): set<Key> {
    set k | k in Keys(s) && k.OpenKey? && k.id in todo
  }

  ghost predicate Inv(c: Config, s: State) {
    && s.clock >= 1
    && (forall k :: k in Keys(s) ==> Timed(s, k))
    && (forall j, k :: j in Keys(s) && k in Keys(s) ==> Apart(s, j, k))
    && (forall k, m :: k in Keys(s) ==> Fitted(c, s, k, m))
    && (forall p, m :: 0 <= p < |s.slots| && s.slots[p].Scanning? ==> Scans(c, s, p, m))
    && (forall m: Measure :: Cap(c, m) > 0 ==> Total(Weights(s, m), Before(s, 1)) <= Cap(c, m))
  }

  // ---- the bound

  /** One largest item for each process but one. */
  function Slack(c: Config, s: State, m: Measure): nat
    requires |s.slots| >= 1
  {
    (|s.slots| - 1) * Weight(m, c.maxFile)
  }

  ghost predicate Latest(s: State, k: Key) {
    k in Keys(s) && forall j :: j in Keys(s) ==> ItemAt(s, j).listed <= ItemAt(s, k).listed
  }

  lemma {:induction false} LatestIn(s: State, ks: set<Key>) returns (k: Key)
    requires ks <= Keys(s) && ks != {}
    ensures k in ks && forall j :: j in ks ==> ItemAt(s, j).listed <= ItemAt(s, k).listed
    decreases |ks|
  {
    var j :| j in ks;
    if ks == {j} {
      k := j;
    } else {
      var r := LatestIn(s, ks - {j});
      k := if ItemAt(s, j).listed <= ItemAt(s, r).listed then r else j;
    }
  }

  /** Not installed when creation k listed the directory, and not k itself. */
  function Rest(s: State, k: Key): set<Key>
    requires k in Keys(s)
  {
    Keys(s) - Before(s, ItemAt(s, k).listed) - {k}
  }

  lemma RestIsInFlight(c: Config, s: State, k: Key, j: Key)
    requires Inv(c, s) && Latest(s, k) && ItemAt(s, k).listed >= 1 && j in Rest(s, k)
    ensures ItemAt(s, j).listed >= 1 && ItemAt(s, j).owner < |s.slots| && ItemAt(s, j).owner != ItemAt(s, k).owner
  {
    assert Timed(s, j) && Timed(s, k) && Apart(s, j, k);
  }

  lemma RestIsApart(c: Config, s: State, k: Key, j: Key, h: Key)
    requires Inv(c, s) && Latest(s, k) && ItemAt(s, k).listed >= 1 && j in Rest(s, k) && h in Rest(s, k)
    requires ItemAt(s, j).owner == ItemAt(s, h).owner
    ensures j == h
  {
    RestIsInFlight(c, s, k, j);
    RestIsInFlight(c, s, k, h);
    assert Apart(s, j, h);
  }

  /** Besides what was installed before the latest creation listed, each other process has at most one item. */
  lemma OthersAreFew(c: Config, s: State, k: Key)
    requires Inv(c, s) && Latest(s, k) && ItemAt(s, k).listed >= 1
    ensures |Rest(s, k)| <= |s.slots| - 1
  {
    var rest := Rest(s, k);
    var owners := map j | j in Keys(s) :: ItemAt(s, j).owner;
    var labels := Processes(|s.slots|) - {ItemAt(s, k).owner};
    assert Timed(s, k);
    forall j | j in rest ensures owners[j] in labels { RestIsInFlight(c, s, k, j); }
    forall j, h | j in rest && h in rest && owners[j] == owners[h] ensures j == h { RestIsApart(c, s, k, j, h); }
    hide Rest, Inv, Latest;
    InjectiveCount(rest, labels, owners);
  }

  function Processes(n: nat): (ps: set<nat>)
    ensures |ps| == n && forall p :: p in ps <==> 0 <= p < n
  {
    if n == 0 then {} else Processes(n - 1) + {n - 1}
  }

  /**
   In every state of every run that starts within a cap, the open sessions and the creations past their check
   exceed it by at most one largest item for each further process; with one process, not at all.
   */
  lemma LoadIsBounded(c: Config, s: State, m: Measure)
    requires Inv(c, s) && |s.slots| >= 1 && Cap(c, m) > 0
    ensures Load(s, m) <= Cap(c, m) + Slack(c, s, m)
  {
    if forall k :: k in Keys(s) ==> ItemAt(s, k).listed == 0 {
      forall k | k in Keys(s) ensures k in Before(s, 1) { assert Timed(s, k); }
      assert Keys(s) == Before(s, 1);
    } else {
      var j :| j in Keys(s) && ItemAt(s, j).listed >= 1;
      var k := LatestIn(s, Keys(s));
      OthersAreFew(c, s, k);
      assert Fitted(c, s, k, m) && Timed(s, k);
      forall j | j in Keys(s) ensures ItemAt(s, j).size <= c.maxFile { assert Fitted(c, s, j, m); }
      LoadFromLatest(c, s, m, k);
    }
  }

  lemma KeysSplit(s: State, m: Measure, k: Key)
    requires k in Keys(s) && ItemAt(s, k).listed <= ItemAt(s, k).installed
    ensures var w, before, rest := Weights(s, m), Before(s, ItemAt(s, k).listed), Rest(s, k);
      && w.Keys == Keys(s) == before + {k} + rest && k !in before && k !in rest && before !! rest
      && w[k] == Weight(m, ItemAt(s, k).size)
  {
  }

  lemma LoadFromLatest(c: Config, s: State, m: Measure, k: Key)
    requires k in Keys(s) && 0 <= |Rest(s, k)| <= |s.slots| - 1 && ItemAt(s, k).listed <= ItemAt(s, k).installed
    requires forall j :: j in Keys(s) ==> ItemAt(s, j).size <= c.maxFile
    requires Total(Weights(s, m), Before(s, ItemAt(s, k).listed)) + Weight(m, ItemAt(s, k).size) <= Cap(c, m)
    ensures Load(s, m) <= Cap(c, m) + Slack(c, s, m)
  {
    var w, rest, n := Weights(s, m), Rest(s, k), |s.slots| - 1;
    var largest := Weight(m, c.maxFile);
    forall j | j in rest ensures w[j] <= largest { }
    KeysSplit(s, m, k);
    assert Slack(c, s, m) == n * largest;
    hide Keys, Before, Rest, ItemAt, Weights, Weight, Slack;
    TotalOfThree(w, Before(s, ItemAt(s, k).listed), k, rest, n, largest);
  }

  // ---- every label keeps the invariant

  /** What was installed before now is as it was, or gone. */
  ghost predicate Ages(s: State, s': State) {
    && |s'.slots| == |s.slots| && s.clock <= s'.clock
    && forall k :: k in Keys(s') && ItemAt(s', k).installed < s.clock ==> k in Keys(s) && ItemAt(s, k) == ItemAt(s', k)
  }

  lemma AgedTotal(s: State, s': State, m: Measure, n: nat, out: set<Key>, out': set<Key>)
    requires Ages(s, s') && n <= s.clock
    requires forall k :: k in Before(s', n) && k !in out' ==> k !in out
    ensures Total(Weights(s', m), Before(s', n) - out') <= Total(Weights(s, m), Before(s, n) - out)
  {
    var a, b := Before(s', n) - out', Before(s, n) - out;
    assert a <= b;
    TotalSame(Weights(s', m), Weights(s, m), a);
    TotalMonotone(Weights(s, m), a, b);
  }

  lemma FittedAges(c: Config, s: State, s': State, k: Key, k': Key, m: Measure)
    requires Ages(s, s') && k in Keys(s) && k' in Keys(s') && Fitted(c, s, k, m)
    requires ItemAt(s', k').size == ItemAt(s, k).size && ItemAt(s', k').listed == ItemAt(s, k).listed <= s.clock
    ensures Fitted(c, s', k', m)
  {
    var n := ItemAt(s, k).listed;
    AgedTotal(s, s', m, n, {}, {});
    assert Before(s', n) - {} == Before(s', n) && Before(s, n) - {} == Before(s, n);
  }

  lemma ScansAge(c: Config, s: State, s': State, p: nat, m: Measure)
    requires Ages(s, s') && p < |s.slots| && s.slots[p].Scanning? && s'.slots[p] == s.slots[p] && Scans(c, s, p, m)
    requires forall id :: id in s'.open && s'.open[id].owner == p && s'.open[id].listed >= 1 ==> id in s.open && s.open[id] == s'.open[id]
    ensures Scans(c, s', p, m)
  {
    var slot := s.slots[p];
    AgedTotal(s, s', m, slot.listed, ToRead(s, slot.todo), ToRead(s', slot.todo));
  }

  lemma StartFits(c: Config, s: State, s': State, m: Measure)
    requires Ages(s, s') && s.clock >= 1
    requires Cap(c, m) > 0 ==> Total(Weights(s, m), Before(s, 1)) <= Cap(c, m)
    ensures Cap(c, m) > 0 ==> Total(Weights(s', m), Before(s', 1)) <= Cap(c, m)
  {
    AgedTotal(s, s', m, 1, {}, {});
    assert Before(s', 1) - {} == Before(s', 1) && Before(s, 1) - {} == Before(s, 1);
  }

  /** All but the slot of process p and the items in `added` carries over. */
  lemma Carries(c: Config, s: State, s': State, p: nat, added: set<Key>)
    requires Inv(c, s) && Ages(s, s') && p < |s.slots|
    requires forall q :: 0 <= q < |s.slots| && q != p ==> s'.slots[q] == s.slots[q]
    requires forall k :: k in Keys(s') && k !in added ==>
      k in Keys(s) && (k.OpenKey? ==> s'.open[k.id] == s.open[k.id]) && (k.PendingKey? ==> s'.slots[k.process] == s.slots[k.process])
    requires forall k :: k in added && k in Keys(s') ==> ItemAt(s', k).owner == p && Timed(s', k)
    requires forall j, k :: k in added && k in Keys(s') && j in Keys(s') ==> Apart(s', j, k) && Apart(s', k, j)
    requires forall k, m :: k in added && k in Keys(s') ==> Fitted(c, s', k, m)
    requires forall m :: s'.slots[p].Scanning? ==> Scans(c, s', p, m)
    ensures Inv(c, s')
  {
    forall k | k in Keys(s') ensures Timed(s', k) {
      if k !in added { assert Timed(s, k); }
    }
    forall j, k | j in Keys(s') && k in Keys(s') ensures Apart(s', j, k) {
      if j !in added && k !in added { assert Apart(s, j, k) && Timed(s, j) && Timed(s, k); }
    }
    forall k, m | k in Keys(s') ensures Fitted(c, s', k, m) {
      if k !in added { assert Timed(s, k) && Fitted(c, s, k, m); FittedAges(c, s, s', k, k, m); }
    }
    forall q, m | 0 <= q < |s'.slots| && s'.slots[q].Scanning? ensures Scans(c, s', q, m) {
      if q != p {
        assert Scans(c, s, q, m);
        forall id | id in s'.open && s'.open[id].owner == q && s'.open[id].listed >= 1 ensures id in s.open && s.open[id] == s'.open[id] {
          assert OpenKey(id) in Keys(s');
        }
        ScansAge(c, s, s', q, m);
      }
    }
    forall m: Measure ensures Cap(c, m) > 0 ==> Total(Weights(s', m), Before(s', 1)) <= Cap(c, m) { StartFits(c, s, s', m); }
  }

  lemma ListKeepsInv(c: Config, s: State, p: nat, id: Id, size: nat, others: set<Id>)
    requires Inv(c, s)
    ensures Inv(c, Apply(c, s, List(p, id, size, others)))
  {
    var s' := Apply(c, s, List(p, id, size, others));
    if s' != s {
      forall k | k in Keys(s') && k !in {PendingKey(p)} ensures k in Keys(s) && Timed(s, k) { assert k in Keys(s); }
      if s'.slots[p].Scanning? {
        forall m ensures Scans(c, s', p, m) {
          forall k | k in Before(s', s.clock) ensures k in ToRead(s', s'.slots[p].todo) { assert k.OpenKey?; }
          assert Before(s', s.clock) - ToRead(s', s'.slots[p].todo) == {};
          forall i | i in s'.open ensures s'.open[i].installed < s.clock { assert Timed(s, OpenKey(i)); }
        }
      } else {
        forall j | j in Keys(s') ensures Apart(s', j, PendingKey(p)) && Apart(s', PendingKey(p), j) {
          if j != PendingKey(p) { assert Timed(s, j); }
        }
      }
      Carries(c, s, s', p, {PendingKey(p)});
    }
  }

  lemma ReadCounts(c: Config, s: State, p: nat, id: Id, m: Measure)
    requires p < |s.slots| && s.slots[p].Scanning? && id in s.slots[p].todo && Scans(c, s, p, m)
    ensures Scans(c, Apply(c, s, Read(p, id)), p, m)
  {
    var s' := Apply(c, s, Read(p, id));
    var n, w := s.slots[p].listed, Weights(s, m);
    var a, b := Before(s, n) - ToRead(s, s.slots[p].todo), Before(s', n) - ToRead(s', s'.slots[p].todo);
    assert Keys(s') == Keys(s);
    ReadWeights(c, s, p, id, m);
    if id in s.open && OpenKey(id) in b {
      assert b - {OpenKey(id)} == a;
      TotalRemove(w, b, OpenKey(id));
    } else {
      assert b == a;
    }
  }

  lemma ReadWeights(c: Config, s: State, p: nat, id: Id, m: Measure)
    requires p < |s.slots| && s.slots[p].Scanning?
    ensures Weights(Apply(c, s, Read(p, id)), m) == Weights(s, m)
  {
    assert Keys(Apply(c, s, Read(p, id))) == Keys(s);
  }

  lemma ReadKeepsInv(c: Config, s: State, p: nat, id: Id)
    requires Inv(c, s)
    ensures Inv(c, Apply(c, s, Read(p, id)))
  {
    var s' := Apply(c, s, Read(p, id));
    if s' != s {
      assert Keys(s') == Keys(s);
      forall m ensures Scans(c, s', p, m) {
        assert Scans(c, s, p, m);
        ReadCounts(c, s, p, id, m);
      }
      Carries(c, s, s', p, {});
    }
  }

  lemma CheckKeepsInv(c: Config, s: State, p: nat)
    requires Inv(c, s)
    ensures Inv(c, Apply(c, s, Check(p)))
  {
    var s' := Apply(c, s, Check(p));
    if s' != s {
      var slot := s.slots[p];
      forall k | k in Keys(s') && k !in {PendingKey(p)} ensures k in Keys(s) { }
      if s'.slots[p].Passed? {
        assert Scans(c, s, p, CountSessions);
        forall j | j in Keys(s') ensures Apart(s', j, PendingKey(p)) && Apart(s', PendingKey(p), j) {
          if j != PendingKey(p) { assert Timed(s, j); }
        }
        forall m ensures Fitted(c, s', PendingKey(p), m) {
          assert Scans(c, s, p, m);
          assert Before(s, slot.listed) - ToRead(s, slot.todo) == Before(s, slot.listed) == Before(s', slot.listed);
          TotalSame(Weights(s', m), Weights(s, m), Before(s, slot.listed));
        }
      }
      Carries(c, s, s', p, {PendingKey(p)});
    }
  }

  lemma InstallKeepsInv(c: Config, s: State, p: nat)
    requires Inv(c, s)
    ensures Inv(c, Apply(c, s, Install(p)))
  {
    var s' := Apply(c, s, Install(p));
    if s' != s {
      var slot, k0 := s.slots[p], PendingKey(p);
      assert k0 in Keys(s) && Timed(s, k0);
      if slot.id in s.open {
        assert Keys(s') == Keys(s) - {k0};
        Carries(c, s, s', p, {});
      } else {
        InstallAddsInv(c, s, p);
      }
    }
  }

  lemma InstallAddsInv(c: Config, s: State, p: nat)
    requires Inv(c, s) && p < |s.slots| && s.slots[p].Passed? && s.slots[p].id !in s.open
    ensures Inv(c, Apply(c, s, Install(p)))
  {
    var s' := Apply(c, s, Install(p));
    var k0, added := PendingKey(p), OpenKey(s.slots[p].id);
    assert Keys(s') == Keys(s) - {k0} + {added};
    assert k0 in Keys(s) && Timed(s, k0);
    forall j | j in Keys(s') ensures Apart(s', j, added) && Apart(s', added, j) { InstallApart(c, s, p, j); }
    forall m ensures Fitted(c, s', added, m) {
      assert Fitted(c, s, k0, m);
      FittedAges(c, s, s', k0, added, m);
    }
    Carries(c, s, s', p, {added});
  }

  lemma InstallApart(c: Config, s: State, p: nat, j: Key)
    requires Inv(c, s) && p < |s.slots| && s.slots[p].Passed? && s.slots[p].id !in s.open
    requires j in Keys(Apply(c, s, Install(p)))
    ensures var s', added := Apply(c, s, Install(p)), OpenKey(s.slots[p].id);
      added in Keys(s') && Apart(s', j, added) && Apart(s', added, j)
  {
    if j != OpenKey(s.slots[p].id) {
      assert j in Keys(s) && PendingKey(p) in Keys(s);
      assert Apart(s, j, PendingKey(p)) && Timed(s, j) && Timed(s, PendingKey(p));
    }
  }

  lemma LossKeepsInv(c: Config, s: State, l: Label)
    requires Inv(c, s) && (l.Fail? || l.Remove?)
    ensures Inv(c, Apply(c, s, l))
  {
    var s' := Apply(c, s, l);
    if l.Fail? {
      if l.process < |s.slots| {
        assert Keys(s') <= Keys(s);
        Carries(c, s, s', l.process, {});
      }
    } else if |s.slots| > 0 {
      assert Keys(s') <= Keys(s);
      forall m | s'.slots[0].Scanning? ensures Scans(c, s', 0, m) { assert Scans(c, s, 0, m); ScansAge(c, s, s', 0, m); }
      Carries(c, s, s', 0, {});
    } else {
      assert Keys(s') <= Keys(s);
      forall k | k in Keys(s') ensures Timed(s', k) { assert Timed(s, k); }
      forall k, m | k in Keys(s') ensures Fitted(c, s', k, m) { assert Timed(s, k) && Fitted(c, s, k, m); FittedAges(c, s, s', k, k, m); }
      forall j, k | j in Keys(s') && k in Keys(s') ensures Apart(s', j, k) { assert Apart(s, j, k); }
      forall m: Measure ensures Cap(c, m) > 0 ==> Total(Weights(s', m), Before(s', 1)) <= Cap(c, m) { StartFits(c, s, s', m); }
    }
  }

  lemma ApplyKeepsInv(c: Config, s: State, l: Label)
    requires Inv(c, s)
    ensures Inv(c, Apply(c, s, l))
  {
    match l
    case List(p, id, size, others) => ListKeepsInv(c, s, p, id, size, others);
    case Read(p, id) => ReadKeepsInv(c, s, p, id);
    case Check(p) => CheckKeepsInv(c, s, p);
    case Install(p) => InstallKeepsInv(c, s, p);
    case _ => LossKeepsInv(c, s, l);
  }
}
