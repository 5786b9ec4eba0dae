/** What the promise-chain lock keeps, and what follows for every run. */
module PromiseLockTheorems {
  import opened Common
  import opened PromiseLock

  /** No work under this key among those with numbers in lo .. hi-1 is still to end. */
  ghost predicate AllSettled(s: State, key: string, lo: nat, hi: nat) {
    forall j :: lo <= j < hi && j < |s.works| && s.works[j].key == key ==> s.works[j].phase.Settled?
  }

  ghost predicate NoneBetween(s: State, key: string, lo: nat, hi: nat) {
    forall j :: lo <= j < hi && j < |s.works| ==> s.works[j].key != key
  }

  /** The work waits for the one before it under its key, or there was none left to wait for. */
  ghost predicate Chained(s: State, i: nat)
    requires i < |s.works|
  {
    match s.works[i].prev
    case None => AllSettled(s, s.works[i].key, 0, i)
    case Some(j) => j < i && s.works[j].key == s.works[i].key && NoneBetween(s, s.works[i].key, j + 1, i)
  }

  ghost predicate TailOk(s: State, key: string) {
    if key in s.tails then
      var k := s.tails[key];
      k < |s.works| && s.works[k].key == key && NoneBetween(s, key, k + 1, |s.works|)
    else AllSettled(s, key, 0, |s.works|)
  }

  ghost predicate Ordered(s: State, i: nat)
    requires i < |s.works|
  {
    s.works[i].phase.Waiting? || AllSettled(s, s.works[i].key, 0, i)
  }

  ghost predicate Inv(s: State) {
    && (forall i :: 0 <= i < |s.works| ==> Chained(s, i))
    && (forall i :: 0 <= i < |s.works| ==> Ordered(s, i))
    && (forall key :: TailOk(s, key))
  }

  lemma StartKeepsOrder(s: State, i: nat)
    requires Inv(s) && CanStart(s, i)
    ensures AllSettled(s, s.works[i].key, 0, i)
  {
    assert Chained(s, i);
    if s.works[i].prev.Some? {
      assert Ordered(s, s.works[i].prev.value);
    }
  }

  lemma ApplyKeepsWorks(s: State, l: Label, i: nat)
    requires Inv(s) && i < |Apply(s, l).works|
    ensures Chained(Apply(s, l), i) && Ordered(Apply(s, l), i)
  {
    if l.Start? && CanStart(s, l.i) { StartKeepsOrder(s, l.i); }
    if i < |s.works| { assert Chained(s, i) && Ordered(s, i); } else { assert TailOk(s, l.key); }
  }

  lemma ApplyKeepsTail(s: State, l: Label, key: string)
    requires Inv(s)
    ensures TailOk(Apply(s, l), key)
  {
    assert TailOk(s, key);
    if l.Forget? && key in s.tails && key !in Apply(s, l).tails { assert Ordered(s, l.i); }
  }

  lemma ApplyKeepsInv(s: State, l: Label)
    requires Inv(s)
    ensures Inv(Apply(s, l))
  {
    hide Apply, Chained, Ordered, TailOk;
    var s' := Apply(s, l);
    forall i | 0 <= i < |s'.works| ensures Chained(s', i) && Ordered(s', i) { ApplyKeepsWorks(s, l, i); }
    forall key ensures TailOk(s', key) { ApplyKeepsTail(s, l, key); }
  }

  lemma {:induction false} RunInv(ls: seq<Label>)
    ensures Inv(Run(ls))
  {
    if ls != [] {
      RunInv(ls[..|ls| - 1]);
      ApplyKeepsInv(Run(ls[..|ls| - 1]), ls[|ls| - 1]);
    }
  }

  /** Mutual exclusion, in arrival order: a work starts only after every earlier one of its key has ended. */
  lemma ArrivalOrder(ls: seq<Label>, i: nat, j: nat)
    requires var s := Run(ls); i < j < |s.works| && s.works[i].key == s.works[j].key && !s.works[j].phase.Waiting?
    ensures Run(ls).works[i].phase.Settled?
  {
    RunInv(ls);
    assert Ordered(Run(ls), j);
  }

  /** The map has no entry for a key only when nobody works or waits under it. */
  lemma ForgottenOnlyWhenFree(ls: seq<Label>, key: string, i: nat)
    requires var s := Run(ls); i < |s.works| && s.works[i].key == key && key !in s.tails
    ensures Run(ls).works[i].phase.Settled?
  {
    RunInv(ls);
    assert TailOk(Run(ls), key);
  }

  /** Nobody waits for ever: the first work of a key that has not ended runs, or may start now. */
  lemma FirstInLineMayGo(ls: seq<Label>, i: nat)
    requires var s := Run(ls); i < |s.works| && !s.works[i].phase.Settled? && AllSettled(s, s.works[i].key, 0, i)
    ensures Run(ls).works[i].phase.Running? || CanStart(Run(ls), i)
  {
    RunInv(ls);
    assert Chained(Run(ls), i);
  }

  /** And the map does not leak: an entry whose last work has ended goes with that work's callback. */
  lemma LastOneForgets(ls: seq<Label>, key: string)
    requires key in Run(ls).tails && AllSettled(Run(ls), key, 0, |Run(ls).works|)
    ensures var k := Run(ls).tails[key]; Enabled(Run(ls), Forget(k)) && key !in Apply(Run(ls), Forget(k)).tails
  {
    RunInv(ls);
    assert TailOk(Run(ls), key);
  }
}
