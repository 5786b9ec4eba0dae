/** The caps over every run. */
module UploadCapacityTheorems {
  import opened Totals
  import opened UploadCapacity

  /** Nothing in progress; the sessions found on disk fit the caps. */
  ghost predicate Start(c: Config, s: State) {
    && |s.slots| >= 1 && s.clock == 1
    && (forall p :: 0 <= p < |s.slots| ==> s.slots[p] == Free)
    && (forall id :: id in s.open ==> s.open[id].listed == 0 && s.open[id].installed == 0 && s.open[id].size <= c.maxFile)
    && (forall m :: Cap(c, m) > 0 ==> Load(s, m) <= Cap(c, m))
  }

  lemma StartInv(c: Config, s: State)
    requires Start(c, s)
    ensures Inv(c, s)
  {
    assert Keys(s) == Before(s, 1);
  }

  lemma {:induction false} RunKeepsInv(c: Config, s: State, ls: seq<Label>)
    requires Start(c, s)
    ensures Inv(c, Run(c, s, ls)) && |Run(c, s, ls).slots| == |s.slots|
    decreases |ls|
  {
    if ls == [] {
      StartInv(c, s);
    } else {
      RunKeepsInv(c, s, ls[..|ls| - 1]);
      ApplyKeepsInv(c, Run(c, s, ls[..|ls| - 1]), ls[|ls| - 1]);
    }
  }

  /**
   However the scans, creations and removals of P processes interleave, the open sessions and the creations past
   their check together stay within maxSessions + (P-1), and their declared bytes within maxBytes + (P-1) files.
   No scan needs to be atomic. With one process the caps are exact.
   */
  lemma CapsHold(c: Config, s: State, ls: seq<Label>)
    requires Start(c, s)
    ensures |Run(c, s, ls).slots| == |s.slots|
    ensures var s', others := Run(c, s, ls), |s.slots| - 1;
      && (c.maxSessions > 0 ==> Load(s', CountSessions) <= c.maxSessions + others)
      && (c.maxBytes > 0 ==> Load(s', CountBytes) <= c.maxBytes + others * c.maxFile)
  {
    RunKeepsInv(c, s, ls);
    SlackIs(c, Run(c, s, ls));
    hide Run, Inv, Start, Load, Slack;
    if c.maxSessions > 0 { LoadIsBounded(c, Run(c, s, ls), CountSessions); }
    if c.maxBytes > 0 { LoadIsBounded(c, Run(c, s, ls), CountBytes); }
  }

  lemma SlackIs(c: Config, s: State)
    requires |s.slots| >= 1
    ensures Slack(c, s, CountSessions) == |s.slots| - 1 && Slack(c, s, CountBytes) == (|s.slots| - 1) * c.maxFile
  {
  }

  /** The load in sessions is their number. */
  lemma LoadCountsSessions(s: State)
    ensures Load(s, CountSessions) == |Keys(s)|
  {
    TotalOfOnes(Weights(s, CountSessions), Keys(s));
  }

  lemma {:induction false} TotalOfOnes(w: map<Key, nat>, ks: set<Key>)
    requires ks <= w.Keys && forall k :: k in ks ==> w[k] == 1
    ensures Total(w, ks) == |ks|
    decreases |ks|
  {
    if ks != {} {
      var k :| k in ks;
      TotalRemove(w, ks, k);
      TotalOfOnes(w, ks - {k});
    }
  }
}
