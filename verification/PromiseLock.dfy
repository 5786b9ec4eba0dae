/**
 The promise-chain lock (`withFeedbackFileLock` in server/feedback.js, `withTenantSessionCreationLock` in
 server/upload-session-store.js): a map from a key to the promise of the last work that arrived under it.

 Each work waits for the promise it found in the map, or for nothing. Promise callbacks run at any later time, in
 any order; the map entry goes away in a callback of its own, if by then it is still this work's promise.
 */
module PromiseLock {
  import opened Common

  datatype Phase = Waiting | Running | Settled

  /** `prev`: the work whose promise was in the map on arrival. */
  datatype Work = Work(key: string, prev: Option<nat>, phase: Phase)

  /** Works by arrival number, and the map. */
  datatype State = State(works: seq<Work>, tails: map<string, nat>)

  datatype Label =
    | Arrive(key: string)
    | Start(i: nat)
    | Settle(i: nat)     // the work ends, well or badly
    | Forget(i: nat)     // the callback that deletes the map entry

  const EMPTY := State([], map[])

  predicate CanStart(s: State, i: nat) {
    && i < |s.works| && s.works[i].phase.Waiting?
    && (s.works[i].prev.None? || (s.works[i].prev.value < |s.works| && s.works[s.works[i].prev.value].phase.Settled?))
  }

  predicate Enabled(s: State, l: Label) {
    match l
    case Arrive(_) => true
    case Start(i) => CanStart(s, i)
    case Settle(i) => i < |s.works| && s.works[i].phase.Running?
    case Forget(i) => i < |s.works| && s.works[i].phase.Settled?
  }

  function Apply(s: State, l: Label): State {
    if !Enabled(s, l) then s else
    match l
    case Arrive(key) =>
      var prev := if key in s.tails then Some(s.tails[key]) else None;
      State(s.works + [Work(key, prev, Waiting)], s.tails[key := |s.works|])
    case Start(i) => s.(works := s.works[i := s.works[i].(phase := Running)])
    case Settle(i) => s.(works := s.works[i := s.works[i].(phase := Settled)])
    case Forget(i) =>
      var key := s.works[i].key;
      if key in s.tails && s.tails[key] == i then s.(tails := s.tails - {key}) else s
  }

  function Run(ls: seq<Label>): State {
    if ls == [] then EMPTY else Apply(Run(ls[..|ls| - 1]), ls[|ls| - 1])
  }
}
