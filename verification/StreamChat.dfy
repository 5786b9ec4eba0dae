/** Network chunks: feeding the parser piece by piece, and what the caller of `streamChat` (src/archiveApi.js) sees. */
module StreamChat {
  import opened Common
  import opened EventStream

  // ---- network chunks

  /** A separator found in a first part of the text is the one of the whole text. */
  lemma {:induction false} SeparatorOfPrefix(a: string, b: string)
    requires Separator(a).Some?
    ensures Separator(a + b) == Separator(a)
    decreases |a|
  {
    hide LineFeed, LineEnd, WithoutCr, Separator;
    SeparatorStep(a);
    SeparatorStep(a + b);
    var k := LineFeed(a);
    LineFeedOfPrefix(a, b);
    assert (a + b)[k + 1..] == a[k + 1..] + b;
    assert (a + b)[..k] == a[..k];
    if LineEnd(a[k + 1..]) == 0 {
      SeparatorStartsLater(a[k + 1..], b);
      SeparatorOfPrefix(a[k + 1..], b);
    } else {
      LineEndOfPrefix(a[k + 1..], b);
    }
  }

  lemma LineEndOfPrefix(a: string, b: string)
    requires LineEnd(a) > 0
    ensures LineEnd(a + b) == LineEnd(a)
  {
  }

  lemma {:induction false} LineFeedOfPrefix(a: string, b: string)
    requires LineFeed(a) < |a|
    ensures LineFeed(a + b) == LineFeed(a)
  {
    if a[0] != '\n' {
      assert (a + b)[1..] == a[1..] + b;
      LineFeedOfPrefix(a[1..], b);
    }
  }

  /** A text that holds a line feed shows at once whether it begins with a line end. */
  lemma SeparatorStartsLater(a: string, b: string)
    requires Separator(a).Some?
    ensures LineEnd(a + b) == LineEnd(a)
  {
    assert |a| >= 2 || a == "\n";
  }

  /** Reading on after a first part gives the same as reading everything at once. */
  lemma {:induction false} ParseOnFromRest<D>(parse: string -> Option<D>, a: string, b: string)
    ensures Events(parse, a + b) == Events(parse, a) + Events(parse, Rest(a) + b)
    ensures Rest(a + b) == Rest(Rest(a) + b)
    decreases |a|
  {
    hide Separator, BlockEvents;
    match Separator(a)
    case None =>
    case Some(at) =>
      SeparatorOfPrefix(a, b);
      assert (a + b)[..at.start] == a[..at.start];
      assert (a + b)[at.end..] == a[at.end..] + b;
      ParseOnFromRest(parse, a[at.end..], b);
      var first, onward := BlockEvents(parse, NEW_BLOCK, a[..at.start]), Events(parse, a[at.end..]);
      assert Events(parse, a) == first + onward;
      assert Events(parse, a + b) == first + (onward + Events(parse, Rest(a) + b));
  }

  function Whole(chunks: seq<string>): string {
    if chunks == [] then "" else Whole(chunks[..|chunks| - 1]) + chunks[|chunks| - 1]
  }

  /** All events of a chunked reading, and the buffer it ends with. */
  function Feed<D>(parse: string -> Option<D>, chunks: seq<string>): (seq<Event<D>>, string) {
    if chunks == [] then ([], "")
    else
      var (events, buffer) := Feed(parse, chunks[..|chunks| - 1]);
      var text := buffer + chunks[|chunks| - 1];
      (events + Events(parse, text), Rest(text))
  }

  /** However the network cuts a text into chunks, the events and the unread rest are those of the whole text. */
  lemma {:induction false} ChunkingIsInvisible<D>(parse: string -> Option<D>, chunks: seq<string>)
    ensures Feed(parse, chunks) == (Events(parse, Whole(chunks)), Rest(Whole(chunks)))
  {
    if chunks != [] {
      var n := |chunks| - 1;
      ChunkingIsInvisible(parse, chunks[..n]);
      ParseOnFromRest(parse, Whole(chunks[..n]), chunks[n]);
    }
  }

  // ---- what the caller of streamChat sees

  /** What was delivered so far: the progress notifications, the last result, and the error that ends the request. */
  datatype Delivery<D> = Delivery(notified: seq<Event<D>>, result: Option<D>, error: Option<D>)

  function Deliver<D>(d: Delivery<D>, e: Event<D>): Delivery<D> {
    if d.error.Some? then d
    else if e.name == "result" then d.(result := Some(e.data))
    else if e.name == "error" then d.(error := Some(e.data))
    else if e.name == "done" then d
    else d.(notified := d.notified + [e])
  }

  function DeliverAll<D>(d: Delivery<D>, events: seq<Event<D>>): Delivery<D>
    decreases |events|
  {
    if events == [] then d else DeliverAll(Deliver(d, events[0]), events[1..])
  }

  function Delivered<D>(events: seq<Event<D>>): Delivery<D> {
    DeliverAll(Delivery([], None, None), events)
  }

  /** How the request ends; a result JavaScript takes for false is none. */
  datatype Outcome<D> = Resolved(result: D) | Failed(error: D) | NoResult

  function OutcomeOf<D>(truthy: D -> bool, d: Delivery<D>): Outcome<D> {
    if d.error.Some? then Failed(d.error.value)
    else if d.result.Some? && truthy(d.result.value) then Resolved(d.result.value)
    else NoResult
  }

  lemma {:induction false} DeliverOn<D>(d: Delivery<D>, a: seq<Event<D>>, b: seq<Event<D>>)
    ensures DeliverAll(d, a + b) == DeliverAll(DeliverAll(d, a), b)
    decreases |a|
  {
    if a == [] {
      assert a + b == b;
    } else {
      assert (a + b)[1..] == a[1..] + b;
      DeliverOn(Deliver(d, a[0]), a[1..], b);
    }
  }

  lemma {:induction false} NothingAfterAnError<D>(d: Delivery<D>, events: seq<Event<D>>)
    requires d.error.Some?
    ensures DeliverAll(d, events) == d
  {
    if events != [] { NothingAfterAnError(d, events[1..]); }
  }

  // ---- the answer, read off the events

  predicate IsProgress<D>(e: Event<D>) {
    e.name != "result" && e.name != "error" && e.name != "done"
  }

  /** The events the caller is notified of, in order. */
  function Progress<D>(events: seq<Event<D>>): seq<Event<D>> {
    if events == [] then []
    else Progress(events[..|events| - 1]) + (if IsProgress(events[|events| - 1]) then [events[|events| - 1]] else [])
  }

  /** Event i is the first one named "error". */
  ghost predicate FirstError<D>(events: seq<Event<D>>, i: nat) {
    i < |events| && events[i].name == "error" && forall j :: 0 <= j < i ==> events[j].name != "error"
  }

  ghost predicate NoError<D>(events: seq<Event<D>>) {
    forall i :: 0 <= i < |events| ==> events[i].name != "error"
  }

  /** Event i is the last one named "result". */
  ghost predicate LastResult<D>(events: seq<Event<D>>, i: nat) {
    i < |events| && events[i].name == "result" && forall j :: i < j < |events| ==> events[j].name != "result"
  }

  ghost predicate HasResult<D>(events: seq<Event<D>>) {
    exists i :: 0 <= i < |events| && events[i].name == "result"
  }

  /**
   The answer to a request with these events. It fails exactly if some event is an error, with the data of the first
   one, and after the progress before it. Else all progress is notified, and it gives the data of the last result, if
   there is one and JavaScript takes its data for true.
   */
  ghost predicate Answers<D>(truthy: D -> bool, events: seq<Event<D>>, notified: seq<Event<D>>, outcome: Outcome<D>) {
    && (outcome.Failed? <==> !NoError(events))
    && (forall i: nat :: FirstError(events, i) ==> outcome == Failed(events[i].data) && notified == Progress(events[..i]))
    && (NoError(events) ==>
          && notified == Progress(events)
          && (!HasResult(events) ==> outcome == NoResult)
          && (forall i: nat :: LastResult(events, i) ==>
                outcome == if truthy(events[i].data) then Resolved(events[i].data) else NoResult))
  }

  /** What was delivered of events without an error. */
  lemma {:induction false} DeliveredWithoutError<D>(events: seq<Event<D>>)
    requires NoError(events)
    ensures Delivered(events).notified == Progress(events) && Delivered(events).error == None
    ensures !HasResult(events) ==> Delivered(events).result == None
    ensures forall i: nat :: LastResult(events, i) ==> Delivered(events).result == Some(events[i].data)
  {
    if events != [] {
      var n := |events| - 1;
      var front, e := events[..n], events[n];
      DeliveredWithoutError(front);
      DeliveredSnoc(events);
      forall i: nat | LastResult(events, i) ensures Delivered(events).result == Some(events[i].data) {
        if i < n { assert LastResult(front, i); }
      }
      assert e.name != "error";
      if !IsProgress(e) { assert Progress(front) + [] == Progress(front); }
    }
  }

  lemma DeliveredSnoc<D>(events: seq<Event<D>>)
    requires events != []
    ensures var n := |events| - 1; Delivered(events) == Deliver(Delivered(events[..n]), events[n])
  {
    hide Deliver;
    var n := |events| - 1;
    assert events == events[..n] + [events[n]];
    DeliverOn(Delivery([], None, None), events[..n], [events[n]]);
    DeliverOne(Delivered(events[..n]), events[n]);
  }

  lemma DeliverOne<D>(d: Delivery<D>, e: Event<D>)
    ensures DeliverAll(d, [e]) == Deliver(d, e)
  {
    hide Deliver;
    assert [e][1..] == [];
  }

  lemma DeliveredUpToError<D>(events: seq<Event<D>>, i: nat)
    requires FirstError(events, i)
    ensures Delivered(events).error == Some(events[i].data) && Delivered(events).notified == Progress(events[..i])
  {
    hide Progress;
    DeliveredWithoutError(events[..i]);
    DeliveredSnoc(events[..i + 1]);
    assert events[..i + 1][..i] == events[..i];
    assert events == events[..i + 1] + events[i + 1..];
    DeliverOn(Delivery([], None, None), events[..i + 1], events[i + 1..]);
    NothingAfterAnError(Delivered(events[..i + 1]), events[i + 1..]);
  }

  lemma DeliveredAnswers<D>(truthy: D -> bool, events: seq<Event<D>>)
    ensures Answers(truthy, events, Delivered(events).notified, OutcomeOf(truthy, Delivered(events)))
  {
    hide Delivered, Progress;
    if NoError(events) {
      DeliveredWithoutError(events);
    } else {
      var i := AnError(events);
      DeliveredUpToError(events, i);
      forall j: nat | FirstError(events, j) ensures j == i { OneFirstError(events, i, j); }
    }
  }

  lemma OneFirstError<D>(events: seq<Event<D>>, i: nat, j: nat)
    requires FirstError(events, i) && FirstError(events, j)
    ensures i == j
  {
  }

  lemma {:induction false} AnError<D>(events: seq<Event<D>>) returns (i: nat)
    requires !NoError(events)
    ensures FirstError(events, i)
  {
    i := 0;
    while events[i].name != "error"
      invariant i < |events| && forall j :: 0 <= j < i ==> events[j].name != "error"
      decreases |events| - i
    {
      i := i + 1;
    }
  }

  /**
   The reading loop of `streamChat`: whatever the chunks, the caller is notified of the same events and gets the same
   outcome as if the whole text had been parsed at once, and that is the answer its events give.
   */
  method StreamChat<D>(parse: string -> Option<D>, truthy: D -> bool, chunks: seq<string>)
    returns (notified: seq<Event<D>>, outcome: Outcome<D>)
    ensures Answers(truthy, Events(parse, Whole(chunks)), notified, outcome)
    ensures var d := Delivered(Events(parse, Whole(chunks))); notified == d.notified && outcome == OutcomeOf(truthy, d)
  {
    hide Answers;
    DeliveredAnswers(truthy, Events(parse, Whole(chunks)));
    var buffer := "";
    var result: Option<D> := None;
    notified := [];
    var i := 0;
    while i < |chunks|
      invariant 0 <= i <= |chunks|
      invariant buffer == Rest(Whole(chunks[..i]))
      invariant Delivery(notified, result, None) == Delivered(Events(parse, Whole(chunks[..i])))
    {
      ghost var read := Whole(chunks[..i]);
      assert chunks[..i + 1][..i] == chunks[..i];
      ParseOnFromRest(parse, read, chunks[i]);
      var text := buffer + chunks[i];
      var events;
      events, buffer := ParseServerSentEvents(parse, text);
      DeliverOn(Delivery([], None, None), Events(parse, read), events);
      i := i + 1;
      var error;
      ghost var before := Delivery(notified, result, None);
      notified, result, error := DeliverLoop(notified, result, events);
      if error.Some? {
        var d := Delivery(notified, result, error);
        TextOfPrefix(chunks, i);
        ParseOnFromRest(parse, Whole(chunks[..i]), Whole(chunks[i..]));
        DeliverOn(Delivery([], None, None), Events(parse, Whole(chunks[..i])), Events(parse, Rest(Whole(chunks[..i])) + Whole(chunks[i..])));
        NothingAfterAnError(d, Events(parse, Rest(Whole(chunks[..i])) + Whole(chunks[i..])));
        return notified, Failed(error.value);
      }
    }
    assert chunks[..i] == chunks;
    outcome := if result.Some? && truthy(result.value) then Resolved(result.value) else NoResult;
  }

  /** Its inner loop, over the events of one chunk; an error ends it. */
  method DeliverLoop<D>(already: seq<Event<D>>, last: Option<D>, events: seq<Event<D>>)
    returns (notified: seq<Event<D>>, result: Option<D>, error: Option<D>)
    ensures Delivery(notified, result, error) == DeliverAll(Delivery(already, last, None), events)
  {
    notified, result, error := already, last, None;
    var i := 0;
    while i < |events|
      invariant 0 <= i <= |events|
      invariant error.None?
      invariant DeliverAll(Delivery(notified, result, None), events[i..]) == DeliverAll(Delivery(already, last, None), events)
    {
      var e := events[i];
      assert events[i..][0] == e && events[i..][1..] == events[i + 1..];
      i := i + 1;
      if e.name == "result" {
        result := Some(e.data);
      } else if e.name == "error" {
        error := Some(e.data);
        NothingAfterAnError(Delivery(notified, result, error), events[i..]);
        return;
      } else if e.name != "done" {
        notified := notified + [e];
      }
    }
  }

  lemma {:induction false} TextOfPrefix(chunks: seq<string>, i: nat)
    requires i <= |chunks|
    ensures Whole(chunks) == Whole(chunks[..i]) + Whole(chunks[i..])
  {
    if i == |chunks| {
      assert chunks[..i] == chunks;
    } else {
      var n := |chunks| - 1;
      TextOfPrefix(chunks[..n], i);
      assert chunks[..n][..i] == chunks[..i];
      assert chunks[..n][i..] == chunks[i..][..n - i];
      assert Whole(chunks[..i]) + Whole(chunks[i..][..n - i]) + chunks[n] == Whole(chunks[..i]) + (Whole(chunks[i..][..n - i]) + chunks[n]);
    }
  }
}
