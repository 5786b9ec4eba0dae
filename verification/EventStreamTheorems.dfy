/** The buffer parser against a line-by-line reader, and against what the server writes. */
module EventStreamTheorems {
  import opened Common
  import opened JsText
  import opened EventStream
  import opened StreamChat

  // ---- the reading line after line

  /**
   The reader of the standard, on this subset: take line after line, collect the fields, give the event out at an
   empty line and start anew; a last line without its line end, and a last block without its empty line, are dropped.
   */
  function LineByLine<D>(parse: string -> Option<D>, f: Fields, s: string): seq<Event<D>>
    decreases |s|
  {
    var k := LineFeed(s);
    if k == |s| then []
    else
      var line := WithoutCr(s[..k]);
      if line == "" then Dispatch(parse, f) + LineByLine(parse, NEW_BLOCK, s[k + 1..])
      else LineByLine(parse, Field(f, line), s[k + 1..])
  }

  /** `Events` for a text whose first block goes on from these fields. */
  function EventsFrom<D>(parse: string -> Option<D>, f: Fields, s: string): seq<Event<D>> {
    match Separator(s)
    case None => []
    case Some(at) => BlockEvents(parse, f, s[..at.start]) + Events(parse, s[at.end..])
  }

  lemma LineFeedAt(s: string, k: nat)
    requires k < |s| && s[k] == '\n' && forall i :: 0 <= i < k ==> s[i] != '\n'
    ensures LineFeed(s) == k
  {
  }

  lemma LinesOfOneLine(line: string)
    requires forall i :: 0 <= i < |line| ==> line[i] != '\n'
    ensures Lines(line) == [line]
  {
    assert LineFeed(line) == |line|;
  }

  lemma LinesStep(s: string)
    requires LineFeed(s) < |s|
    ensures var k := LineFeed(s); Lines(s) == [WithoutCr(s[..k])] + Lines(s[k + 1..])
  {
    hide LineFeed, WithoutCr;
  }

  lemma SliceOfPrefix(s: string, k: nat, n: nat)
    requires k + 1 + n <= |s|
    ensures s[..k + 1 + n][..k] == s[..k] && s[..k + 1 + n][k + 1..] == s[k + 1..][..n]
  {
  }

  lemma LinesOfBlock(s: string, n: nat)
    requires LineFeed(s) < |s| && LineFeed(s) + 1 + n <= |s|
    ensures var k := LineFeed(s); Lines(s[..k + 1 + n]) == [WithoutCr(s[..k])] + Lines(s[k + 1..][..n])
  {
    hide LineFeed, WithoutCr, Lines;
    var k := LineFeed(s);
    var block := s[..k + 1 + n];
    LineFeedAt(block, k);
    LinesStep(block);
    SliceOfPrefix(s, k, n);
  }

  lemma FieldsStep(f: Fields, line: string, lines: seq<string>)
    ensures FieldsOf(f, [line] + lines) == FieldsOf(Field(f, line), lines)
  {
    hide Field;
    assert ([line] + lines)[1..] == lines;
  }

  /** The fields of a block, and its event, from its first line on. */
  lemma BlockAfterLine<D>(parse: string -> Option<D>, f: Fields, s: string, n: nat)
    requires LineFeed(s) < |s| && LineFeed(s) + 1 + n <= |s|
    ensures var k := LineFeed(s);
      BlockEvents(parse, f, s[..k + 1 + n]) == BlockEvents(parse, Field(f, WithoutCr(s[..k])), s[k + 1..][..n])
  {
    hide Field, Dispatch, Lines, LineFeed, WithoutCr, FieldsOf;
    var k := LineFeed(s);
    LinesOfBlock(s, n);
    FieldsStep(f, WithoutCr(s[..k]), Lines(s[k + 1..][..n]));
  }

  lemma BlockOfOneLine<D>(parse: string -> Option<D>, f: Fields, line: string)
    requires forall i :: 0 <= i < |line| ==> line[i] != '\n'
    ensures BlockEvents(parse, f, line) == Dispatch(parse, Field(f, line))
  {
    hide Field, Dispatch, Lines, FieldsOf;
    LinesOfOneLine(line);
    assert [line] + [] == [line];
    FieldsStep(f, line, []);
    FieldsOfNone(Field(f, line));
  }

  /** After the first line the block goes on with its fields. */
  lemma EventsAfterLine<D>(parse: string -> Option<D>, f: Fields, s: string)
    requires LineFeed(s) < |s| && LineEnd(s[LineFeed(s) + 1..]) == 0
    ensures var k := LineFeed(s); EventsFrom(parse, f, s) == EventsFrom(parse, Field(f, WithoutCr(s[..k])), s[k + 1..])
  {
    hide *;
    SeparatorStep(s);
    var k := LineFeed(s);
    ShiftCase(parse, f, Field(f, WithoutCr(s[..k])), s, k);
  }

  lemma ShiftCase<D>(parse: string -> Option<D>, f: Fields, f': Fields, s: string, k: nat)
    requires k == LineFeed(s) < |s| && f' == Field(f, WithoutCr(s[..k]))
    requires Separator(s) == Shifted(Separator(s[k + 1..]), k + 1)
    ensures EventsFrom(parse, f, s) == EventsFrom(parse, f', s[k + 1..])
  {
    hide LineFeed, Field, WithoutCr, Separator, EventsFrom, Events, BlockEvents;
    match Separator(s[k + 1..])
    case None =>
      EventsFromNone(parse, f, s);
      EventsFromNone(parse, f', s[k + 1..]);
    case Some(at) =>
      BlockAfterLine(parse, f, s, at.start);
      EventsShift(parse, f, f', s, k + 1, at);
  }

  lemma EventsShift<D>(parse: string -> Option<D>, f: Fields, f': Fields, s: string, n: nat, at: Span)
    requires n <= |s| && Separator(s[n..]) == Some(at) && Separator(s) == Some(Span(at.start + n, at.end + n))
    requires BlockEvents(parse, f, s[..n + at.start]) == BlockEvents(parse, f', s[n..][..at.start])
    ensures EventsFrom(parse, f, s) == EventsFrom(parse, f', s[n..])
  {
    hide *;
    EventsFromSome(parse, f, s, Span(at.start + n, at.end + n));
    EventsFromSome(parse, f', s[n..], at);
    assert s[at.end + n..] == s[n..][at.end..];
  }

  lemma EventsFromNone<D>(parse: string -> Option<D>, f: Fields, s: string)
    requires Separator(s).None?
    ensures EventsFrom(parse, f, s) == []
  {
    hide Separator;
  }

  lemma EventsFromSome<D>(parse: string -> Option<D>, f: Fields, s: string, at: Span)
    requires Separator(s) == Some(at)
    ensures EventsFrom(parse, f, s) == BlockEvents(parse, f, s[..at.start]) + Events(parse, s[at.end..])
  {
    hide Separator, BlockEvents, Events;
  }

  /** The first line is a whole block: an empty line follows. */
  lemma EventsAfterBlock<D>(parse: string -> Option<D>, f: Fields, s: string)
    requires LineFeed(s) < |s| && LineEnd(s[LineFeed(s) + 1..]) > 0
    ensures var k := LineFeed(s);
      EventsFrom(parse, f, s) == Dispatch(parse, Field(f, WithoutCr(s[..k]))) + Events(parse, s[k + 1 + LineEnd(s[k + 1..])..])
  {
    hide *;
    SeparatorStep(s);
    FirstLine(s);
    EventsFromFound(parse, f, s, WithoutCr(s[..LineFeed(s)]), LineFeed(s) + 1 + LineEnd(s[LineFeed(s) + 1..]));
  }

  lemma EventsFromFound<D>(parse: string -> Option<D>, f: Fields, s: string, line: string, end: nat)
    requires Separator(s) == Some(Span(|line|, end)) && s[..|line|] == line
    requires forall i :: 0 <= i < |line| ==> line[i] != '\n'
    ensures EventsFrom(parse, f, s) == Dispatch(parse, Field(f, line)) + Events(parse, s[end..])
  {
    hide Field, Dispatch, Events, LineEnd, Separator, LineFeed, BlockEvents, WithoutCr;
    BlockOfOneLine(parse, f, line);
  }

  lemma FirstLine(s: string)
    ensures var line := WithoutCr(s[..LineFeed(s)]);
      |line| <= |s| && s[..|line|] == line && forall i :: 0 <= i < |line| ==> line[i] != '\n'
  {
    hide LineFeed;
  }

  lemma FieldsOfNone(f: Fields)
    ensures FieldsOf(f, []) == f
  {
  }

  /** Reading on after a line end that follows a line: the automaton sees an empty line. */
  lemma EmptyLineNext<D>(parse: string -> Option<D>, f: Fields, tail: string)
    requires LineEnd(tail) > 0
    ensures LineByLine(parse, f, tail) == Dispatch(parse, f) + LineByLine(parse, NEW_BLOCK, tail[LineEnd(tail)..])
  {
    hide Dispatch;
    var n := LineEnd(tail);
    LineFeedAt(tail, n - 1);
    assert WithoutCr(tail[..n - 1]) == "";
  }

  lemma LineByLineStep<D>(parse: string -> Option<D>, f: Fields, s: string)
    ensures LineByLine(parse, f, s) == (
      var k := LineFeed(s);
      if k == |s| then []
      else
        var line := WithoutCr(s[..k]);
        if line == "" then Dispatch(parse, f) + LineByLine(parse, NEW_BLOCK, s[k + 1..])
        else LineByLine(parse, Field(f, line), s[k + 1..]))
  {
    hide LineFeed, WithoutCr, Field, Dispatch;
  }

  /** The first line goes on in its block. */
  lemma LineCase<D>(parse: string -> Option<D>, f: Fields, s: string)
    requires f == NEW_BLOCK || LineEnd(s) == 0
    requires LineFeed(s) < |s| && LineEnd(s[LineFeed(s) + 1..]) == 0
    requires var k := LineFeed(s); var f' := Field(f, WithoutCr(s[..k])); EventsFrom(parse, f', s[k + 1..]) == LineByLine(parse, f', s[k + 1..])
    ensures EventsFrom(parse, f, s) == LineByLine(parse, f, s)
  {
    hide *;
    EventsAfterLine(parse, f, s);
    LineByLineStep(parse, f, s);
    EmptyLineIffLineEnd(s);
    EmptyLineChangesNothing(parse, f);
  }

  /** The first line ends its block: an empty line follows. */
  lemma BlockCase<D>(parse: string -> Option<D>, f: Fields, s: string, next: string)
    requires f == NEW_BLOCK || LineEnd(s) == 0
    requires LineFeed(s) < |s| && LineEnd(s[LineFeed(s) + 1..]) > 0
    requires next == s[LineFeed(s) + 1..][LineEnd(s[LineFeed(s) + 1..])..] && Events(parse, next) == LineByLine(parse, NEW_BLOCK, next)
    ensures EventsFrom(parse, f, s) == LineByLine(parse, f, s)
  {
    hide *;
    var k := LineFeed(s);
    var tail := s[k + 1..];
    EventsAfterBlock(parse, f, s);
    assert s[k + 1 + LineEnd(tail)..] == next;
    LineByLineStep(parse, f, s);
    EmptyLineNext(parse, Field(f, WithoutCr(s[..k])), tail);
    EmptyLineIffLineEnd(s);
    EmptyLineChangesNothing(parse, f);
  }

  lemma {:induction false} EventsFromAreLineByLine<D>(parse: string -> Option<D>, f: Fields, s: string)
    requires f == NEW_BLOCK || LineEnd(s) == 0
    ensures EventsFrom(parse, f, s) == LineByLine(parse, f, s)
    decreases |s|
  {
    hide *;
    var k := LineFeed(s);
    if k == |s| {
      SeparatorStep(s);
      EventsFromNone(parse, f, s);
      LineByLineStep(parse, f, s);
    } else {
      var tail := s[k + 1..];
      if LineEnd(tail) > 0 {
        var next := tail[LineEnd(tail)..];
        EventsFromAreLineByLine(parse, NEW_BLOCK, next);
        EventsFromNew(parse, next);
        BlockCase(parse, f, s, next);
      } else {
        EventsFromAreLineByLine(parse, Field(f, WithoutCr(s[..k])), tail);
        LineCase(parse, f, s);
      }
    }
  }

  lemma EventsFromNew<D>(parse: string -> Option<D>, s: string)
    ensures EventsFrom(parse, NEW_BLOCK, s) == Events(parse, s)
  {
    hide BlockEvents, Separator;
  }

  lemma EmptyLineChangesNothing<D>(parse: string -> Option<D>, f: Fields)
    ensures Field(f, "") == f && Dispatch(parse, NEW_BLOCK) == []
  {
  }

  lemma EmptyLineIffLineEnd(s: string)
    requires LineFeed(s) < |s|
    ensures WithoutCr(s[..LineFeed(s)]) == "" <==> LineEnd(s) > 0
  {
    if LineEnd(s) > 0 { LineFeedAt(s, LineEnd(s) - 1); }
  }

  /** Splitting at blank lines gives, on every text, exactly the events of reading line after line. */
  lemma SplittingIsReadingLines<D>(parse: string -> Option<D>, s: string)
    ensures Events(parse, s) == LineByLine(parse, NEW_BLOCK, s)
  {
    EventsFromAreLineByLine(parse, NEW_BLOCK, s);
    EventsFromNew(parse, s);
  }

  // ---- what the server writes

  /** Text that is one line with no white space at either end, as event names and `JSON.stringify` texts are. */
  ghost predicate Plain(t: string) {
    t != "" && !White(t[0]) && !White(t[|t| - 1]) && forall i :: 0 <= i < |t| ==> t[i] != '\n'
  }

  ghost predicate Lawful<D(!new)>(parse: string -> Option<D>, stringify: D -> string) {
    forall d :: Plain(stringify(d)) && parse(stringify(d)) == Some(d)
  }

  /** The writes of the route server/routes/chat.js: its events, and comments that keep the connection open. */
  datatype Write<D> = Send(event: Event<D>) | KeepAlive

  function Written<D>(stringify: D -> string, w: Write<D>): string {
    match w
    case Send(e) => "event: " + e.name + "\n" + ("data: " + stringify(e.data) + "\n" + "\n")
    case KeepAlive => ": keep-alive" + "\n" + "\n"
  }

  function AllWritten<D>(stringify: D -> string, ws: seq<Write<D>>): string {
    if ws == [] then "" else Written(stringify, ws[0]) + AllWritten(stringify, ws[1..])
  }

  function Sent<D>(ws: seq<Write<D>>): seq<Event<D>> {
    if ws == [] then [] else (if ws[0].Send? then [ws[0].event] else []) + Sent(ws[1..])
  }

  lemma TrimPlain(t: string)
    requires Plain(t)
    ensures TrimStart(" " + t) == t && Trim(" " + t) == t
  {
    assert (" " + t)[1..] == t;
  }

  lemma FieldOfEventLine(name: string)
    requires Plain(name)
    ensures Field(NEW_BLOCK, "event: " + name) == Fields(name, [])
  {
    TrimPlain(name);
    assert ("event: " + name)[6..] == " " + name;
    assert ("event: " + name)[0] == 'e';
  }

  lemma FieldOfDataLine(name: string, text: string)
    requires Plain(text)
    ensures Field(Fields(name, []), "data: " + text) == Fields(name, [text])
  {
    TrimPlain(text);
    assert ("data: " + text)[5..] == " " + text;
    assert ("data: " + text)[0] == 'd';
  }

  /** The first line of a text that begins with a terminated plain line. */
  lemma FirstLineIs(head: string, t: string, tail: string)
    requires Plain(t) && forall i :: 0 <= i < |head| ==> head[i] != '\n'
    ensures var s, line := head + t + "\n" + tail, head + t;
      LineFeed(s) == |line| < |s| && WithoutCr(s[..|line|]) == line && s[|line| + 1..] == tail
  {
    hide LineFeed;
    var s, line := head + t + "\n" + tail, head + t;
    assert s[..|line|] == line && s[|line|] == '\n';
    LineFeedAt(s, |line|);
    assert line[|line| - 1] == t[|t| - 1];
  }

  lemma EventsOfOneWritten<D(!new)>(parse: string -> Option<D>, stringify: D -> string, e: Event<D>, rest: string)
    requires Lawful(parse, stringify) && Plain(e.name)
    ensures Events(parse, Written(stringify, Send(e)) + rest) == [e] + Events(parse, rest)
  {
    hide Field, LineFeed, WithoutCr, EventsFrom, Events, Plain;
    var text := stringify(e.data);
    assert Plain(text) && parse(text) == Some(e.data);
    var tail := "data: " + text + "\n" + ("\n" + rest);
    var s := "event: " + e.name + "\n" + tail;
    assert Written(stringify, Send(e)) + rest == s;
    FirstLineIs("event: ", e.name, tail);
    FirstLineIs("data: ", text, "\n" + rest);
    assert tail[0] == 'd';
    EventsFromNew(parse, s);
    EventsAfterLine(parse, NEW_BLOCK, s);
    FieldOfEventLine(e.name);
    EventsAfterBlock(parse, Fields(e.name, []), tail);
    FieldOfDataLine(e.name, text);
    assert tail[|"data: " + text| + 1 + 1..] == rest;
  }

  lemma EventsOfKeepAlive<D(!new)>(parse: string -> Option<D>, stringify: D -> string, rest: string)
    ensures Events(parse, Written(stringify, KeepAlive) + rest) == Events(parse, rest)
  {
    hide LineFeed, WithoutCr, EventsFrom, Events;
    var s := ": " + "keep-alive" + "\n" + ("\n" + rest);
    assert Written(stringify, KeepAlive) + rest == s;
    FirstLineIs(": ", "keep-alive", "\n" + rest);
    assert s[..12][0] == ':';
    EventsFromNew(parse, s);
    EventsAfterBlock(parse, NEW_BLOCK, s);
    assert s[14..] == rest;
  }

  /** What the server writes is what the client reads, event by event, however the network cuts it. */
  lemma {:induction false} ReadingIsWriting<D(!new)>(parse: string -> Option<D>, stringify: D -> string, ws: seq<Write<D>>)
    requires Lawful(parse, stringify) && forall i :: 0 <= i < |ws| && ws[i].Send? ==> Plain(ws[i].event.name)
    ensures Events(parse, AllWritten(stringify, ws)) == Sent(ws)
    ensures forall chunks {:trigger Whole(chunks)} :: Whole(chunks) == AllWritten(stringify, ws) ==> Feed(parse, chunks).0 == Sent(ws)
  {
    hide Plain, Written, EventsFrom, Separator, BlockEvents;
    if ws == [] {
      NothingInNothing(parse);
    } else {
      ReadingIsWriting(parse, stringify, ws[1..]);
      var rest := AllWritten(stringify, ws[1..]);
      match ws[0]
      case Send(e) => EventsOfOneWritten(parse, stringify, e, rest);
      case KeepAlive => EventsOfKeepAlive(parse, stringify, rest);
    }
    forall chunks | Whole(chunks) == AllWritten(stringify, ws) ensures Feed(parse, chunks).0 == Sent(ws) {
      ChunkingIsInvisible(parse, chunks);
    }
  }

  lemma NothingInNothing<D>(parse: string -> Option<D>)
    ensures Events(parse, "") == []
  {
    assert LineFeed("") == 0;
  }

  // ---- from the route to the caller

  lemma {:induction false} SentConcat<D>(a: seq<Write<D>>, b: seq<Write<D>>)
    ensures Sent(a + b) == Sent(a) + Sent(b)
    decreases |a|
  {
    if a == [] {
      assert a + b == b;
    } else {
      assert (a + b)[1..] == a[1..] + b;
      SentConcat(a[1..], b);
      var first := if a[0].Send? then [a[0].event] else [];
      assert Sent(a) == first + Sent(a[1..]) && Sent(a + b) == first + (Sent(a[1..]) + Sent(b));
    }
  }

  /** No event of this name is written. */
  ghost predicate Never<D>(ws: seq<Write<D>>, name: string) {
    forall i :: 0 <= i < |ws| && ws[i].Send? ==> ws[i].event.name != name
  }

  lemma {:induction false} NeverSent<D>(ws: seq<Write<D>>, name: string)
    requires Never(ws, name)
    ensures forall k :: 0 <= k < |Sent(ws)| ==> Sent(ws)[k].name != name
  {
    if ws != [] {
      assert Never(ws[1..], name) by {
        forall i | 0 <= i < |ws| - 1 && ws[1..][i].Send? ensures ws[1..][i].event.name != name { assert ws[1..][i] == ws[i + 1]; }
      }
      NeverSent(ws[1..], name);
    }
  }

  lemma SentAround<D>(before: seq<Write<D>>, e: Event<D>, later: seq<Write<D>>)
    ensures Sent(before + [Send(e)] + later) == Sent(before) + [e] + Sent(later)
  {
    SentConcat(before + [Send(e)], later);
    SentConcat(before, [Send(e)]);
    assert [Send(e)][1..] == [] && Sent([Send(e)]) == [e];
  }

  /** Writes around event e, cut into chunks anyhow, read by the client. */
  ghost predicate ReadAs<D(!new)>(
    parse: string -> Option<D>, stringify: D -> string, truthy: D -> bool, ws: seq<Write<D>>, chunks: seq<string>,
    notified: seq<Event<D>>, outcome: Outcome<D>)
  {
    && Lawful(parse, stringify) && (forall i :: 0 <= i < |ws| && ws[i].Send? ==> Plain(ws[i].event.name))
    && Whole(chunks) == AllWritten(stringify, ws)
    && Answers(truthy, Events(parse, Whole(chunks)), notified, outcome)
  }

  /** The route's result reaches the caller, after all its progress, if no error is written and no later result. */
  lemma ResultReachesTheCaller<D(!new)>(
    parse: string -> Option<D>, stringify: D -> string, truthy: D -> bool, before: seq<Write<D>>, e: Event<D>,
    later: seq<Write<D>>, chunks: seq<string>, notified: seq<Event<D>>, outcome: Outcome<D>)
    requires ReadAs(parse, stringify, truthy, before + [Send(e)] + later, chunks, notified, outcome)
    requires e.name == "result" && Never(before, "error") && Never(later, "error") && Never(later, "result")
    ensures notified == Progress(Sent(before) + [e] + Sent(later))
    ensures outcome == if truthy(e.data) then Resolved(e.data) else NoResult
  {
    hide Lawful, Plain, AllWritten, Events, Progress, Sent;
    ReadingIsWriting(parse, stringify, before + [Send(e)] + later);
    SentAround(before, e, later);
    NeverSent(before, "error");
    NeverSent(later, "error");
    NeverSent(later, "result");
    var events := Sent(before) + [e] + Sent(later);
    assert LastResult(events, |Sent(before)|);
  }

  /** The route's first error reaches the caller, after the progress before it, whatever else is written. */
  lemma ErrorReachesTheCaller<D(!new)>(
    parse: string -> Option<D>, stringify: D -> string, truthy: D -> bool, before: seq<Write<D>>, e: Event<D>,
    later: seq<Write<D>>, chunks: seq<string>, notified: seq<Event<D>>, outcome: Outcome<D>)
    requires ReadAs(parse, stringify, truthy, before + [Send(e)] + later, chunks, notified, outcome)
    requires e.name == "error" && Never(before, "error")
    ensures notified == Progress(Sent(before)) && outcome == Failed(e.data)
  {
    hide Lawful, Plain, AllWritten, Events, Progress, Sent;
    ReadingIsWriting(parse, stringify, before + [Send(e)] + later);
    SentAround(before, e, later);
    NeverSent(before, "error");
    var events := Sent(before) + [e] + Sent(later);
    assert FirstError(events, |Sent(before)|);
    assert events[..|Sent(before)|] == Sent(before);
  }
}
