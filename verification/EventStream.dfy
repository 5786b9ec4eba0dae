/**
 The event stream of POST /chat/stream as the client reads it (`parseServerSentEvents` and `streamChat` in
 src/archiveApi.js): the growing buffer is split at blank lines after every network chunk.

 A subset of the event stream format of the HTML Living Standard (sections 9.2.5 and 9.2.6): a lone CR is no line
 end here, and all leading white space of the data goes. `parse` stands for JSON.parse.
 */
module EventStream {
  import opened Common
  import opened JsText

  datatype Event<D> = Event(name: string, data: D)

  // ---- text

  /** The first line feed, or the length. */
  function LineFeed(s: string): (k: nat)
    ensures k <= |s| && forall i :: 0 <= i < k ==> s[i] != '\n'
    ensures k < |s| ==> s[k] == '\n'
  {
    if s == "" || s[0] == '\n' then 0 else 1 + LineFeed(s[1..])
  }

  function WithoutCr(s: string): (r: string)
    ensures |r| <= |s|
  {
    if s != "" && s[|s| - 1] == '\r' then s[..|s| - 1] else s
  }

  /** The length of a line end at the head of s: "\n" or "\r\n"; 0 without one. */
  function LineEnd(s: string): (n: nat)
    ensures n <= |s|
  {
    if s != "" && s[0] == '\n' then 1 else if |s| >= 2 && s[0] == '\r' && s[1] == '\n' then 2 else 0
  }

  /** `split(/\r?\n/)`. */
  function Lines(s: string): (ls: seq<string>)
    ensures |ls| >= 1
    decreases |s|
  {
    var k := LineFeed(s);
    if k == |s| then [s] else [WithoutCr(s[..k])] + Lines(s[k + 1..])
  }

  datatype Span = Span(start: nat, end: nat)

  function Shifted(at: Option<Span>, n: nat): Option<Span> {
    match at case None => None case Some(x) => Some(Span(x.start + n, x.end + n))
  }

  /** Where the first blank line separator `/\r?\n\r?\n/` starts and ends. */
  function Separator(s: string): (r: Option<Span>)
    ensures r.Some? ==> r.value.start < r.value.end <= |s|
    decreases |s|
  {
    var k := LineFeed(s);
    if k == |s| then None
    else
      var n := LineEnd(s[k + 1..]);
      if n > 0 then Some(Span(|WithoutCr(s[..k])|, k + 1 + n)) else Shifted(Separator(s[k + 1..]), k + 1)
  }

  /** `\r?\n` matches from i to j. */
  ghost predicate LineEndAt(s: string, i: nat, j: nat) {
    && i < j <= |s|
    && (if s[i] == '\r' then j == i + 2 && s[i + 1] == '\n' else j == i + 1 && s[i] == '\n')
  }

  /** The separator pattern matches from i to j. */
  ghost predicate BlankAt(s: string, i: nat, j: nat) {
    || (LineEndAt(s, i, i + 1) && LineEndAt(s, i + 1, j))
    || (LineEndAt(s, i, i + 2) && LineEndAt(s, i + 2, j))
  }

  lemma BlankShift(s: string, m: nat, i: nat, j: nat)
    requires m <= i && m <= |s|
    ensures BlankAt(s, i, j) <==> j >= m && BlankAt(s[m..], i - m, j - m)
  {
  }

  /** A match that begins in the first line takes its line end and an empty line. */
  lemma BlankInFirstLine(s: string, i: nat, j: nat)
    requires BlankAt(s, i, j) && i <= LineFeed(s) < |s|
    ensures LineEnd(s[LineFeed(s) + 1..]) > 0 && |WithoutCr(s[..LineFeed(s)])| <= i
  {
  }

  lemma BlankAfterFirstLine(s: string)
    requires LineFeed(s) < |s| && LineEnd(s[LineFeed(s) + 1..]) > 0
    ensures var k := LineFeed(s); BlankAt(s, |WithoutCr(s[..k])|, k + 1 + LineEnd(s[k + 1..]))
  {
  }

  /** `Separator` from the first line on. */
  lemma SeparatorStep(s: string)
    ensures var k := LineFeed(s);
      if k == |s| then Separator(s).None?
      else if LineEnd(s[k + 1..]) > 0 then Separator(s) == Some(Span(|WithoutCr(s[..k])|, k + 1 + LineEnd(s[k + 1..])))
      else Separator(s) == Shifted(Separator(s[k + 1..]), k + 1)
  {
    hide LineFeed, LineEnd, WithoutCr;
  }

  /** What `Separator` finds is a match of the pattern. */
  lemma {:induction false} SeparatorMatches(s: string)
    requires Separator(s).Some?
    ensures BlankAt(s, Separator(s).value.start, Separator(s).value.end)
    decreases |s|
  {
    hide LineFeed, LineEnd, WithoutCr, Separator, BlankAt;
    SeparatorStep(s);
    var k := LineFeed(s);
    if LineEnd(s[k + 1..]) > 0 {
      BlankAfterFirstLine(s);
    } else {
      SeparatorMatches(s[k + 1..]);
      BlankShift(s, k + 1, Separator(s).value.start, Separator(s).value.end);
    }
  }

  /** And no match begins before it; without a separator there is no match at all. */
  lemma {:induction false} SeparatorIsLeftmost(s: string, i: nat, j: nat)
    requires BlankAt(s, i, j)
    ensures Separator(s).Some? && Separator(s).value.start <= i
    decreases |s|
  {
    hide LineEnd, WithoutCr, Separator, LineFeed;
    SeparatorStep(s);
    var k := LineFeed(s);
    assert k < |s|;
    if i <= k {
      BlankInFirstLine(s, i, j);
    } else {
      BlankShift(s, k + 1, i, j);
      SeparatorIsLeftmost(s[k + 1..], i - k - 1, j - k - 1);
    }
  }

  // ---- one block

  /** The fields of a block read so far. */
  datatype Fields = Fields(event: string, data: seq<string>)

  const NEW_BLOCK := Fields("message", [])

  function Field(f: Fields, line: string): Fields {
    if ":" <= line then f
    else
      var f' := if "event:" <= line then f.(event := Trim(line[6..])) else f;
      if "data:" <= line then f'.(data := f'.data + [TrimStart(line[5..])]) else f'
  }

  function FieldsOf(f: Fields, lines: seq<string>): Fields
    decreases |lines|
  {
    if lines == [] then f else FieldsOf(Field(f, lines[0]), lines[1..])
  }

  /** The event of a finished block; none without data, or if the data is no JSON. */
  function Dispatch<D>(parse: string -> Option<D>, f: Fields): seq<Event<D>> {
    if f.data == [] then []
    else match parse(Join(f.data, '\n')) case None => [] case Some(d) => [Event(f.event, d)]
  }

  function BlockEvents<D>(parse: string -> Option<D>, f: Fields, block: string): seq<Event<D>> {
    Dispatch(parse, FieldsOf(f, Lines(block)))
  }

  // ---- the buffer

  function Events<D>(parse: string -> Option<D>, s: string): seq<Event<D>>
    decreases |s|
  {
    match Separator(s)
    case None => []
    case Some(at) => BlockEvents(parse, NEW_BLOCK, s[..at.start]) + Events(parse, s[at.end..])
  }

  function Rest(s: string): string
    decreases |s|
  {
    match Separator(s) case None => s case Some(at) => Rest(s[at.end..])
  }

  /** The loop over the lines of a block. */
  method ParseBlock<D>(parse: string -> Option<D>, block: string) returns (events: seq<Event<D>>)
    ensures events == BlockEvents(parse, NEW_BLOCK, block)
  {
    var event, dataLines := "message", [];
    var lines := Lines(block);
    var i := 0;
    while i < |lines|
      invariant 0 <= i <= |lines|
      invariant FieldsOf(Fields(event, dataLines), lines[i..]) == FieldsOf(NEW_BLOCK, lines)
    {
      var line := lines[i];
      assert lines[i..][0] == line && lines[i..][1..] == lines[i + 1..];
      i := i + 1;
      if ":" <= line { continue; }
      if "event:" <= line { event := Trim(line[6..]); }
      if "data:" <= line { dataLines := dataLines + [TrimStart(line[5..])]; }
    }
    if dataLines == [] { return []; }
    match parse(Join(dataLines, '\n'))
    case Some(d) => return [Event(event, d)];
    case None => return [];
  }

  /** `parseServerSentEvents`. */
  method ParseServerSentEvents<D>(parse: string -> Option<D>, buffer: string) returns (events: seq<Event<D>>, rest: string)
    ensures events == Events(parse, buffer) && rest == Rest(buffer)
  {
    hide Separator, BlockEvents;
    events, rest := [], buffer;
    var at := Separator(rest);
    while at.Some?
      invariant at == Separator(rest)
      invariant events + Events(parse, rest) == Events(parse, buffer)
      invariant Rest(rest) == Rest(buffer)
      decreases |rest|
    {
      var found := ParseBlock(parse, rest[..at.value.start]);
      events := events + found;
      rest := rest[at.value.end..];
      at := Separator(rest);
    }
  }
}
