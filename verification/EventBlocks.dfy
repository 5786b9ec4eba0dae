/** What the lines of one block say. */
module EventBlocks {
  import opened Common
  import opened JsText
  import opened EventStream

  /** The texts of the data lines, in order, without their leading white space. */
  function DataTexts(lines: seq<string>): seq<string> {
    if lines == [] then []
    else
      var line := lines[|lines| - 1];
      DataTexts(lines[..|lines| - 1]) + (if "data:" <= line then [TrimStart(line[5..])] else [])
  }

  /** Line i is the last one that names the event. */
  ghost predicate NamesEvent(lines: seq<string>, i: nat) {
    i < |lines| && "event:" <= lines[i] && forall j :: i < j < |lines| ==> !("event:" <= lines[j])
  }

  ghost predicate Unnamed(lines: seq<string>) {
    forall i :: 0 <= i < |lines| ==> !("event:" <= lines[i])
  }

  lemma {:induction false} FieldsOn(f: Fields, a: seq<string>, b: seq<string>)
    ensures FieldsOf(f, a + b) == FieldsOf(FieldsOf(f, a), b)
    decreases |a|
  {
    hide Field;
    if a == [] {
      assert a + b == b;
    } else {
      assert (a + b)[1..] == a[1..] + b;
      FieldsOn(Field(f, a[0]), a[1..], b);
    }
  }

  lemma FieldsSnoc(lines: seq<string>)
    requires lines != []
    ensures FieldsOf(NEW_BLOCK, lines) == Field(FieldsOf(NEW_BLOCK, lines[..|lines| - 1]), lines[|lines| - 1])
  {
    hide Field;
    var n := |lines| - 1;
    assert lines == lines[..n] + [lines[n]];
    FieldsOn(NEW_BLOCK, lines[..n], [lines[n]]);
    assert [lines[n]][1..] == [];
  }

  lemma FieldMeans(f: Fields, line: string)
    ensures Field(f, line).data == f.data + (if "data:" <= line then [TrimStart(line[5..])] else [])
    ensures Field(f, line).event == if "event:" <= line then Trim(line[6..]) else f.event
  {
    if ":" <= line { assert line[0] == ':'; }
  }

  /**
   A block is named by its last event line, and "message" without one; comments and other lines do not matter. Its data
   are the texts of its data lines.
   */
  lemma {:induction false} BlockMeans(lines: seq<string>)
    ensures FieldsOf(NEW_BLOCK, lines).data == DataTexts(lines)
    ensures Unnamed(lines) ==> FieldsOf(NEW_BLOCK, lines).event == "message"
    ensures forall i: nat :: NamesEvent(lines, i) ==> FieldsOf(NEW_BLOCK, lines).event == Trim(lines[i][6..])
  {
    hide Field, Trim, TrimStart;
    if lines != [] {
      var n := |lines| - 1;
      BlockMeans(lines[..n]);
      FieldsSnoc(lines);
      FieldMeans(FieldsOf(NEW_BLOCK, lines[..n]), lines[n]);
      forall i: nat | NamesEvent(lines, i) ensures FieldsOf(NEW_BLOCK, lines).event == Trim(lines[i][6..]) {
        if i < n { assert NamesEvent(lines[..n], i); }
      }
    }
  }

  /** A block gives one event if it has data, and they parse, joined by line feeds; else none. */
  lemma BlockGives<D>(parse: string -> Option<D>, block: string)
    ensures var events, texts := BlockEvents(parse, NEW_BLOCK, block), DataTexts(Lines(block));
      && (texts == [] ==> events == [])
      && (texts != [] ==>
            match parse(Join(texts, '\n'))
            case None => events == []
            case Some(d) => events == [Event(FieldsOf(NEW_BLOCK, Lines(block)).event, d)])
  {
    hide Lines, FieldsOf;
    BlockMeans(Lines(block));
  }
}
