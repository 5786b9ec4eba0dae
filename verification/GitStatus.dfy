/**
 The reader of `git status --porcelain=v1 -z` in server/evaluation/eval-evidence.js, which decides whether a checkout
 is dirty.
 */
module GitStatus {
  import opened Common
  import opened JsText

  const NUL := '\0'

  function Slice(s: string, lo: nat, hi: nat): string {
    if lo >= |s| then "" else if hi <= |s| && lo <= hi then s[lo..hi] else s[lo..]
  }

  /** The status letters mark a rename or a copy. */
  predicate Renames(record: string) {
    'R' in Slice(record, 0, 2) || 'C' in Slice(record, 0, 2)
  }

  function Rest(record: string): string {
    Slice(record, 3, |record|)
  }

  /** The paths of the records from index i on. */
  function PathsFrom(records: seq<string>, i: nat): seq<string>
    decreases |records| - i
  {
    if i >= |records| then []
    else if records[i] == "" then PathsFrom(records, i + 1)
    else if Renames(records[i]) && i + 1 < |records| && records[i + 1] != "" then
      [Rest(records[i]), records[i + 1]] + PathsFrom(records, i + 2)
    else [Rest(records[i])] + PathsFrom(records, i + 1)
  }

  lemma PathsFromStep(records: seq<string>, i: nat)
    ensures PathsFrom(records, i) == (
      if i >= |records| then []
      else if records[i] == "" then PathsFrom(records, i + 1)
      else if Renames(records[i]) && i + 1 < |records| && records[i + 1] != "" then
        [Rest(records[i]), records[i + 1]] + PathsFrom(records, i + 2)
      else [Rest(records[i])] + PathsFrom(records, i + 1))
  {
    hide Renames, Rest;
  }

  function NonEmpty(paths: seq<string>): seq<string> {
    if paths == [] then [] else (if paths[0] == "" then [] else [paths[0]]) + NonEmpty(paths[1..])
  }

  lemma Regroup(a: seq<string>, b: seq<string>, c: seq<string>)
    ensures a + b + c == a + (b + c)
  {
  }

  /** `getNullDelimitedGitStatusPaths`, whose loop skips the record it has taken for a second path. */
  method GetNullDelimitedPaths(status: string) returns (paths: seq<string>)
    ensures paths == NonEmpty(PathsFrom(Split(status, NUL), 0))
  {
    hide Renames, Rest, NonEmpty, Split, PathsFrom;
    var records := Split(status, NUL);
    var all: seq<string> := [];
    var index := 0;
    while index < |records|
      invariant 0 <= index
      invariant all + PathsFrom(records, index) == PathsFrom(records, 0)
    {
      var record := records[index];
      PathsFromStep(records, index);
      if record == "" {
        index := index + 1;
        continue;
      }
      ghost var before, taken := all, [Rest(record)];
      all := all + [Rest(record)];
      if Renames(record) && index + 1 < |records| && records[index + 1] != "" {
        all := all + [records[index + 1]];
        index := index + 1;
        taken := [Rest(record), records[index]];
        assert all == before + taken;
      }
      index := index + 1;
      Regroup(before, taken, PathsFrom(records, index));
    }
    PathsFromStep(records, index);
    assert all == PathsFrom(records, 0);
    paths := NonEmpty(all);
  }

  // ---- what git prints

  /** An entry of the status: two letters, the path, and for a rename or copy the path it came from. */
  datatype Entry = Entry(status: string, path: string, origin: Option<string>)

  ghost predicate PathText(t: string) {
    t != "" && NUL !in t
  }

  ghost predicate WellFormed(e: Entry) {
    && |e.status| == 2 && NUL !in e.status && PathText(e.path)
    && (e.origin.Some? <==> 'R' in e.status || 'C' in e.status)
    && (e.origin.Some? ==> PathText(e.origin.value))
  }

  function Line(e: Entry): string {
    e.status + " " + e.path
  }

  function Printed(es: seq<Entry>): string {
    if es == [] then ""
    else
      var rest := Printed(es[1..]);
      Line(es[0]) + [NUL] + (match es[0].origin case None => rest case Some(t) => t + [NUL] + rest)
  }

  /** All paths of the entries, in order, a second path after the one it belongs to. */
  function Paths(es: seq<Entry>): seq<string> {
    if es == [] then []
    else [es[0].path] + (match es[0].origin case None => [] case Some(t) => [t]) + Paths(es[1..])
  }

  function Records(es: seq<Entry>): seq<string> {
    if es == [] then [""]
    else [Line(es[0])] + (match es[0].origin case None => [] case Some(t) => [t]) + Records(es[1..])
  }

  ghost predicate AllWellFormed(es: seq<Entry>) {
    forall i :: 0 <= i < |es| ==> WellFormed(es[i])
  }

  lemma LineText(e: Entry)
    requires WellFormed(e)
    ensures NUL !in Line(e) && Line(e) != "" && Rest(Line(e)) == e.path && (Renames(Line(e)) <==> e.origin.Some?)
  {
    var line := Line(e);
    assert line[..2] == e.status && line[3..] == e.path;
    assert Slice(line, 0, 2) == e.status;
  }

  lemma {:induction false} RecordsArePrinted(es: seq<Entry>)
    requires AllWellFormed(es)
    ensures Split(Printed(es), NUL) == Records(es)
  {
    hide Split, WellFormed, Line;
    if es == [] {
      SplitOfOne("", NUL);
    } else {
      var e, rest := es[0], Printed(es[1..]);
      assert WellFormed(e) && AllWellFormed(es[1..]);
      RecordsArePrinted(es[1..]);
      LineText(e);
      match e.origin
      case None => SplitOfFirst(Line(e), NUL, rest);
      case Some(t) =>
        OriginText(e);
        SplitOfFirst(Line(e), NUL, t + [NUL] + rest);
        SplitOfFirst(t, NUL, rest);
    }
  }

  lemma OriginText(e: Entry)
    requires WellFormed(e) && e.origin.Some?
    ensures NUL !in e.origin.value && e.origin.value != ""
  {
  }

  lemma {:induction false} PathsFromShift(a: seq<string>, b: seq<string>, i: nat)
    ensures PathsFrom(a + b, |a| + i) == PathsFrom(b, i)
    decreases |b| - i
  {
    hide Renames, Rest, PathsFrom;
    var n := |a|;
    PathsFromStep(a + b, n + i);
    PathsFromStep(b, i);
    if i < |b| {
      assert (a + b)[n + i] == b[i];
      PathsFromShift(a, b, i + 1);
      if i + 1 < |b| {
        assert (a + b)[n + i + 1] == b[i + 1];
        PathsFromShift(a, b, i + 2);
      }
    }
  }

  lemma EntryHoldsItsPaths(e: Entry, rest: seq<string>)
    requires WellFormed(e)
    ensures var origin := match e.origin case None => [] case Some(t) => [t];
      PathsFrom([Line(e)] + origin + rest, 0) == [e.path] + origin + PathsFrom(rest, 0)
  {
    hide WellFormed, Line, Renames, Rest, PathsFrom;
    LineText(e);
    match e.origin
    case None =>
      var all := [Line(e)] + [] + rest;
      assert all == [Line(e)] + rest && all[0] == Line(e);
      PathsFromStep(all, 0);
      PathsFromShift([Line(e)], rest, 0);
      assert [e.path] + [] == [e.path];
    case Some(t) =>
      OriginText(e);
      var all := [Line(e)] + [t] + rest;
      assert all == [Line(e), t] + rest && all[0] == Line(e) && all[1] == t;
      PathsFromStep(all, 0);
      PathsFromShift([Line(e), t], rest, 0);
      assert [e.path] + [t] == [e.path, t];
  }

  lemma {:induction false} RecordsHoldThePaths(es: seq<Entry>)
    requires AllWellFormed(es)
    ensures PathsFrom(Records(es), 0) == Paths(es)
  {
    hide WellFormed, Line, PathsFrom;
    if es == [] {
      PathsFromStep([""], 0);
      PathsFromStep([""], 1);
    } else {
      assert WellFormed(es[0]) && AllWellFormed(es[1..]);
      RecordsHoldThePaths(es[1..]);
      EntryHoldsItsPaths(es[0], Records(es[1..]));
    }
  }

  lemma {:induction false} PathsAreTexts(es: seq<Entry>)
    requires AllWellFormed(es)
    ensures forall i :: 0 <= i < |Paths(es)| ==> Paths(es)[i] != ""
  {
    if es != [] {
      assert WellFormed(es[0]) && AllWellFormed(es[1..]);
      PathsAreTexts(es[1..]);
    }
  }

  lemma {:induction false} NonEmptyOf(ts: seq<string>)
    requires forall i :: 0 <= i < |ts| ==> ts[i] != ""
    ensures NonEmpty(ts) == ts
  {
    if ts != [] {
      NonEmptyOf(ts[1..]);
      assert ts == [ts[0]] + ts[1..];
    }
  }

  /** The reader undoes the printer: all paths, in order, for any entries with any renames and copies among them. */
  lemma ReadingIsPrinting(es: seq<Entry>)
    requires AllWellFormed(es)
    ensures NonEmpty(PathsFrom(Split(Printed(es), NUL), 0)) == Paths(es)
  {
    RecordsArePrinted(es);
    RecordsHoldThePaths(es);
    PathsAreTexts(es);
    NonEmptyOf(Paths(es));
  }

  // ---- the decision

  predicate IsControlledOutput(path: string) {
    "server/evaluation/generated/" <= path || "server/evaluation/results/" <= path
  }

  /** `getGitStatusPaths`; `legacy` reads the line format, and finds no path in an empty text. */
  function GitPaths(legacy: string -> seq<string>, status: string): seq<string> {
    if NUL in status then NonEmpty(PathsFrom(Split(status, NUL), 0)) else legacy(status)
  }

  ghost predicate SomeOutside(paths: seq<string>) {
    exists i :: 0 <= i < |paths| && !IsControlledOutput(paths[i])
  }

  ghost predicate Dirty(legacy: string -> seq<string>, status: string) {
    SomeOutside(GitPaths(legacy, status))
  }

  ghost predicate Touches(e: Entry) {
    !IsControlledOutput(e.path) || (e.origin.Some? && !IsControlledOutput(e.origin.value))
  }

  /** A checkout is dirty exactly if some entry names a path, new or old, outside the evaluation's own outputs. */
  lemma DirtyIff(legacy: string -> seq<string>, es: seq<Entry>)
    requires AllWellFormed(es) && legacy("") == []
    ensures Dirty(legacy, Printed(es)) <==> exists i :: 0 <= i < |es| && Touches(es[i])
  {
    hide PathsFrom, NonEmpty, SomeOutside, Touches, Split, Paths;
    ReadingIsPrinting(es);
    AnyTouches(es);
    PrintedText(es);
  }

  lemma PrintedText(es: seq<Entry>)
    ensures if es == [] then Printed(es) == "" && Paths(es) == [] else NUL in Printed(es)
  {
    hide Line;
    if es != [] { assert Printed(es)[|Line(es[0])|] == NUL; }
  }

  lemma OutsideCons(path: string, paths: seq<string>)
    ensures SomeOutside([path] + paths) <==> !IsControlledOutput(path) || SomeOutside(paths)
  {
    hide IsControlledOutput;
    var all := [path] + paths;
    if !IsControlledOutput(path) { assert !IsControlledOutput(all[0]); }
    if SomeOutside(paths) {
      var i :| 0 <= i < |paths| && !IsControlledOutput(paths[i]);
      assert all[i + 1] == paths[i];
    }
  }

  lemma EntryTouches(e: Entry, rest: seq<string>)
    ensures SomeOutside([e.path] + (match e.origin case None => [] case Some(t) => [t]) + rest)
      <==> Touches(e) || SomeOutside(rest)
  {
    hide IsControlledOutput, SomeOutside;
    match e.origin
    case None =>
      OutsideCons(e.path, rest);
      assert [e.path] + [] + rest == [e.path] + rest;
    case Some(t) =>
      OutsideCons(t, rest);
      OutsideCons(e.path, [t] + rest);
      assert [e.path] + [t] + rest == [e.path] + ([t] + rest);
  }

  lemma {:induction false} AnyTouches(es: seq<Entry>)
    ensures SomeOutside(Paths(es)) <==> exists i :: 0 <= i < |es| && Touches(es[i])
  {
    hide IsControlledOutput, SomeOutside, Touches;
    if es == [] {
      NothingOutside();
    } else {
      EntryTouches(es[0], Paths(es[1..]));
      AnyTouches(es[1..]);
    }
    TouchesCons(es);
  }

  lemma TouchesCons(es: seq<Entry>)
    ensures (exists i :: 0 <= i < |es| && Touches(es[i])) <==>
      es != [] && (Touches(es[0]) || exists i :: 0 <= i < |es[1..]| && Touches(es[1..][i]))
  {
    hide Touches;
    assert forall i :: 0 < i < |es| ==> es[i] == es[1..][i - 1];
  }

  lemma NothingOutside()
    ensures !SomeOutside([])
  {
  }

  /** The evaluation's own outputs are what lies in its two output directories. */
  lemma ControlledIff(path: string)
    ensures IsControlledOutput(path) <==>
      exists name :: path == "server/evaluation/generated/" + name || path == "server/evaluation/results/" + name
  {
    var generated, results := "server/evaluation/generated/", "server/evaluation/results/";
    if generated <= path { assert path == generated + path[|generated|..]; }
    if results <= path { assert path == results + path[|results|..]; }
  }
}
