/**
 The JSONL feedback store (`createFileFeedbackStore` in server/feedback.js): appends and redactions of one file,
 each run under the promise-chain lock.
 */
module FeedbackFile {
  import opened Common
  import opened JsText
  import Lock = PromiseLock
  import LockTheorems = PromiseLockTheorems

  // ---- lines

  ghost predicate OneLine(line: string) {
    '\n' !in line
  }

  ghost predicate OneLineEach(ls: seq<string>) {
    forall i :: 0 <= i < |ls| ==> OneLine(ls[i])
  }

  /** Terminated lines, as the file holds them. */
  function Unlines(ls: seq<string>): string {
    if ls == [] then "" else ls[0] + "\n" + Unlines(ls[1..])
  }

  lemma {:induction false} SplitOfUnlines(ls: seq<string>)
    requires OneLineEach(ls)
    ensures Split(Unlines(ls), '\n') == ls + [""]
  {
    if ls != [] {
      assert OneLineEach(ls[1..]) by { forall i | 0 <= i < |ls| - 1 ensures OneLine(ls[1..][i]) { assert OneLine(ls[i + 1]); } }
      assert OneLine(ls[0]);
      SplitOfUnlines(ls[1..]);
      SplitOfFirst(ls[0], '\n', Unlines(ls[1..]));
    }
  }

  lemma {:induction false} JoinIsUnlines(ls: seq<string>)
    ensures Join(ls + [""], '\n') == Unlines(ls)
  {
    if ls != [] {
      assert (ls + [""])[1..] == ls[1..] + [""];
      JoinIsUnlines(ls[1..]);
    }
  }

  lemma {:induction false} UnlinesSnoc(ls: seq<string>, line: string)
    ensures Unlines(ls + [line]) == Unlines(ls) + line + "\n"
  {
    if ls == [] {
      assert ls + [line] == [line];
      assert [line][1..] == [];
    } else {
      assert (ls + [line])[1..] == ls[1..] + [line];
      UnlinesSnoc(ls[1..], line);
    }
  }

  // ---- records

  /** A plain-object record as the store reads it: its scope, its citations, and everything else. */
  datatype Record = Record(userId: string, workspaceId: string, citations: seq<string>, rest: string)

  /** JSON: `parse` gives None for a line that does not parse or is no plain object. */
  datatype Json = Json(parse: string -> Option<Record>, stringify: Record -> string)

  ghost predicate Lawful(json: Json) {
    forall r :: OneLine(json.stringify(r)) && json.parse(json.stringify(r)) == Some(r)
  }

  /** A redaction for one scope; `redact` gives None for citations it does not change. */
  datatype Redaction = Redaction(needles: seq<string>, userId: string, workspaceId: string, redact: seq<string> -> Option<seq<string>>)

  predicate Includes(line: string, needle: string) {
    exists i | 0 <= i <= |line| :: needle <= line[i..]
  }

  predicate Mentions(line: string, needles: seq<string>) {
    exists k | 0 <= k < |needles| :: needles[k] != "" && Includes(line, needles[k])
  }

  /** `recordMatchesAccessScope`: the exact pair for a tenant, everything for a scope that names neither. */
  predicate InScope(r: Record, q: Redaction) {
    (q.userId == "" && q.workspaceId == "") || (r.userId == q.userId && r.workspaceId == q.workspaceId)
  }

  function RedactLine(json: Json, q: Redaction, line: string): Option<string> {
    if !Mentions(line, q.needles) then None
    else
      match json.parse(line)
      case None => None
      case Some(r) =>
        if !InScope(r, q) then None
        else
          match q.redact(r.citations)
          case None => None
          case Some(citations) => Some(json.stringify(r.(citations := citations)))
  }

  function LineAfter(json: Json, q: Redaction, line: string): string {
    RedactLine(json, q, line).GetOr(line)
  }

  function LinesAfter(json: Json, q: Redaction, ls: seq<string>): (r: seq<string>)
    ensures |r| == |ls| && forall i :: 0 <= i < |ls| ==> r[i] == LineAfter(json, q, ls[i])
  {
    seq(|ls|, i requires 0 <= i < |ls| => LineAfter(json, q, ls[i]))
  }

  /** How many lines are redacted. */
  function Redacted(json: Json, q: Redaction, ls: seq<string>): (n: nat)
    ensures n == 0 ==> LinesAfter(json, q, ls) == ls
    decreases |ls|
  {
    if ls == [] then 0
    else
      var m := |ls| - 1;
      Redacted(json, q, ls[..m]) + (if RedactLine(json, q, ls[m]).Some? then 1 else 0)
  }

  /** The count a redaction returns is the number of lines it rewrites. */
  lemma {:induction false} RedactedCounts(json: Json, q: Redaction, ls: seq<string>)
    ensures Redacted(json, q, ls) == |set j: nat | j < |ls| && RedactLine(json, q, ls[j]).Some?|
    decreases |ls|
  {
    hide RedactLine;
    if ls != [] {
      var m := |ls| - 1;
      RedactedCounts(json, q, ls[..m]);
      var before := set j: nat | j < m && RedactLine(json, q, ls[..m][j]).Some?;
      var all := set j: nat | j < |ls| && RedactLine(json, q, ls[j]).Some?;
      assert all == if RedactLine(json, q, ls[m]).Some? then before + {m} else before;
    }
  }

  // ---- what a redaction promises, on the fields of record and scope

  /** The scope names a tenant, and the record is not of that very user and workspace. */
  ghost predicate AnotherTenants(r: Record, q: Redaction) {
    (q.userId != "" || q.workspaceId != "") && (r.userId != q.userId || r.workspaceId != q.workspaceId)
  }

  /** A line of another tenant, or one that does not parse, is kept as it is. */
  lemma OtherTenantsLine(json: Json, q: Redaction, line: string)
    requires json.parse(line).Some? ==> AnotherTenants(json.parse(line).value, q)
    ensures LineAfter(json, q, line) == line
  {
  }

  /** Some non-empty needle stands in the line. */
  ghost predicate Contains(line: string, needles: seq<string>) {
    exists k, i :: 0 <= k < |needles| && needles[k] != "" && StandsAt(line, needles[k], i)
  }

  ghost predicate StandsAt(line: string, needle: string, i: int) {
    0 <= i && i + |needle| <= |line| && line[i..i + |needle|] == needle
  }

  lemma MentionsIs(line: string, needles: seq<string>)
    ensures Mentions(line, needles) <==> Contains(line, needles)
  {
    if Mentions(line, needles) {
      var k :| 0 <= k < |needles| && needles[k] != "" && Includes(line, needles[k]);
      var i :| 0 <= i <= |line| && needles[k] <= line[i..];
      assert StandsAt(line, needles[k], i);
    }
    if Contains(line, needles) {
      var k, i :| 0 <= k < |needles| && needles[k] != "" && StandsAt(line, needles[k], i);
      assert line[i..][..|needles[k]|] == needles[k];
      assert Includes(line, needles[k]);
    }
  }

  /**
   A line that mentions a document, and whose record is of the scope's very user and workspace (or of anybody, for a
   scope that names neither), becomes the text of that record with the redacted citations, if they change; every other
   line stays byte for byte.
   */
  ghost predicate RedactsTo(json: Json, q: Redaction, line: string, after: string) {
    match json.parse(line)
    case None => after == line
    case Some(r) =>
      && (AnotherTenants(r, q) ==> after == line)
      && (!Contains(line, q.needles) ==> after == line)
      && (q.redact(r.citations).None? ==> after == line)
      && (r.userId == q.userId && r.workspaceId == q.workspaceId && Contains(line, q.needles) && q.redact(r.citations).Some? ==>
            after == json.stringify(r.(citations := q.redact(r.citations).value)))
      && (q.userId == "" == q.workspaceId && Contains(line, q.needles) && q.redact(r.citations).Some? ==>
            after == json.stringify(r.(citations := q.redact(r.citations).value)))
  }

  lemma RedactionIs(json: Json, q: Redaction, line: string)
    ensures RedactsTo(json, q, line, LineAfter(json, q, line))
  {
    hide Mentions, Contains;
    MentionsIs(line, q.needles);
  }

  /** Whatever a redaction does to a line, it stays one line, and nothing but the citations of its record changes. */
  lemma OnlyCitationsChange(json: Json, q: Redaction, line: string)
    requires Lawful(json) && OneLine(line)
    ensures var after := LineAfter(json, q, line);
      && OneLine(after)
      && (after == line ||
          (&& json.parse(line).Some? && json.parse(after).Some? && InScope(json.parse(line).value, q)
           && json.parse(after).value == json.parse(line).value.(citations := json.parse(after).value.citations)))
  {
    if RedactLine(json, q, line).Some? {
      var r := json.parse(line).value;
      var r' := r.(citations := q.redact(r.citations).value);
      assert json.parse(json.stringify(r')) == Some(r');
    }
  }

  // ---- one work on the file

  /** A failing append has written some first part of its text; a failing redaction has not touched the file. */
  datatype RedactFault = NoFailure | ReadFails | WriteFails | RenameFails

  datatype Work =
    | Append(record: Record, fault: Option<nat>)      // fails after this many characters
    | Redact(q: Redaction, failure: RedactFault)

  function Content(file: Option<string>): string {
    file.GetOr("")
  }

  function Take(s: string, n: nat): string {
    if n <= |s| then s[..n] else s
  }

  /** What reaches the disk of an appended record. */
  function Written(json: Json, w: Work): string
    requires w.Append?
  {
    var text := json.stringify(w.record) + "\n";
    match w.fault case None => text case Some(n) => Take(text, n)
  }

  /** The file after a work that ran alone. */
  function Effect(json: Json, w: Work, file: Option<string>): Option<string> {
    match w
    case Append(_, _) => if Written(json, w) == "" then file else Some(Content(file) + Written(json, w))
    case Redact(q, failure) =>
      if file.None? || !failure.NoFailure? then file else Some(Join(LinesAfter(json, q, Split(file.value, '\n')), '\n'))
  }

  function Fold(json: Json, works: seq<Work>, file: Option<string>): Option<string> {
    if works == [] then file else Effect(json, works[|works| - 1], Fold(json, works[..|works| - 1], file))
  }

  /** The store's file, and its two writing methods as they run under the lock. */
  class FeedbackStore {
    const json: Json
    var file: Option<string>

    constructor (json: Json, found: Option<string>)
      ensures this.json == json && file == found
    {
      this.json := json;
      file := found;
    }

    method RecordFeedback(record: Record, fault: Option<nat>)
      modifies this
      ensures file == Effect(json, Append(record, fault), old(file))
    {
      var text := json.stringify(record) + "\n";
      if fault.Some? { text := Take(text, fault.value); }
      if text != "" { file := Some(Content(file) + text); }
    }

    method RedactDocumentReferences(q: Redaction, failure: RedactFault) returns (redacted: nat)
      modifies this
      ensures file == Effect(json, Redact(q, failure), old(file))
      ensures failure.NoFailure? && old(file).Some? ==> redacted == Redacted(json, q, Split(old(file).value, '\n'))
    {
      redacted := 0;
      if file.None? || failure.ReadFails? { return; }
      var content := file.value;
      var lines := Split(content, '\n');
      var rewritten: seq<string> := [];
      var i := 0;
      while i < |lines|
        invariant 0 <= i <= |lines|
        invariant rewritten == LinesAfter(json, q, lines[..i])
        invariant redacted == Redacted(json, q, lines[..i])
      {
        var line := RedactLine(json, q, lines[i]);
        assert lines[..i + 1][..i] == lines[..i];
        if line.Some? {
          redacted := redacted + 1;
          rewritten := rewritten + [line.value];
        } else {
          rewritten := rewritten + [lines[i]];
        }
        i := i + 1;
      }
      assert lines[..i] == lines;
      JoinOfSplit(content, '\n');
      if redacted > 0 && failure.NoFailure? { file := Some(Join(rewritten, '\n')); }
    }
  }

  // ---- the works as steps under the lock

  datatype Pc = Appending | Reading | WritingTemp(content: string) | Renaming(content: string) | Finished

  /** Works by arrival number, with the lock, the next call of each, and the file. */
  datatype State = State(lock: Lock.State, works: seq<Work>, pcs: seq<Pc>, file: Option<string>)

  datatype Label = Arrive(work: Work) | Start(i: nat) | Go(i: nat) | Settle(i: nat) | Forget(i: nat)

  const PATH := "feedback.jsonl"

  function FirstCall(w: Work): Pc {
    match w case Append(_, _) => Appending case Redact(_, _) => Reading
  }

  /** One file-system call of a work; also the new file. */
  function Call(json: Json, w: Work, pc: Pc, file: Option<string>): (Pc, Option<string>) {
    match pc
    case Appending =>
      (Finished, if w.Append? then Effect(json, w, file) else file)
    case Reading =>
      if w.Append? || file.None? || w.failure.ReadFails? || Redacted(json, w.q, Split(file.value, '\n')) == 0 then (Finished, file)
      else (WritingTemp(Join(LinesAfter(json, w.q, Split(file.value, '\n')), '\n')), file)
    case WritingTemp(content) =>
      if w.Redact? && w.failure.WriteFails? then (Finished, file) else (Renaming(content), file)
    case Renaming(content) =>
      if w.Redact? && w.failure.RenameFails? then (Finished, file) else (Finished, Some(content))
    case Finished => (Finished, file)
  }

  function Apply(json: Json, s: State, l: Label): State {
    match l
    case Arrive(w) => State(Lock.Apply(s.lock, Lock.Arrive(PATH)), s.works + [w], s.pcs + [FirstCall(w)], s.file)
    case Start(i) => s.(lock := Lock.Apply(s.lock, Lock.Start(i)))
    case Forget(i) => s.(lock := Lock.Apply(s.lock, Lock.Forget(i)))
    case Settle(i) => if i < |s.pcs| && s.pcs[i].Finished? then s.(lock := Lock.Apply(s.lock, Lock.Settle(i))) else s
    case Go(i) =>
      if i < |s.pcs| && i < |s.works| && i < |s.lock.works| && s.lock.works[i].phase.Running? then
        var (pc, file) := Call(json, s.works[i], s.pcs[i], s.file);
        s.(pcs := s.pcs[i := pc], file := file)
      else s
  }

  function Run(json: Json, found: Option<string>, ls: seq<Label>): State {
    if ls == [] then State(Lock.EMPTY, [], [], found)
    else Apply(json, Run(json, found, ls[..|ls| - 1]), ls[|ls| - 1])
  }

  ghost predicate Shape(s: State) {
    && |s.works| == |s.pcs| == |s.lock.works|
    && LockTheorems.Inv(s.lock)
    && (forall i :: 0 <= i < |s.works| ==> s.lock.works[i].key == PATH)
    && (forall i :: 0 <= i < |s.works| && s.lock.works[i].phase.Waiting? ==> s.pcs[i] == FirstCall(s.works[i]))
  }

  /** The first k works have ended, and no later one but possibly work k has started. */
  ghost predicate Turn(s: State, k: nat)
    requires Shape(s)
  {
    && k <= |s.works|
    && (forall i :: 0 <= i < k ==> s.lock.works[i].phase.Settled?)
    && (forall i :: k < i < |s.works| ==> s.lock.works[i].phase.Waiting?)
    && (k < |s.works| ==> !s.lock.works[k].phase.Settled?)
  }

  /** Where work w stands in the file it found. */
  ghost predicate Midway(json: Json, w: Work, pc: Pc, found: Option<string>, file: Option<string>) {
    match pc
    case Appending => w.Append? && file == found
    case Reading => w.Redact? && file == found
    case WritingTemp(content) =>
      && w.Redact? && !w.failure.ReadFails? && file == found && file.Some?
      && content == Join(LinesAfter(json, w.q, Split(file.value, '\n')), '\n')
    case Renaming(content) =>
      && w.Redact? && (w.failure.NoFailure? || w.failure.RenameFails?) && file == found && file.Some?
      && content == Join(LinesAfter(json, w.q, Split(file.value, '\n')), '\n')
    case Finished => file == Effect(json, w, found)
  }

  ghost predicate FileIs(json: Json, s: State, k: nat, found: Option<string>)
    requires Shape(s) && Turn(s, k)
  {
    var before := Fold(json, s.works[..k], found);
    if k < |s.works| && s.lock.works[k].phase.Running? then Midway(json, s.works[k], s.pcs[k], before, s.file)
    else s.file == before
  }

  ghost predicate InvAt(json: Json, s: State, k: nat, found: Option<string>) {
    Shape(s) && Turn(s, k) && FileIs(json, s, k, found)
  }

  lemma CallKeepsMidway(json: Json, w: Work, pc: Pc, found: Option<string>, file: Option<string>)
    requires Midway(json, w, pc, found, file)
    ensures var (pc', file') := Call(json, w, pc, file); Midway(json, w, pc', found, file')
  {
    if pc.Reading? && file.Some? { JoinOfSplit(file.value, '\n'); }
  }

  lemma StartsAtTurn(json: Json, s: State, i: nat, k: nat, found: Option<string>)
    requires InvAt(json, s, k, found) && Lock.CanStart(s.lock, i)
    ensures i == k
  {
    LockTheorems.StartKeepsOrder(s.lock, i);
  }

  lemma ArriveKeepsInv(json: Json, s: State, w: Work, k: nat, found: Option<string>)
    requires InvAt(json, s, k, found)
    ensures InvAt(json, Apply(json, s, Arrive(w)), k, found)
  {
    hide Fold, Midway, LockTheorems.Inv;
    LockTheorems.ApplyKeepsInv(s.lock, Lock.Arrive(PATH));
    assert (s.works + [w])[..k] == s.works[..k];
  }

  /** A label of the lock that leaves the phases below and above work k alone. */
  lemma LockLabelKeepsInv(json: Json, s: State, l: Lock.Label, k: nat, found: Option<string>)
    requires InvAt(json, s, k, found) && (l.Start? || l.Forget?)
    ensures InvAt(json, s.(lock := Lock.Apply(s.lock, l)), k, found)
  {
    hide Fold, LockTheorems.Inv;
    LockTheorems.ApplyKeepsInv(s.lock, l);
    if l.Start? && Lock.CanStart(s.lock, l.i) { StartsAtTurn(json, s, l.i, k, found); }
  }

  lemma SettleKeepsInv(json: Json, s: State, i: nat, k: nat, found: Option<string>)
    requires InvAt(json, s, k, found) && i < |s.pcs| && s.pcs[i].Finished? && s.lock.works[i].phase.Running?
    ensures InvAt(json, Apply(json, s, Settle(i)), k + 1, found)
  {
    hide LockTheorems.Inv, Effect;
    LockTheorems.ApplyKeepsInv(s.lock, Lock.Settle(i));
    assert i == k;
    assert s.works[..k + 1][..k] == s.works[..k];
  }

  lemma GoKeepsInv(json: Json, s: State, i: nat, k: nat, found: Option<string>)
    requires InvAt(json, s, k, found)
    ensures InvAt(json, Apply(json, s, Go(i)), k, found)
  {
    hide LockTheorems.Inv, Fold, Midway, Call;
    if i < |s.works| && s.lock.works[i].phase.Running? {
      CallKeepsMidway(json, s.works[i], s.pcs[i], Fold(json, s.works[..k], found), s.file);
    }
  }

  /** Every label keeps the invariant, for the same turn or the next. */
  lemma ApplyKeepsInv(json: Json, s: State, l: Label, k: nat, found: Option<string>) returns (k': nat)
    requires InvAt(json, s, k, found)
    ensures InvAt(json, Apply(json, s, l), k', found)
  {
    hide InvAt;
    k' := k;
    match l
    case Arrive(w) => ArriveKeepsInv(json, s, w, k, found);
    case Start(i) => LockLabelKeepsInv(json, s, Lock.Start(i), k, found);
    case Forget(i) => LockLabelKeepsInv(json, s, Lock.Forget(i), k, found);
    case Go(i) => GoKeepsInv(json, s, i, k, found);
    case Settle(i) =>
      InvHasShape(json, s, k, found);
      if i < |s.pcs| && s.pcs[i].Finished? && s.lock.works[i].phase.Running? {
        SettleKeepsInv(json, s, i, k, found);
        k' := k + 1;
      } else {
        assert Apply(json, s, l) == s;
      }
  }

  lemma InvHasShape(json: Json, s: State, k: nat, found: Option<string>)
    requires InvAt(json, s, k, found)
    ensures Shape(s)
  {
  }

  lemma {:induction false} RunInv(json: Json, found: Option<string>, ls: seq<Label>) returns (k: nat)
    ensures InvAt(json, Run(json, found, ls), k, found)
  {
    if ls == [] {
      k := 0;
    } else {
      var j := RunInv(json, found, ls[..|ls| - 1]);
      k := ApplyKeepsInv(json, Run(json, found, ls[..|ls| - 1]), ls[|ls| - 1], j, found);
    }
  }

  /**
   Every schedule behaves like running the works one after another in arrival order: at any moment the file is what
   some first part of them would have left, and at least what the ended ones would have left.
   */
  lemma ArrivalOrderAtAllTimes(json: Json, found: Option<string>, ls: seq<Label>) returns (k: nat)
    ensures var s := Run(json, found, ls);
      && k <= |s.works| == |s.lock.works|
      && s.file == Fold(json, s.works[..k], found)
      && forall i :: 0 <= i < |s.works| && s.lock.works[i].phase.Settled? ==> i < k
  {
    hide LockTheorems.Inv, Effect, Run;
    k := RunInv(json, found, ls);
    var s := Run(json, found, ls);
    if k < |s.works| && s.lock.works[k].phase.Running? && s.pcs[k].Finished? {
      assert s.works[..k + 1][..k] == s.works[..k];
      k := k + 1;
    }
  }

  function Arrivals(ls: seq<Label>): seq<Work> {
    if ls == [] then []
    else
      var before := Arrivals(ls[..|ls| - 1]);
      if ls[|ls| - 1].Arrive? then before + [ls[|ls| - 1].work] else before
  }

  lemma {:induction false} WorksArrive(json: Json, found: Option<string>, ls: seq<Label>)
    ensures Run(json, found, ls).works == Arrivals(ls)
  {
    if ls != [] { WorksArrive(json, found, ls[..|ls| - 1]); }
  }

  /** And once all have ended, the file is that of the sequential run. */
  lemma EveryScheduleIsSequential(json: Json, found: Option<string>, ls: seq<Label>)
    requires var works := Run(json, found, ls).lock.works; forall i :: 0 <= i < |works| ==> works[i].phase.Settled?
    ensures Run(json, found, ls).file == Fold(json, Arrivals(ls), found)
  {
    var k := ArrivalOrderAtAllTimes(json, found, ls);
    var s := Run(json, found, ls);
    WorksArrive(json, found, ls);
    if s.works != [] { assert s.lock.works[|s.works| - 1].phase.Settled?; }
    assert s.works[..k] == s.works;
  }

  // ---- what the sequential run means for the lines

  /** The file holds exactly these terminated lines. */
  ghost predicate Holds(file: Option<string>, ls: seq<string>) {
    Content(file) == Unlines(ls) && OneLineEach(ls)
  }

  /** All of the record's line was written, whether or not the call then failed. */
  predicate Lands(json: Json, w: Work) {
    w.Append? && Written(json, w) == json.stringify(w.record) + "\n"
  }

  /** No append was cut short: each wrote its line, or nothing. */
  ghost predicate WholeAppends(json: Json, works: seq<Work>) {
    forall i :: 0 <= i < |works| && works[i].Append? ==> Lands(json, works[i]) || Written(json, works[i]) == ""
  }

  function LinesEffect(json: Json, w: Work, ls: seq<string>): seq<string> {
    match w
    case Append(record, _) => if Lands(json, w) then ls + [json.stringify(record)] else ls
    case Redact(q, failure) => if failure.NoFailure? then LinesAfter(json, q, ls) else ls
  }

  function LinesFold(json: Json, works: seq<Work>, ls: seq<string>): seq<string> {
    if works == [] then ls else LinesEffect(json, works[|works| - 1], LinesFold(json, works[..|works| - 1], ls))
  }

  lemma EffectHolds(json: Json, w: Work, file: Option<string>, ls: seq<string>)
    requires Lawful(json) && Holds(file, ls) && WholeAppends(json, [w])
    ensures Holds(Effect(json, w, file), LinesEffect(json, w, ls))
  {
    match w
    case Append(record, fault) =>
      assert [w][0] == w;
      var line := json.stringify(record);
      UnlinesSnoc(ls, line);
      assert Unlines(ls) + (line + "\n") == Unlines(ls) + line + "\n";
    case Redact(q, failure) =>
      var after := LinesAfter(json, q, ls);
      forall i | 0 <= i < |ls| ensures OneLine(after[i]) {
        assert OneLine(ls[i]);
        OnlyCitationsChange(json, q, ls[i]);
      }
      if file.Some? {
        SplitOfUnlines(ls);
        assert LineAfter(json, q, "") == "";
        assert LinesAfter(json, q, ls + [""]) == after + [""];
        JoinIsUnlines(after);
      } else {
        assert ls != [] ==> |Unlines(ls)| >= 1;
      }
  }

  /** The works run on the lines of the file. */
  lemma {:induction false} FoldHolds(json: Json, works: seq<Work>, file: Option<string>, ls: seq<string>)
    requires Lawful(json) && Holds(file, ls) && WholeAppends(json, works)
    ensures Holds(Fold(json, works, file), LinesFold(json, works, ls))
  {
    if works != [] {
      var n := |works| - 1;
      FoldHolds(json, works[..n], file, ls);
      EffectHolds(json, works[n], Fold(json, works[..n], file), LinesFold(json, works[..n], ls));
    }
  }

  /** A line after the redactions among these works. */
  function Later(json: Json, works: seq<Work>, line: string): string {
    if works == [] then line
    else
      var before := Later(json, works[..|works| - 1], line);
      var w := works[|works| - 1];
      if w.Redact? && w.failure.NoFailure? then LineAfter(json, w.q, before) else before
  }

  function Appends(json: Json, works: seq<Work>): nat {
    if works == [] then 0
    else Appends(json, works[..|works| - 1]) + (if Lands(json, works[|works| - 1]) then 1 else 0)
  }

  /** Every line the file had is still there, at its place, changed by nothing but the redactions. */
  lemma {:induction false} LinesStay(json: Json, works: seq<Work>, ls: seq<string>, j: nat)
    requires j < |ls|
    ensures |LinesFold(json, works, ls)| == |ls| + Appends(json, works)
    ensures LinesFold(json, works, ls)[j] == Later(json, works, ls[j])
  {
    if works != [] { LinesStay(json, works[..|works| - 1], ls, j); }
  }

  /** No append is lost: each gives one line, after those before it, changed by nothing but the redactions after it. */
  lemma {:induction false} NoAppendIsLost(json: Json, works: seq<Work>, ls: seq<string>, i: nat)
    requires i < |works| && Lands(json, works[i])
    ensures |LinesFold(json, works, ls)| == |ls| + Appends(json, works)
    ensures var at := |ls| + Appends(json, works[..i]);
      && at < |ls| + Appends(json, works)
      && LinesFold(json, works, ls)[at] == Later(json, works[i + 1..], json.stringify(works[i].record))
  {
    var n := |works| - 1;
    if i == n {
      LengthOfFold(json, works[..n], ls);
    } else {
      NoAppendIsLost(json, works[..n], ls, i);
      assert works[..n][..i] == works[..i];
      assert works[..n][i + 1..] == works[i + 1..][..n - i - 1];
    }
  }

  lemma {:induction false} LengthOfFold(json: Json, works: seq<Work>, ls: seq<string>)
    ensures |LinesFold(json, works, ls)| == |ls| + Appends(json, works)
  {
    if works != [] { LengthOfFold(json, works[..|works| - 1], ls); }
  }

  /** A line no redaction's scope covers is kept byte for byte through any schedule. */
  lemma {:induction false} OtherTenantsKeepTheirLines(json: Json, works: seq<Work>, line: string)
    requires forall i :: 0 <= i < |works| && works[i].Redact? && json.parse(line).Some? ==> AnotherTenants(json.parse(line).value, works[i].q)
    ensures Later(json, works, line) == line
  {
    if works != [] {
      OtherTenantsKeepTheirLines(json, works[..|works| - 1], line);
    }
  }

  /** Any schedule leaves exactly the lines of the sequential run. */
  lemma EveryScheduleKeepsTheLines(json: Json, found: Option<string>, lines: seq<string>, ls: seq<Label>)
    requires Lawful(json) && Holds(found, lines) && WholeAppends(json, Arrivals(ls))
    requires var works := Run(json, found, ls).lock.works; forall i :: 0 <= i < |works| ==> works[i].phase.Settled?
    ensures Holds(Run(json, found, ls).file, LinesFold(json, Arrivals(ls), lines))
  {
    EveryScheduleIsSequential(json, found, ls);
    FoldHolds(json, Arrivals(ls), found, lines);
  }

  /** Work i is the only redaction that succeeds. */
  ghost predicate OnlyRedaction(works: seq<Work>, i: nat) {
    && i < |works| && works[i].Redact? && works[i].failure.NoFailure?
    && forall k :: 0 <= k < |works| && k != i && works[k].Redact? ==> !works[k].failure.NoFailure?
  }

  lemma {:induction false} LaterWithoutRedaction(json: Json, works: seq<Work>, line: string)
    requires forall k :: 0 <= k < |works| && works[k].Redact? ==> !works[k].failure.NoFailure?
    ensures Later(json, works, line) == line
  {
    if works != [] { LaterWithoutRedaction(json, works[..|works| - 1], line); }
  }

  lemma {:induction false} LaterOfOne(json: Json, works: seq<Work>, i: nat, line: string)
    requires OnlyRedaction(works, i)
    ensures Later(json, works, line) == LineAfter(json, works[i].q, line)
  {
    var n := |works| - 1;
    if i == n { LaterWithoutRedaction(json, works[..n], line); } else { LaterOfOne(json, works[..n], i, line); }
  }

  /**
   Whatever the schedule of the appends around one redaction, every line the file had is redacted, or kept byte for
   byte, as its record and the scope say.
   */
  lemma RedactionReachesTheFile(json: Json, found: Option<string>, lines: seq<string>, ls: seq<Label>, i: nat, j: nat)
    requires Lawful(json) && Holds(found, lines) && WholeAppends(json, Arrivals(ls)) && OnlyRedaction(Arrivals(ls), i) && j < |lines|
    requires var works := Run(json, found, ls).lock.works; forall i :: 0 <= i < |works| ==> works[i].phase.Settled?
    ensures var after := LinesFold(json, Arrivals(ls), lines);
      && Holds(Run(json, found, ls).file, after) && |after| == |lines| + Appends(json, Arrivals(ls))
      && RedactsTo(json, Arrivals(ls)[i].q, lines[j], after[j])
  {
    hide RedactsTo, LinesFold, Later, Run;
    EveryScheduleKeepsTheLines(json, found, lines, ls);
    LinesStay(json, Arrivals(ls), lines, j);
    LaterOfOne(json, Arrivals(ls), i, lines[j]);
    RedactionIs(json, Arrivals(ls)[i].q, lines[j]);
  }

  /** The new record's text stands where the file's last, unterminated line was, and ends there. */
  ghost predicate OwnLine(json: Json, record: Record, file: Option<string>) {
    var before, after := Split(Content(file), '\n'), Split(Content(Effect(json, Append(record, None), file)), '\n');
    |after| == |before| + 1 && after[|before| - 1] == json.stringify(record)
  }

  /** A whole append gets a line of its own exactly if the file is empty or ends in a line end. Other lines stay. */
  lemma AppendHasItsOwnLineIff(json: Json, file: Option<string>, record: Record)
    requires Lawful(json)
    ensures OwnLine(json, record, file) <==> Content(file) == "" || Content(file)[|Content(file)| - 1] == '\n'
    ensures var before, after := Split(Content(file), '\n'), Split(Content(Effect(json, Append(record, None), file)), '\n');
      after == before[..|before| - 1] + [before[|before| - 1] + json.stringify(record), ""]
  {
    hide Split;
    var content, line := Content(file), json.stringify(record);
    assert OneLine(line);
    var before := Split(content, '\n');
    assert line + ['\n'] + "" == line + "\n";
    SplitOfFirst(line, '\n', "");
    SplitOfOne("", '\n');
    SplitOfConcat(content, line + "\n", '\n');
    LastPart(content, '\n');
    var last := before[|before| - 1];
    assert |last + line| == |last| + |line|;
    if last == "" { assert last + line == line; }
  }

  /** An append that failed before its line end shares its line with the next record: that is why appends must be whole. */
  lemma PartialAppendSpoilsTheNext(json: Json, file: Option<string>, ls: seq<string>, first: Record, n: nat, second: Record)
    requires Lawful(json) && Holds(file, ls) && 0 < n <= |json.stringify(first)|
    ensures Holds(Fold(json, [Append(first, Some(n)), Append(second, None)], file),
                  ls + [json.stringify(first)[..n] + json.stringify(second)])
  {
    var works := [Append(first, Some(n)), Append(second, None)];
    assert works[..1] == [Append(first, Some(n))] && works[..1][..0] == [];
    var part, line := json.stringify(first)[..n], json.stringify(second);
    assert (json.stringify(first) + "\n")[..n] == part;
    UnlinesSnoc(ls, part + line);
    assert OneLine(json.stringify(first)) && OneLine(line);
    assert Fold(json, works[..1], file) == Effect(json, works[0], file);
    assert Content(file) + part + (line + "\n") == Unlines(ls) + (part + line) + "\n";
  }
}
