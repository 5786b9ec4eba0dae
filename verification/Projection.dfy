/**
 The structural matching of response projections: `collectProjectionMismatches` and `validateResponseProjections` in
 server/evaluation/quality-check-suite-integrity.js.
 */
module Projection {
  import opened Common
  import opened KeyedLists
  import opened CanonicalJson

  /** One step of a path: `[i]` or `.key`. */
  datatype Step = Item(index: nat) | Field(key: string)

  datatype Mismatch = Mismatch(actual: Json, expected: Json, path: seq<Step>)

  function OrNull(v: Json): Json {
    if v.Undefined? then Null else v
  }

  function Length(n: nat): Json {
    Obj([Pair("length", Num(n as real))])
  }

  function ItemMismatches(actual: seq<Json>, expected: seq<Json>, i: nat, path: seq<Step>): seq<Mismatch>
    requires |actual| == |expected|
    decreases expected, |expected| - i
  {
    if i >= |expected| then []
    else Mismatches(actual[i], expected[i], path + [Item(i)]) + ItemMismatches(actual, expected, i + 1, path)
  }

  function FieldMismatches(actual: Json, expected: seq<Pair<Json>>, i: nat, path: seq<Step>): seq<Mismatch>
    decreases expected, |expected| - i
  {
    if i >= |expected| then []
    else
      Mismatches(Get(actual, expected[i].key), expected[i].value, path + [Field(expected[i].key)])
      + FieldMismatches(actual, expected, i + 1, path)
  }

  /** `collectProjectionMismatches`. */
  function Mismatches(actual: Json, expected: Json, path: seq<Step>): seq<Mismatch>
    decreases expected, 0
  {
    match expected
    case Arr(items) =>
      if !actual.Arr? then [Mismatch(OrNull(actual), expected, path)]
      else if |actual.items| != |items| then [Mismatch(Length(|actual.items|), Length(|items|), path)]
      else ItemMismatches(actual.items, items, 0, path)
    case Obj(fields) =>
      if !actual.Obj? then [Mismatch(OrNull(actual), expected, path)] else FieldMismatches(actual, fields, 0, path)
    case _ => if actual == expected then [] else [Mismatch(OrNull(actual), OrNull(expected), path)]
  }

  /**
   The actual tree covers the expected one: arrays of the same length, objects with at least its fields, and equal
   leaves, at every depth; an undefined field is one that is not there.
   */
  ghost predicate Covers(actual: Json, expected: Json)
    decreases expected
  {
    match expected
    case Arr(items) => actual.Arr? && |actual.items| == |items| && forall i :: 0 <= i < |items| ==> Covers(actual.items[i], items[i])
    case Obj(fields) => actual.Obj? && forall i :: 0 <= i < |fields| ==> Covers(Get(actual, fields[i].key), fields[i].value)
    case _ => actual == expected
  }

  // ---- no mismatch exactly if covered

  lemma {:induction false} NoItemMismatch(actual: seq<Json>, expected: seq<Json>, i: nat, path: seq<Step>)
    requires |actual| == |expected|
    ensures ItemMismatches(actual, expected, i, path) == [] <==> forall j :: i <= j < |expected| ==> Covers(actual[j], expected[j])
    decreases expected, |expected| - i
  {
    hide Covers;
    if i < |expected| {
      NoMismatchIffCovers(actual[i], expected[i], path + [Item(i)]);
      NoItemMismatch(actual, expected, i + 1, path);
    }
  }

  lemma {:induction false} NoFieldMismatch(actual: Json, expected: seq<Pair<Json>>, i: nat, path: seq<Step>)
    ensures FieldMismatches(actual, expected, i, path) == [] <==>
      forall j :: i <= j < |expected| ==> Covers(Get(actual, expected[j].key), expected[j].value)
    decreases expected, |expected| - i
  {
    hide Covers;
    if i < |expected| {
      NoMismatchIffCovers(Get(actual, expected[i].key), expected[i].value, path + [Field(expected[i].key)]);
      NoFieldMismatch(actual, expected, i + 1, path);
    }
  }

  /** The list of mismatches is empty exactly if the actual tree covers the expected one. */
  lemma {:induction false} NoMismatchIffCovers(actual: Json, expected: Json, path: seq<Step>)
    ensures Mismatches(actual, expected, path) == [] <==> Covers(actual, expected)
    decreases expected, 0
  {
    match expected
    case Arr(items) => if actual.Arr? && |actual.items| == |items| { NoItemMismatch(actual.items, items, 0, path); }
    case Obj(fields) => if actual.Obj? { NoFieldMismatch(actual, fields, 0, path); }
    case _ =>
  }

  // ---- every reported mismatch is one

  function StepInto(v: Json, s: Step): Json {
    match s
    case Item(i) => if v.Arr? && i < |v.items| then v.items[i] else Undefined
    case Field(key) => Get(v, key)
  }

  function Walk(v: Json, path: seq<Step>): Json
    decreases |path|
  {
    if path == [] then v else Walk(StepInto(v, path[0]), path[1..])
  }

  /** The two trees differ at the path of the mismatch. */
  ghost predicate Real(m: Mismatch, actual: Json, expected: Json, at: nat) {
    at <= |m.path| && !Covers(Walk(actual, m.path[at..]), Walk(expected, m.path[at..]))
  }

  lemma RealBelow(m: Mismatch, actual: Json, expected: Json, path: seq<Step>, step: Step)
    requires |path| < |m.path| && m.path[|path|] == step
    requires Real(m, StepInto(actual, step), StepInto(expected, step), |path| + 1)
    ensures Real(m, actual, expected, |path|)
  {
    hide Covers;
    assert m.path[|path|..][1..] == m.path[|path| + 1..];
  }

  ghost predicate AllReal(ms: seq<Mismatch>, actual: Json, expected: Json, path: seq<Step>) {
    forall k :: 0 <= k < |ms| ==> path <= ms[k].path && Real(ms[k], actual, expected, |path|)
  }

  lemma AllRealBelow(ms: seq<Mismatch>, actual: Json, expected: Json, path: seq<Step>, step: Step)
    requires AllReal(ms, StepInto(actual, step), StepInto(expected, step), path + [step])
    ensures AllReal(ms, actual, expected, path)
  {
    hide Covers, Walk, Real;
    forall k | 0 <= k < |ms| ensures path <= ms[k].path && Real(ms[k], actual, expected, |path|) {
      assert path + [step] <= ms[k].path;
      RealBelow(ms[k], actual, expected, path, step);
    }
  }

  lemma AllRealConcat(a: seq<Mismatch>, b: seq<Mismatch>, actual: Json, expected: Json, path: seq<Step>)
    requires AllReal(a, actual, expected, path) && AllReal(b, actual, expected, path)
    ensures AllReal(a + b, actual, expected, path)
  {
    hide Real;
  }

  lemma {:induction false} ItemMismatchesAreReal(actual: seq<Json>, expected: seq<Json>, i: nat, path: seq<Step>)
    requires |actual| == |expected| && WellFormed(Arr(expected))
    ensures AllReal(ItemMismatches(actual, expected, i, path), Arr(actual), Arr(expected), path)
    decreases expected, |expected| - i
  {
    hide AllReal, Mismatches, Real;
    if i < |expected| {
      MismatchesAreReal(actual[i], expected[i], path + [Item(i)]);
      var ms := Mismatches(actual[i], expected[i], path + [Item(i)]);
      AllRealBelow(ms, Arr(actual), Arr(expected), path, Item(i));
      ItemMismatchesAreReal(actual, expected, i + 1, path);
      AllRealConcat(ms, ItemMismatches(actual, expected, i + 1, path), Arr(actual), Arr(expected), path);
    } else {
      NothingIsReal(Arr(actual), Arr(expected), path);
    }
  }

  lemma NothingIsReal(actual: Json, expected: Json, path: seq<Step>)
    ensures AllReal([], actual, expected, path)
  {
  }

  lemma {:induction false} FieldMismatchesAreReal(actual: Json, expected: seq<Pair<Json>>, i: nat, path: seq<Step>)
    requires WellFormed(Obj(expected))
    ensures AllReal(FieldMismatches(actual, expected, i, path), actual, Obj(expected), path)
    decreases expected, |expected| - i
  {
    hide AllReal, Mismatches, Real, Get, DistinctKeys;
    if i < |expected| {
      var key := expected[i].key;
      var ms := Mismatches(Get(actual, key), expected[i].value, path + [Field(key)]);
      MismatchesAreReal(Get(actual, key), expected[i].value, path + [Field(key)]);
      GetEntry(expected, i);
      AllRealBelow(ms, actual, Obj(expected), path, Field(key));
      FieldMismatchesAreReal(actual, expected, i + 1, path);
      AllRealConcat(ms, FieldMismatches(actual, expected, i + 1, path), actual, Obj(expected), path);
    } else {
      NothingIsReal(actual, Obj(expected), path);
    }
  }

  /** In an object with distinct keys, each field is found by its key. */
  lemma {:induction false} GetEntry(fields: seq<Pair<Json>>, i: nat)
    requires DistinctKeys(fields) && i < |fields|
    ensures Get(Obj(fields), fields[i].key) == fields[i].value
  {
    if i > 0 {
      DistinctTail(fields);
      GetEntry(fields[1..], i - 1);
      assert fields[0].key != fields[i].key;
    }
  }

  /** Each mismatch names a place where the actual tree does not cover the expected one. */
  lemma {:induction false} MismatchesAreReal(actual: Json, expected: Json, path: seq<Step>)
    requires WellFormed(expected)
    ensures AllReal(Mismatches(actual, expected, path), actual, expected, path)
    decreases expected, 0
  {
    match expected
    case Arr(items) =>
      if actual.Arr? && |actual.items| == |items| {
        ItemMismatchesAreReal(actual.items, items, 0, path);
      }
    case Obj(fields) => if actual.Obj? { FieldMismatchesAreReal(actual, fields, 0, path); }
    case _ =>
  }

  // ---- the relation

  lemma {:induction false} CoversIsReflexive(v: Json)
    requires WellFormed(v)
    ensures Covers(v, v)
  {
    match v
    case Arr(items) => forall i | 0 <= i < |items| ensures Covers(items[i], items[i]) { CoversIsReflexive(items[i]); }
    case Obj(fields) =>
      forall i | 0 <= i < |fields| ensures Covers(Get(v, fields[i].key), fields[i].value) {
        GetEntry(fields, i);
        CoversIsReflexive(fields[i].value);
      }
    case _ =>
  }

  /** No object in the tree has a field with the value undefined. */
  ghost predicate NoUndefinedField(v: Json) {
    match v
    case Arr(items) => forall i :: 0 <= i < |items| ==> NoUndefinedField(items[i])
    case Obj(fields) => forall i :: 0 <= i < |fields| ==> !fields[i].value.Undefined? && NoUndefinedField(fields[i].value)
    case _ => true
  }

  lemma {:induction false} CoversIsTransitive(a: Json, b: Json, c: Json)
    requires NoUndefinedField(c) && Covers(a, b) && Covers(b, c)
    ensures Covers(a, c)
    decreases c
  {
    match c
    case Arr(items) =>
      forall i | 0 <= i < |items| ensures Covers(a.items[i], items[i]) { CoversIsTransitive(a.items[i], b.items[i], items[i]); }
    case Obj(fields) =>
      forall i | 0 <= i < |fields| ensures Covers(Get(a, fields[i].key), fields[i].value) {
        var key := fields[i].key;
        assert Covers(Get(b, key), fields[i].value);
        CoveredIsDefined(Get(b, key), fields[i].value);
        var j := FieldBehind(b.fields, key);
        assert Covers(Get(a, b.fields[j].key), b.fields[j].value);
        CoversIsTransitive(Get(a, key), Get(b, key), fields[i].value);
      }
    case _ =>
  }

  lemma CoveredIsDefined(actual: Json, expected: Json)
    requires Covers(actual, expected) && !expected.Undefined?
    ensures !actual.Undefined?
  {
  }

  lemma {:induction false} FieldBehind(fields: seq<Pair<Json>>, key: string) returns (j: nat)
    requires !Find(fields, key).Undefined?
    ensures j < |fields| && fields[j].key == key && fields[j].value == Find(fields, key)
  {
    if fields[0].key == key {
      j := 0;
    } else {
      var k := FieldBehind(fields[1..], key);
      j := k + 1;
    }
  }

  // With an undefined field in the last tree the relation is not transitive.

  lemma {:induction false} GetUpdated(fields: seq<Pair<Json>>, i: nat, v: Json, key: string)
    requires DistinctKeys(fields) && i < |fields|
    ensures Find(fields[i := Pair(fields[i].key, v)], key) == if key == fields[i].key then v else Find(fields, key)
  {
    var updated := fields[i := Pair(fields[i].key, v)];
    if i == 0 {
      assert updated[1..] == fields[1..];
    } else {
      assert updated[1..] == fields[1..][i - 1 := Pair(fields[i].key, v)];
      DistinctTail(fields);
      GetUpdated(fields[1..], i - 1, v, key);
      assert fields[0].key != fields[i].key;
    }
  }

  lemma {:induction false} GetRemoved(fields: seq<Pair<Json>>, i: nat, key: string)
    requires DistinctKeys(fields) && i < |fields|
    ensures Find(fields[..i] + fields[i + 1..], key) == if key == fields[i].key then Undefined else Find(fields, key)
  {
    var rest := fields[..i] + fields[i + 1..];
    DistinctTail(fields);
    if i == 0 {
      assert rest == fields[1..];
      FindAbsent(fields[1..], fields[0].key);
    } else {
      assert rest[1..] == fields[1..][..i - 1] + fields[1..][i..];
      GetRemoved(fields[1..], i - 1, key);
      assert fields[0].key != fields[i].key;
    }
  }

  lemma {:induction false} FindAbsent(fields: seq<Pair<Json>>, key: string)
    requires !HasKey(fields, key)
    ensures Find(fields, key) == Undefined
  {
    if fields != [] {
      KeyOfTail(fields, key);
      FindAbsent(fields[1..], key);
    }
  }

  function Updated(fields: seq<Pair<Json>>, i: nat, v: Json): seq<Pair<Json>>
    requires i < |fields|
  {
    fields[i := Pair(fields[i].key, v)]
  }

  function Removed(fields: seq<Pair<Json>>, i: nat): seq<Pair<Json>>
    requires i < |fields|
  {
    fields[..i] + fields[i + 1..]
  }

  lemma GetChanged(fields: seq<Pair<Json>>, i: nat, v: Json)
    requires DistinctKeys(fields) && i < |fields|
    ensures forall key :: Get(Obj(Updated(fields, i, v)), key) == if key == fields[i].key then v else Get(Obj(fields), key)
    ensures forall key :: Get(Obj(Removed(fields, i)), key) == if key == fields[i].key then Undefined else Get(Obj(fields), key)
  {
    hide Find, DistinctKeys;
    forall key ensures Get(Obj(Updated(fields, i, v)), key) == if key == fields[i].key then v else Get(Obj(fields), key) {
      GetUpdated(fields, i, v, key);
    }
    forall key ensures Get(Obj(Removed(fields, i)), key) == if key == fields[i].key then Undefined else Get(Obj(fields), key) {
      GetRemoved(fields, i, key);
    }
  }

  /** The object with field i set to null covers the object without it, which covers the object where it is undefined. */
  lemma UndefinedFieldBreaks(fields: seq<Pair<Json>>, i: nat) returns (a: Json, b: Json)
    requires WellFormed(Obj(fields)) && i < |fields| && fields[i].value.Undefined?
    ensures Covers(a, b) && Covers(b, Obj(fields)) && !Covers(a, Obj(fields))
  {
    hide DistinctKeys, Get;
    a, b := Obj(Updated(fields, i, Null)), Obj(Removed(fields, i));
    GetChanged(fields, i, Null);
    forall j | 0 <= j < |b.fields| ensures Covers(Get(a, b.fields[j].key), b.fields[j].value) {
      var k := if j < i then j else j + 1;
      assert b.fields[j] == fields[k];
      KeysDiffer(fields, i, k);
      GetEntry(fields, k);
      CoversIsReflexive(fields[k].value);
    }
    forall k | 0 <= k < |fields| ensures Covers(Get(b, fields[k].key), fields[k].value) {
      GetEntry(fields, k);
      if k != i {
        KeysDiffer(fields, i, k);
        CoversIsReflexive(fields[k].value);
      }
    }
    assert Get(a, fields[i].key) == Null;
  }

  lemma KeysDiffer(fields: seq<Pair<Json>>, i: nat, k: nat)
    requires DistinctKeys(fields) && i < |fields| && k < |fields| && i != k
    ensures fields[i].key != fields[k].key
  {
  }

  lemma FieldBreaks(fields: seq<Pair<Json>>, i: nat, x: Json, y: Json) returns (a: Json, b: Json)
    requires WellFormed(Obj(fields)) && i < |fields|
    requires Covers(x, y) && Covers(y, fields[i].value) && !Covers(x, fields[i].value)
    ensures Covers(a, b) && Covers(b, Obj(fields)) && !Covers(a, Obj(fields))
  {
    hide DistinctKeys, Get;
    a, b := Obj(Updated(fields, i, x)), Obj(Updated(fields, i, y));
    GetChanged(fields, i, x);
    GetChanged(fields, i, y);
    forall k | 0 <= k < |fields|
      ensures Covers(Get(a, b.fields[k].key), b.fields[k].value) && Covers(Get(b, fields[k].key), fields[k].value)
    {
      GetEntry(fields, k);
      if k != i {
        KeysDiffer(fields, i, k);
        CoversIsReflexive(fields[k].value);
      }
    }
    assert Get(a, fields[i].key) == x;
  }

  lemma ItemBreaks(items: seq<Json>, i: nat, x: Json, y: Json) returns (a: Json, b: Json)
    requires WellFormed(Arr(items)) && i < |items|
    requires Covers(x, y) && Covers(y, items[i]) && !Covers(x, items[i])
    ensures Covers(a, b) && Covers(b, Arr(items)) && !Covers(a, Arr(items))
  {
    a, b := Arr(items[i := x]), Arr(items[i := y]);
    forall k | 0 <= k < |items| ensures Covers(a.items[k], b.items[k]) && Covers(b.items[k], items[k]) {
      if k != i { CoversIsReflexive(items[k]); }
    }
    assert a.items[i] == x;
  }

  lemma {:induction false} UndefinedBreaks(c: Json) returns (a: Json, b: Json)
    requires WellFormed(c) && !NoUndefinedField(c)
    ensures Covers(a, b) && Covers(b, c) && !Covers(a, c)
    decreases c
  {
    hide Covers;
    match c
    case Arr(items) =>
      var i :| 0 <= i < |items| && !NoUndefinedField(items[i]);
      var x, y := UndefinedBreaks(items[i]);
      a, b := ItemBreaks(items, i, x, y);
    case Obj(fields) =>
      var i :| 0 <= i < |fields| && (fields[i].value.Undefined? || !NoUndefinedField(fields[i].value));
      if fields[i].value.Undefined? {
        a, b := UndefinedFieldBreaks(fields, i);
      } else {
        var x, y := UndefinedBreaks(fields[i].value);
        a, b := FieldBreaks(fields, i, x, y);
      }
  }

  /** Covering is transitive down to a tree exactly if that tree has no undefined field; no tree read from JSON has one. */
  lemma TransitiveIff(c: Json)
    requires WellFormed(c)
    ensures (forall a, b :: Covers(a, b) && Covers(b, c) ==> Covers(a, c)) <==> NoUndefinedField(c)
  {
    hide Covers, NoUndefinedField;
    if NoUndefinedField(c) {
      forall a, b | Covers(a, b) && Covers(b, c) ensures Covers(a, c) { CoversIsTransitive(a, b, c); }
    } else {
      var a, b := UndefinedBreaks(c);
    }
  }

  // ---- the cases

  datatype CaseResult = CaseResult(id: string, response: Json)

  /** A map built from the cases keeps the last case of an id; None for no such case. */
  function LastCase(cases: seq<CaseResult>, id: string): Json {
    if cases == [] then Undefined
    else if cases[|cases| - 1].id == id then cases[|cases| - 1].response
    else LastCase(cases[..|cases| - 1], id)
  }

  /** The ids of the expected projections their cases do not cover. */
  ghost function Uncovered(cases: seq<CaseResult>, expected: seq<Pair<Json>>): seq<string> {
    if expected == [] then []
    else
      var p := expected[|expected| - 1];
      Uncovered(cases, expected[..|expected| - 1]) + (if Covers(LastCase(cases, p.key), p.value) then [] else [p.key])
  }

  /** `validateResponseProjections`: one error for each expected projection that its case does not cover. */
  method ValidateResponseProjections(cases: seq<CaseResult>, expected: seq<Pair<Json>>) returns (errors: seq<string>)
    ensures errors == Uncovered(cases, expected)
  {
    hide Covers, Mismatches;
    errors := [];
    var i := 0;
    while i < |expected|
      invariant 0 <= i <= |expected|
      invariant errors == Uncovered(cases, expected[..i])
    {
      var mismatches := Mismatches(LastCase(cases, expected[i].key), expected[i].value, []);
      NoMismatchIffCovers(LastCase(cases, expected[i].key), expected[i].value, []);
      assert expected[..i + 1][..i] == expected[..i];
      if |mismatches| > 0 { errors := errors + [expected[i].key]; }
      i := i + 1;
    }
    assert expected[..i] == expected;
  }
}
