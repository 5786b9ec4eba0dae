/**
 Canonical JSON (`canonicalizeValue` in server/evaluation/eval-evidence.js) and the filters that run over the same
 trees: `sanitizeEvidenceConfig` and `toStableCorpusContent`.

 An object lists its keys in their order, each once; a value may be undefined.
 */
module CanonicalJson {
  import opened KeyedLists

  datatype Json =
    | Undefined | Null | Bool(flag: bool) | Num(number: real) | Str(text: string)
    | Arr(items: seq<Json>) | Obj(fields: seq<Pair<Json>>)

  /** The keys of every object in the tree are distinct, as JavaScript keeps them. */
  ghost predicate WellFormed(v: Json) {
    match v
    case Arr(items) => forall i :: 0 <= i < |items| ==> WellFormed(items[i])
    case Obj(fields) => DistinctKeys(fields) && forall i :: 0 <= i < |fields| ==> WellFormed(fields[i].value)
    case _ => true
  }

  // ---- reading fields

  function Find(fields: seq<Pair<Json>>, key: string): Json {
    if fields == [] then Undefined else if fields[0].key == key then fields[0].value else Find(fields[1..], key)
  }

  /** `value?.[key]`. */
  function Get(v: Json, key: string): Json {
    if v.Obj? then Find(v.fields, key) else Undefined
  }

  // ---- what a tree means: objects as maps of their defined fields

  datatype Meaning =
    | MUndefined | MNull | MBool(flag: bool) | MNum(number: real) | MStr(text: string)
    | MArr(items: seq<Meaning>) | MObj(fields: map<string, Meaning>)

  predicate MeansSomething(p: Pair<Meaning>) {
    !p.value.MUndefined?
  }

  function Meanings(fields: seq<Pair<Json>>): (r: seq<Pair<Meaning>>)
    decreases fields, 0
  {
    seq(|fields|, i requires 0 <= i < |fields| => Pair(fields[i].key, MeaningOf(fields[i].value)))
  }

  function MeaningOf(v: Json): Meaning
    decreases v, 1
  {
    match v
    case Undefined => MUndefined
    case Null => MNull
    case Bool(b) => MBool(b)
    case Num(n) => MNum(n)
    case Str(t) => MStr(t)
    case Arr(items) => MArr(seq(|items|, i requires 0 <= i < |items| => MeaningOf(items[i])))
    case Obj(fields) => MObj(FilterMap(ToMap(Meanings(fields)), MeansSomething))
  }

  // ---- the canonical form

  predicate IsDefined(p: Pair<Json>) {
    !p.value.Undefined?
  }

  function CanonAll(fields: seq<Pair<Json>>): (r: seq<Pair<Json>>)
    decreases fields, 0
  {
    seq(|fields|, i requires 0 <= i < |fields| => Pair(fields[i].key, Canon(fields[i].value)))
  }

  /** `canonicalizeValue`: sorted keys, no undefined fields. */
  function Canon(v: Json): Json
    decreases v, 1
  {
    match v
    case Arr(items) => Arr(seq(|items|, i requires 0 <= i < |items| => Canon(items[i])))
    case Obj(fields) => Obj(Filter(Sort(CanonAll(fields)), IsDefined))
    case _ => v
  }

  /** Sorted keys and no undefined field, at every depth. */
  ghost predicate Canonical(v: Json) {
    match v
    case Arr(items) => forall i :: 0 <= i < |items| ==> Canonical(items[i])
    case Obj(fields) => Ascending(fields) && forall i :: 0 <= i < |fields| ==> IsDefined(fields[i]) && Canonical(fields[i].value)
    case _ => true
  }

  lemma MeaningsImage(fields: seq<Pair<Json>>)
    ensures Image(fields, Meanings(fields), MeaningOf) && ToMap(Meanings(fields)) == MapMap(ToMap(fields), MeaningOf)
  {
    ToMapOfImage(fields, Meanings(fields), MeaningOf);
  }

  lemma CanonImage(fields: seq<Pair<Json>>)
    ensures Image(fields, CanonAll(fields), Canon) && ToMap(CanonAll(fields)) == MapMap(ToMap(fields), Canon)
  {
    ToMapOfImage(fields, CanonAll(fields), Canon);
  }

  lemma CanonKeepsDefined(v: Json)
    ensures Canon(v).Undefined? <==> v.Undefined?
    ensures MeaningOf(v).MUndefined? <==> v.Undefined?
  {
  }

  /** The fields of a canonical object: ordered, with the canonical values of the defined fields. */
  lemma CanonFields(fields: seq<Pair<Json>>)
    requires DistinctKeys(fields)
    ensures Canon(Obj(fields)).Obj? && Ascending(Canon(Obj(fields)).fields)
    ensures ToMap(Canon(Obj(fields)).fields) == FilterMap(MapMap(ToMap(fields), Canon), IsDefined)
  {
    hide Ascending, DistinctKeys, Sort, Filter, CanonAll, IsDefined, ToMap, Image;
    var all := CanonAll(fields);
    CanonImage(fields);
    ImageKeys(fields, all, Canon);
    SortOrders(all);
    AscendingIsDistinct(Sort(all));
    FilterAscends(Sort(all), IsDefined);
    ToMapOfFilter(Sort(all), IsDefined);
  }

  /** An entry of the list behind an entry of its map. */
  lemma EntryOf(fields: seq<Pair<Json>>, key: string) returns (i: nat)
    requires DistinctKeys(fields) && key in ToMap(fields)
    ensures i < |fields| && fields[i].key == key && fields[i].value == ToMap(fields)[key]
  {
    ToMapKeys(fields, key);
    i :| 0 <= i < |fields| && fields[i].key == key;
    ToMapEntry(fields, i);
  }

  lemma MeaningOfObject(fields: seq<Pair<Json>>, key: string)
    ensures var m := MeaningOf(Obj(fields)).fields;
      && (key in m <==> key in ToMap(fields) && !ToMap(fields)[key].Undefined?)
      && (key in m ==> m[key] == MeaningOf(ToMap(fields)[key]))
  {
    MeaningsImage(fields);
    if key in ToMap(fields) { CanonKeepsDefined(ToMap(fields)[key]); }
  }

  ghost predicate SameAt<T>(a: map<string, T>, b: map<string, T>, key: string) {
    (key in a <==> key in b) && (key in a ==> a[key] == b[key])
  }

  lemma SameMaps<T>(a: map<string, T>, b: map<string, T>)
    requires forall key :: SameAt(a, b, key)
    ensures a == b
  {
    forall key ensures key in a <==> key in b { assert SameAt(a, b, key); }
    forall key | key in a ensures a[key] == b[key] { assert SameAt(a, b, key); }
  }

  lemma CanonOfItems(items: seq<Json>)
    ensures Canon(Arr(items)).Arr? && |Canon(Arr(items)).items| == |items|
    ensures forall i :: 0 <= i < |items| ==> Canon(Arr(items)).items[i] == Canon(items[i])
  {
  }

  lemma MeaningOfItems(a: seq<Json>, b: seq<Json>)
    ensures MeaningOf(Arr(a)) == MeaningOf(Arr(b)) <==>
      |a| == |b| && forall i :: 0 <= i < |a| ==> MeaningOf(a[i]) == MeaningOf(b[i])
  {
    var x, y := MeaningOf(Arr(a)).items, MeaningOf(Arr(b)).items;
    assert |x| == |a| && |y| == |b|;
    assert forall i :: 0 <= i < |a| ==> x[i] == MeaningOf(a[i]);
    assert forall i :: 0 <= i < |b| ==> y[i] == MeaningOf(b[i]);
  }

  /** Canonicalizing keeps the meaning. */
  lemma {:induction false} CanonMeansTheSame(v: Json)
    requires WellFormed(v)
    ensures MeaningOf(Canon(v)) == MeaningOf(v)
  {
    match v
    case Arr(items) =>
      forall i | 0 <= i < |items| ensures MeaningOf(Canon(items[i])) == MeaningOf(items[i]) { CanonMeansTheSame(items[i]); }
      CanonOfItems(items);
      MeaningOfItems(items, Canon(v).items);
    case Obj(fields) =>
      forall i | 0 <= i < |fields| ensures MeaningOf(Canon(fields[i].value)) == MeaningOf(fields[i].value) {
        CanonMeansTheSame(fields[i].value);
      }
      CanonObjectMeansTheSame(fields);
    case _ =>
  }

  lemma CanonObjectMeansTheSame(fields: seq<Pair<Json>>)
    requires DistinctKeys(fields)
    requires forall i :: 0 <= i < |fields| ==> MeaningOf(Canon(fields[i].value)) == MeaningOf(fields[i].value)
    ensures MeaningOf(Canon(Obj(fields))) == MeaningOf(Obj(fields))
  {
    hide Canon, MeaningOf, ToMap, DistinctKeys;
    CanonFields(fields);
    var fields' := Canon(Obj(fields)).fields;
    ObjectMeaning(fields);
    ObjectMeaning(fields');
    var a, b := MeaningOf(Obj(fields)).fields, MeaningOf(Obj(fields')).fields;
    forall key ensures SameAt(a, b, key) {
      MeaningOfObject(fields, key);
      MeaningOfObject(fields', key);
      if key in ToMap(fields) {
        var i := EntryOf(fields, key);
        CanonKeepsDefined(fields[i].value);
      }
    }
    SameMaps(a, b);
  }

  lemma ObjectMeaning(fields: seq<Pair<Json>>)
    ensures MeaningOf(Obj(fields)).MObj?
  {
  }

  lemma {:induction false} CanonIsCanonical(v: Json)
    requires WellFormed(v)
    ensures Canonical(Canon(v))
  {
    match v
    case Arr(items) =>
      forall i | 0 <= i < |items| ensures Canonical(Canon(items[i])) { CanonIsCanonical(items[i]); }
      CanonOfItems(items);
    case Obj(fields) =>
      forall i | 0 <= i < |fields| ensures Canonical(Canon(fields[i].value)) { CanonIsCanonical(fields[i].value); }
      CanonObjectIsCanonical(fields);
    case _ =>
  }

  lemma CanonObjectIsCanonical(fields: seq<Pair<Json>>)
    requires DistinctKeys(fields) && forall i :: 0 <= i < |fields| ==> Canonical(Canon(fields[i].value))
    ensures Canonical(Canon(Obj(fields)))
  {
    hide Canon, ToMap, DistinctKeys, Ascending;
    CanonFields(fields);
    var fields' := Canon(Obj(fields)).fields;
    AscendingIsDistinct(fields');
    forall j | 0 <= j < |fields'| ensures IsDefined(fields'[j]) && Canonical(fields'[j].value) {
      ToMapEntry(fields', j);
      var key := fields'[j].key;
      assert key in ToMap(fields);
      var i := EntryOf(fields, key);
      assert fields'[j] == Pair(key, fields'[j].value);
    }
  }

  lemma {:induction false} CanonicalIsWellFormed(v: Json)
    requires Canonical(v)
    ensures WellFormed(v)
  {
    match v
    case Arr(items) =>
      forall i | 0 <= i < |items| ensures WellFormed(items[i]) { CanonicalIsWellFormed(items[i]); }
    case Obj(fields) =>
      AscendingIsDistinct(fields);
      forall i | 0 <= i < |fields| ensures WellFormed(fields[i].value) { CanonicalIsWellFormed(fields[i].value); }
    case _ =>
  }

  /** Two canonical trees with one meaning are one tree. */
  lemma {:induction false} CanonicalIsUnique(x: Json, y: Json)
    requires Canonical(x) && Canonical(y) && MeaningOf(x) == MeaningOf(y)
    ensures x == y
    decreases x
  {
    match x
    case Arr(items) =>
      MeaningOfItems(items, y.items);
      forall i | 0 <= i < |items| ensures items[i] == y.items[i] { CanonicalIsUnique(items[i], y.items[i]); }
    case Obj(fields) =>
      SameKeys(fields, y.fields);
      AscendingIsDistinct(fields);
      AscendingIsDistinct(y.fields);
      forall key ensures SameAt(ToMap(fields), ToMap(y.fields), key) {
        if key in ToMap(fields) {
          var i := EntryOf(fields, key);
          var j := EntryOf(y.fields, key);
          CanonicalIsUnique(fields[i].value, y.fields[j].value);
        }
      }
      SameMaps(ToMap(fields), ToMap(y.fields));
      AscendingIsUnique(fields, y.fields);
    case _ =>
  }

  lemma DefinedAt(fields: seq<Pair<Json>>, key: string)
    requires Canonical(Obj(fields)) && key in ToMap(fields)
    ensures !ToMap(fields)[key].Undefined?
  {
    AscendingIsDistinct(fields);
    var i := EntryOf(fields, key);
    assert IsDefined(fields[i]);
  }

  lemma SameKeys(a: seq<Pair<Json>>, b: seq<Pair<Json>>)
    requires Canonical(Obj(a)) && Canonical(Obj(b)) && MeaningOf(Obj(a)) == MeaningOf(Obj(b))
    ensures forall key :: key in ToMap(a) <==> key in ToMap(b)
    ensures forall key :: key in ToMap(a) ==> MeaningOf(ToMap(a)[key]) == MeaningOf(ToMap(b)[key])
  {
    hide MeaningOf, ToMap, Canonical;
    forall key
      ensures key in ToMap(a) <==> key in ToMap(b)
      ensures key in ToMap(a) ==> MeaningOf(ToMap(a)[key]) == MeaningOf(ToMap(b)[key])
    {
      MeaningOfObject(a, key);
      MeaningOfObject(b, key);
      if key in ToMap(a) { DefinedAt(a, key); }
      if key in ToMap(b) { DefinedAt(b, key); }
    }
  }

  /** The canonical form is a normal form: equal exactly for trees that agree up to key order and undefined fields. */
  lemma NormalForm(a: Json, b: Json)
    requires WellFormed(a) && WellFormed(b)
    ensures Canon(a) == Canon(b) <==> MeaningOf(a) == MeaningOf(b)
  {
    CanonMeansTheSame(a);
    CanonMeansTheSame(b);
    CanonIsCanonical(a);
    CanonIsCanonical(b);
    if MeaningOf(a) == MeaningOf(b) { CanonicalIsUnique(Canon(a), Canon(b)); }
  }

  lemma CanonIsIdempotent(v: Json)
    requires WellFormed(v)
    ensures Canon(Canon(v)) == Canon(v)
  {
    CanonIsCanonical(v);
    CanonicalIsWellFormed(Canon(v));
    CanonMeansTheSame(v);
    NormalForm(Canon(v), v);
  }

  // ---- sanitizing

  function SanitizeAll(secret: string -> bool, fields: seq<Pair<Json>>): seq<Pair<Json>>
    decreases fields, 0
  {
    seq(|fields|, i requires 0 <= i < |fields| => Pair(fields[i].key, Sanitize(secret, fields[i].value)))
  }

  function Shown(secret: string -> bool): Pair<Json> -> bool {
    (p: Pair<Json>) => !secret(p.key) && !p.value.Undefined?
  }

  /** `sanitizeEvidenceConfig`; `secret` stands for the pattern of key names. */
  function Sanitize(secret: string -> bool, v: Json): Json
    decreases v, 1
  {
    match v
    case Arr(items) => Arr(seq(|items|, i requires 0 <= i < |items| => Sanitize(secret, items[i])))
    case Obj(fields) => Obj(Filter(SanitizeAll(secret, fields), Shown(secret)))
    case _ => v
  }

  function Sanitizer(secret: string -> bool): Json -> Json {
    v => Sanitize(secret, v)
  }

  /** No secret key and no undefined field, at any depth. */
  ghost predicate Clean(secret: string -> bool, v: Json) {
    match v
    case Arr(items) => forall i :: 0 <= i < |items| ==> Clean(secret, items[i])
    case Obj(fields) => forall i :: 0 <= i < |fields| ==> Shown(secret)(fields[i]) && Clean(secret, fields[i].value)
    case _ => true
  }

  lemma SanitizedFields(secret: string -> bool, fields: seq<Pair<Json>>)
    ensures Image(fields, SanitizeAll(secret, fields), Sanitizer(secret))
    ensures forall i :: 0 <= i < |fields| ==>
      SanitizeAll(secret, fields)[i] == Pair(fields[i].key, Sanitize(secret, fields[i].value))
  {
  }

  lemma {:induction false} SanitizedIsClean(secret: string -> bool, v: Json)
    ensures Clean(secret, Sanitize(secret, v))
  {
    match v
    case Arr(items) =>
      forall i | 0 <= i < |items| ensures Clean(secret, Sanitize(secret, items[i])) { SanitizedIsClean(secret, items[i]); }
    case Obj(fields) =>
      forall i | 0 <= i < |fields| ensures Clean(secret, Sanitize(secret, fields[i].value)) {
        SanitizedIsClean(secret, fields[i].value);
      }
      SanitizedObjectIsClean(secret, fields);
    case _ =>
  }

  lemma SanitizedObjectIsClean(secret: string -> bool, fields: seq<Pair<Json>>)
    requires forall i :: 0 <= i < |fields| ==> Clean(secret, Sanitize(secret, fields[i].value))
    ensures Clean(secret, Sanitize(secret, Obj(fields)))
  {
    hide Clean, Sanitize, SanitizeAll, Shown;
    var all := SanitizeAll(secret, fields);
    SanitizedFields(secret, fields);
    FilteredEntries(all, Shown(secret));
    var kept := Filter(all, Shown(secret));
    forall j | 0 <= j < |kept| ensures Shown(secret)(kept[j]) && Clean(secret, kept[j].value) {
      var i :| 0 <= i < |all| && all[i] == kept[j];
    }
    SanitizeObject(secret, fields);
    CleanObject(secret, kept);
  }

  lemma SanitizeObject(secret: string -> bool, fields: seq<Pair<Json>>)
    ensures Sanitize(secret, Obj(fields)) == Obj(Filter(SanitizeAll(secret, fields), Shown(secret)))
  {
  }

  lemma CleanObject(secret: string -> bool, fields: seq<Pair<Json>>)
    requires forall i :: 0 <= i < |fields| ==> Shown(secret)(fields[i]) && Clean(secret, fields[i].value)
    ensures Clean(secret, Obj(fields))
  {
  }

  /** Sanitizing changes nothing that is clean; with the lemma before, sanitizing twice is sanitizing once. */
  lemma {:induction false} SanitizeOfClean(secret: string -> bool, v: Json)
    requires Clean(secret, v)
    ensures Sanitize(secret, v) == v
  {
    match v
    case Arr(items) =>
      forall i | 0 <= i < |items| ensures Sanitize(secret, items[i]) == items[i] { SanitizeOfClean(secret, items[i]); }
    case Obj(fields) =>
      forall i | 0 <= i < |fields| ensures Sanitize(secret, fields[i].value) == fields[i].value {
        SanitizeOfClean(secret, fields[i].value);
      }
      SanitizedFields(secret, fields);
      assert SanitizeAll(secret, fields) == fields;
      FilterOfKept(fields, Shown(secret));
    case _ =>
  }

  lemma SanitizeIsIdempotent(secret: string -> bool, v: Json)
    ensures Sanitize(secret, Sanitize(secret, v)) == Sanitize(secret, v)
  {
    SanitizedIsClean(secret, v);
    SanitizeOfClean(secret, Sanitize(secret, v));
  }

  /** The fields of a sanitized object. */
  lemma SanitizedObject(secret: string -> bool, fields: seq<Pair<Json>>)
    requires DistinctKeys(fields)
    ensures var r := Sanitize(secret, Obj(fields));
      && r.Obj? && DistinctKeys(r.fields)
      && ToMap(r.fields) == FilterMap(MapMap(ToMap(fields), Sanitizer(secret)), Shown(secret))
      && (Ascending(fields) ==> Ascending(r.fields))
  {
    hide Ascending, DistinctKeys, Filter, SanitizeAll, Shown, ToMap, Image, Sanitizer;
    var all := SanitizeAll(secret, fields);
    SanitizeObject(secret, fields);
    SanitizedFields(secret, fields);
    ImageKeys(fields, all, Sanitizer(secret));
    ToMapOfImage(fields, all, Sanitizer(secret));
    ToMapOfFilter(all, Shown(secret));
    FilterDistinct(all, Shown(secret));
    if Ascending(fields) { FilterAscends(all, Shown(secret)); }
  }

  lemma SanitizedMeaningAt(secret: string -> bool, fields: seq<Pair<Json>>, key: string)
    requires DistinctKeys(fields)
    ensures var m := MeaningOf(Sanitize(secret, Obj(fields)));
      && m.MObj?
      && (key in m.fields <==> key in ToMap(fields) && !secret(key) && !ToMap(fields)[key].Undefined?)
      && (key in m.fields ==> m.fields[key] == MeaningOf(Sanitize(secret, ToMap(fields)[key])))
  {
    hide ToMap, DistinctKeys, MeaningOf, Sanitize;
    SanitizedObject(secret, fields);
    var r := Sanitize(secret, Obj(fields)).fields;
    ObjectMeaning(r);
    MeaningOfObject(r, key);
    if key in ToMap(fields) { SanitizeKeepsDefined(secret, ToMap(fields)[key]); }
  }

  lemma SanitizeKeepsDefined(secret: string -> bool, v: Json)
    ensures Sanitize(secret, v).Undefined? <==> v.Undefined?
  {
  }

  lemma SanitizeOfItems(secret: string -> bool, items: seq<Json>)
    ensures Sanitize(secret, Arr(items)).Arr? && |Sanitize(secret, Arr(items)).items| == |items|
    ensures forall i :: 0 <= i < |items| ==> Sanitize(secret, Arr(items)).items[i] == Sanitize(secret, items[i])
  {
  }

  /** What sanitizing leaves depends on the meaning only. */
  lemma {:induction false} SanitizeRespectsMeaning(secret: string -> bool, a: Json, b: Json)
    requires WellFormed(a) && WellFormed(b) && MeaningOf(a) == MeaningOf(b)
    ensures MeaningOf(Sanitize(secret, a)) == MeaningOf(Sanitize(secret, b))
    decreases a
  {
    match a
    case Arr(items) =>
      MeaningOfItems(items, b.items);
      forall i | 0 <= i < |items| ensures MeaningOf(Sanitize(secret, items[i])) == MeaningOf(Sanitize(secret, b.items[i])) {
        SanitizeRespectsMeaning(secret, items[i], b.items[i]);
      }
      SanitizeOfItems(secret, items);
      SanitizeOfItems(secret, b.items);
      MeaningOfItems(Sanitize(secret, a).items, Sanitize(secret, b).items);
    case Obj(fields) =>
      forall key
        ensures key in ToMap(fields) && !ToMap(fields)[key].Undefined? ==> key in ToMap(b.fields)
        ensures key in ToMap(fields) && !ToMap(fields)[key].Undefined? ==>
                  MeaningOf(Sanitize(secret, ToMap(fields)[key])) == MeaningOf(Sanitize(secret, ToMap(b.fields)[key]))
      {
        MeaningOfObject(fields, key);
        MeaningOfObject(b.fields, key);
        if key in ToMap(fields) && !ToMap(fields)[key].Undefined? {
          var i := EntryOf(fields, key);
          var j := EntryOf(b.fields, key);
          SanitizeRespectsMeaning(secret, fields[i].value, b.fields[j].value);
        }
      }
      SanitizedObjectsMeanTheSame(secret, fields, b.fields);
    case _ =>
  }

  lemma SanitizedObjectsMeanTheSame(secret: string -> bool, a: seq<Pair<Json>>, b: seq<Pair<Json>>)
    requires DistinctKeys(a) && DistinctKeys(b) && MeaningOf(Obj(a)) == MeaningOf(Obj(b))
    requires forall key :: key in ToMap(a) && !ToMap(a)[key].Undefined? ==> key in ToMap(b)
    requires forall key :: key in ToMap(a) && !ToMap(a)[key].Undefined? ==>
                             MeaningOf(Sanitize(secret, ToMap(a)[key])) == MeaningOf(Sanitize(secret, ToMap(b)[key]))
    ensures MeaningOf(Sanitize(secret, Obj(a))) == MeaningOf(Sanitize(secret, Obj(b)))
  {
    hide ToMap, DistinctKeys, MeaningOf, Sanitize;
    var x, y := MeaningOf(Sanitize(secret, Obj(a))), MeaningOf(Sanitize(secret, Obj(b)));
    SanitizedMeaningAt(secret, a, "");
    SanitizedMeaningAt(secret, b, "");
    forall key ensures SameAt(x.fields, y.fields, key) {
      SanitizedMeaningAt(secret, a, key);
      SanitizedMeaningAt(secret, b, key);
      MeaningOfObject(a, key);
      MeaningOfObject(b, key);
    }
    SameMaps(x.fields, y.fields);
  }

  lemma {:induction false} SanitizeKeepsForm(secret: string -> bool, v: Json)
    ensures WellFormed(v) ==> WellFormed(Sanitize(secret, v))
    ensures Canonical(v) ==> Canonical(Sanitize(secret, v))
  {
    match v
    case Arr(items) =>
      forall i | 0 <= i < |items|
        ensures WellFormed(items[i]) ==> WellFormed(Sanitize(secret, items[i]))
        ensures Canonical(items[i]) ==> Canonical(Sanitize(secret, items[i]))
      {
        SanitizeKeepsForm(secret, items[i]);
      }
      SanitizeOfItems(secret, items);
    case Obj(fields) =>
      forall i | 0 <= i < |fields|
        ensures WellFormed(fields[i].value) ==> WellFormed(Sanitize(secret, fields[i].value))
        ensures Canonical(fields[i].value) ==> Canonical(Sanitize(secret, fields[i].value))
      {
        SanitizeKeepsForm(secret, fields[i].value);
      }
      if WellFormed(v) { SanitizedObjectIsWellFormed(secret, fields); }
      if Canonical(v) { SanitizedObjectIsCanonical(secret, fields); }
    case _ =>
  }

  /** Every field of a sanitized object is a shown field, with its sanitized value. */
  lemma SanitizedField(secret: string -> bool, fields: seq<Pair<Json>>, j: nat) returns (i: nat)
    requires Sanitize(secret, Obj(fields)).Obj? && j < |Sanitize(secret, Obj(fields)).fields|
    ensures i < |fields| && Sanitize(secret, Obj(fields)).fields[j].value == Sanitize(secret, fields[i].value)
    ensures Shown(secret)(Sanitize(secret, Obj(fields)).fields[j])
  {
    hide Sanitize, SanitizeAll, Shown;
    var all := SanitizeAll(secret, fields);
    SanitizeObject(secret, fields);
    SanitizedFields(secret, fields);
    FilteredEntries(all, Shown(secret));
    i :| 0 <= i < |all| && all[i] == Filter(all, Shown(secret))[j];
  }

  lemma SanitizedObjectIsWellFormed(secret: string -> bool, fields: seq<Pair<Json>>)
    requires DistinctKeys(fields) && forall i :: 0 <= i < |fields| ==> WellFormed(Sanitize(secret, fields[i].value))
    ensures WellFormed(Sanitize(secret, Obj(fields)))
  {
    hide Sanitize, DistinctKeys, ToMap, Shown;
    SanitizedObject(secret, fields);
    var r := Sanitize(secret, Obj(fields)).fields;
    forall j | 0 <= j < |r| ensures WellFormed(r[j].value) { var i := SanitizedField(secret, fields, j); }
  }

  lemma SanitizedObjectIsCanonical(secret: string -> bool, fields: seq<Pair<Json>>)
    requires Ascending(fields) && forall i :: 0 <= i < |fields| ==> Canonical(Sanitize(secret, fields[i].value))
    ensures Canonical(Sanitize(secret, Obj(fields)))
  {
    hide Sanitize, DistinctKeys, ToMap, Ascending;
    AscendingIsDistinct(fields);
    SanitizedObject(secret, fields);
    var r := Sanitize(secret, Obj(fields)).fields;
    forall j | 0 <= j < |r| ensures IsDefined(r[j]) && Canonical(r[j].value) { var i := SanitizedField(secret, fields, j); }
  }

  /** Sanitizing and canonicalizing commute. */
  lemma SanitizeCommutes(secret: string -> bool, v: Json)
    requires WellFormed(v)
    ensures Canon(Sanitize(secret, v)) == Sanitize(secret, Canon(v))
  {
    CanonIsCanonical(v);
    CanonicalIsWellFormed(Canon(v));
    SanitizeKeepsForm(secret, v);
    SanitizeKeepsForm(secret, Canon(v));
    CanonMeansTheSame(v);
    SanitizeRespectsMeaning(secret, v, Canon(v));
    CanonMeansTheSame(Sanitize(secret, v));
    CanonIsCanonical(Sanitize(secret, v));
    CanonicalIsUnique(Canon(Sanitize(secret, v)), Sanitize(secret, Canon(v)));
  }

  // ---- the content of a corpus

  function Stable(key: string): Pair<Json> -> bool {
    (p: Pair<Json>) => p.key != "buildReport" && !(key == "metadata" && (p.key == "casesSource" || p.key == "generatedAt"))
  }

  function StableAll(fields: seq<Pair<Json>>): seq<Pair<Json>>
    decreases fields, 0
  {
    seq(|fields|, i requires 0 <= i < |fields| => Pair(fields[i].key, StableContent(fields[i].value, fields[i].key)))
  }

  /** `toStableCorpusContent`: without build reports, and without two fields of each "metadata" object. */
  function StableContent(v: Json, parentKey: string): Json
    decreases v, 1
  {
    match v
    case Arr(items) => Arr(seq(|items|, i requires 0 <= i < |items| => StableContent(items[i], parentKey)))
    case Obj(fields) => Obj(Filter(StableAll(fields), Stable(parentKey)))
    case _ => v
  }

  /** What a corpus holds under the left-out names does not show: with or without the field, the content is the same. */
  lemma LeftOutFieldsDoNotShow(before: seq<Pair<Json>>, p: Pair<Json>, after: seq<Pair<Json>>, parentKey: string)
    requires p.key == "buildReport" || (parentKey == "metadata" && (p.key == "casesSource" || p.key == "generatedAt"))
    ensures StableContent(Obj(before + [p] + after), parentKey) == StableContent(Obj(before + after), parentKey)
  {
    hide Filter, StableAll, Stable;
    var keep := Stable(parentKey);
    var q := Pair(p.key, StableContent(p.value, p.key));
    StableAllOf(before, p, after);
    FilterDrops(StableAll(before), q, StableAll(after), keep) by { NotStable(q, parentKey); }
  }

  lemma NotStable(q: Pair<Json>, parentKey: string)
    requires q.key == "buildReport" || (parentKey == "metadata" && (q.key == "casesSource" || q.key == "generatedAt"))
    ensures !Stable(parentKey)(q)
  {
  }

  lemma StableAllOf(before: seq<Pair<Json>>, p: Pair<Json>, after: seq<Pair<Json>>)
    ensures StableAll(before + [p] + after) == StableAll(before) + [Pair(p.key, StableContent(p.value, p.key))] + StableAll(after)
    ensures StableAll(before + after) == StableAll(before) + StableAll(after)
  {
  }

  /** The fields of a corpus object that count. */
  predicate Counts(parentKey: string, key: string) {
    key != "buildReport" && !(parentKey == "metadata" && (key == "casesSource" || key == "generatedAt"))
  }

  /** Every other field stays, with the content of its value. */
  lemma {:induction false} StableFields(fields: seq<Pair<Json>>, parentKey: string, key: string)
    ensures Find(Filter(StableAll(fields), Stable(parentKey)), key) ==
      if Counts(parentKey, key) then StableContent(Find(fields, key), key) else Undefined
  {
    if fields != [] {
      var q := Pair(fields[0].key, StableContent(fields[0].value, fields[0].key));
      StableFields(fields[1..], parentKey, key);
      assert StableAll(fields) == [q] + StableAll(fields[1..]);
      var kept := Filter(StableAll(fields[1..]), Stable(parentKey));
      FilterCons(q, StableAll(fields[1..]), Stable(parentKey));
      assert ([q] + kept)[1..] == kept && [] + kept == kept;
      assert Stable(parentKey)(q) <==> Counts(parentKey, q.key);
    }
  }

  /** The content of an object has exactly those fields; that of an array, the contents of its items in order. */
  lemma StableMeans(v: Json, parentKey: string, key: string)
    ensures v.Obj? ==>
      && StableContent(v, parentKey).Obj?
      && Get(StableContent(v, parentKey), key) == if Counts(parentKey, key) then StableContent(Get(v, key), key) else Undefined
    ensures v.Arr? ==>
      && StableContent(v, parentKey).Arr? && |StableContent(v, parentKey).items| == |v.items|
      && forall i :: 0 <= i < |v.items| ==> StableContent(v, parentKey).items[i] == StableContent(v.items[i], parentKey)
    ensures !v.Obj? && !v.Arr? ==> StableContent(v, parentKey) == v
  {
    if v.Obj? { StableFields(v.fields, parentKey, key); }
  }
}
