/**
 The tree that JSON.stringify writes: it has no word for undefined, so an undefined item of an array becomes null. (An
 undefined field is left out, which canonical trees have done already.)
 */
module CanonicalText {
  import opened KeyedLists
  import opened CanonicalJson

  function WrittenAll(fields: seq<Pair<Json>>): seq<Pair<Json>>
    decreases fields, 0
  {
    seq(|fields|, i requires 0 <= i < |fields| => Pair(fields[i].key, Written(fields[i].value)))
  }

  function Written(v: Json): Json
    decreases v, 1
  {
    match v
    case Arr(items) => Arr(seq(|items|, i requires 0 <= i < |items| => if items[i].Undefined? then Null else Written(items[i])))
    case Obj(fields) => Obj(WrittenAll(fields))
    case _ => v
  }

  lemma WrittenOfItems(items: seq<Json>)
    ensures Written(Arr(items)).Arr? && |Written(Arr(items)).items| == |items|
    ensures forall i :: 0 <= i < |items| ==>
      Written(Arr(items)).items[i] == if items[i].Undefined? then Null else Written(items[i])
  {
  }

  lemma WrittenImage(fields: seq<Pair<Json>>)
    ensures Written(Obj(fields)) == Obj(WrittenAll(fields))
    ensures Image(fields, WrittenAll(fields), Written)
    ensures ToMap(WrittenAll(fields)) == MapMap(ToMap(fields), Written)
    ensures DistinctKeys(fields) <==> DistinctKeys(WrittenAll(fields))
    ensures Ascending(fields) <==> Ascending(WrittenAll(fields))
  {
    ToMapOfImage(fields, WrittenAll(fields), Written);
    ImageKeys(fields, WrittenAll(fields), Written);
  }

  lemma WrittenKeepsDefined(v: Json)
    ensures Written(v).Undefined? <==> v.Undefined?
  {
  }

  lemma {:induction false} WrittenIsWellFormed(v: Json)
    requires WellFormed(v)
    ensures WellFormed(Written(v))
  {
    match v
    case Arr(items) =>
      forall i | 0 <= i < |items| ensures WellFormed(Written(items[i])) { WrittenIsWellFormed(items[i]); }
      WrittenOfItems(items);
    case Obj(fields) =>
      forall i | 0 <= i < |fields| ensures WellFormed(Written(fields[i].value)) { WrittenIsWellFormed(fields[i].value); }
      WrittenImage(fields);
    case _ =>
  }

  /** Writing a canonical tree gives the canonical form of what is written. */
  lemma {:induction false} WrittenCommutes(v: Json)
    requires WellFormed(v)
    ensures Written(Canon(v)) == Canon(Written(v))
  {
    match v
    case Arr(items) =>
      forall i | 0 <= i < |items| ensures Written(Canon(items[i])) == Canon(Written(items[i])) { WrittenCommutes(items[i]); }
      ItemsCommute(items);
    case Obj(fields) =>
      forall i | 0 <= i < |fields| ensures Written(Canon(fields[i].value)) == Canon(Written(fields[i].value)) {
        WrittenCommutes(fields[i].value);
      }
      FieldsCommute(fields);
    case _ =>
  }

  lemma ItemsCommute(items: seq<Json>)
    requires forall i :: 0 <= i < |items| ==> Written(Canon(items[i])) == Canon(Written(items[i]))
    ensures Written(Canon(Arr(items))) == Canon(Written(Arr(items)))
  {
    hide Written, Canon;
    CanonOfItems(items);
    WrittenOfItems(items);
    var a, b := Canon(Arr(items)).items, Written(Arr(items)).items;
    WrittenOfItems(a);
    CanonOfItems(b);
    CanonOfNull();
    forall i | 0 <= i < |items| ensures Written(Arr(a)).items[i] == Canon(Arr(b)).items[i] { CanonKeepsDefined(items[i]); }
  }

  lemma CanonOfNull()
    ensures Canon(Null) == Null
  {
  }

  lemma FieldsCommute(fields: seq<Pair<Json>>)
    requires DistinctKeys(fields)
    requires forall i :: 0 <= i < |fields| ==> Written(Canon(fields[i].value)) == Canon(Written(fields[i].value))
    ensures Written(Canon(Obj(fields))) == Canon(Written(Obj(fields)))
  {
    hide Written, Canon, WrittenAll, ToMap, DistinctKeys, Ascending;
    var written := WrittenAll(fields);
    CanonFields(fields);
    WrittenImage(fields);
    CanonFields(written);
    var a, b := WrittenAll(Canon(Obj(fields)).fields), Canon(Obj(written)).fields;
    WrittenImage(Canon(Obj(fields)).fields);
    forall key ensures SameAt(ToMap(a), ToMap(b), key) {
      if key in ToMap(fields) {
        var i := EntryOf(fields, key);
        CanonKeepsDefined(fields[i].value);
        CanonKeepsDefined(Written(fields[i].value));
        WrittenKeepsDefined(fields[i].value);
      }
    }
    SameMaps(ToMap(a), ToMap(b));
    AscendingIsUnique(a, b);
  }

  /** Two trees have one canonical text exactly if what is written of them means the same. */
  lemma SameTextIff(a: Json, b: Json)
    requires WellFormed(a) && WellFormed(b)
    ensures Written(Canon(a)) == Written(Canon(b)) <==> MeaningOf(Written(a)) == MeaningOf(Written(b))
  {
    WrittenCommutes(a);
    WrittenCommutes(b);
    WrittenIsWellFormed(a);
    WrittenIsWellFormed(b);
    NormalForm(Written(a), Written(b));
  }

  /** An undefined and a null item have one text, though not one canonical form. */
  lemma UndefinedItemsReadAsNull()
    ensures Written(Canon(Arr([Undefined]))) == Written(Canon(Arr([Null])))
    ensures Canon(Arr([Undefined])) != Canon(Arr([Null]))
  {
    CanonOfItems([Undefined]);
    CanonOfItems([Null]);
    assert Canon(Arr([Undefined])).items[0] == Undefined && Canon(Arr([Null])).items[0] == Null;
    assert Canon(Arr([Undefined])).items == [Undefined] && Canon(Arr([Null])).items == [Null];
    WrittenOfItems([Undefined]);
    WrittenOfItems([Null]);
    assert Written(Arr([Undefined])).items == [Null] == Written(Arr([Null])).items;
  }

  /** Writing leaves the defined keys of an object. */
  lemma WrittenMeaningKeys(fields: seq<Pair<Json>>, key: string)
    ensures MeaningOf(Written(Obj(fields))).MObj? && MeaningOf(Obj(fields)).MObj?
    ensures key in MeaningOf(Written(Obj(fields))).fields <==> key in MeaningOf(Obj(fields)).fields
  {
    hide Written, MeaningOf, ToMap;
    WrittenImage(fields);
    ObjectMeaning(fields);
    ObjectMeaning(WrittenAll(fields));
    MeaningOfObject(fields, key);
    MeaningOfObject(WrittenAll(fields), key);
    if key in ToMap(fields) { WrittenKeepsDefined(ToMap(fields)[key]); }
  }
}
