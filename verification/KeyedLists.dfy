/** Lists of keyed values: their maps, and their order by key. */
module KeyedLists {
  datatype Pair<+T> = Pair(key: string, value: T)

  /** The order of `sort()` on texts. */
  predicate Less(a: string, b: string) {
    b != "" && (a == "" || a[0] < b[0] || (a[0] == b[0] && Less(a[1..], b[1..])))
  }

  lemma {:induction false} LessIsTotal(a: string, b: string)
    ensures a == b || Less(a, b) || Less(b, a)
    ensures !(Less(a, b) && Less(b, a)) && (Less(a, b) ==> a != b)
  {
    if a != "" && b != "" {
      LessIsTotal(a[1..], b[1..]);
      assert a == [a[0]] + a[1..] && b == [b[0]] + b[1..];
    }
  }

  lemma {:induction false} LessIsTransitive(a: string, b: string, c: string)
    requires Less(a, b) && Less(b, c)
    ensures Less(a, c)
  {
    if a != "" && a[0] == b[0] && b[0] == c[0] { LessIsTransitive(a[1..], b[1..], c[1..]); }
  }

  function ToMap<T>(ps: seq<Pair<T>>): map<string, T> {
    if ps == [] then map[] else ToMap(ps[1..])[ps[0].key := ps[0].value]
  }

  ghost predicate HasKey<T>(ps: seq<Pair<T>>, key: string) {
    exists i :: 0 <= i < |ps| && ps[i].key == key
  }

  ghost predicate DistinctKeys<T>(ps: seq<Pair<T>>) {
    forall i, j :: 0 <= i < j < |ps| ==> ps[i].key != ps[j].key
  }

  ghost predicate Ascending<T>(ps: seq<Pair<T>>) {
    forall i, j :: 0 <= i < j < |ps| ==> Less(ps[i].key, ps[j].key)
  }

  lemma {:induction false} ToMapKeys<T>(ps: seq<Pair<T>>, key: string)
    ensures key in ToMap(ps) <==> HasKey(ps, key)
  {
    if ps != [] {
      ToMapKeys(ps[1..], key);
      if HasKey(ps, key) {
        var i :| 0 <= i < |ps| && ps[i].key == key;
        if i > 0 { assert ps[1..][i - 1].key == key; }
      }
      if HasKey(ps[1..], key) {
        var i :| 0 <= i < |ps| - 1 && ps[1..][i].key == key;
        assert ps[i + 1].key == key;
      }
    }
  }

  /** Each entry of a list with distinct keys is in its map. */
  lemma {:induction false} ToMapEntry<T>(ps: seq<Pair<T>>, i: nat)
    requires DistinctKeys(ps) && i < |ps|
    ensures ps[i].key in ToMap(ps) && ToMap(ps)[ps[i].key] == ps[i].value
  {
    if i > 0 {
      assert DistinctKeys(ps[1..]);
      ToMapEntry(ps[1..], i - 1);
    }
  }

  function Insert<T>(p: Pair<T>, ps: seq<Pair<T>>): seq<Pair<T>> {
    if ps == [] || Less(p.key, ps[0].key) then [p] + ps else [ps[0]] + Insert(p, ps[1..])
  }

  function Sort<T>(ps: seq<Pair<T>>): seq<Pair<T>> {
    if ps == [] then [] else Insert(ps[0], Sort(ps[1..]))
  }

  lemma AscendingCons<T>(p: Pair<T>, ps: seq<Pair<T>>)
    requires Ascending(ps) && (ps == [] || Less(p.key, ps[0].key))
    ensures Ascending([p] + ps)
  {
    forall j | 0 <= j < |ps| ensures Less(p.key, ps[j].key) {
      if j > 0 { LessIsTransitive(p.key, ps[0].key, ps[j].key); }
    }
  }

  lemma AscendingTail<T>(ps: seq<Pair<T>>)
    requires Ascending(ps) && |ps| > 0
    ensures Ascending(ps[1..]) && (|ps| > 1 ==> Less(ps[0].key, ps[1].key))
  {
  }

  lemma {:induction false} InsertAscends<T>(p: Pair<T>, ps: seq<Pair<T>>)
    requires Ascending(ps) && !HasKey(ps, p.key)
    ensures Ascending(Insert(p, ps))
    ensures Insert(p, ps)[0] == p || (ps != [] && Insert(p, ps)[0] == ps[0])
  {
    hide Ascending, Less;
    if ps == [] || Less(p.key, ps[0].key) {
      AscendingCons(p, ps);
    } else {
      assert ps[0].key != p.key;
      LessIsTotal(p.key, ps[0].key);
      AscendingTail(ps);
      KeyOfTail(ps, p.key);
      InsertAscends(p, ps[1..]);
      AscendingCons(ps[0], Insert(p, ps[1..]));
    }
  }

  lemma KeyOfTail<T>(ps: seq<Pair<T>>, key: string)
    requires |ps| > 0
    ensures HasKey(ps, key) <==> ps[0].key == key || HasKey(ps[1..], key)
  {
    if HasKey(ps, key) && ps[0].key != key {
      var i :| 0 <= i < |ps| && ps[i].key == key;
      assert ps[1..][i - 1].key == key;
    }
    if HasKey(ps[1..], key) {
      var i :| 0 <= i < |ps| - 1 && ps[1..][i].key == key;
      assert ps[i + 1].key == key;
    }
  }

  lemma {:induction false} InsertMap<T>(p: Pair<T>, ps: seq<Pair<T>>)
    requires !HasKey(ps, p.key)
    ensures ToMap(Insert(p, ps)) == ToMap(ps)[p.key := p.value]
    ensures forall key :: HasKey(Insert(p, ps), key) <==> key == p.key || HasKey(ps, key)
  {
    hide Less, HasKey;
    var r := Insert(p, ps);
    if ps == [] || Less(p.key, ps[0].key) {
      assert r[1..] == ps;
    } else {
      KeyOfTail(ps, p.key);
      InsertMap(p, ps[1..]);
      assert r[1..] == Insert(p, ps[1..]);
      forall key { KeyOfTail(ps, key); }
    }
    forall key { KeyOfTail(r, key); }
  }

  lemma DistinctTail<T>(ps: seq<Pair<T>>)
    requires DistinctKeys(ps) && |ps| > 0
    ensures DistinctKeys(ps[1..]) && !HasKey(ps[1..], ps[0].key)
  {
    forall i | 0 <= i < |ps| - 1 ensures ps[1..][i].key != ps[0].key { assert ps[1..][i] == ps[i + 1]; }
  }

  /** Sorting orders the keys and keeps the map. */
  lemma {:induction false} SortOrders<T>(ps: seq<Pair<T>>)
    requires DistinctKeys(ps)
    ensures Ascending(Sort(ps)) && ToMap(Sort(ps)) == ToMap(ps)
    ensures forall key :: HasKey(Sort(ps), key) <==> HasKey(ps, key)
  {
    hide Ascending, HasKey, DistinctKeys, Insert;
    if ps == [] {
      EmptyAscends<T>();
    } else {
      DistinctTail(ps);
      SortOrders(ps[1..]);
      InsertAscends(ps[0], Sort(ps[1..]));
      InsertMap(ps[0], Sort(ps[1..]));
      forall key { KeyOfTail(ps, key); }
    }
  }

  lemma EmptyAscends<T>()
    ensures Ascending<T>([]) && forall key :: !HasKey<T>([], key)
  {
  }

  /** An ordered list is its own sorting. */
  lemma {:induction false} SortOfAscending<T>(ps: seq<Pair<T>>)
    requires Ascending(ps)
    ensures Sort(ps) == ps
  {
    hide Ascending, Less;
    if ps != [] {
      AscendingTail(ps);
      SortOfAscending(ps[1..]);
      assert ps == [ps[0]] + ps[1..];
    }
  }

  /** The first key of an ordered list is the least of its map. */
  lemma FirstIsLeast<T>(ps: seq<Pair<T>>, key: string)
    requires Ascending(ps) && key in ToMap(ps)
    ensures |ps| > 0 && (key == ps[0].key || Less(ps[0].key, key))
  {
    ToMapKeys(ps, key);
    var i :| 0 <= i < |ps| && ps[i].key == key;
    assert i > 0 ==> Less(ps[0].key, ps[i].key);
  }

  lemma AscendingIsDistinct<T>(ps: seq<Pair<T>>)
    requires Ascending(ps)
    ensures DistinctKeys(ps)
  {
    forall i, j | 0 <= i < j < |ps| ensures ps[i].key != ps[j].key { LessIsTotal(ps[i].key, ps[j].key); }
  }

  /** Two ordered lists with the same map are equal. */
  lemma {:induction false} AscendingIsUnique<T>(a: seq<Pair<T>>, b: seq<Pair<T>>)
    requires Ascending(a) && Ascending(b) && ToMap(a) == ToMap(b)
    ensures a == b
    decreases |a|
  {
    hide Ascending, Less, HasKey, DistinctKeys;
    EmptyMap(a);
    EmptyMap(b);
    if a != [] {
      FirstIsLeast(a, b[0].key);
      FirstIsLeast(b, a[0].key);
      LessIsTotal(a[0].key, b[0].key);
      AscendingTail(a);
      AscendingTail(b);
      TailMap(a);
      TailMap(b);
      AscendingIsUnique(a[1..], b[1..]);
      assert a == [a[0]] + a[1..] && b == [b[0]] + b[1..];
    }
  }

  lemma EmptyMap<T>(ps: seq<Pair<T>>)
    ensures ToMap(ps) == map[] <==> ps == []
  {
    if ps != [] { assert ps[0].key in ToMap(ps); }
  }

  lemma TailMap<T>(ps: seq<Pair<T>>)
    requires Ascending(ps) && |ps| > 0
    ensures ToMap(ps[1..]) == ToMap(ps) - {ps[0].key} && ToMap(ps)[ps[0].key] == ps[0].value
  {
    hide Ascending, HasKey, DistinctKeys;
    AscendingIsDistinct(ps);
    DistinctTail(ps);
    ToMapKeys(ps[1..], ps[0].key);
  }

  // ---- filtering and mapping the values

  function Filter<T>(ps: seq<Pair<T>>, keep: Pair<T> -> bool): seq<Pair<T>> {
    if ps == [] then [] else (if keep(ps[0]) then [ps[0]] else []) + Filter(ps[1..], keep)
  }

  function FilterMap<T>(m: map<string, T>, keep: Pair<T> -> bool): map<string, T> {
    map k | k in m && keep(Pair(k, m[k])) :: m[k]
  }

  function MapMap<T, U>(m: map<string, T>, f: T -> U): map<string, U> {
    map k | k in m :: f(m[k])
  }

  /** The entries of b are those of a with f of their values. */
  ghost predicate Image<T, U>(a: seq<Pair<T>>, b: seq<Pair<U>>, f: T -> U) {
    |a| == |b| && forall i :: 0 <= i < |a| ==> b[i] == Pair(a[i].key, f(a[i].value))
  }

  lemma {:induction false} ToMapOfImage<T, U>(a: seq<Pair<T>>, b: seq<Pair<U>>, f: T -> U)
    requires Image(a, b, f)
    ensures ToMap(b) == MapMap(ToMap(a), f)
  {
    if a != [] { ToMapOfImage(a[1..], b[1..], f); }
  }

  lemma ImageKeys<T, U>(a: seq<Pair<T>>, b: seq<Pair<U>>, f: T -> U)
    requires Image(a, b, f)
    ensures DistinctKeys(a) <==> DistinctKeys(b)
    ensures Ascending(a) <==> Ascending(b)
  {
    assert forall i :: 0 <= i < |a| ==> a[i].key == b[i].key;
  }

  lemma {:induction false} FilteredEntries<T>(ps: seq<Pair<T>>, keep: Pair<T> -> bool)
    ensures forall i :: 0 <= i < |Filter(ps, keep)| ==> keep(Filter(ps, keep)[i]) && Filter(ps, keep)[i] in ps
    ensures forall key :: HasKey(Filter(ps, keep), key) ==> HasKey(ps, key)
  {
    if ps != [] {
      FilteredEntries(ps[1..], keep);
      assert ps == [ps[0]] + ps[1..];
      var r := Filter(ps, keep);
      forall key | HasKey(r, key) ensures HasKey(ps, key) {
        var i :| 0 <= i < |r| && r[i].key == key;
        var j :| 0 <= j < |ps| && ps[j] == r[i];
        assert ps[j].key == key;
      }
    }
  }

  lemma {:induction false} ToMapOfFilter<T>(ps: seq<Pair<T>>, keep: Pair<T> -> bool)
    requires DistinctKeys(ps)
    ensures ToMap(Filter(ps, keep)) == FilterMap(ToMap(ps), keep)
  {
    hide HasKey, DistinctKeys;
    if ps != [] {
      DistinctTail(ps);
      ToMapOfFilter(ps[1..], keep);
      var rest := Filter(ps[1..], keep);
      ToMapKeys(ps[1..], ps[0].key);
      assert Filter(ps, keep) == (if keep(ps[0]) then [ps[0]] + rest else rest);
      if keep(ps[0]) { assert ([ps[0]] + rest)[1..] == rest; }
      assert ps[0] == Pair(ps[0].key, ps[0].value);
    }
  }

  lemma {:induction false} FilterDistinct<T>(ps: seq<Pair<T>>, keep: Pair<T> -> bool)
    requires DistinctKeys(ps)
    ensures DistinctKeys(Filter(ps, keep))
  {
    if ps != [] {
      DistinctTail(ps);
      FilterDistinct(ps[1..], keep);
      FilteredEntries(ps[1..], keep);
      var rest := Filter(ps[1..], keep);
      forall j | 0 <= j < |rest| ensures rest[j].key != ps[0].key {
        assert HasKey(rest, rest[j].key);
      }
      assert Filter(ps, keep) == (if keep(ps[0]) then [ps[0]] + rest else rest);
    }
  }

  lemma {:induction false} FilterAscends<T>(ps: seq<Pair<T>>, keep: Pair<T> -> bool)
    requires Ascending(ps)
    ensures Ascending(Filter(ps, keep))
    ensures Filter(ps, keep) == [] || ps[0].key == Filter(ps, keep)[0].key || Less(ps[0].key, Filter(ps, keep)[0].key)
  {
    hide Ascending, Less;
    if ps == [] {
      EmptyAscends<T>();
    } else {
      AscendingTail(ps);
      FilterAscends(ps[1..], keep);
      var rest := Filter(ps[1..], keep);
      if rest != [] && ps[1].key != rest[0].key { LessIsTransitive(ps[0].key, ps[1].key, rest[0].key); }
      if keep(ps[0]) { AscendingCons(ps[0], rest); }
      assert Filter(ps, keep) == (if keep(ps[0]) then [ps[0]] + rest else rest);
    }
  }

  lemma {:induction false} FilterOfKept<T>(ps: seq<Pair<T>>, keep: Pair<T> -> bool)
    requires forall i :: 0 <= i < |ps| ==> keep(ps[i])
    ensures Filter(ps, keep) == ps
  {
    if ps != [] {
      FilterOfKept(ps[1..], keep);
      assert ps == [ps[0]] + ps[1..];
    }
  }

  lemma FilterCons<T>(p: Pair<T>, ps: seq<Pair<T>>, keep: Pair<T> -> bool)
    ensures Filter([p] + ps, keep) == (if keep(p) then [p] else []) + Filter(ps, keep)
  {
    assert ([p] + ps)[1..] == ps;
  }

  lemma {:induction false} FilterConcat<T>(a: seq<Pair<T>>, b: seq<Pair<T>>, keep: Pair<T> -> bool)
    ensures Filter(a + b, keep) == Filter(a, keep) + Filter(b, keep)
  {
    if a == [] {
      assert a + b == b;
    } else {
      hide Filter;
      var p, rest := a[0], a[1..];
      FilterConcat(rest, b, keep);
      assert [p] + rest == a && [p] + (rest + b) == a + b;
      FilterCons(p, rest, keep);
      FilterCons(p, rest + b, keep);
    }
  }

  lemma FilterDrops<T>(a: seq<Pair<T>>, p: Pair<T>, b: seq<Pair<T>>, keep: Pair<T> -> bool)
    requires !keep(p)
    ensures Filter(a + [p] + b, keep) == Filter(a + b, keep)
  {
    hide Filter;
    FilterConcat(a, [p] + b, keep);
    FilterCons(p, b, keep);
    FilterConcat(a, b, keep);
    assert a + [p] + b == a + ([p] + b);
  }
}
