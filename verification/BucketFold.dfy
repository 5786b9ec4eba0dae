/** Counting a list of items into totals and into buckets by key, for counters that add up. */
module BucketFold {
  /** `one` is what an item adds, `plus` adds counters, `zero` is where they start. */
  datatype Adder<!S, !E> = Adder(zero: S, plus: (S, S) -> S, one: E -> S)

  ghost predicate Lawful<S(!new), E>(a: Adder<S, E>) {
    && (forall x :: a.plus(x, a.zero) == x)
    && (forall x, y :: a.plus(x, y) == a.plus(y, x))
    && (forall x, y, z :: a.plus(a.plus(x, y), z) == a.plus(x, a.plus(y, z)))
  }

  function Fold<S, E>(a: Adder<S, E>, es: seq<E>): S {
    if es == [] then a.zero else a.plus(Fold(a, es[..|es| - 1]), a.one(es[|es| - 1]))
  }

  lemma {:induction false} FoldConcat<S(!new), E>(a: Adder<S, E>, xs: seq<E>, ys: seq<E>)
    requires Lawful(a)
    ensures Fold(a, xs + ys) == a.plus(Fold(a, xs), Fold(a, ys))
    decreases |ys|
  {
    hide Lawful, Fold;
    if ys == [] {
      assert xs + ys == xs;
      FoldNothing(a);
      AddNothing(a, Fold(a, xs));
    } else {
      var n := |ys| - 1;
      assert ys == ys[..n] + [ys[n]] && xs + ys == xs + ys[..n] + [ys[n]];
      FoldSnoc(a, ys[..n], ys[n]);
      FoldSnoc(a, xs + ys[..n], ys[n]);
      FoldConcat(a, xs, ys[..n]);
      Associates(a, Fold(a, xs), Fold(a, ys[..n]), a.one(ys[n]));
    }
  }

  lemma FoldNothing<S, E>(a: Adder<S, E>)
    ensures Fold(a, []) == a.zero
  {
  }

  lemma FoldSnoc<S, E>(a: Adder<S, E>, es: seq<E>, e: E)
    ensures Fold(a, es + [e]) == a.plus(Fold(a, es), a.one(e))
  {
    assert (es + [e])[..|es|] == es;
  }

  lemma AddNothing<S(!new), E>(a: Adder<S, E>, x: S)
    requires Lawful(a)
    ensures a.plus(x, a.zero) == x && a.plus(a.zero, x) == x
  {
    assert a.plus(a.zero, x) == a.plus(x, a.zero);
  }

  lemma Associates<S(!new), E>(a: Adder<S, E>, x: S, y: S, z: S)
    requires Lawful(a)
    ensures a.plus(a.plus(x, y), z) == a.plus(x, a.plus(y, z))
  {
  }

  lemma WithoutOne<E>(xs: seq<E>, ys: seq<E>, i: nat)
    requires |xs| > 0 && i < |ys| && ys[i] == xs[|xs| - 1] && multiset(xs) == multiset(ys)
    ensures multiset(ys[..i] + ys[i + 1..]) == multiset(xs[..|xs| - 1])
  {
    var x := ys[i];
    assert xs == xs[..|xs| - 1] + [x];
    assert ys == ys[..i] + [x] + ys[i + 1..];
    assert multiset(ys) == multiset(ys[..i]) + multiset{x} + multiset(ys[i + 1..]);
    assert multiset(ys[..i] + ys[i + 1..]) == multiset(ys) - multiset{x};
    assert multiset(xs[..|xs| - 1]) == multiset(xs) - multiset{x};
  }

  lemma FoldWithout<S(!new), E>(a: Adder<S, E>, ys: seq<E>, i: nat)
    requires Lawful(a) && i < |ys|
    ensures Fold(a, ys) == a.plus(Fold(a, ys[..i] + ys[i + 1..]), a.one(ys[i]))
  {
    hide Fold;
    var l, x, r := ys[..i], ys[i], ys[i + 1..];
    assert ys == l + [x] + r;
    FoldConcat(a, l + [x], r);
    FoldConcat(a, l, [x]);
    FoldConcat(a, l, r);
    FoldOne(a, x);
    Exchange(a, Fold(a, l), a.one(x), Fold(a, r));
  }

  /** The order of the items does not matter. */
  lemma {:induction false} FoldPermutation<S(!new), E>(a: Adder<S, E>, xs: seq<E>, ys: seq<E>)
    requires Lawful(a) && multiset(xs) == multiset(ys)
    ensures Fold(a, xs) == Fold(a, ys)
    decreases |xs|
  {
    assert |xs| == |multiset(xs)| == |multiset(ys)| == |ys|;
    if xs != [] {
      var n := |xs| - 1;
      var i := PlaceOf(xs[n], xs, ys);
      WithoutOne(xs, ys, i);
      FoldPermutation(a, xs[..n], ys[..i] + ys[i + 1..]);
      FoldWithout(a, ys, i);
    }
  }

  lemma PlaceOf<E>(x: E, xs: seq<E>, ys: seq<E>) returns (i: nat)
    requires x in xs && multiset(xs) == multiset(ys)
    ensures i < |ys| && ys[i] == x
  {
    assert x in multiset(ys);
    i :| 0 <= i < |ys| && ys[i] == x;
  }

  lemma FoldOne<S(!new), E>(a: Adder<S, E>, x: E)
    requires Lawful(a)
    ensures Fold(a, [x]) == a.one(x)
  {
    assert [x][..0] == [];
    assert a.plus(a.one(x), a.zero) == a.one(x);
  }

  lemma Exchange<S(!new), E>(a: Adder<S, E>, x: S, y: S, z: S)
    requires Lawful(a)
    ensures a.plus(a.plus(x, y), z) == a.plus(a.plus(x, z), y)
  {
    assert a.plus(y, z) == a.plus(z, y);
  }

  // ---- buckets

  /** `filter`. */
  function Keep<E>(es: seq<E>, p: E -> bool): seq<E> {
    if es == [] then [] else Keep(es[..|es| - 1], p) + (if p(es[|es| - 1]) then [es[|es| - 1]] else [])
  }

  function KeyIs<E>(key: E -> string, k: string): E -> bool {
    e => key(e) == k
  }

  /** The items with one key. */
  function Part<E>(es: seq<E>, key: E -> string, k: string): seq<E> {
    Keep(es, KeyIs(key, k))
  }

  /** The bucket of a key, made on first use. */
  function BucketAt<S, E>(a: Adder<S, E>, m: map<string, S>, k: string): S {
    if k in m then m[k] else a.zero
  }

  function Buckets<S, E>(a: Adder<S, E>, es: seq<E>, key: E -> string): map<string, S> {
    if es == [] then map[]
    else
      var m, e := Buckets(a, es[..|es| - 1], key), es[|es| - 1];
      m[key(e) := a.plus(BucketAt(a, m, key(e)), a.one(e))]
  }

  /** A bucket holds the totals of the items with its key, and there is one for each key that occurs. */
  lemma {:induction false} BucketIsPart<S, E>(a: Adder<S, E>, es: seq<E>, key: E -> string, k: string)
    ensures k in Buckets(a, es, key) <==> Part(es, key, k) != []
    ensures BucketAt(a, Buckets(a, es, key), k) == Fold(a, Part(es, key, k))
  {
    if es != [] {
      BucketIsPart(a, es[..|es| - 1], key, k);
      var before, e := Part(es[..|es| - 1], key, k), es[|es| - 1];
      if key(e) == k { assert (before + [e])[..|before|] == before; } else { assert before + [] == before; }
    }
  }

  ghost function SumOver<S, E>(a: Adder<S, E>, m: map<string, S>, ks: set<string>): S
    requires ks <= m.Keys
  {
    if ks == {} then a.zero else var k :| k in ks; a.plus(SumOver(a, m, ks - {k}), m[k])
  }

  ghost function SumOf<S, E>(a: Adder<S, E>, m: map<string, S>): S {
    SumOver(a, m, m.Keys)
  }

  lemma {:induction false} SumRemove<S(!new), E>(a: Adder<S, E>, m: map<string, S>, ks: set<string>, k: string)
    requires Lawful(a) && ks <= m.Keys && k in ks
    ensures SumOver(a, m, ks) == a.plus(SumOver(a, m, ks - {k}), m[k])
    decreases |ks|
  {
    var j :| j in ks && SumOver(a, m, ks) == a.plus(SumOver(a, m, ks - {j}), m[j]);
    if j != k {
      SumRemove(a, m, ks - {j}, k);
      SumRemove(a, m, ks - {k}, j);
      assert ks - {j} - {k} == ks - {k} - {j};
      Exchange(a, SumOver(a, m, ks - {j} - {k}), m[k], m[j]);
    }
  }

  lemma {:induction false} SumSame<S(!new), E>(a: Adder<S, E>, m: map<string, S>, m': map<string, S>, ks: set<string>)
    requires Lawful(a) && ks <= m.Keys && ks <= m'.Keys && forall k :: k in ks ==> m[k] == m'[k]
    ensures SumOver(a, m, ks) == SumOver(a, m', ks)
    decreases |ks|
  {
    if ks != {} {
      var k :| k in ks;
      SumRemove(a, m, ks, k);
      SumRemove(a, m', ks, k);
      SumSame(a, m, m', ks - {k});
    }
  }

  lemma SumUpdate<S(!new), E>(a: Adder<S, E>, m: map<string, S>, k: string, x: S)
    requires Lawful(a)
    ensures SumOf(a, m[k := a.plus(BucketAt(a, m, k), x)]) == a.plus(SumOf(a, m), x)
  {
    hide SumOver;
    var m' := m[k := a.plus(BucketAt(a, m, k), x)];
    SumRemove(a, m', m'.Keys, k);
    SumSame(a, m, m', m.Keys - {k});
    assert m'.Keys - {k} == m.Keys - {k};
    if k in m {
      SumRemove(a, m, m.Keys, k);
    } else {
      assert m.Keys - {k} == m.Keys;
      assert a.plus(a.zero, x) == a.plus(x, a.zero) == x;
    }
  }

  /** Conservation: the buckets add up to the totals. */
  lemma {:induction false} BucketsAddUp<S(!new), E>(a: Adder<S, E>, es: seq<E>, key: E -> string)
    requires Lawful(a)
    ensures SumOf(a, Buckets(a, es, key)) == Fold(a, es)
  {
    if es != [] {
      var m, e := Buckets(a, es[..|es| - 1], key), es[|es| - 1];
      BucketsAddUp(a, es[..|es| - 1], key);
      SumUpdate(a, m, key(e), a.one(e));
    }
  }

  lemma {:induction false} KeepConcat<E>(xs: seq<E>, ys: seq<E>, p: E -> bool)
    ensures Keep(xs + ys, p) == Keep(xs, p) + Keep(ys, p)
    decreases |ys|
  {
    if ys == [] {
      assert xs + ys == xs;
    } else {
      var n := |ys| - 1;
      KeepConcat(xs, ys[..n], p);
      assert (xs + ys)[..|xs + ys| - 1] == xs + ys[..n];
    }
  }

  lemma KeepWithout<E>(ys: seq<E>, p: E -> bool, i: nat)
    requires i < |ys|
    ensures multiset(Keep(ys, p)) == multiset(Keep(ys[..i] + ys[i + 1..], p)) + multiset(Keep([ys[i]], p))
  {
    hide Keep;
    var l, x, r := ys[..i], ys[i], ys[i + 1..];
    assert ys == l + [x] + r;
    KeepConcat(l + [x], r, p);
    KeepConcat(l, [x], p);
    KeepConcat(l, r, p);
  }

  lemma {:induction false} KeepPermutation<E>(xs: seq<E>, ys: seq<E>, p: E -> bool)
    requires multiset(xs) == multiset(ys)
    ensures multiset(Keep(xs, p)) == multiset(Keep(ys, p))
    decreases |xs|
  {
    hide Keep;
    assert |xs| == |multiset(xs)| == |multiset(ys)| == |ys|;
    if xs == [] {
      assert ys == [];
    } else {
      var n := |xs| - 1;
      var i := PlaceOf(xs[n], xs, ys);
      WithoutOne(xs, ys, i);
      KeepPermutation(xs[..n], ys[..i] + ys[i + 1..], p);
      KeepWithout(ys, p, i);
      KeepWithout(xs, p, n);
      assert xs[..n] + xs[n + 1..] == xs[..n];
    }
  }

  /** Nor does it matter for the buckets. */
  lemma BucketsPermutation<S(!new), E>(a: Adder<S, E>, xs: seq<E>, ys: seq<E>, key: E -> string)
    requires Lawful(a) && multiset(xs) == multiset(ys)
    ensures Buckets(a, xs, key) == Buckets(a, ys, key)
  {
    hide Buckets, Fold, Keep;
    var m, m' := Buckets(a, xs, key), Buckets(a, ys, key);
    forall k ensures (k in m <==> k in m') && (k in m ==> m[k] == m'[k]) {
      BucketIsPart(a, xs, key, k);
      BucketIsPart(a, ys, key, k);
      KeepPermutation(xs, ys, KeyIs(key, k));
      FoldPermutation(a, Part(xs, key, k), Part(ys, key, k));
      EmptyPermutation(Part(xs, key, k), Part(ys, key, k));
    }
  }

  lemma EmptyPermutation<E>(xs: seq<E>, ys: seq<E>)
    requires multiset(xs) == multiset(ys)
    ensures xs == [] <==> ys == []
  {
    assert |xs| == |multiset(xs)| == |multiset(ys)| == |ys|;
  }

  /** The buckets of a concatenation are the sums of the buckets of its parts. */
  lemma BucketsOfConcat<S(!new), E>(a: Adder<S, E>, xs: seq<E>, ys: seq<E>, key: E -> string, k: string)
    requires Lawful(a)
    ensures BucketAt(a, Buckets(a, xs + ys, key), k) ==
      a.plus(BucketAt(a, Buckets(a, xs, key), k), BucketAt(a, Buckets(a, ys, key), k))
  {
    BucketIsPart(a, xs + ys, key, k);
    BucketIsPart(a, xs, key, k);
    BucketIsPart(a, ys, key, k);
    KeepConcat(xs, ys, KeyIs(key, k));
    FoldConcat(a, Part(xs, key, k), Part(ys, key, k));
  }
}
