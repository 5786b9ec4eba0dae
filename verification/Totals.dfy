/** Sums of weights over finite sets of keys. */
module Totals {
  ghost function Total<K>(w: map<K, nat>, ks: set<K>): nat
    requires ks <= w.Keys
  {
    if ks == {} then 0 else var k :| k in ks; w[k] + Total(w, ks - {k})
  }

  lemma {:induction false} TotalRemove<K>(w: map<K, nat>, ks: set<K>, k: K)
    requires ks <= w.Keys && k in ks
    ensures Total(w, ks) == w[k] + Total(w, ks - {k})
    decreases |ks|
  {
    var j :| j in ks && Total(w, ks) == w[j] + Total(w, ks - {j});
    if j != k {
      TotalRemove(w, ks - {j}, k);
      TotalRemove(w, ks - {k}, j);
      assert ks - {j} - {k} == ks - {k} - {j};
    }
  }

  lemma {:induction false} TotalSame<K>(w: map<K, nat>, w': map<K, nat>, ks: set<K>)
    requires ks <= w.Keys && ks <= w'.Keys && forall k :: k in ks ==> w[k] == w'[k]
    ensures Total(w, ks) == Total(w', ks)
    decreases |ks|
  {
    if ks != {} {
      var k :| k in ks;
      TotalRemove(w, ks, k);
      TotalRemove(w', ks, k);
      TotalSame(w, w', ks - {k});
    }
  }

  lemma {:induction false} TotalSplit<K>(w: map<K, nat>, a: set<K>, b: set<K>)
    requires a <= w.Keys && b <= w.Keys && a !! b
    ensures Total(w, a + b) == Total(w, a) + Total(w, b)
    decreases |a|
  {
    if a == {} {
      assert a + b == b;
    } else {
      var k :| k in a;
      TotalRemove(w, a, k);
      TotalRemove(w, a + b, k);
      assert a + b - {k} == (a - {k}) + b;
      TotalSplit(w, a - {k}, b);
    }
  }

  lemma TotalMonotone<K>(w: map<K, nat>, a: set<K>, b: set<K>)
    requires a <= b <= w.Keys
    ensures Total(w, a) <= Total(w, b)
  {
    assert b == a + (b - a);
    TotalSplit(w, a, b - a);
  }

  /** At most n keys of weight at most c each. */
  lemma {:induction false} TotalBound<K>(w: map<K, nat>, ks: set<K>, n: nat, c: nat)
    requires ks <= w.Keys && |ks| <= n && forall k :: k in ks ==> w[k] <= c
    ensures Total(w, ks) <= n * c
    decreases n
  {
    if ks == {} {
      assert n * c >= 0;
    } else {
      var k :| k in ks;
      TotalRemove(w, ks, k);
      TotalBound(w, ks - {k}, n - 1, c);
      assert n * c == (n - 1) * c + c;
    }
  }

  /** A part of known weight, one key, and at most n further keys of weight at most c each. */
  lemma TotalOfThree<K>(w: map<K, nat>, a: set<K>, k: K, b: set<K>, n: nat, c: nat)
    requires w.Keys == a + {k} + b && k !in a && k !in b && a !! b
    requires |b| <= n && forall j :: j in b ==> w[j] <= c
    ensures Total(w, w.Keys) <= Total(w, a) + w[k] + n * c
  {
    TotalRemove(w, w.Keys, k);
    assert w.Keys - {k} == a + b;
    TotalSplit(w, a, b);
    TotalBound(w, b, n, c);
  }

  /** Keys that a labelling tells apart are no more than the labels. */
  lemma {:induction false} InjectiveCount<K>(ks: set<K>, labels: set<nat>, f: map<K, nat>)
    requires ks <= f.Keys
    requires forall k :: k in ks ==> f[k] in labels
    requires forall j, k :: j in ks && k in ks && f[j] == f[k] ==> j == k
    ensures |ks| <= |labels|
    decreases |ks|
  {
    if ks != {} {
      var k :| k in ks;
      InjectiveCount(ks - {k}, labels - {f[k]}, f);
    }
  }
}
