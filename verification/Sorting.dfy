/** The ascending order of a list of numbers, whatever algorithm finds it. */
module Sorting {
  ghost predicate Ascending(s: seq<real>) {
    forall i, j :: 0 <= i < j < |s| ==> s[i] <= s[j]
  }

  function Insert(x: real, s: seq<real>): (r: seq<real>)
    ensures |r| == |s| + 1
  {
    if s == [] then [x] else if x <= s[0] then [x] + s else [s[0]] + Insert(x, s[1..])
  }

  /** `sort((left, right) => left - right)`; which sorted list it is does not depend on the algorithm. */
  function Sort(s: seq<real>): (r: seq<real>)
    ensures |r| == |s|
  {
    if s == [] then [] else Insert(s[0], Sort(s[1..]))
  }

  lemma AscendingCons(x: real, s: seq<real>)
    requires Ascending(s) && (s == [] || x <= s[0])
    ensures Ascending([x] + s)
  {
    forall j | 0 <= j < |s| ensures x <= s[j] { if j > 0 { assert s[0] <= s[j]; } }
  }

  lemma {:induction false} InsertAscends(x: real, s: seq<real>)
    requires Ascending(s)
    ensures Ascending(Insert(x, s)) && (Insert(x, s)[0] == x || (|s| > 0 && Insert(x, s)[0] == s[0] < x))
  {
    hide Ascending;
    if s == [] || x <= s[0] {
      AscendingCons(x, s);
      assert [x] + [] == [x];
    } else {
      AscendingTail(s);
      InsertAscends(x, s[1..]);
      AscendingCons(s[0], Insert(x, s[1..]));
    }
  }

  lemma AscendingTail(s: seq<real>)
    requires Ascending(s) && |s| > 0
    ensures Ascending(s[1..]) && (|s| > 1 ==> s[0] <= s[1])
  {
  }

  lemma {:induction false} InsertAdds(x: real, s: seq<real>)
    ensures multiset(Insert(x, s)) == multiset{x} + multiset(s)
  {
    if s != [] {
      assert s == [s[0]] + s[1..];
      InsertAdds(x, s[1..]);
    }
  }

  lemma {:induction false} SortIsSortedPermutation(s: seq<real>)
    ensures Ascending(Sort(s)) && multiset(Sort(s)) == multiset(s)
  {
    hide Ascending, Insert;
    if s == [] {
      EmptyAscends();
    } else {
      SortIsSortedPermutation(s[1..]);
      InsertAscends(s[0], Sort(s[1..]));
      InsertAdds(s[0], Sort(s[1..]));
      assert s == [s[0]] + s[1..];
    }
  }

  lemma EmptyAscends()
    ensures Ascending([])
  {
  }

  lemma LeastIsFirst(s: seq<real>, x: real)
    requires Ascending(s) && x in multiset(s)
    ensures |s| > 0 && s[0] <= x
  {
    assert x in s;
    var i :| 0 <= i < |s| && s[i] == x;
    if i > 0 { assert s[0] <= s[i]; }
  }

  lemma MultisetTail(s: seq<real>)
    requires |s| > 0
    ensures s[0] in multiset(s) && multiset(s[1..]) == multiset(s) - multiset{s[0]}
  {
    assert s == [s[0]] + s[1..];
  }

  lemma SameFirst(a: seq<real>, b: seq<real>)
    requires Ascending(a) && Ascending(b) && multiset(a) == multiset(b) && |a| > 0 && |b| > 0
    ensures a[0] == b[0]
  {
    hide Ascending;
    MultisetTail(a);
    MultisetTail(b);
    LeastIsFirst(a, b[0]);
    LeastIsFirst(b, a[0]);
  }

  /** Two ascending lists of the same numbers are equal. */
  lemma {:induction false} AscendingIsUnique(a: seq<real>, b: seq<real>)
    requires Ascending(a) && Ascending(b) && multiset(a) == multiset(b)
    ensures a == b
    decreases |a|
  {
    hide Ascending;
    assert |a| == |multiset(a)| == |multiset(b)| == |b|;
    if |a| > 0 {
      SameFirst(a, b);
      assert multiset(a[1..]) == multiset(b[1..]) by {
        MultisetTail(a);
        MultisetTail(b);
      }
      AscendingTail(a);
      AscendingTail(b);
      AscendingIsUnique(a[1..], b[1..]);
      assert a == [a[0]] + a[1..] && b == [b[0]] + b[1..];
    }
  }

  /** Every entry of the sorted list is one of the list. */
  lemma SortedEntry(s: seq<real>, i: nat)
    requires i < |s|
    ensures Sort(s)[i] in s
  {
    hide Sort, Ascending;
    SortIsSortedPermutation(s);
    assert Sort(s)[i] in multiset(Sort(s));
  }

  function Negated(s: seq<real>): (r: seq<real>)
    ensures |r| == |s|
  {
    seq(|s|, i requires 0 <= i < |s| => -s[i])
  }

  function Mirrored(s: seq<real>): (r: seq<real>)
    ensures |r| == |s|
  {
    seq(|s|, i requires 0 <= i < |s| => -s[|s| - 1 - i])
  }

  ghost function Count(s: seq<real>, x: real): nat {
    multiset(s)[x]
  }

  lemma CountOfCons(y: real, s: seq<real>, x: real)
    ensures Count([y] + s, x) == Count(s, x) + (if x == y then 1 else 0)
    ensures Count(s + [y], x) == Count(s, x) + (if x == y then 1 else 0)
  {
  }

  lemma NegatedCons(y: real, t: seq<real>)
    ensures Negated([y] + t) == [-y] + Negated(t) && Mirrored([y] + t) == Mirrored(t) + [-y]
  {
  }

  lemma MirroredAscends(s: seq<real>)
    requires Ascending(s)
    ensures Ascending(Mirrored(s))
  {
    var r := Mirrored(s);
    forall i, j | 0 <= i < j < |r| ensures r[i] <= r[j] { assert s[|s| - 1 - j] <= s[|s| - 1 - i]; }
  }

  lemma {:induction false} NegatedCounts(s: seq<real>, x: real)
    ensures Count(Negated(s), x) == Count(s, -x) == Count(Mirrored(s), x)
  {
    hide Negated, Mirrored, Count;
    if s == [] {
      assert Negated(s) == [] && Mirrored(s) == [];
      NothingCounts(x);
      NothingCounts(-x);
    } else {
      var y, t := s[0], s[1..];
      NegatedCounts(t, x);
      assert s == [y] + t;
      NegatedCons(y, t);
      CountOfCons(-y, Negated(t), x);
      CountOfCons(-y, Mirrored(t), x);
      CountOfCons(y, t, -x);
    }
  }

  lemma NothingCounts(x: real)
    ensures Count([], x) == 0
  {
  }

  /** Sorting negated numbers mirrors the sorted numbers. */
  lemma SortOfNegated(s: seq<real>)
    ensures Sort(Negated(s)) == Mirrored(Sort(s))
  {
    hide Sort, Negated, Mirrored, Ascending;
    SortIsSortedPermutation(s);
    SortIsSortedPermutation(Negated(s));
    forall x: real ensures multiset(Negated(s))[x] == multiset(Mirrored(Sort(s)))[x] {
      NegatedCounts(s, x);
      NegatedCounts(Sort(s), x);
    }
    assert multiset(Sort(Negated(s))) == multiset(Mirrored(Sort(s)));
    MirroredAscends(Sort(s));
    AscendingIsUnique(Sort(Negated(s)), Mirrored(Sort(s)));
  }

  lemma MirroredAt(s: seq<real>, i: nat)
    requires i < |s|
    ensures Mirrored(s)[i] == -s[|s| - 1 - i]
  {
  }

  lemma MirroredRank(s: seq<real>, i: nat)
    requires i < |s|
    ensures Sort(Negated(s))[i] == -Sort(s)[|s| - 1 - i]
  {
    hide Sort, Negated, Mirrored;
    SortOfNegated(s);
    MirroredAt(Sort(s), i);
  }
}
