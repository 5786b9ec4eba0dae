/** JavaScript string methods the models use: trim, split at a character, join. Strings are sequences of characters. */
module JsText {
  /** The white space JavaScript trims. */
  predicate White(c: char) {
    var n := c as int;
    || 9 <= n <= 13 || n == 32 || n == 160 || n == 5760 || 8192 <= n <= 8202
    || n == 8232 || n == 8233 || n == 8239 || n == 8287 || n == 12288 || n == 65279
  }

  function TrimStart(s: string): string {
    if s != "" && White(s[0]) then TrimStart(s[1..]) else s
  }

  function TrimEnd(s: string): string {
    if s != "" && White(s[|s| - 1]) then TrimEnd(s[..|s| - 1]) else s
  }

  function Trim(s: string): string {
    TrimEnd(TrimStart(s))
  }

  /** No white space to trim. */
  ghost predicate Trimmed(s: string) {
    s == "" || (!White(s[0]) && !White(s[|s| - 1]))
  }

  lemma {:induction false} TrimIsTrimmed(s: string)
    ensures Trimmed(Trim(s))
    ensures Trimmed(s) <==> Trim(s) == s
  {
    TrimEndOf(TrimStart(s));
    TrimStartOf(s);
  }

  lemma {:induction false} TrimStartOf(s: string)
    ensures var r := TrimStart(s); |r| <= |s| && (r != "" ==> !White(r[0])) && (r == s <==> s == "" || !White(s[0]))
  {
    if s != "" && White(s[0]) { TrimStartOf(s[1..]); }
  }

  lemma {:induction false} TrimEndOf(s: string)
    ensures var r := TrimEnd(s);
      && |r| <= |s| && r == s[..|r|] && (r != "" ==> !White(r[|r| - 1]))
      && (r == s <==> s == "" || !White(s[|s| - 1]))
  {
    if s != "" && White(s[|s| - 1]) { TrimEndOf(s[..|s| - 1]); }
  }

  /** Trimming loses white space only. */
  lemma {:induction false} TrimKeeps(s: string, c: char)
    requires c in s && !White(c)
    ensures c in Trim(s)
  {
    TrimStartKeeps(s, c);
    TrimEndKeeps(TrimStart(s), c);
  }

  lemma {:induction false} TrimStartKeeps(s: string, c: char)
    requires c in s && !White(c)
    ensures c in TrimStart(s)
  {
    if White(s[0]) {
      assert s == [s[0]] + s[1..];
      TrimStartKeeps(s[1..], c);
    }
  }

  lemma {:induction false} TrimEndKeeps(s: string, c: char)
    requires c in s && !White(c)
    ensures c in TrimEnd(s)
  {
    if White(s[|s| - 1]) {
      assert s == s[..|s| - 1] + [s[|s| - 1]];
      TrimEndKeeps(s[..|s| - 1], c);
    }
  }

  /** `replace(/\s+/g, " ")`: a run of white space becomes one space. */
  function Collapse(s: string): string {
    if s == "" then ""
    else if !White(s[0]) then [s[0]] + Collapse(s[1..])
    else if |s| > 1 && White(s[1]) then Collapse(s[1..])
    else " " + Collapse(s[1..])
  }

  /** Without white space there is nothing to collapse or trim. */
  lemma {:induction false} CollapseOfDense(s: string)
    requires forall i :: 0 <= i < |s| ==> !White(s[i])
    ensures Collapse(s) == s && Trim(s) == s
  {
    if s != "" { CollapseOfDense(s[1..]); }
    TrimIsTrimmed(s);
  }

  /** `split(c)`. */
  function Split(s: string, c: char): (ls: seq<string>)
    ensures |ls| >= 1
  {
    if s == "" then [""]
    else
      var rest := Split(s[1..], c);
      if s[0] == c then [""] + rest else [[s[0]] + rest[0]] + rest[1..]
  }

  /** `join(c)`. */
  function Join(ls: seq<string>, c: char): string
    decreases |ls|
  {
    if ls == [] then "" else if |ls| == 1 then ls[0] else ls[0] + [c] + Join(ls[1..], c)
  }

  lemma JoinCons(first: string, rest: seq<string>, c: char)
    ensures Join([first] + rest, c) == first + (if rest == [] then "" else [c] + Join(rest, c))
  {
    assert ([first] + rest)[1..] == rest;
    if rest != [] { assert first + [c] + Join(rest, c) == first + ([c] + Join(rest, c)); }
  }

  lemma JoinPrepends(x: char, first: string, rest: seq<string>, c: char)
    ensures Join([[x] + first] + rest, c) == [x] + Join([first] + rest, c)
  {
    hide Join;
    JoinCons(first, rest, c);
    JoinCons([x] + first, rest, c);
    var tail := if rest == [] then "" else [c] + Join(rest, c);
    assert ([x] + first) + tail == [x] + (first + tail);
  }

  lemma {:induction false} JoinOfSplit(s: string, c: char)
    ensures Join(Split(s, c), c) == s
  {
    if s != "" {
      JoinOfSplit(s[1..], c);
      var rest := Split(s[1..], c);
      assert [s[0]] + s[1..] == s;
      if s[0] == c {
        JoinCons("", rest, c);
        assert "" + ([c] + Join(rest, c)) == [c] + Join(rest, c);
      } else {
        JoinPrepends(s[0], rest[0], rest[1..], c);
        assert [rest[0]] + rest[1..] == rest;
      }
    }
  }

  /** The text before the first separator is the first part. */
  lemma {:induction false} SplitOfFirst(first: string, c: char, rest: string)
    requires c !in first
    ensures Split(first + [c] + rest, c) == [first] + Split(rest, c)
    decreases |first|
  {
    var s := first + [c] + rest;
    if first == "" {
      assert s[1..] == rest;
    } else {
      SplitOfFirst(first[1..], c, rest);
      assert s[1..] == first[1..] + [c] + rest;
      assert [first[0]] + first[1..] == first;
    }
  }

  lemma {:induction false} SplitOfOne(s: string, c: char)
    requires c !in s
    ensures Split(s, c) == [s]
  {
    if s != "" {
      SplitOfOne(s[1..], c);
      assert [s[0]] + s[1..] == s;
    }
  }

  lemma {:induction false} SplitOfJoin(ls: seq<string>, c: char)
    requires ls != [] && forall i :: 0 <= i < |ls| ==> c !in ls[i]
    ensures Split(Join(ls, c), c) == ls
  {
    if |ls| == 1 {
      SplitOfOne(ls[0], c);
    } else {
      SplitOfJoin(ls[1..], c);
      SplitOfFirst(ls[0], c, Join(ls[1..], c));
    }
  }

  /** Two lists of parts, with the last part of one and the first of the other in one. */
  function Glued(a: seq<string>, b: seq<string>): (r: seq<string>)
    requires a != [] && b != []
    ensures |r| == |a| + |b| - 1
  {
    a[..|a| - 1] + [a[|a| - 1] + b[0]] + b[1..]
  }

  lemma GluedCons(first: string, a: seq<string>, b: seq<string>)
    requires a != [] && b != []
    ensures Glued([first] + a, b) == [first] + Glued(a, b)
  {
    assert ([first] + a)[..|a|] == [first] + a[..|a| - 1];
  }

  lemma GluedPrepends(x: char, a: seq<string>, b: seq<string>)
    requires a != [] && b != []
    ensures Glued([[x] + a[0]] + a[1..], b) == [[x] + Glued(a, b)[0]] + Glued(a, b)[1..]
  {
    if |a| == 1 {
      assert ([x] + a[0]) + b[0] == [x] + (a[0] + b[0]);
    } else {
      assert [a[0]] + a[1..] == a;
      GluedCons(a[0], a[1..], b);
      GluedCons([x] + a[0], a[1..], b);
    }
  }

  /** Splitting a concatenation glues the parts. */
  lemma {:induction false} SplitOfConcat(s: string, t: string, c: char)
    ensures Split(s + t, c) == Glued(Split(s, c), Split(t, c))
  {
    hide Glued;
    if s == "" {
      assert "" + t == t;
      GluedNothing(Split(t, c));
    } else {
      SplitOfConcat(s[1..], t, c);
      assert (s + t)[1..] == s[1..] + t;
      if s[0] == c { GluedCons("", Split(s[1..], c), Split(t, c)); } else { GluedPrepends(s[0], Split(s[1..], c), Split(t, c)); }
    }
  }

  lemma GluedNothing(b: seq<string>)
    requires b != []
    ensures Glued([""], b) == b
  {
    assert "" + b[0] == b[0];
  }

  /** The last part is empty exactly if the text is, or ends in the separator. */
  lemma {:induction false} LastPart(s: string, c: char)
    ensures var a := Split(s, c); a[|a| - 1] == "" <==> s == "" || s[|s| - 1] == c
  {
    if s != "" { LastPart(s[1..], c); }
  }
}
