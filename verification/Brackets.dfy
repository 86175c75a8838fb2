/** Well-nested bracket strings: a grammar and a stack machine that decide the same. */
module Brackets {
  import opened Collections

  predicate IsOpener(c: char) {
    c == '(' || c == '[' || c == '{'
  }

  predicate IsCloser(c: char) {
    c == ')' || c == ']' || c == '}'
  }

  function Closer(c: char): char
    requires IsOpener(c)
  {
    if c == '(' then ')' else if c == '[' then ']' else '}'
  }

  /** Empty, or an opener, a nested string, its closer, and another nested string. */
  ghost predicate Nested(t: string) {
    t == "" || exists k :: NestedAt(t, k)
  }

  ghost predicate NestedAt(t: string, k: int) {
    && 1 <= k < |t| && IsOpener(t[0]) && t[k] == Closer(t[0])
    && Nested(t[1..k]) && Nested(t[k + 1..])
  }

  /** The openers left open after reading `t` from `open`, or none after a mismatch. */
  function Reduce(open: string, t: string): Option<string>
    decreases |t|
  {
    if t == "" then Some(open)
    else if IsOpener(t[0]) then Reduce(open + [t[0]], t[1..])
    else if open != "" && IsOpener(open[|open| - 1]) && t[0] == Closer(open[|open| - 1])
    then Reduce(open[..|open| - 1], t[1..])
    else None
  }

  lemma {:induction false} ReduceConcat(open: string, a: string, b: string)
    ensures Reduce(open, a + b) == if Reduce(open, a).Some? then Reduce(Reduce(open, a).value, b) else None
    decreases |a|
  {
    if a == "" {
      assert a + b == b;
    } else {
      assert (a + b)[1..] == a[1..] + b;
      if IsOpener(a[0]) {
        ReduceConcat(open + [a[0]], a[1..], b);
      } else if open != "" {
        ReduceConcat(open[..|open| - 1], a[1..], b);
      }
    }
  }

  lemma {:induction false} NestedReduces(open: string, t: string)
    requires Nested(t)
    ensures Reduce(open, t) == Some(open)
    decreases |t|
  {
    if t != "" {
      var k :| NestedAt(t, k);
      var inner, rest, more := t[1..k], t[k + 1..], open + [t[0]];
      assert t[1..] == inner + ([t[k]] + rest);
      NestedReduces(more, inner);
      ReduceConcat(more, inner, [t[k]] + rest);
      assert more[..|more| - 1] == open && ([t[k]] + rest)[1..] == rest;
      NestedReduces(open, rest);
    }
  }

  lemma MakeNested(t: string, k: nat)
    requires 1 <= k < |t| && IsOpener(t[0]) && t[k] == Closer(t[0]) && Nested(t[1..k]) && Nested(t[k + 1..])
    ensures Nested(t)
  {
    assert NestedAt(t, k);
  }

  /** A nested text behind a closed opener. */
  lemma NestedBehind(t: string, k1: nat, k2: nat)
    requires t != "" && IsOpener(t[0])
    requires k1 < |t[1..]| && Nested(t[1..][..k1]) && t[1..][k1] == Closer(t[0])
    requires k2 <= |t[k1 + 2..]| && Nested(t[k1 + 2..][..k2])
    ensures Nested(t[..k1 + 2 + k2])
  {
    hide Nested;
    var prefix := t[..k1 + 2 + k2];
    assert prefix[1..k1 + 1] == t[1..][..k1];
    assert prefix[k1 + 2..] == t[k1 + 2..][..k2];
    MakeNested(prefix, k1 + 1);
  }

  /** What closes the innermost opener of a string that closes them all. */
  lemma {:induction false} ReducesSplit(open: string, t: string) returns (k: nat)
    requires open != "" && Reduce(open, t) == Some("") && IsOpener(open[|open| - 1])
    ensures k < |t| && Nested(t[..k]) && t[k] == Closer(open[|open| - 1])
    ensures Reduce(open[..|open| - 1], t[k + 1..]) == Some("")
    decreases |t|
  {
    if !IsOpener(t[0]) {
      k := 0;
    } else {
      var more := open + [t[0]];
      assert more[..|more| - 1] == open && more[|more| - 1] == t[0];
      assert Reduce(more, t[1..]) == Some("");
      hide Nested, Reduce;
      var k1 := ReducesSplit(more, t[1..]);
      assert t[1..][k1 + 1..] == t[k1 + 2..];
      var k2 := ReducesSplit(open, t[k1 + 2..]);
      k := k1 + 2 + k2;
      NestedBehind(t, k1, k2);
      assert t[k1 + 2..][k2] == t[k] && t[k + 1..] == t[k1 + 2..][k2 + 1..];
    }
  }

  /** The grammar and the stack machine agree. */
  lemma {:induction false} NestedIffReduces(t: string)
    ensures Nested(t) <==> Reduce("", t) == Some("")
    decreases |t|
  {
    if Nested(t) {
      NestedReduces("", t);
    }
    if Reduce("", t) == Some("") && t != "" {
      assert "" + [t[0]] == [t[0]];
      var k := ReducesSplit([t[0]], t[1..]);
      assert t[1..k + 1] == t[1..][..k];
      assert t[k + 2..] == t[1..][k + 1..];
      assert [t[0]][..0] == "";
      NestedIffReduces(t[k + 2..]);
      assert NestedAt(t, k + 1);
    }
  }
}
