/** What may follow a declaration on its last line: `_end_line` told from the characters. */
module EndLines {
  import opened Collections
  import opened Strings
  import opened LineLexer

  /** Python's `strip` at the left, and from both ends. */
  function LStrip(text: string): string {
    if text != "" && IsSpace(text[0]) then LStrip(text[1..]) else text
  }

  function RStrip(text: string): string {
    if text != "" && IsSpace(text[|text| - 1]) then RStrip(text[..|text| - 1]) else text
  }

  function LStripSemicolons(text: string): string {
    if text != "" && text[0] == ';' then LStripSemicolons(text[1..]) else text
  }

  /** `_end_line`: a last line on which more code follows does not belong to the
      declaration. */
  function EndLineOf(lines: seq<string>, start: nat, index: nat, after: nat): (end: Option<nat>)
    requires start <= index < |lines| && after <= |lines[index]|
    ensures end.Some? ==> start <= end.value <= index
  {
    var rest := LStrip(LStripSemicolons(LStrip(RStrip(lines[index][after..]))));
    if rest != "" && !("//" <= rest) then
      if index > start then Some(index - 1) else None
    else Some(index)
  }

  // ----- the parts of the rest of a line

  predicate Spaces(text: string, from: nat, to: nat)
    requires from <= to <= |text|
  {
    forall k :: from <= k < to ==> IsSpace(text[k])
  }

  predicate Semicolons(text: string, from: nat, to: nat)
    requires from <= to <= |text|
  {
    forall k :: from <= k < to ==> text[k] == ';'
  }

  predicate CommentAt(text: string, c: nat) {
    c + 1 < |text| && text[c] == '/' && text[c + 1] == '/'
  }

  /** Spaces, semicolons and spaces, and then nothing or a line comment. */
  ghost predicate Ends(text: string, a: nat, b: nat, c: nat) {
    && a <= b <= c <= |text|
    && Spaces(text, 0, a) && Semicolons(text, a, b) && Spaces(text, b, c)
    && (c == |text| || CommentAt(text, c))
  }

  ghost predicate NothingFollows(text: string) {
    exists a, b, c :: Ends(text, a, b, c)
  }

  lemma {:induction false} LStripIs(text: string) returns (k: nat)
    ensures k <= |text| && Spaces(text, 0, k) && LStrip(text) == text[k..]
    ensures k < |text| ==> !IsSpace(text[k])
  {
    k := 0;
    if text != "" && IsSpace(text[0]) {
      var n := LStripIs(text[1..]);
      k := n + 1;
      assert text[1..][n..] == text[k..];
      assert forall i :: 0 < i < k ==> text[i] == text[1..][i - 1];
    }
  }

  lemma {:induction false} RStripIs(text: string) returns (m: nat)
    ensures m <= |text| && Spaces(text, m, |text|) && RStrip(text) == text[..m]
    ensures m > 0 ==> !IsSpace(text[m - 1])
  {
    m := |text|;
    if text != "" && IsSpace(text[|text| - 1]) {
      m := RStripIs(text[..|text| - 1]);
      assert text[..|text| - 1][..m] == text[..m];
      assert forall i :: m <= i < |text| - 1 ==> text[i] == text[..|text| - 1][i];
    } else {
      assert text[..m] == text;
    }
  }

  lemma {:induction false} LStripSemicolonsIs(text: string) returns (k: nat)
    ensures k <= |text| && Semicolons(text, 0, k) && LStripSemicolons(text) == text[k..]
    ensures k < |text| ==> text[k] != ';'
  {
    k := 0;
    if text != "" && text[0] == ';' {
      var n := LStripSemicolonsIs(text[1..]);
      k := n + 1;
      assert text[1..][n..] == text[k..];
      assert forall i :: 0 < i < k ==> text[i] == text[1..][i - 1];
    }
  }

  /** What `strip` and `lstrip` cut off: up to `a`, `b` and `c` at the left, from `m` on at the right. */
  ghost predicate Cuts(text: string, a: nat, b: nat, c: nat, m: nat) {
    && a <= b <= c <= m <= |text|
    && Spaces(text, 0, a) && Semicolons(text, a, b) && Spaces(text, b, c) && Spaces(text, m, |text|)
    && (a < m ==> !IsSpace(text[a])) && (b < m ==> text[b] != ';') && (c < m ==> !IsSpace(text[c]))
    && (m > 0 ==> !IsSpace(text[m - 1]))
  }

  lemma SliceTwice(u: string, a: nat, n: nat)
    requires a + n <= |u|
    ensures u[a..][n..] == u[a + n..]
  {
  }

  lemma SliceFront(u: string, m: nat, c: nat)
    requires c <= m <= |u|
    ensures u[..m][c..] == u[c..m]
  {
  }

  lemma StripsAre(text: string) returns (a: nat, b: nat, c: nat, m: nat)
    ensures Cuts(text, a, b, c, m)
    ensures LStrip(LStripSemicolons(LStrip(RStrip(text)))) == text[c..m]
  {
    hide *;
    m := RStripIs(text);
    var u := text[..m];
    a := LStripIs(u);
    var n := LStripSemicolonsIs(u[a..]);
    SliceTwice(u, a, n);
    b := a + n;
    var n' := LStripIs(u[b..]);
    SliceTwice(u, b, n');
    c := b + n';
    SliceFront(text, m, c);
    CutsAre(text, a, b, c, m);
  }

  lemma CutsAre(text: string, a: nat, b: nat, c: nat, m: nat)
    requires a <= b <= c <= m <= |text|
    requires Spaces(text[..m], 0, a) && Semicolons(text[..m][a..], 0, b - a) && Spaces(text[..m][b..], 0, c - b)
    requires Spaces(text, m, |text|) && (m > 0 ==> !IsSpace(text[m - 1]))
    requires a < m ==> !IsSpace(text[..m][a])
    requires b < m ==> text[..m][a..][b - a] != ';'
    requires c < m ==> !IsSpace(text[..m][b..][c - b])
    ensures Cuts(text, a, b, c, m)
  {
    hide IsSpace;
    assert forall k :: a <= k < b ==> text[k] == text[..m][a..][k - a];
    assert forall k :: b <= k < c ==> text[k] == text[..m][b..][k - b];
  }

  lemma CutsEnd(text: string, a: nat, b: nat, c: nat, m: nat)
    requires Cuts(text, a, b, c, m)
    ensures c == m || "//" <= text[c..m] ==> NothingFollows(text)
  {
    hide IsSpace;
    if c == m {
      assert Ends(text, a, b, |text|);
    } else if "//" <= text[c..m] {
      assert text[c..m][0] == '/' && text[c..m][1] == '/';
      assert Ends(text, a, b, c);
    }
  }

  lemma NotSpaces()
    ensures !IsSpace(';') && !IsSpace('/')
  {
  }

  lemma EndsCut(text: string, a: nat, b: nat, c: nat, m: nat, a': nat, b': nat, c': nat)
    requires Cuts(text, a, b, c, m) && Ends(text, a', b', c')
    ensures c == m || "//" <= text[c..m]
  {
    NotSpaces();
    hide IsSpace;
    if c' == |text| {
      LastOf(text, m, b', c');
    } else {
      assert text[c' + 1] == '/' && m >= c' + 2;
    }
    if c < m {
      if a' < b' {
        SemicolonsStart(text, a, b, c, m, a', b', c');
      } else {
        CommentStarts(text, a, b, c, m, c');
      }
      assert text[c..m][0] == '/' && text[c..m][1] == '/';
    }
  }

  lemma SemicolonsStart(text: string, a: nat, b: nat, c: nat, m: nat, a': nat, b': nat, c': nat)
    requires Cuts(text, a, b, c, m) && Ends(text, a', b', c') && c < m && a' < b' && !IsSpace(';') && !IsSpace('/')
    ensures c == c'
  {
    hide IsSpace;
    var x, x', y, z := text[a], text[a'], text[b], text[c];
    assert x' == ';' && (a < a' ==> IsSpace(x)) && (a' < a ==> IsSpace(x'));
    assert b < b' ==> y == ';';
    assert b' < |text|;
    var y' := text[b'];
    assert (b' < b ==> y' == ';') && (b' < c' ==> IsSpace(y')) && (b' == c' ==> y' == '/');
    assert b == b';
    assert (c < c' ==> IsSpace(z));
    var z' := if c' < |text| then text[c'] else '/';
    assert c' < c ==> IsSpace(z');
  }

  lemma CommentStarts(text: string, a: nat, b: nat, c: nat, m: nat, c': nat)
    requires Cuts(text, a, b, c, m) && c < m && !IsSpace(';') && !IsSpace('/')
    requires c' <= |text| && Spaces(text, 0, c') && (c' == |text| || CommentAt(text, c'))
    ensures c == c'
  {
    hide IsSpace;
    var last := text[m - 1];
    assert c' == |text| ==> IsSpace(last);
    var x, x' := text[a], text[c'];
    assert (a < c' ==> IsSpace(x)) && (c' < a ==> IsSpace(x'));
    assert a < b ==> x == ';';
    assert c' < c ==> IsSpace(x');
  }

  lemma LastOf(text: string, m: nat, b: nat, c: nat)
    requires m <= |text| == c && b <= c && (m > 0 ==> !IsSpace(text[m - 1])) && Spaces(text, b, c)
    ensures m <= b
  {
  }

  /** The last line belongs to the declaration exactly when nothing but semicolons, spaces and a line
      comment follows on it. */
  lemma EndLineIff(lines: seq<string>, start: nat, index: nat, after: nat)
    requires start <= index < |lines| && after <= |lines[index]|
    ensures EndLineOf(lines, start, index, after) ==
      if NothingFollows(lines[index][after..]) then Some(index) else if index > start then Some(index - 1) else None
  {
    var text := lines[index][after..];
    var a, b, c, m := StripsAre(text);
    hide LStrip, RStrip, LStripSemicolons, Cuts, NothingFollows;
    CutsEnd(text, a, b, c, m);
    if NothingFollows(text) { FollowsOrEnds(text, a, b, c, m); }
  }

  lemma FollowsOrEnds(text: string, a: nat, b: nat, c: nat, m: nat)
    requires Cuts(text, a, b, c, m) && NothingFollows(text)
    ensures c == m || "//" <= text[c..m]
  {
    hide Cuts, Ends;
    var a', b', c' :| Ends(text, a', b', c');
    EndsCut(text, a, b, c, m, a', b', c');
  }
}
