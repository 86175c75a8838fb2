/** Which lines `non_runtime_lines` marks, and why no code that runs is on them. */
module MarkedLines {
  import opened Collections
  import opened Strings
  import opened Brackets
  import opened LineLexer
  import opened DeclarationTokens
  import opened BracketRestart
  import opened DeclarationEnd
  import opened EndLines
  import opened FirstStop

  // ----- after the end of a declaration

  /** How the automaton over the whole text reads a character. */
  ghost function CharClass(lines: seq<string>, i: nat, k: nat): Class
    requires i < |lines| && k < |lines[i]|
  {
    ClassOf(Run(START, Text(lines[..i]) + lines[i][..k]), lines[i][k], CharAt(lines[i], k + 1))
  }

  /** From `from` on there are only white space, semicolons and comments on the line. */
  ghost predicate NoCodeFrom(lines: seq<string>, i: nat, from: nat)
    requires i < |lines|
  {
    forall k :: from <= k < |lines[i]| ==> lines[i][k] == ';' || CharClass(lines, i, k) in {Blank, Comment}
  }

  lemma CodeStays(s: Lex, c: char)
    requires s.mode == Code && (IsSpace(c) || c == ';') && c != '\n'
    ensures Step(s, c).mode == Code
    ensures forall next :: ClassOf(s, c, next) == Blank || c == ';'
  {
    hide TemplateStep, EndLine;
  }

  /** Up to the comment the automaton stays in code. */
  lemma {:induction false} TailInCode(s: Lex, rest: string, a: nat, b: nat, c: nat, k: nat)
    requires s.mode == Code && Ends(rest, a, b, c) && k <= c && '\n' !in rest
    ensures Run(s, rest[..k]).mode == Code
  {
    if k > 0 {
      TailInCode(s, rest, a, b, c, k - 1);
      assert rest[..k][..k - 1] == rest[..k - 1];
      assert rest[k - 1] in rest;
      TailChar(rest, a, b, c, k - 1);
      CodeStays(Run(s, rest[..k - 1]), rest[k - 1]);
      hide Step, Ends, IsSpace;
    } else {
      assert rest[..0] == "";
    }
  }

  lemma TailChar(rest: string, a: nat, b: nat, c: nat, k: nat)
    requires Ends(rest, a, b, c) && k < c
    ensures IsSpace(rest[k]) || rest[k] == ';'
  {
    hide IsSpace;
  }

  lemma {:induction false} TailInComment(s: Lex, rest: string, c: nat, k: nat)
    requires CommentAt(rest, c) && c + 2 <= k <= |rest| && '\n' !in rest && Run(s, rest[..c]).mode == Code
    ensures Run(s, rest[..k]).mode == LineComment && Run(s, rest[..c + 1]).mode == Slash
  {
    assert rest[..c + 1][..c] == rest[..c];
    assert rest[..k][..k - 1] == rest[..k - 1];
    assert rest[k - 1] in rest;
    hide TemplateStep, EndLine;
    if k > c + 2 {
      TailInComment(s, rest, c, k - 1);
    }
  }

  lemma TailClass(s: Lex, rest: string, a: nat, b: nat, c: nat, k: nat)
    requires s.mode == Code && Ends(rest, a, b, c) && k < |rest| && '\n' !in rest
    ensures rest[k] == ';' || ClassOf(Run(s, rest[..k]), rest[k], CharAt(rest, k + 1)) in {Blank, Comment}
  {
    hide Run;
    if k < c {
      TailInCode(s, rest, a, b, c, k);
      TailChar(rest, a, b, c, k);
      assert rest[k] in rest;
      CodeStays(Run(s, rest[..k]), rest[k]);
    } else {
      TailInCode(s, rest, a, b, c, c);
      TailInComment(s, rest, c, if k < c + 2 then c + 2 else k);
    }
  }

  lemma CharAfter(before: string, line: string, from: nat, a: nat, b: nat, c: nat, k: nat)
    requires from <= k < |line| && '\n' !in line
    requires Run(START, before + line[..from]).mode == Code && Ends(line[from..], a, b, c)
    ensures line[k] == ';' || ClassOf(Run(START, before + line[..k]), line[k], CharAt(line, k + 1)) in {Blank, Comment}
  {
    var rest, s := line[from..], Run(START, before + line[..from]);
    assert forall x :: x in rest ==> x in line;
    hide Ends, Run, ClassOf;
    TailClass(s, rest, a, b, c, k - from);
    RunConcat(START, before + line[..from], rest[..k - from]);
    Rest(before, line, from, k);
  }

  lemma Rest(before: string, line: string, from: nat, k: nat)
    requires from <= k < |line|
    ensures
      var rest := line[from..];
      && before + line[..k] == before + line[..from] + rest[..k - from]
      && rest[k - from] == line[k] && CharAt(rest, k - from + 1) == CharAt(line, k + 1)
  {
    assert line[..k] == line[..from] + line[from..][..k - from];
  }

  lemma NoCodeAfter(lines: seq<string>, i: nat, from: nat)
    requires i < |lines| && from <= |lines[i]| && '\n' !in lines[i]
    requires Run(START, Text(lines[..i]) + lines[i][..from]).mode == Code && NothingFollows(lines[i][from..])
    ensures NoCodeFrom(lines, i, from)
  {
    var a, b, c :| Ends(lines[i][from..], a, b, c);
    hide Ends, Run, ClassOf, Text;
    forall k | from <= k < |lines[i]| ensures lines[i][k] == ';' || CharClass(lines, i, k) in {Blank, Comment} {
      CharAfter(Text(lines[..i]), lines[i], from, a, b, c, k);
    }
  }

  // ----- the stop in the whole text

  lemma {:induction false} TextJoin(lines: seq<string>, start: nat, i: nat)
    requires start <= i <= |lines|
    ensures Text(lines[..i]) == Text(lines[..start]) + Text(lines[start..i])
  {
    if start < i {
      hide Text;
      TextJoin(lines, start, i - 1);
      TextLine(lines, start, i - 1);
      TextLine(lines, 0, i - 1);
      assert lines[..i] == lines[0..i] && lines[..i - 1] == lines[0..i - 1];
      Regrouped(Text(lines[..start]), Text(lines[start..i - 1]), lines[i - 1], ['\n']);
    } else {
      NoLines(lines, i);
    }
  }

  lemma Regrouped(a: string, b: string, c: string, d: string)
    ensures a + b + c + d == a + (b + c + d)
  {
  }

  lemma NoLines(lines: seq<string>, i: nat)
    requires i <= |lines|
    ensures Text(lines[..i]) + Text(lines[i..i]) == Text(lines[..i])
  {
    assert lines[i..i] == [] && Text([]) == "";
  }

  /** Outside templates and comments, the automaton over the whole text reads a declaration whose
      brackets are nested as the one that begins at it. */
  lemma WholeMode(lines: seq<string>, start: nat, text: string)
    requires start < |lines| && IsNestedCode(text)
    requires !StateOf(lines, start).inTemplate && !StateOf(lines, start).inComment
    ensures Run(START, Text(lines[..start]) + text) == Lifted(Run(START, Text(lines[..start])).stack, Run(START, text))
  {
    var before := Text(lines[..start]);
    LineStartsInCode(lines, start);
    NestedIffReduces(CodeBrackets(START, text));
    hide Run, CodeBrackets, Reduce, Nested, Text, StateOf;
    ReadAlike(Run(START, before).stack, text);
    RunConcat(START, before, text);
  }

  /** After its last character the declaration leaves the automaton in code. */
  lemma CodeAtStop(lines: seq<string>, start: nat, i: nat, p: nat, text: string)
    requires start <= i < |lines| && p < |lines[i]| && text == TextTo(lines, start, i, p + 1) && IsNestedCode(text)
    requires !StateOf(lines, start).inTemplate && !StateOf(lines, start).inComment
    requires Run(START, text).mode == Code
    ensures Run(START, Text(lines[..i]) + lines[i][..p + 1]).mode == Code
  {
    hide Run, Text, IsNestedCode, StateOf;
    WholeMode(lines, start, text);
    WholeText(lines, start, i, p + 1);
  }

  lemma WholeText(lines: seq<string>, start: nat, i: nat, k: nat)
    requires start <= i < |lines| && k <= |lines[i]|
    ensures Text(lines[..i]) + lines[i][..k] == Text(lines[..start]) + TextTo(lines, start, i, k)
  {
    TextJoin(lines, start, i);
    hide Text;
  }

  lemma SemicolonKeeps(lines: seq<string>, start: nat, i: nat, p: nat)
    requires start <= i < |lines| && p < |lines[i]| && lines[i][p] == ';' && IsNestedCode(TextTo(lines, start, i, p))
    requires Run(START, TextTo(lines, start, i, p)).mode in {Code, Slash}
    ensures
      var text := TextTo(lines, start, i, p + 1);
      IsNestedCode(text) && Run(START, text).mode == Code
  {
    TextGrows(lines, start, i, p);
    var text := TextTo(lines, start, i, p);
    OneChar(text, ';');
    hide Run, CodeBrackets, Nested, EndLine;
    assert CodeBrackets(START, text) + "" == CodeBrackets(START, text);
  }

  /** All code of a marked line of the declaration comes before its stop. */
  ghost predicate CodeEnds(lines: seq<string>, n: nat, stop: Stop)
    requires n < |lines|
  {
    match stop
    case Semicolon(i, p) => n < i || (n == i && NoCodeFrom(lines, n, p + 1))
    case BlockEnd(i, p) => n < i || (n == i && NoCodeFrom(lines, n, p + 1))
    case Margin(i) => n <= i
    case _ => false
  }

  lemma LastLineEnds(lines: seq<string>, start: nat, i: nat, p: nat, end: nat, n: nat)
    requires start <= i < |lines| && p < |lines[i]| && '\n' !in lines[i]
    requires EndLineOf(lines, start, i, p + 1) == Some(end) && n <= end
    requires Run(START, Text(lines[..i]) + lines[i][..p + 1]).mode == Code
    ensures n < i || (n == i && NoCodeFrom(lines, n, p + 1))
  {
    EndLineIff(lines, start, i, p + 1);
    hide Run, Text, EndLineOf, NothingFollows, NoCodeFrom;
    if NothingFollows(lines[i][p + 1..]) { NoCodeAfter(lines, i, p + 1); }
  }

  lemma DeclaredLinesEnd(lines: seq<string>, start: nat, block: bool, stop: Stop, end: nat, n: nat)
    requires PlainLines(lines) && start < |lines| && n <= end < |lines| && StopsAt(lines, start, block, stop, Some(end))
    requires !StateOf(lines, start).inTemplate && !StateOf(lines, start).inComment
    ensures CodeEnds(lines, n, stop)
  {
    hide Run, Text, IsNestedCode, EndLineOf, MarginFollows, StateOf, NoCodeFrom, CodeBrackets, Reduce, PlainLines;
    match stop
    case Semicolon(i, p) =>
      LineIsPlain(lines, i);
      SemicolonKeeps(lines, start, i, p);
      CodeAtStop(lines, start, i, p, TextTo(lines, start, i, p + 1));
      LastLineEnds(lines, start, i, p, end, n);
    case BlockEnd(i, p) =>
      LineIsPlain(lines, i);
      CodeAtStop(lines, start, i, p, TextTo(lines, start, i, p + 1));
      LastLineEnds(lines, start, i, p, end, n);
    case Margin(i) =>
  }

  lemma LineIsPlain(lines: seq<string>, i: nat)
    requires PlainLines(lines) && i < |lines|
    ensures '\n' !in lines[i]
  {
    assert lines[i] in lines;
  }

  // ----- which lines are marked

  ghost predicate NoCode(lines: seq<string>, n: nat)
    requires n < |lines|
  {
    !StateOf(lines, n).inTemplate && !StateOf(lines, n).hasCode
  }

  /** Line `n` lies in a declaration that begins at line `first`, outside templates and comments, and
      stops at the first place where it can, with its code brackets nested, also when read from the
      beginning of the whole text. No code of line `n` comes after the stop. */
  ghost predicate DeclaredOver(lines: seq<string>, keyword: string -> Keyword, first: nat, n: nat) {
    && first <= n < |lines| && keyword(lines[first]).Declaration?
    && !StateOf(lines, first).inTemplate && !StateOf(lines, first).inComment
    && var block := keyword(lines[first]).block;
       var r := DeclarationEndOf(lines, first, block);
       && r.1.Some? && n <= r.1.value
       && StopsAt(lines, first, block, r.0, r.1) && First(lines, first, block, r.0)
       && NestedInWhole(lines, first, r.0) && CodeEnds(lines, n, r.0)
  }

  ghost predicate InDeclaration(lines: seq<string>, keyword: string -> Keyword, n: nat) {
    exists first :: DeclaredOver(lines, keyword, first, n)
  }

  lemma DeclaredIsOver(lines: seq<string>, keyword: string -> Keyword, first: nat, n: nat)
    requires PlainLines(lines) && first <= n < |lines| && !StateOf(lines, first).inTemplate
    requires DeclaredTo(lines, keyword, first).Some? && n <= DeclaredTo(lines, keyword, first).value
    ensures DeclaredOver(lines, keyword, first, n)
  {
    hide StateOf, DeclarationEndOf, StopsAt, PlainLines, NestedInWhole, CodeEnds, First;
    var block := keyword(lines[first]).block;
    var r := DeclarationEndOf(lines, first, block);
    DeclarationStopsFirst(lines, first, block);
    StopsInWhole(lines, first, block, r.0, r.1.value);
    DeclaredLinesEnd(lines, first, block, r.0, r.1.value, n);
  }

  /** A marked line holds no code, or lies in a declaration before the declaration's stop. */
  lemma MarkedIsStatic(lines: seq<string>, keyword: string -> Keyword, n: nat)
    requires PlainLines(lines) && n in MarkedFrom(lines, keyword, 0)
    ensures 0 < n <= |lines| && (NoCode(lines, n - 1) || InDeclaration(lines, keyword, n - 1))
  {
    hide *;
    MarkedAbove(lines, keyword, 0, n);
    LineIsStatic(lines, keyword, n - 1);
  }

  lemma LineIsStatic(lines: seq<string>, keyword: string -> Keyword, n: nat)
    requires PlainLines(lines) && n < |lines| && n + 1 in MarkedFrom(lines, keyword, 0)
    ensures NoCode(lines, n) || InDeclaration(lines, keyword, n)
  {
    hide MarkedFrom, NoCode, Covers, DeclaredOver, PlainLines, DeclaredTo, StateOf;
    MarkedIff(lines, keyword, n);
    if first :| Covers(lines, keyword, first, n) {
      CoversShape(lines, keyword, first, n);
      DeclaredIsOver(lines, keyword, first, n);
    }
  }

  // ----- exactly the marked lines

  /** A declaration is recognised at line `first`: the line holds code, begins outside templates and
      comments, and lies in no declaration recognised before. */
  ghost predicate Begins(lines: seq<string>, keyword: string -> Keyword, first: nat) {
    && first < |lines| && !StateOf(lines, first).inTemplate && StateOf(lines, first).hasCode
    && DeclaredTo(lines, keyword, first).Some?
    && forall g :: 0 <= g < first && Begins(lines, keyword, g) ==> DeclaredTo(lines, keyword, g).value < first
  }

  ghost predicate Covers(lines: seq<string>, keyword: string -> Keyword, first: nat, n: nat) {
    && first <= n < |lines| && Begins(lines, keyword, first) && n <= DeclaredTo(lines, keyword, first).value
  }

  lemma CoversShape(lines: seq<string>, keyword: string -> Keyword, first: nat, n: nat)
    requires Covers(lines, keyword, first, n)
    ensures first <= n < |lines| && !StateOf(lines, first).inTemplate
    ensures DeclaredTo(lines, keyword, first).Some? && n <= DeclaredTo(lines, keyword, first).value
  {
    hide StateOf, DeclaredTo;
  }

  /** No declaration recognised before `index` reaches it. */
  ghost predicate Free(lines: seq<string>, keyword: string -> Keyword, index: nat) {
    forall g :: 0 <= g < index && Begins(lines, keyword, g) ==> DeclaredTo(lines, keyword, g).value < index
  }
  ghost predicate Covered(lines: seq<string>, keyword: string -> Keyword, from: nat, n: nat) {
    exists first :: from <= first && Covers(lines, keyword, first, n)
  }

  lemma NoneBegins(lines: seq<string>, keyword: string -> Keyword, index: nat, n: nat)
    requires index < |lines| && Free(lines, keyword, index)
    requires StateOf(lines, index).inTemplate || !StateOf(lines, index).hasCode || DeclaredTo(lines, keyword, index).None?
    ensures Free(lines, keyword, index + 1)
    ensures Covered(lines, keyword, index, n) <==> Covered(lines, keyword, index + 1, n)
    ensures !Covers(lines, keyword, index, n)
  {
    hide StateOf, DeclaredTo;
    assert !Begins(lines, keyword, index);
    if first :| index <= first && Covers(lines, keyword, first, n) { assert index + 1 <= first; }
  }

  lemma OneBegins(lines: seq<string>, keyword: string -> Keyword, index: nat, n: nat)
    requires index < |lines| && Free(lines, keyword, index)
    requires !StateOf(lines, index).inTemplate && StateOf(lines, index).hasCode && DeclaredTo(lines, keyword, index).Some?
    ensures var end := DeclaredTo(lines, keyword, index).value;
      && Free(lines, keyword, end + 1)
      && (index <= n <= end && n < |lines| ==> Covered(lines, keyword, index, n))
      && (n > end ==> (Covered(lines, keyword, index, n) <==> Covered(lines, keyword, end + 1, n)))
  {
    hide StateOf, DeclaredTo;
    var end := DeclaredTo(lines, keyword, index).value;
    assert Begins(lines, keyword, index);
    assert forall g :: index < g <= end ==> !Begins(lines, keyword, g);
    assert index <= n <= end && n < |lines| ==> Covers(lines, keyword, index, n);
    if n > end {
      if first :| index <= first && Covers(lines, keyword, first, n) { assert end + 1 <= first; }
    }
  }

  lemma {:induction false} MarkedFromIff(lines: seq<string>, keyword: string -> Keyword, index: nat, n: nat)
    requires index <= n < |lines| && Free(lines, keyword, index)
    ensures n + 1 in MarkedFrom(lines, keyword, index) <==> NoCode(lines, n) || Covered(lines, keyword, index, n)
    decreases |lines| - index
  {
    hide StateOf, DeclaredTo, Free, Covered;
    var state, end := StateOf(lines, index), DeclaredTo(lines, keyword, index);
    if state.inTemplate || !state.hasCode || end.None? {
      NoneBegins(lines, keyword, index, n);
      MarkedAbove(lines, keyword, index + 1, n + 1);
      if index < n {
        MarkedFromIff(lines, keyword, index + 1, n);
      } else {
        LaterDoNotCover(lines, keyword, n);
      }
    } else {
      OneBegins(lines, keyword, index, n);
      if n > end.value { MarkedFromIff(lines, keyword, end.value + 1, n); }
    }
  }

  lemma LaterDoNotCover(lines: seq<string>, keyword: string -> Keyword, n: nat)
    ensures !Covered(lines, keyword, n + 1, n)
  {
    hide Begins, DeclaredTo;
  }

  /** Exactly these lines are marked: those outside templates that hold no code, and those of a
      declaration recognised where no earlier one is still open. */
  lemma MarkedIff(lines: seq<string>, keyword: string -> Keyword, n: nat)
    requires n < |lines|
    ensures n + 1 in MarkedFrom(lines, keyword, 0) <==>
      NoCode(lines, n) || exists first :: Covers(lines, keyword, first, n)
  {
    hide MarkedFrom, NoCode, Covers, Begins;
    MarkedFromIff(lines, keyword, 0, n);
  }

  lemma {:induction false} MarkedAbove(lines: seq<string>, keyword: string -> Keyword, index: nat, n: nat)
    ensures n in MarkedFrom(lines, keyword, index) ==> index < n <= |lines|
    decreases |lines| - index
  {
    hide StateOf, DeclarationEndOf;
    if index < |lines| {
      MarkedAbove(lines, keyword, index + 1, n);
      var end := DeclaredTo(lines, keyword, index);
      if end.Some? { MarkedAbove(lines, keyword, end.value + 1, n); }
    }
  }
}
