/** `scan_lines`: which lines begin inside a template string or a block comment, and which
    hold code, refined against an automaton that reads the whole text character by
    character. */
module LineLexer {
  import opened Collections
  import opened Strings

  // ----- the reference automaton

  /** `Slash`, `Star` and `Dollar` have read the first half of a two-character token. */
  datatype Mode =
    | Code | Slash | LineComment | Block | Star
    | Quoted(q: char) | QuotedEscape(q: char)
    | Template | TemplateEscape | Dollar

  /** `stack` holds the open templates and the `${` inside them; `code` says whether the
      line so far has a character outside comments that is not white space. */
  datatype Lex = Lex(mode: Mode, stack: seq<char>, code: bool)

  const START: Lex := Lex(Code, [], false)

  function Top(stack: seq<char>): Option<char> {
    if stack == [] then None else Some(stack[|stack| - 1])
  }

  function Pop(stack: seq<char>): seq<char> {
    if stack == [] then [] else stack[..|stack| - 1]
  }

  /** The mode between tokens. */
  function Home(stack: seq<char>): Mode {
    if Top(stack) == Some('`') then Template else Code
  }

  function CodeStep(s: Lex, c: char): Lex {
    if c == '/' then s.(mode := Slash)
    else if c == '\'' || c == '"' then Lex(Quoted(c), s.stack, true)
    else if c == '`' then Lex(Template, s.stack + ['`'], true)
    else if c == '{' then Lex(Code, s.stack + ['{'], true)
    else if c == '}' && Top(s.stack) == Some('{') then Lex(Home(Pop(s.stack)), Pop(s.stack), true)
    else Lex(Code, s.stack, s.code || !IsSpace(c))
  }

  function TemplateStep(s: Lex, c: char): Lex {
    if c == '\\' then Lex(TemplateEscape, s.stack, true)
    else if c == '$' then Lex(Dollar, s.stack, true)
    else if c == '`' then Lex(Home(Pop(s.stack)), Pop(s.stack), true)
    else Lex(Template, s.stack, true)
  }

  function EndLine(s: Lex): Lex {
    Lex(if s.mode.Block? || s.mode.Star? then Block else Home(s.stack), s.stack, false)
  }

  function Step(s: Lex, c: char): Lex {
    if c == '\n' then EndLine(s)
    else
      match s.mode
      case Code => CodeStep(s, c)
      case Slash =>
        if c == '/' then s.(mode := LineComment)
        else if c == '*' then s.(mode := Block)
        else CodeStep(Lex(Code, s.stack, true), c)
      case LineComment => s
      case Block => if c == '*' then s.(mode := Star) else s
      case Star => if c == '/' then s.(mode := Home(s.stack)) else if c == '*' then s else s.(mode := Block)
      case Quoted(q) =>
        if c == '\\' then Lex(QuotedEscape(q), s.stack, true)
        else Lex(if c == q then Home(s.stack) else s.mode, s.stack, true)
      case QuotedEscape(q) => Lex(Quoted(q), s.stack, true)
      case Template => TemplateStep(s, c)
      case TemplateEscape => Lex(Template, s.stack, true)
      case Dollar => if c == '{' then Lex(Code, s.stack + ['{'], true) else TemplateStep(s, c)
  }

  function Run(s: Lex, text: string): Lex {
    if text == "" then s else Step(Run(s, text[..|text| - 1]), text[|text| - 1])
  }

  /** Reading from the front instead. */
  lemma {:induction false} RunFirst(s: Lex, c: char, text: string)
    ensures Run(s, [c] + text) == Run(Step(s, c), text)
  {
    var whole := [c] + text;
    if text == "" {
      assert whole[..0] == "";
    } else {
      assert whole[..|whole| - 1] == [c] + text[..|text| - 1];
      RunFirst(s, c, text[..|text| - 1]);
    }
  }

  lemma {:induction false} RunConcat(s: Lex, a: string, b: string)
    ensures Run(s, a + b) == Run(Run(s, a), b)
  {
    if b == "" {
      assert a + b == a;
    } else {
      assert (a + b)[..|a + b| - 1] == a + b[..|b| - 1];
      RunConcat(s, a, b[..|b| - 1]);
    }
  }

  /** A slash that starts no comment is code. */
  predicate HasCode(s: Lex) {
    s.code || s.mode.Slash?
  }

  // ----- invariants of the automaton

  ghost predicate NoAdjacentBackticks(stack: seq<char>) {
    forall i :: 1 <= i < |stack| ==> !(stack[i - 1] == '`' && stack[i] == '`')
  }

  /** The top of the stack is a template exactly in the template modes; in particular a
      comment or a quoted string is never inside one directly. */
  ghost predicate Consistent(s: Lex) {
    && NoAdjacentBackticks(s.stack)
    && (Top(s.stack) == Some('`') <==> s.mode.Template? || s.mode.TemplateEscape? || s.mode.Dollar?)
  }

  lemma PopKeepsApart(stack: seq<char>)
    requires NoAdjacentBackticks(stack)
    ensures NoAdjacentBackticks(Pop(stack))
    ensures Top(stack) == Some('`') ==> Top(Pop(stack)) != Some('`')
  {
  }

  lemma PushKeepsApart(stack: seq<char>, c: char)
    requires NoAdjacentBackticks(stack) && (c == '`' ==> Top(stack) != Some('`'))
    ensures NoAdjacentBackticks(stack + [c]) && Top(stack + [c]) == Some(c)
  {
  }

  lemma StepConsistent(s: Lex, c: char)
    requires Consistent(s)
    ensures Consistent(Step(s, c))
  {
    PopKeepsApart(s.stack);
    PushKeepsApart(s.stack, '{');
    if Top(s.stack) != Some('`') { PushKeepsApart(s.stack, '`'); }
    hide IsSpace, NoAdjacentBackticks;
  }

  lemma {:induction false} RunConsistent(s: Lex, text: string)
    requires Consistent(s)
    ensures Consistent(Run(s, text))
  {
    if text != "" {
      RunConsistent(s, text[..|text| - 1]);
      StepConsistent(Run(s, text[..|text| - 1]), text[|text| - 1]);
    }
  }

  // ----- the meaning of "has code"

  datatype Class = Blank | Comment | CodeChar

  /** How a character reads, given the automaton before it and the character after it. */
  function ClassOf(s: Lex, c: char, next: Option<char>): Class {
    match s.mode
    case LineComment => Comment
    case Block => Comment
    case Star => Comment
    case Slash => if c == '/' || c == '*' then Comment else PlainClass(c, next)
    case Code => PlainClass(c, next)
    case _ => CodeChar
  }

  function PlainClass(c: char, next: Option<char>): Class {
    if c == '/' && (next == Some('/') || next == Some('*')) then Comment
    else if IsSpace(c) then Blank
    else CodeChar
  }

  function CharAt(text: string, k: nat): Option<char> {
    if k < |text| then Some(text[k]) else None
  }

  /** The first `n` characters hold code, a pending slash counting by what follows it. */
  predicate CodeBefore(s: Lex, next: Option<char>) {
    s.code || (s.mode.Slash? && next != Some('/') && next != Some('*'))
  }

  /** Some character of the first `n` is code. */
  ghost predicate SomeCode(s: Lex, text: string, n: nat)
    requires n <= |text|
  {
    exists k :: 0 <= k < n && ClassOf(Run(s, text[..k]), text[k], CharAt(text, k + 1)) == CodeChar
  }

  lemma SomeCodeStep(s: Lex, text: string, n: nat)
    requires n < |text|
    ensures SomeCode(s, text, n + 1) <==>
      SomeCode(s, text, n) || ClassOf(Run(s, text[..n]), text[n], CharAt(text, n + 1)) == CodeChar
  {
    hide Run, ClassOf, CharAt;
  }

  lemma {:induction false} CodeBeforeMeans(s: Lex, text: string, n: nat)
    requires !s.code && s.mode in {Code, Block, Template} && '\n' !in text && n <= |text|
    ensures CodeBefore(Run(s, text[..n]), CharAt(text, n)) <==> SomeCode(s, text, n)
  {
    if n > 0 {
      CodeBeforeMeans(s, text, n - 1);
      assert text[..n][..n - 1] == text[..n - 1];
      assert text[n - 1] in text;
      CodeStepMeans(Run(s, text[..n - 1]), text[n - 1], CharAt(text, n));
      hide CodeBefore, ClassOf, Step;
      SomeCodeStep(s, text, n - 1);
    }
  }

  lemma CodeStepMeans(s: Lex, c: char, next: Option<char>)
    requires c != '\n'
    ensures CodeBefore(Step(s, c), next) <==> CodeBefore(s, Some(c)) || ClassOf(s, c, next) == CodeChar
  {
  }

  /** A line that does not begin in a template has no code exactly when each of its
      characters is white space or comment. */
  lemma NoCodeIffBlankOrComment(s: Lex, text: string)
    requires !s.code && s.mode in {Code, Block} && '\n' !in text
    ensures !HasCode(Run(s, text)) <==>
      forall k :: 0 <= k < |text| ==> ClassOf(Run(s, text[..k]), text[k], CharAt(text, k + 1)) in {Blank, Comment}
  {
    CodeBeforeMeans(s, text, |text|);
    assert text[..|text|] == text;
  }

  // ----- the scanner

  datatype LineState = LineState(inTemplate: bool, inComment: bool, hasCode: bool)

  /** The text of complete lines. */
  function Text(lines: seq<string>): string {
    if lines == [] then "" else Text(lines[..|lines| - 1]) + lines[|lines| - 1] + "\n"
  }

  /** What the automaton, run over all text before line `i` and over the line, says. */
  function StateOf(lines: seq<string>, i: nat): LineState
    requires i < |lines|
  {
    var s := Run(START, Text(lines[..i]));
    LineState(s.mode.Template?, s.mode.Block?, HasCode(Run(s, lines[i])))
  }

  /** The automaton state that the scanner's variables stand for between tokens. */
  function Between(stack: seq<char>, inComment: bool, quote: Option<char>, hasCode: bool): Lex {
    Lex(if inComment then Block else if quote.Some? then Quoted(quote.value) else Home(stack), stack, hasCode)
  }

  /** What matters of a state at the end of its line. */
  function Ending(s: Lex): (Lex, bool) {
    (EndLine(s), HasCode(s))
  }

  lemma {:induction false} LineCommentEnds(s: Lex, text: string)
    requires s.mode.LineComment? && '\n' !in text
    ensures Run(s, text) == s
  {
    if text != "" { LineCommentEnds(s, text[..|text| - 1]); }
  }

  /** After a `*`, `$` or `/` that begins no token, the automaton may as well be between
      tokens. */
  lemma HalfTokens(stack: seq<char>, code: bool, rest: string)
    requires '\n' !in rest
    ensures rest == "" || rest[0] != '/' ==>
      Ending(Run(Lex(Star, stack, code), rest)) == Ending(Run(Lex(Block, stack, code), rest))
    ensures (rest == "" || rest[0] != '{') && Top(stack) == Some('`') ==>
      Ending(Run(Lex(Dollar, stack, true), rest)) == Ending(Run(Lex(Template, stack, true), rest))
    ensures (rest == "" || (rest[0] != '/' && rest[0] != '*')) && Top(stack) != Some('`') ==>
      Ending(Run(Lex(Slash, stack, code), rest)) == Ending(Run(Lex(Code, stack, true), rest))
  {
    if rest != "" {
      assert rest == [rest[0]] + rest[1..];
      RunFirst(Lex(Star, stack, code), rest[0], rest[1..]);
      RunFirst(Lex(Block, stack, code), rest[0], rest[1..]);
      RunFirst(Lex(Dollar, stack, true), rest[0], rest[1..]);
      RunFirst(Lex(Template, stack, true), rest[0], rest[1..]);
      RunFirst(Lex(Slash, stack, code), rest[0], rest[1..]);
      RunFirst(Lex(Code, stack, true), rest[0], rest[1..]);
    }
  }

  function From(text: string, p: nat): string {
    if p < |text| then text[p..] else ""
  }

  lemma FromStep(s: Lex, text: string, p: nat)
    requires p < |text|
    ensures Run(s, From(text, p)) == Run(Step(s, text[p]), From(text, p + 1))
    ensures p + 1 < |text| ==> From(text, p + 1)[0] == text[p + 1]
    ensures From(text, p + 1) == "" <==> p + 1 == |text|
    ensures '\n' !in text ==> '\n' !in From(text, p + 1) && text[p] != '\n'
  {
    assert text[p..] == [text[p]] + From(text, p + 1);
    RunFirst(s, text[p], From(text, p + 1));
  }

  lemma FirstTemplateChar(stack: seq<char>, text: string)
    requires '\n' !in text && text != ""
    ensures Run(Lex(Template, stack, true), text) == Run(Lex(Template, stack, false), text)
  {
    assert text == [text[0]] + text[1..];
    RunFirst(Lex(Template, stack, true), text[0], text[1..]);
    RunFirst(Lex(Template, stack, false), text[0], text[1..]);
  }

  /** The state and the rest of the line still lead to the same end. */
  ghost predicate SameEnd(s: Lex, s': Lex, text: string, p: nat, p': nat) {
    Ending(Run(s, From(text, p))) == Ending(Run(s', From(text, p')))
  }

  predicate Pair(text: string, p: nat, a: char, b: char) {
    p + 1 < |text| && text[p] == a && text[p + 1] == b
  }

  lemma StackMoves(stack: seq<char>)
    requires NoAdjacentBackticks(stack)
    ensures NoAdjacentBackticks(Pop(stack)) && NoAdjacentBackticks(stack + ['{'])
    ensures Top(stack) != Some('`') ==> NoAdjacentBackticks(stack + ['`'])
    ensures Top(stack) == Some('`') ==> Top(Pop(stack)) != Some('`')
    ensures Top(stack + ['{']) == Some('{') && Top(stack + ['`']) == Some('`')
  {
  }

  /** Inside a block comment. */
  method ScanComment(text: string, p: nat, stack: seq<char>, code: bool) returns (p': nat, inComment: bool)
    requires p < |text| && '\n' !in text && Top(stack) != Some('`')
    ensures p < p' <= |text|
    ensures SameEnd(Lex(Block, stack, code), Between(stack, inComment, None, code), text, p, p')
  {
    ghost var s := Lex(Block, stack, code);
    FromStep(s, text, p);
    if Pair(text, p, '*', '/') {
      FromStep(Step(s, '*'), text, p + 1);
      return p + 2, false;
    }
    HalfTokens(stack, code, From(text, p + 1));
    return p + 1, true;
  }

  /** Inside a quoted string. */
  method ScanQuoted(text: string, p: nat, stack: seq<char>, q: char) returns (p': nat, quote: Option<char>)
    requires p < |text| && '\n' !in text && Top(stack) != Some('`')
    ensures p < p' <= |text| + 1
    ensures quote == Some(q) || quote == None
    ensures SameEnd(Lex(Quoted(q), stack, true), Between(stack, false, quote, true), text, p, p')
  {
    ghost var s := Lex(Quoted(q), stack, true);
    FromStep(s, text, p);
    if text[p] == '\\' {
      if p + 1 < |text| { FromStep(Step(s, '\\'), text, p + 1); }
      return p + 2, Some(q);
    }
    return p + 1, if text[p] == q then None else Some(q);
  }

  /** Inside a template string. */
  method ScanTemplate(text: string, p: nat, stack: seq<char>, code: bool) returns (p': nat, stack': seq<char>)
    requires p < |text| && '\n' !in text && Top(stack) == Some('`') && NoAdjacentBackticks(stack)
    ensures p < p' <= |text| + 1 && NoAdjacentBackticks(stack')
    ensures SameEnd(Lex(Template, stack, code), Between(stack', false, None, true), text, p, p')
  {
    StackMoves(stack);
    hide NoAdjacentBackticks, Run, SameEnd;
    if text[p] == '\\' {
      TemplateEscapeStep(text, p, stack, code);
      return p + 2, stack;
    }
    if Pair(text, p, '$', '{') {
      TemplateSubstitution(text, p, stack, code);
      return p + 2, stack + ['{'];
    }
    TemplateChar(text, p, stack, code);
    stack' := if text[p] == '`' then stack[..|stack| - 1] else stack;
    p' := p + 1;
  }

  /** A backslash takes the next character with it, but nothing from the next line. */
  lemma TemplateEscapeStep(text: string, p: nat, stack: seq<char>, code: bool)
    requires p < |text| && '\n' !in text && text[p] == '\\'
    ensures SameEnd(Lex(Template, stack, code), Lex(Template, stack, true), text, p, p + 2)
  {
    FromStep(Lex(Template, stack, code), text, p);
    if p + 1 < |text| {
      hide Run;
      FromStep(Lex(TemplateEscape, stack, true), text, p + 1);
    }
  }

  lemma TemplateSubstitution(text: string, p: nat, stack: seq<char>, code: bool)
    requires '\n' !in text && Pair(text, p, '$', '{')
    ensures SameEnd(Lex(Template, stack, code), Lex(Code, stack + ['{'], true), text, p, p + 2)
  {
    hide Run;
    FromStep(Lex(Template, stack, code), text, p);
    FromStep(Lex(Dollar, stack, true), text, p + 1);
  }

  lemma TemplateChar(text: string, p: nat, stack: seq<char>, code: bool)
    requires p < |text| && '\n' !in text && Top(stack) == Some('`') && NoAdjacentBackticks(stack)
    requires text[p] != '\\' && !Pair(text, p, '$', '{')
    ensures SameEnd(Lex(Template, stack, code),
      Between(if text[p] == '`' then Pop(stack) else stack, false, None, true), text, p, p + 1)
  {
    StackMoves(stack);
    hide Run, NoAdjacentBackticks;
    FromStep(Lex(Template, stack, code), text, p);
    HalfTokens(stack, true, From(text, p + 1));
  }

  /** What one character, not the start of a comment, does outside strings. */
  function CodeMove(stack: seq<char>, code: bool, c: char): (seq<char>, Option<char>, bool) {
    (if c == '`' then stack + ['`']
     else if c == '{' then stack + ['{']
     else if c == '}' && Top(stack) == Some('{') then Pop(stack)
     else stack,
     if c == '\'' || c == '"' then Some(c) else None,
     code || !IsSpace(c))
  }

  lemma CodeMoveSteps(stack: seq<char>, code: bool, c: char)
    requires Top(stack) != Some('`') && c != '/' && c != '\n'
    ensures var (stack', quote, code') := CodeMove(stack, code, c);
      Step(Lex(Code, stack, code), c) == Between(stack', false, quote, code')
  {
    assert Top(stack + ['`']) == Some('`') && Top(stack + ['{']) == Some('{');
  }

  /** Outside strings and comments; `p'` is the end of the line after `//`. */
  method ScanCode(text: string, p: nat, stack: seq<char>, code: bool)
    returns (p': nat, stack': seq<char>, inComment: bool, quote: Option<char>, code': bool)
    requires p < |text| && '\n' !in text && Top(stack) != Some('`') && NoAdjacentBackticks(stack)
    ensures p < p' <= |text| && NoAdjacentBackticks(stack')
    ensures inComment || quote.Some? ==> stack' == stack
    ensures quote.Some? ==> !inComment && code'
    ensures SameEnd(Lex(Code, stack, code), Between(stack', inComment, quote, code'), text, p, p')
  {
    ghost var s := Lex(Code, stack, code);
    StackMoves(stack);
    FromStep(s, text, p);
    hide NoAdjacentBackticks, Run, CodeMove, IsSpace;
    if Pair(text, p, '/', '/') {
      FromStep(Step(s, '/'), text, p + 1);
      LineCommentEnds(Lex(LineComment, stack, code), From(text, p + 2));
      LineCommentEnd(stack, code, text);
      return |text|, stack, false, None, code;
    }
    if Pair(text, p, '/', '*') {
      FromStep(Step(s, '/'), text, p + 1);
      return p + 2, stack, true, None, code;
    }
    inComment, p' := false, p + 1;
    stack', quote, code' := ScanCodeChar(text, p, stack, code);
  }

  lemma LineCommentEnd(stack: seq<char>, code: bool, text: string)
    requires Top(stack) != Some('`')
    ensures Ending(Lex(LineComment, stack, code)) == Ending(Run(Between(stack, false, None, code), From(text, |text|)))
  {
  }

  method ScanCodeChar(text: string, p: nat, stack: seq<char>, code: bool)
    returns (stack': seq<char>, quote: Option<char>, code': bool)
    requires p < |text| && '\n' !in text && Top(stack) != Some('`') && NoAdjacentBackticks(stack)
    requires !Pair(text, p, '/', '/') && !Pair(text, p, '/', '*')
    ensures NoAdjacentBackticks(stack')
    ensures quote.Some? ==> stack' == stack && code'
    ensures SameEnd(Lex(Code, stack, code), Between(stack', false, quote, code'), text, p, p + 1)
  {
    var c := text[p];
    var (newStack, newQuote, newCode) := CodeMove(stack, code, c);
    stack', quote, code' := newStack, newQuote, newCode;
    StackMoves(stack);
    FromStep(Lex(Code, stack, code), text, p);
    hide NoAdjacentBackticks, Run;
    if c == '/' {
      HalfTokens(stack, code, From(text, p + 1));
    } else {
      CodeMoveSteps(stack, code, c);
    }
  }

  /** The loop over one line: from the variables at its start to those at its end, as the
      automaton would read it. */
  method ScanLine(text: string, stack0: seq<char>, inComment0: bool)
    returns (stack: seq<char>, inComment: bool, hasCode: bool)
    requires '\n' !in text && NoAdjacentBackticks(stack0)
    requires inComment0 ==> Top(stack0) != Some('`')
    ensures
      var s := Run(Between(stack0, inComment0, None, false), text);
      && Between(stack, inComment, None, false) == EndLine(s)
      && hasCode == HasCode(s)
    ensures NoAdjacentBackticks(stack) && (inComment ==> Top(stack) != Some('`'))
  {
    stack, inComment := stack0, inComment0;
    hasCode := Top(stack) == Some('`') && text != "";
    var quote: Option<char> := None;
    var position := 0;
    ghost var start := Between(stack0, inComment0, None, false);
    assert From(text, 0) == text;
    if hasCode { FirstTemplateChar(stack, text); }
    while position < |text|
      invariant position <= |text| + 1
      invariant NoAdjacentBackticks(stack) && (inComment || quote.Some? ==> Top(stack) != Some('`'))
      invariant quote.Some? ==> !inComment && hasCode
      invariant SameEnd(start, Between(stack, inComment, quote, hasCode), text, 0, position)
      decreases |text| - position
    {
      if inComment {
        position, inComment := ScanComment(text, position, stack, hasCode);
      } else if quote.Some? {
        position, quote := ScanQuoted(text, position, stack, quote.value);
      } else if Top(stack) == Some('`') {
        position, stack := ScanTemplate(text, position, stack, hasCode);
        hasCode := true;
      } else {
        position, stack, inComment, quote, hasCode := ScanCode(text, position, stack, hasCode);
      }
    }
    assert Run(Between(stack, inComment, quote, hasCode), From(text, position)) == Between(stack, inComment, quote, hasCode);
  }

  /** `scan_lines`: for every line exactly what the automaton says. */
  method ScanLines(lines: seq<string>) returns (states: seq<LineState>)
    requires forall line :: line in lines ==> '\n' !in line
    ensures |states| == |lines|
    ensures forall i :: 0 <= i < |lines| ==> states[i] == StateOf(lines, i)
  {
    states := [];
    var stack: seq<char>, inComment := [], false;
    hide *;
    NothingRead(lines);
    for i := 0 to |lines|
      invariant |states| == i
      invariant forall k :: 0 <= k < i ==> states[k] == StateOf(lines, k)
      invariant NoAdjacentBackticks(stack) && (inComment ==> Top(stack) != Some('`'))
      invariant Run(START, Text(lines[..i])) == Between(stack, inComment, None, false)
    {
      var startTemplate, startComment := Top(stack) == Some('`'), inComment;
      ghost var s := Between(stack, inComment, None, false);
      LineText(lines, i);
      StateIs(lines, i, stack, inComment);
      var hasCode: bool;
      stack, inComment, hasCode := ScanLine(lines[i], stack, inComment);
      states := states + [LineState(startTemplate, startComment, hasCode)];
    }
  }

  lemma StateIs(lines: seq<string>, i: nat, stack: seq<char>, inComment: bool)
    requires i < |lines| && Run(START, Text(lines[..i])) == Between(stack, inComment, None, false)
    requires inComment ==> Top(stack) != Some('`')
    ensures
      StateOf(lines, i) ==
        LineState(Top(stack) == Some('`'), inComment, HasCode(Run(Between(stack, inComment, None, false), lines[i])))
  {
    hide Run, Text, HasCode;
  }

  lemma NothingRead(lines: seq<string>)
    ensures Run(START, Text(lines[..0])) == Between([], false, None, false) && NoAdjacentBackticks([])
  {
  }

  lemma LineText(lines: seq<string>, i: nat)
    requires i < |lines|
    ensures Run(START, Text(lines[..i + 1])) == EndLine(Run(Run(START, Text(lines[..i])), lines[i]))
  {
    var before, line := Text(lines[..i]), lines[i];
    assert lines[..i + 1][..i] == lines[..i];
    RunConcat(START, before + line, "\n");
    RunConcat(START, before, line);
    assert "\n"[..0] == "";
  }

  /** At every line start the scanner is between tokens, so the flags are never both set. */
  lemma LineStartModes(lines: seq<string>, i: nat)
    requires i < |lines|
    ensures !(StateOf(lines, i).inTemplate && StateOf(lines, i).inComment)
    ensures Run(START, Text(lines[..i])).mode in {Code, Block, Template}
    ensures Consistent(Run(START, Text(lines[..i])))
  {
    RunConsistent(START, Text(lines[..i]));
    if i > 0 {
      LineText(lines, i - 1);
    }
  }
}
