/** `_declaration_end` and `non_runtime_lines`: where a type declaration ends, and which lines
    hold no code that runs. */
module DeclarationEnd {
  import opened Collections
  import opened Strings
  import opened Brackets
  import opened LineLexer
  import opened DeclarationTokens
  import opened BracketRestart
  import opened EndLines

  // ----- lines and results

  ghost predicate PlainLines(lines: seq<string>) {
    forall line :: line in lines ==> '\n' !in line
  }

  predicate IsBlank(line: string) {
    forall c :: c in line ==> IsSpace(c)
  }

  /** The first line from `index` on that is not blank begins at the left margin. */
  predicate MarginFollows(lines: seq<string>, index: nat)
    decreases |lines| - index
  {
    index < |lines| &&
    if IsBlank(lines[index]) then MarginFollows(lines, index + 1) else !IsSpace(lines[index][0])
  }

  /** Why the scan stopped, and where. */
  datatype Stop =
    | Semicolon(index: nat, position: nat) | BlockEnd(index: nat, position: nat) | Margin(index: nat)
    | Unbalanced(index: nat, position: nat) | OpenQuote(index: nat) | NoEnd

  /** The text from the declaration's first line up to a position of a later line. */
  function TextTo(lines: seq<string>, start: nat, index: nat, position: nat): string
    requires start <= index < |lines| && position <= |lines[index]|
  {
    Text(lines[start..index]) + lines[index][..position]
  }

  ghost predicate IsNestedCode(text: string) {
    Nested(CodeBrackets(START, text))
  }

  predicate InQuote(mode: Mode) {
    mode.Quoted? || mode.QuotedEscape?
  }

  /** A declaration ends at a semicolon or after a block's last brace with all brackets of
      the code before it well nested, or, without a semicolon, where the next code begins
      at the margin. It has no end if a bracket does not match, a quote is left open at the end of a
      line, or the text ends. */
  ghost predicate StopsAt(lines: seq<string>, start: nat, block: bool, stop: Stop, end: Option<nat>) {
    match stop
    case Semicolon(i, p) =>
      && start <= i < |lines| && p < |lines[i]| && lines[i][p] == ';'
      && IsNestedCode(TextTo(lines, start, i, p))
      && Run(START, TextTo(lines, start, i, p)).mode in {Code, Slash}
      && Run(START, TextTo(lines, start, i, p)).stack == []
      && end == EndLineOf(lines, start, i, p + 1)
    case BlockEnd(i, p) =>
      && block && start <= i < |lines| && p < |lines[i]| && lines[i][p] == '}'
      && IsNestedCode(TextTo(lines, start, i, p + 1))
      && !IsNestedCode(TextTo(lines, start, i, p))
      && Run(START, TextTo(lines, start, i, p + 1)).mode == Code
      && Run(START, TextTo(lines, start, i, p + 1)).stack == []
      && end == EndLineOf(lines, start, i, p + 1)
    case Margin(i) =>
      && !block && start <= i < |lines|
      && IsNestedCode(Text(lines[start..i + 1]))
      && Run(START, Text(lines[start..i + 1])).mode == Code
      && Run(START, Text(lines[start..i + 1])).stack == []
      && MarginFollows(lines, i + 1) && end == Some(i)
    case Unbalanced(i, p) =>
      && start <= i < |lines| && p < |lines[i]|
      && Reduce("", CodeBrackets(START, TextTo(lines, start, i, p))).Some?
      && Reduce("", CodeBrackets(START, TextTo(lines, start, i, p + 1))) == None
      && end == None
    case OpenQuote(i) =>
      && start <= i < |lines|
      && InQuote(Run(START, TextTo(lines, start, i, |lines[i]|)).mode)
      && end == None
    case NoEnd => end == None
  }

  lemma CharsEmpty(stack: seq<Opened>)
    ensures Chars(stack) == "" <==> stack == []
  {
  }

  lemma NestedWhenEmpty(text: string, v: Vars, next: Option<char>)
    requires Reading(text, v, next)
    ensures IsNestedCode(text) <==> v.stack == []
  {
    NestedIffReduces(CodeBrackets(START, text));
    CharsEmpty(v.stack);
  }

  /** The next line begins where the last one ended. */
  lemma LineRead(lines: seq<string>, start: nat, index: nat, v: Vars, next: Option<char>)
    requires start <= index < |lines| && PlainLines(lines)
    requires WentOn(lines, start, index, v)
    requires v.quote == None || v.quote == Some('`')
    ensures Reading(Text(lines[start..index + 1]), v, next)
    ensures v == Vars(v.stack, None, false) ==> Run(START, Text(lines[start..index + 1])).mode == Code
  {
    TextLine(lines, start, index);
    LineWhole(lines, start, index, v);
    hide Reading, Text;
    NewlineRead(Text(lines[start..index]) + lines[index], v, next);
  }

  lemma TextLine(lines: seq<string>, start: nat, index: nat)
    requires start <= index < |lines|
    ensures Text(lines[start..index + 1]) == Text(lines[start..index]) + lines[index] + ['\n']
  {
    assert lines[start..index + 1] == lines[start..index] + [lines[index]];
    assert (lines[start..index] + [lines[index]])[..index - start] == lines[start..index];
  }

  lemma LineWhole(lines: seq<string>, start: nat, index: nat, v: Vars)
    requires start <= index < |lines| && WentOn(lines, start, index, v)
    ensures Reading(Text(lines[start..index]) + lines[index], v, None)
    ensures v.inComment ==> v.quote == None
  {
    hide Reading, Text;
    var p :| p >= |lines[index]| && ReadingLine(Text(lines[start..index]), lines[index], p, v);
    assert Upto(lines[index], p) == lines[index];
  }

  lemma LineEnded(v: Vars, code: bool)
    requires (v.inComment ==> v.quote == None) && (v.quote == None || v.quote == Some('`'))
    ensures EndLine(v.Lex(code)) == v.Lex(false)
    ensures v == Vars(v.stack, None, false) ==> v.Lex(false).mode == Code
  {
    FlatTop(v.stack);
    hide Flat;
  }

  lemma NewlineRead(text: string, v: Vars, next: Option<char>)
    requires Reading(text, v, None) && (v.inComment ==> v.quote == None) && (v.quote == None || v.quote == Some('`'))
    ensures Reading(text + ['\n'], v, next)
    ensures v == Vars(v.stack, None, false) ==> Run(START, text + ['\n']).mode == Code
  {
    LineBroken(text);
    var code :| Follows(Run(START, text), v.Lex(code), None);
    FollowsEnd(Run(START, text), v.Lex(code));
    LineEnded(v, code);
    hide Run, CodeBrackets, Reduce, EndLine, At, Chars;
    assert Follows(Run(START, text + ['\n']), v.Lex(false), next);
  }

  lemma LineBroken(text: string)
    ensures Run(START, text + ['\n']) == EndLine(Run(START, text))
    ensures CodeBrackets(START, text + ['\n']) == CodeBrackets(START, text)
  {
    OneChar(text, '\n');
    hide Run, CodeBrackets;
    assert CodeBrackets(START, text) + "" == CodeBrackets(START, text);
  }

  // ----- where a declaration stops

  /** Once the block is open, its brace stays at the bottom of the stack. */
  predicate BlockOpen(inBlock: bool, block: bool, stack: seq<Opened>) {
    inBlock ==> block && stack != [] && stack[0] == Brace
  }

  lemma NoEndStops(lines: seq<string>, start: nat, block: bool)
    ensures StopsAt(lines, start, block, NoEnd, None)
  {
  }

  /** A closer that the top of the stack does not match. */
  lemma UnbalancedStops(lines: seq<string>, start: nat, index: nat, p: nat, block: bool, stack: seq<Opened>)
    requires start <= index < |lines| && p < |lines[index]| && IsCloser(lines[index][p])
    requires stack == [] || Closer(stack[|stack| - 1].Char()) != lines[index][p]
    requires ReadingLine(Text(lines[start..index]), lines[index], p, Vars(stack, None, false))
    ensures StopsAt(lines, start, block, Unbalanced(index, p), None)
  {
    var text, c := TextTo(lines, start, index, p), lines[index][p];
    TextHere(lines, start, index, p, Vars(stack, None, false));
    hide *;
    CloserUnmatched(text, stack, c);
    UnbalancedIs(lines, start, index, p, block);
  }

  lemma UnbalancedIs(lines: seq<string>, start: nat, index: nat, p: nat, block: bool)
    requires start <= index < |lines| && p < |lines[index]|
    requires Reduce("", CodeBrackets(START, TextTo(lines, start, index, p))).Some?
    requires Reduce("", CodeBrackets(START, TextTo(lines, start, index, p) + [lines[index][p]])) == None
    ensures StopsAt(lines, start, block, Unbalanced(index, p), None)
  {
    hide Run, CodeBrackets, Reduce, Text, IsNestedCode, EndLineOf, MarginFollows;
    assert TextTo(lines, start, index, p + 1) == TextTo(lines, start, index, p) + [lines[index][p]];
  }

  lemma TextHere(lines: seq<string>, start: nat, index: nat, p: nat, v: Vars)
    requires start <= index < |lines| && p < |lines[index]| && ReadingLine(Text(lines[start..index]), lines[index], p, v)
    ensures Reading(TextTo(lines, start, index, p), v, Some(lines[index][p])) && '\n' !in lines[index]
  {
    hide Reading, Text;
    assert TextTo(lines, start, index, p) == Text(lines[start..index]) + Upto(lines[index], p);
  }

  lemma CloserUnmatched(text: string, stack: seq<Opened>, c: char)
    requires Reading(text, Vars(stack, None, false), Some(c)) && IsCloser(c)
    requires stack == [] || Closer(stack[|stack| - 1].Char()) != c
    ensures Reduce("", CodeBrackets(START, text)).Some? && Reduce("", CodeBrackets(START, text + [c])) == None
  {
    OneChar(text, c);
    CloserIsBracket(text, stack, c);
    hide Run, CodeBrackets, Chars, Follows, BracketOf, Reduce, Closer;
    ReduceConcat("", CodeBrackets(START, text), [c]);
    ClosesNothing(stack, c);
  }

  lemma CloserIsBracket(text: string, stack: seq<Opened>, c: char)
    requires Reading(text, Vars(stack, None, false), Some(c)) && IsCloser(c)
    ensures BracketOf(Run(START, text), c) == [c] && Reduce("", CodeBrackets(START, text)) == Some(Chars(stack))
  {
    hide Run, CodeBrackets, Reduce;
    var code :| Follows(Run(START, text), Vars(stack, None, false).Lex(code), Some(c));
    assert c != '\n' && BracketOf(Vars(stack, None, false).Lex(code), c) == [c];
    FollowsStep(Run(START, text), Vars(stack, None, false).Lex(code), c);
  }

  lemma ClosesNothing(stack: seq<Opened>, c: char)
    requires IsCloser(c) && (stack == [] || Closer(stack[|stack| - 1].Char()) != c)
    ensures Reduce(Chars(stack), [c]) == None
  {
    if stack != [] { CharsPop(stack); }
    CharsEmpty(stack);
    hide Chars;
    ReduceStep(Chars(stack), c);
  }

  lemma QuoteStops(lines: seq<string>, start: nat, index: nat, block: bool, v: Vars)
    requires start <= index < |lines| && WentOn(lines, start, index, v)
    requires v.quote == Some('\'') || v.quote == Some('"')
    ensures StopsAt(lines, start, block, OpenQuote(index), None)
  {
    LineWhole(lines, start, index, v);
    var line := lines[index];
    assert line[..|line|] == line;
    hide WentOn, Run, Text, Reduce, CodeBrackets, Reading, InQuote;
    QuoteByMode(Text(lines[start..index]) + line, v);
  }

  /** At the end of a line a quote is open exactly when the automaton is in it. */
  lemma QuoteByMode(text: string, v: Vars)
    requires Reading(text, v, None) && (v.inComment ==> v.quote == None)
    ensures InQuote(Run(START, text).mode) <==> v.quote.Some? && v.quote != Some('`')
  {
    var code :| Follows(Run(START, text), v.Lex(code), None);
    hide Run, CodeBrackets, Reduce;
    FollowsQuote(Run(START, text), v, code);
  }

  lemma FollowsQuote(actual: Lex, v: Vars, code: bool)
    requires Follows(actual, v.Lex(code), None) && (v.inComment ==> v.quote == None)
    ensures InQuote(actual.mode) <==> v.quote.Some? && v.quote != Some('`')
  {
    hide Flat, EndLine;
  }

  lemma CodeMode(text: string, next: Option<char>)
    requires Reading(text, Vars([], None, false), next) && next.Some?
    ensures Run(START, text).mode in {Code, Slash}
  {
    hide Run, CodeBrackets, Reduce;
    var code :| Follows(Run(START, text), Vars([], None, false).Lex(code), next);
  }

  lemma NothingOpen(text: string, next: Option<char>)
    requires Reading(text, Vars([], None, false), next)
    ensures Run(START, text).stack == []
  {
    assert Flat([]) == [];
    hide Run, CodeBrackets, Reduce, Flat;
    var code :| Follows(Run(START, text), Vars([], None, false).Lex(code), next);
  }

  lemma SemicolonStops(lines: seq<string>, start: nat, index: nat, p: nat, block: bool)
    requires start <= index < |lines| && p < |lines[index]| && lines[index][p] == ';'
    requires ReadingLine(Text(lines[start..index]), lines[index], p, Vars([], None, false))
    ensures StopsAt(lines, start, block, Semicolon(index, p), EndLineOf(lines, start, index, p + 1))
  {
    hide Run, Reading, IsNestedCode, EndLineOf, Text;
    var text := TextTo(lines, start, index, p);
    assert text == Text(lines[start..index]) + Upto(lines[index], p);
    NestedWhenEmpty(text, Vars([], None, false), Some(';'));
    CodeMode(text, Some(';'));
    NothingOpen(text, Some(';'));
  }

  lemma BlockStops(lines: seq<string>, start: nat, index: nat, p: nat, before: Vars)
    requires start <= index < |lines| && p < |lines[index]| && lines[index][p] == '}'
    requires ReadingLine(Text(lines[start..index]), lines[index], p, before) && before == Vars([Brace], None, false)
    requires ReadingLine(Text(lines[start..index]), lines[index], p + 1, Vars([], None, false))
    ensures StopsAt(lines, start, true, BlockEnd(index, p), EndLineOf(lines, start, index, p + 1))
  {
    var text, line := TextTo(lines, start, index, p), lines[index];
    TextHere(lines, start, index, p, before);
    BraceHere(lines, start, index, p);
    hide *;
    NestedWhenEmpty(text, before, Some('}'));
    NestedWhenEmpty(text + ['}'], Vars([], None, false), CharAt(line, p + 1));
    NothingOpen(text + ['}'], CharAt(line, p + 1));
    LastBrace(text);
    BlockEndIs(lines, start, index, p);
  }

  lemma BraceHere(lines: seq<string>, start: nat, index: nat, p: nat)
    requires start <= index < |lines| && p < |lines[index]| && lines[index][p] == '}'
    requires ReadingLine(Text(lines[start..index]), lines[index], p + 1, Vars([], None, false))
    ensures Reading(TextTo(lines, start, index, p) + ['}'], Vars([], None, false), CharAt(lines[index], p + 1))
  {
    hide Reading, Text;
    assert TextTo(lines, start, index, p) + ['}'] == Text(lines[start..index]) + Upto(lines[index], p + 1);
  }

  lemma BlockEndIs(lines: seq<string>, start: nat, index: nat, p: nat)
    requires start <= index < |lines| && p < |lines[index]| && lines[index][p] == '}'
    requires
      var text := TextTo(lines, start, index, p);
      && !IsNestedCode(text) && IsNestedCode(text + ['}'])
      && Run(START, text + ['}']).mode == Code && Run(START, text + ['}']).stack == []
    ensures StopsAt(lines, start, true, BlockEnd(index, p), EndLineOf(lines, start, index, p + 1))
  {
    hide Run, IsNestedCode, EndLineOf, Text, CodeBrackets, Reduce, MarginFollows;
    assert TextTo(lines, start, index, p + 1) == TextTo(lines, start, index, p) + ['}'];
  }

  lemma LastBrace(text: string)
    requires Reading(text, Vars([Brace], None, false), Some('}'))
    ensures Run(START, text + ['}']).mode == Code
  {
    OneChar(text, '}');
    var code :| Follows(Run(START, text), Vars([Brace], None, false).Lex(code), Some('}'));
    FollowsStep(Run(START, text), Vars([Brace], None, false).Lex(code), '}');
    CloserSteps([Brace], '}');
    hide Run, Step, Follows, Flat;
    assert [Brace][..0] == [];
  }

  datatype LineResult = Went(v: Vars, inBlock: bool) | Stopped(stop: Stop, end: Option<nat>)

  ghost predicate WentOn(lines: seq<string>, start: nat, index: nat, v: Vars)
    requires start <= index < |lines|
  {
    exists p :: p >= |lines[index]| && ReadingLine(Text(lines[start..index]), lines[index], p, v)
  }

  lemma OpensKeeps(inBlock: bool, block: bool, stack: seq<Opened>, c: char)
    requires BlockOpen(inBlock, block, stack)
    ensures
      var more := stack + [Opening(c)];
      BlockOpen(inBlock || (block && c == '{' && |more| == 1), block, more)
  {
  }

  lemma ClosesKeeps(inBlock: bool, block: bool, stack: seq<Opened>, c: char)
    requires BlockOpen(inBlock, block, stack) && stack != [] && c == Closer(stack[|stack| - 1].Char())
    ensures inBlock && |stack| == 1 ==> c == '}'
    ensures !(block && inBlock && stack[..|stack| - 1] == []) ==> BlockOpen(inBlock, block, stack[..|stack| - 1])
  {
  }

  lemma PlainKeeps(inBlock: bool, block: bool, stack: seq<Opened>)
    requires BlockOpen(inBlock, block, stack)
    ensures stack != [] && stack[|stack| - 1] == Substitution ==> BlockOpen(inBlock, block, stack[..|stack| - 1])
  {
  }

  // ----- one step of the scanner

  /** `Halt` is the end of the declaration. */
  datatype Move = Go(p: nat, v: Vars, inBlock: bool) | Halt(stop: Stop, end: Option<nat>)

  ghost predicate EndsWithin(lines: seq<string>, start: nat, end: Option<nat>) {
    end.Some? ==> start <= end.value < |lines|
  }

  function StepAt(lines: seq<string>, start: nat, index: nat, block: bool, p: nat, v: Vars, inBlock: bool): (m: Move)
    requires start <= index < |lines| && p < |lines[index]|
    ensures m.Go? ==> p < m.p
    ensures m.Halt? ==> EndsWithin(lines, start, m.end)
  {
    var line := lines[index];
    if v.inComment then
      var r := CommentToken(line, p, v.stack);
      Go(r.p, r.v, inBlock)
    else if v.quote.Some? then
      var r := StringToken(line, p, v.stack, v.quote.value);
      Go(r.p, r.v, inBlock)
    else
      var r := CodeToken(line, p, v.stack);
      match r.token
      case Mismatch => Halt(Unbalanced(index, p), None)
      case Terminator => Halt(Semicolon(index, p), EndLineOf(lines, start, index, p + 1))
      case Opens(c) => Go(r.p, r.v, inBlock || (block && c == '{' && |r.v.stack| == 1))
      case Closes(c) =>
        if block && inBlock && r.v.stack == [] then Halt(BlockEnd(index, p), EndLineOf(lines, start, index, p + 1))
        else Go(r.p, r.v, inBlock)
      case Plain => Go(r.p, r.v, inBlock)
  }

  ghost predicate InLine(lines: seq<string>, start: nat, index: nat, block: bool, p: nat, v: Vars, inBlock: bool) {
    start <= index < |lines| && BlockOpen(inBlock, block, v.stack) && ReadingLine(Text(lines[start..index]), lines[index], p, v)
  }

  /** A token outside strings and comments, as the loop sees it. */
  lemma CodeTokenShape(line: string, p: nat, stack: seq<Opened>)
    requires p < |line|
    ensures
      var r := CodeToken(line, p, stack);
      match r.token
      case Terminator => line[p] == ';' && stack == []
      case Opens(c) => r.v.stack == stack + [Opening(c)]
      case Closes(c) =>
        && r.p == p + 1 && r.v == Vars(r.v.stack, None, false) && c == line[p]
        && stack != [] && r.v.stack == stack[..|stack| - 1] && c == Closer(stack[|stack| - 1].Char())
      case Plain => r.v.stack == stack || (stack != [] && r.v.stack == stack[..|stack| - 1] && stack[|stack| - 1] == Substitution)
      case Mismatch => IsCloser(line[p]) && (stack == [] || Closer(stack[|stack| - 1].Char()) != line[p])
  {
  }

  lemma CodeStepReads(lines: seq<string>, start: nat, index: nat, block: bool, p: nat, stack: seq<Opened>, inBlock: bool)
    requires InLine(lines, start, index, block, p, Vars(stack, None, false), inBlock) && p < |lines[index]|
    ensures
      var m := StepAt(lines, start, index, block, p, Vars(stack, None, false), inBlock);
      && (m.Go? ==> InLine(lines, start, index, block, m.p, m.v, m.inBlock))
      && (m.Halt? ==> StopsAt(lines, start, block, m.stop, m.end))
  {
    var line, r := lines[index], CodeToken(lines[index], p, stack);
    hide ReadingLine, StopsAt, Text, EndLineOf, Closer, BlockOpen, CodeToken;
    CodeTokenReads(Text(lines[start..index]), line, p, stack);
    CodeTokenShape(line, p, stack);
    match r.token {
      case Mismatch => UnbalancedStops(lines, start, index, p, block, stack);
      case Terminator => SemicolonStops(lines, start, index, p, block);
      case Opens(c) => OpensKeeps(inBlock, block, stack, c);
      case Closes(c) =>
        ClosesKeeps(inBlock, block, stack, c);
        if block && inBlock && r.v.stack == [] {
          assert stack == [stack[0]] == [Brace];
          BlockStops(lines, start, index, p, Vars(stack, None, false));
        }
      case Plain => PlainKeeps(inBlock, block, stack);
    }
  }

  lemma StepReads(lines: seq<string>, start: nat, index: nat, block: bool, p: nat, v: Vars, inBlock: bool)
    requires InLine(lines, start, index, block, p, v, inBlock) && p < |lines[index]|
    ensures
      var m := StepAt(lines, start, index, block, p, v, inBlock);
      && (m.Go? ==> InLine(lines, start, index, block, m.p, m.v, m.inBlock))
      && (m.Halt? ==> StopsAt(lines, start, block, m.stop, m.end))
  {
    var text, line := Text(lines[start..index]), lines[index];
    if v.inComment {
      hide ReadingLine, StopsAt, Text, EndLineOf, CodeToken;
      InCommentUnquoted(text, line, p, v);
      CommentTokenReads(text, line, p, v.stack);
    } else if v.quote.Some? {
      hide ReadingLine, StopsAt, Text, EndLineOf, CodeToken;
      StringTokenReads(text, line, p, v.stack, v.quote.value);
      StringTokenKeeps(line, p, v.stack, v.quote.value, inBlock, block);
    } else {
      hide *;
      CodeStepReads(lines, start, index, block, p, v.stack, inBlock);
    }
  }

  lemma StringTokenKeeps(line: string, p: nat, stack: seq<Opened>, q: char, inBlock: bool, block: bool)
    requires p < |line| && BlockOpen(inBlock, block, stack)
    ensures BlockOpen(inBlock, block, StringToken(line, p, stack, q).v.stack)
  {
  }

  // ----- one line

  function LineFrom(lines: seq<string>, start: nat, index: nat, block: bool, p: nat, v: Vars, inBlock: bool): (r: LineResult)
    requires start <= index < |lines|
    ensures r.Stopped? ==> EndsWithin(lines, start, r.end)
    decreases |lines[index]| - p
  {
    if p >= |lines[index]| then Went(v, inBlock)
    else
      match StepAt(lines, start, index, block, p, v, inBlock)
      case Go(p', v', inBlock') => LineFrom(lines, start, index, block, p', v', inBlock')
      case Halt(stop, end) => Stopped(stop, end)
  }

  lemma {:induction false} LineFromReads(lines: seq<string>, start: nat, index: nat, block: bool, p: nat, v: Vars, inBlock: bool)
    requires InLine(lines, start, index, block, p, v, inBlock)
    ensures
      var r := LineFrom(lines, start, index, block, p, v, inBlock);
      && (r.Went? ==> WentOn(lines, start, index, r.v) && BlockOpen(r.inBlock, block, r.v.stack))
      && (r.Stopped? ==> StopsAt(lines, start, block, r.stop, r.end))
    decreases |lines[index]| - p
  {
    hide ReadingLine, StopsAt, Text, StepAt, BlockOpen, EndsWithin;
    if p < |lines[index]| {
      StepReads(lines, start, index, block, p, v, inBlock);
      var m := StepAt(lines, start, index, block, p, v, inBlock);
      if m.Go? { LineFromReads(lines, start, index, block, m.p, m.v, m.inBlock); }
    }
  }

  /** The loop over the characters of one line. */
  method ScanDeclLine(lines: seq<string>, start: nat, index: nat, block: bool, v0: Vars, inBlock0: bool) returns (r: LineResult)
    requires start <= index < |lines|
    ensures r == LineFrom(lines, start, index, block, 0, v0, inBlock0)
  {
    var p, v, inBlock := 0, v0, inBlock0;
    hide StepAt, EndsWithin;
    while p < |lines[index]|
      invariant LineFrom(lines, start, index, block, p, v, inBlock) == LineFrom(lines, start, index, block, 0, v0, inBlock0)
      decreases |lines[index]| - p
    {
      var m := StepAt(lines, start, index, block, p, v, inBlock);
      if m.Halt? {
        return Stopped(m.stop, m.end);
      }
      p, v, inBlock := m.p, m.v, m.inBlock;
    }
    return Went(v, inBlock);
  }

  /** The line after is reached with this state. */
  lemma NextLine(lines: seq<string>, start: nat, index: nat, v: Vars)
    requires start <= index && index + 1 < |lines| && PlainLines(lines) && WentOn(lines, start, index, v)
    requires v.quote == None || v.quote == Some('`')
    ensures ReadingLine(Text(lines[start..index + 1]), lines[index + 1], 0, v)
  {
    LineRead(lines, start, index, v, CharAt(lines[index + 1], 0));
    assert Text(lines[start..index + 1]) + Upto(lines[index + 1], 0) == Text(lines[start..index + 1]);
    assert lines[index + 1] in lines;
  }

  lemma MarginStops(lines: seq<string>, start: nat, index: nat)
    requires start <= index < |lines| && PlainLines(lines) && WentOn(lines, start, index, Vars([], None, false))
    requires MarginFollows(lines, index + 1)
    ensures StopsAt(lines, start, false, Margin(index), Some(index))
  {
    hide Run, Text, CodeBrackets, Reading, WentOn, MarginFollows, IsNestedCode;
    LineRead(lines, start, index, Vars([], None, false), None);
    NestedWhenEmpty(Text(lines[start..index + 1]), Vars([], None, false), None);
    NothingOpen(Text(lines[start..index + 1]), None);
  }

  lemma FirstLine(lines: seq<string>, start: nat)
    requires start < |lines| && PlainLines(lines)
    ensures ReadingLine(Text(lines[start..start]), lines[start], 0, Vars([], None, false))
  {
    var text := Text(lines[start..start]) + Upto(lines[start], 0);
    assert text == "";
    assert Flat([]) == [] && Chars([]) == "";
    assert Follows(Run(START, ""), Vars([], None, false).Lex(false), CharAt(lines[start], 0));
    assert lines[start] in lines;
  }

  lemma QuoteKept(lines: seq<string>, start: nat, index: nat, v: Vars)
    requires start <= index < |lines| && PlainLines(lines) && WentOn(lines, start, index, v)
    requires v.quote != Some('\'') && v.quote != Some('"')
    ensures index + 1 < |lines| ==> ReadingLine(Text(lines[start..index + 1]), lines[index + 1], 0, v)
  {
    hide Text, ReadingLine, PlainLines;
    QuoteKinds(lines, start, index, v);
    hide WentOn;
    if index + 1 < |lines| { NextLine(lines, start, index, v); }
  }

  lemma QuoteKinds(lines: seq<string>, start: nat, index: nat, v: Vars)
    requires start <= index < |lines| && WentOn(lines, start, index, v)
    ensures v.quote.Some? ==> v.quote.value in {'\'', '"', '`'}
  {
  }

  /** The checks after each line: an unclosed quote, and a blank margin. */
  function LineEnd(lines: seq<string>, index: nat, block: bool, v: Vars, inBlock: bool): LineResult
    requires index < |lines|
  {
    if v.quote == Some('\'') || v.quote == Some('"') then Stopped(OpenQuote(index), None)
    else if !block && v == Vars([], None, false) && MarginFollows(lines, index + 1) then Stopped(Margin(index), Some(index))
    else Went(v, inBlock)
  }

  lemma LineEndReads(lines: seq<string>, start: nat, index: nat, block: bool, v: Vars, inBlock: bool)
    requires start <= index < |lines| && PlainLines(lines) && WentOn(lines, start, index, v)
    ensures
      var r := LineEnd(lines, index, block, v, inBlock);
      && (r.Stopped? ==> StopsAt(lines, start, block, r.stop, r.end))
      && (r.Went? && index + 1 < |lines| ==> ReadingLine(Text(lines[start..index + 1]), lines[index + 1], 0, v))
  {
    hide ReadingLine, Text, WentOn, StopsAt, MarginFollows, PlainLines;
    if v.quote == Some('\'') || v.quote == Some('"') {
      QuoteStops(lines, start, index, block, v);
    } else if !block && v == Vars([], None, false) && MarginFollows(lines, index + 1) {
      MarginStops(lines, start, index);
    } else {
      QuoteKept(lines, start, index, v);
    }
  }

  function ReadLine(lines: seq<string>, start: nat, index: nat, block: bool, v: Vars, inBlock: bool): (r: LineResult)
    requires start <= index < |lines|
    ensures r.Stopped? ==> EndsWithin(lines, start, r.end)
  {
    match LineFrom(lines, start, index, block, 0, v, inBlock)
    case Stopped(stop, end) => Stopped(stop, end)
    case Went(v', inBlock') => LineEnd(lines, index, block, v', inBlock')
  }

  // ----- the declaration

  /** How the declaration ends that is open before line `index`. */
  function DeclarationFrom(lines: seq<string>, start: nat, index: nat, block: bool, v: Vars, inBlock: bool): (r: (Stop, Option<nat>))
    requires start <= index
    ensures EndsWithin(lines, start, r.1)
    decreases |lines| - index
  {
    if index >= |lines| then (NoEnd, None)
    else
      match ReadLine(lines, start, index, block, v, inBlock)
      case Stopped(stop, end) => (stop, end)
      case Went(v', inBlock') => DeclarationFrom(lines, start, index + 1, block, v', inBlock')
  }

  function DeclarationEndOf(lines: seq<string>, start: nat, block: bool): (r: (Stop, Option<nat>))
    ensures EndsWithin(lines, start, r.1)
  {
    DeclarationFrom(lines, start, start, block, Vars([], None, false), false)
  }

  /** What holds before line `index` is read. */
  ghost predicate AtLine(lines: seq<string>, start: nat, index: nat, block: bool, v: Vars, inBlock: bool) {
    start <= index <= |lines| && (index < |lines| ==> InLine(lines, start, index, block, 0, v, inBlock))
  }

  lemma AtFirstLine(lines: seq<string>, start: nat, block: bool)
    requires start < |lines| && PlainLines(lines)
    ensures AtLine(lines, start, start, block, Vars([], None, false), false)
  {
    FirstLine(lines, start);
    hide ReadingLine, Text;
  }

  lemma ReadLineReads(lines: seq<string>, start: nat, index: nat, block: bool, v: Vars, inBlock: bool)
    requires index < |lines| && PlainLines(lines) && AtLine(lines, start, index, block, v, inBlock)
    ensures
      var r := ReadLine(lines, start, index, block, v, inBlock);
      && (r.Went? ==> AtLine(lines, start, index + 1, block, r.v, r.inBlock))
      && (r.Stopped? ==> StopsAt(lines, start, block, r.stop, r.end))
  {
    hide ReadingLine, Text, WentOn, StopsAt, MarginFollows, BlockOpen, PlainLines, LineFrom, EndsWithin;
    LineFromReads(lines, start, index, block, 0, v, inBlock);
    var r := LineFrom(lines, start, index, block, 0, v, inBlock);
    if r.Went? { LineEndReads(lines, start, index, block, r.v, r.inBlock); }
  }

  lemma {:induction false} DeclarationFromStops(lines: seq<string>, start: nat, index: nat, block: bool, v: Vars, inBlock: bool)
    requires PlainLines(lines) && start <= index && AtLine(lines, start, index, block, v, inBlock)
    ensures var r := DeclarationFrom(lines, start, index, block, v, inBlock); StopsAt(lines, start, block, r.0, r.1)
    decreases |lines| - index
  {
    hide AtLine, PlainLines, StopsAt, ReadLine;
    if index < |lines| {
      ReadLineReads(lines, start, index, block, v, inBlock);
      var r := ReadLine(lines, start, index, block, v, inBlock);
      if r.Went? { DeclarationFromStops(lines, start, index + 1, block, r.v, r.inBlock); }
    } else {
      NoEndStops(lines, start, block);
    }
  }

  /** Wherever the scanner ends a declaration, the code brackets from its start are nested. */
  lemma DeclarationStops(lines: seq<string>, start: nat, block: bool)
    requires start < |lines| && PlainLines(lines)
    ensures var r := DeclarationEndOf(lines, start, block); StopsAt(lines, start, block, r.0, r.1)
  {
    hide AtLine, PlainLines, StopsAt, DeclarationFrom;
    AtFirstLine(lines, start, block);
    DeclarationFromStops(lines, start, start, block, Vars([], None, false), false);
  }

  /** `_declaration_end`. */
  method FindDeclarationEnd(lines: seq<string>, start: nat, block: bool) returns (end: Option<nat>)
    requires start < |lines|
    ensures end == DeclarationEndOf(lines, start, block).1
    ensures end.Some? ==> start <= end.value < |lines|
  {
    hide LineFrom, LineEnd;
    var v, inBlock := Vars([], None, false), false;
    for index := start to |lines|
      invariant DeclarationFrom(lines, start, index, block, v, inBlock) == DeclarationEndOf(lines, start, block)
    {
      var r := ScanDeclLine(lines, start, index, block, v, inBlock);
      if r.Went? {
        r := LineEnd(lines, index, block, r.v, r.inBlock);
      }
      if r.Stopped? {
        return r.end;
      }
      v, inBlock := r.v, r.inBlock;
    }
    return None;
  }

  // ----- in the whole text

  /** The text of a declaration up to where it stops. */
  function StopText(lines: seq<string>, start: nat, stop: Stop): string {
    match stop
    case Semicolon(i, p) => if start <= i < |lines| && p <= |lines[i]| then TextTo(lines, start, i, p) else ""
    case BlockEnd(i, p) => if start <= i < |lines| && p < |lines[i]| then TextTo(lines, start, i, p + 1) else ""
    case Margin(i) => if start <= i < |lines| then Text(lines[start..i + 1]) else ""
    case _ => ""
  }

  /** Read from the beginning of the whole text, the code brackets of the declaration are nested, and
      at its stop the stack is what it was at its first line. */
  ghost predicate NestedInWhole(lines: seq<string>, start: nat, stop: Stop)
    requires start < |lines|
  {
    var before, text := Text(lines[..start]), StopText(lines, start, stop);
    Nested(CodeBrackets(Run(START, before), text)) && Run(START, before + text).stack == Run(START, before).stack
  }

  lemma StopTextNested(lines: seq<string>, start: nat, block: bool, stop: Stop, end: nat)
    requires StopsAt(lines, start, block, stop, Some(end))
    ensures var text := StopText(lines, start, stop); IsNestedCode(text) && Run(START, text).stack == []
  {
    hide Run, CodeBrackets, Text, EndLineOf, MarginFollows, IsNestedCode;
  }

  /** Outside templates and comments a line starts in code. */
  lemma LineStartsInCode(lines: seq<string>, i: nat)
    requires i < |lines| && !StateOf(lines, i).inTemplate && !StateOf(lines, i).inComment
    ensures var s := Run(START, Text(lines[..i])); s == Lifted(s.stack, START) && Top(s.stack) != Some('`')
  {
    LineStartModes(lines, i);
    if i > 0 { LineText(lines, i - 1); }
    var s := Run(START, Text(lines[..i]));
    assert s.stack + [] == s.stack;
    hide Run, Text, NoAdjacentBackticks;
  }

  /** The automaton that reads the whole text sees the brackets that the one restarted at the
      declaration does. */
  lemma StopsInWhole(lines: seq<string>, start: nat, block: bool, stop: Stop, end: nat)
    requires start < |lines| && StopsAt(lines, start, block, stop, Some(end))
    requires !StateOf(lines, start).inTemplate && !StateOf(lines, start).inComment
    ensures NestedInWhole(lines, start, stop)
  {
    var before, text := Text(lines[..start]), StopText(lines, start, stop);
    StopTextNested(lines, start, block, stop, end);
    LineStartsInCode(lines, start);
    NestedIffReduces(CodeBrackets(START, text));
    hide Run, CodeBrackets, Reduce, Nested, StopText, Text, StateOf, StopsAt;
    ReadAlike(Run(START, before).stack, text);
    RunConcat(START, before, text);
    assert Run(START, before).stack + [] == Run(START, before).stack;
  }

  // ----- `non_runtime_lines`

  /** A matched declaration keyword: a block like `interface`, or a statement. */
  datatype Keyword = NoDeclaration | Declaration(block: bool)

  /** The last line of the declaration that begins at line `index`, if one is recognised there. */
  function DeclaredTo(lines: seq<string>, keyword: string -> Keyword, index: nat): (end: Option<nat>)
    requires index < |lines|
    ensures EndsWithin(lines, index, end)
  {
    if StateOf(lines, index).inComment || keyword(lines[index]) == NoDeclaration then None
    else DeclarationEndOf(lines, index, keyword(lines[index]).block).1
  }

  function Range(from: nat, to: nat): (r: set<nat>)
    ensures forall n :: (n in r) <==> (from <= n < to)
    decreases if from < to then to - from else 0
  {
    if from >= to then {} else {from} + Range(from + 1, to)
  }

  /** The lines marked from line `index` on: lines outside templates that hold no code, and the
      declarations that begin where no earlier one is still open. */
  function MarkedFrom(lines: seq<string>, keyword: string -> Keyword, index: nat): set<nat>
    decreases |lines| - index
  {
    if index >= |lines| then {}
    else
      var state := StateOf(lines, index);
      if state.inTemplate then MarkedFrom(lines, keyword, index + 1)
      else if !state.hasCode then {index + 1} + MarkedFrom(lines, keyword, index + 1)
      else
        var end := DeclaredTo(lines, keyword, index);
        if end.Some? then Range(index + 1, end.value + 2) + MarkedFrom(lines, keyword, end.value + 1)
        else MarkedFrom(lines, keyword, index + 1)
  }

  /** The body of the loop: the lines marked at line `index`, and the line to go on from. */
  method MarkAt(lines: seq<string>, keyword: string -> Keyword, state: LineState, index: nat) returns (marked: set<nat>, next: nat)
    requires index < |lines| && state == StateOf(lines, index)
    ensures index < next <= |lines|
    ensures MarkedFrom(lines, keyword, index) == marked + MarkedFrom(lines, keyword, next)
  {
    hide StateOf, DeclarationEndOf;
    marked, next := {}, index + 1;
    if !state.inTemplate {
      if !state.hasCode {
        marked := {index + 1};
      } else if !state.inComment && keyword(lines[index]).Declaration? {
        var end := FindDeclarationEnd(lines, index, keyword(lines[index]).block);
        if end.Some? {
          marked, next := Range(index + 1, end.value + 2), end.value + 1;
        }
      }
    }
  }

  /** `non_runtime_lines`; line numbers are 1-based. It terminates since no declaration ends
      before it begins. */
  method NonRuntimeLines(lines: seq<string>, keyword: string -> Keyword) returns (result: set<nat>)
    requires PlainLines(lines)
    ensures result == MarkedFrom(lines, keyword, 0)
  {
    var states := ScanLines(lines);
    result := {};
    var index := 0;
    hide StateOf;
    while index < |lines|
      invariant index <= |lines|
      invariant result + MarkedFrom(lines, keyword, index) == MarkedFrom(lines, keyword, 0)
      decreases |lines| - index
    {
      var marked, next := MarkAt(lines, keyword, states[index], index);
      hide MarkedFrom;
      result := result + marked;
      index := next;
    }
  }
}
