/** The declaration ends at the first place, by the automaton, where it can: none before it is
    overlooked, and none after it is taken. */
module FirstStop {
  import opened Collections
  import opened Strings
  import opened Brackets
  import opened LineLexer
  import opened DeclarationTokens
  import opened DeclarationEnd
  import opened EndLines

  // ----- where a declaration could end

  /** A semicolon of the code with no bracket open. */
  ghost predicate SemicolonAt(lines: seq<string>, start: nat, i: nat, k: nat)
    requires start <= i < |lines| && k < |lines[i]|
  {
    var text := TextTo(lines, start, i, k);
    lines[i][k] == ';' && Run(START, text).mode in {Code, Slash} && IsNestedCode(text)
  }

  /** A brace after which no bracket is open any more, and that ends no substitution. */
  ghost predicate BraceAt(lines: seq<string>, start: nat, i: nat, k: nat)
    requires start <= i < |lines| && k < |lines[i]|
  {
    var text := TextTo(lines, start, i, k);
    lines[i][k] == '}' && Run(START, text + ['}']).mode == Code && IsNestedCode(text + ['}']) && !IsNestedCode(text)
  }

  /** A line with nothing open at its end, after which code begins at the margin. */
  ghost predicate MarginAt(lines: seq<string>, start: nat, i: nat)
    requires start <= i < |lines|
  {
    var text := Text(lines[start..i + 1]);
    IsNestedCode(text) && Run(START, text).mode == Code && MarginFollows(lines, i + 1)
  }

  ghost predicate StopHere(lines: seq<string>, start: nat, block: bool, i: nat, k: nat)
    requires start <= i < |lines| && k < |lines[i]|
  {
    SemicolonAt(lines, start, i, k) || (block && BraceAt(lines, start, i, k))
  }

  ghost predicate NoStopIn(lines: seq<string>, start: nat, block: bool, i: nat, from: nat, to: nat)
    requires start <= i < |lines|
  {
    forall k :: from <= k < to && k < |lines[i]| ==> !StopHere(lines, start, block, i, k)
  }

  ghost predicate NoStopOn(lines: seq<string>, start: nat, block: bool, i: nat)
    requires start <= i < |lines|
  {
    && NoStopIn(lines, start, block, i, 0, |lines[i]|)
    && !InQuote(Run(START, TextTo(lines, start, i, |lines[i]|)).mode)
    && (!block ==> !MarginAt(lines, start, i))
  }

  ghost predicate NoStopBefore(lines: seq<string>, start: nat, block: bool, index: nat)
    requires start <= index <= |lines|
  {
    forall i :: start <= i < index ==> NoStopOn(lines, start, block, i)
  }

  // ----- no stop inside a token

  /** The automaton's state where the scanner is. */
  lemma StateHere(lines: seq<string>, start: nat, index: nat, p: nat, v: Vars) returns (s: Lex, code: bool)
    requires start <= index < |lines| && p < |lines[index]| && ReadingLine(Text(lines[start..index]), lines[index], p, v)
    ensures s == Run(START, TextTo(lines, start, index, p)) && Follows(s, v.Lex(code), Some(lines[index][p]))
  {
    hide Run, Text, CodeBrackets, Reduce, Follows;
    s := Run(START, TextTo(lines, start, index, p));
    assert TextTo(lines, start, index, p) == Text(lines[start..index]) + Upto(lines[index], p);
    code :| Follows(s, v.Lex(code), Some(lines[index][p]));
  }

  lemma NoneInOne(lines: seq<string>, start: nat, block: bool, i: nat, p: nat)
    requires start <= i < |lines| && p < |lines[i]| && !StopHere(lines, start, block, i, p)
    ensures NoStopIn(lines, start, block, i, p, p + 1)
  {
    hide StopHere;
  }

  lemma NoneInTwo(lines: seq<string>, start: nat, block: bool, i: nat, p: nat)
    requires start <= i < |lines| && p < |lines[i]| && !StopHere(lines, start, block, i, p)
    requires p + 1 < |lines[i]| ==> !StopHere(lines, start, block, i, p + 1)
    ensures NoStopIn(lines, start, block, i, p, p + 2)
  {
    hide StopHere;
  }

  /** No character but these two can be a stop. */
  lemma OtherChar(lines: seq<string>, start: nat, block: bool, i: nat, k: nat)
    requires start <= i < |lines| && k < |lines[i]| && lines[i][k] != ';' && lines[i][k] != '}'
    ensures !StopHere(lines, start, block, i, k)
  {
    hide Run, IsNestedCode, Text;
  }

  /** Nor can a character that the automaton does not read as code, before and after. */
  lemma NotCode(lines: seq<string>, start: nat, block: bool, i: nat, k: nat)
    requires start <= i < |lines| && k < |lines[i]|
    requires Run(START, TextTo(lines, start, i, k)).mode !in {Code, Slash}
    requires Step(Run(START, TextTo(lines, start, i, k)), '}').mode != Code
    ensures !StopHere(lines, start, block, i, k)
  {
    OneChar(TextTo(lines, start, i, k), '}');
    hide Run, IsNestedCode, Text, Step;
  }

  lemma InsideComment(s: Lex, between: Lex, next: Option<char>)
    requires Follows(s, between, next) && next.Some? && between.mode == Block
    ensures s.mode in {Block, Star} && Step(s, '}').mode != Code
  {
    hide CodeStep, TemplateStep, EndLine;
  }

  lemma InsideString(s: Lex, between: Lex, next: Option<char>)
    requires Follows(s, between, next) && next.Some? && (between.mode.Template? || (between.mode.Quoted? && between.mode.q != '}'))
    ensures s.mode !in {Code, Slash} && Step(s, '}').mode != Code
    ensures Step(s, '\\').mode.TemplateEscape? || Step(s, '\\').mode.QuotedEscape?
  {
    hide CodeStep, EndLine;
  }

  lemma InsideEscape(s: Lex)
    requires s.mode.TemplateEscape? || s.mode.QuotedEscape?
    ensures s.mode !in {Code, Slash} && Step(s, '}').mode != Code
  {
    hide CodeStep, EndLine, TemplateStep;
  }

  lemma CommentHasNone(lines: seq<string>, start: nat, index: nat, block: bool, p: nat, stack: seq<Opened>)
    requires start <= index < |lines| && p < |lines[index]|
    requires ReadingLine(Text(lines[start..index]), lines[index], p, Vars(stack, None, true))
    ensures NoStopIn(lines, start, block, index, p, CommentToken(lines[index], p, stack).p)
  {
    hide Run, Text, StopHere, Follows, Step, ReadingLine, NoStopIn;
    var s, code := StateHere(lines, start, index, p, Vars(stack, None, true));
    InsideComment(s, Vars(stack, None, true).Lex(code), Some(lines[index][p]));
    NotCode(lines, start, block, index, p);
    if Pair(lines[index], p, '*', '/') {
      OtherChar(lines, start, block, index, p + 1);
      NoneInTwo(lines, start, block, index, p);
    } else {
      NoneInOne(lines, start, block, index, p);
    }
  }

  /** The character after a backslash in a string. */
  lemma EscapedIsNone(lines: seq<string>, start: nat, index: nat, block: bool, p: nat)
    requires start <= index < |lines| && p + 1 < |lines[index]| && lines[index][p] == '\\'
    requires var s := Run(START, TextTo(lines, start, index, p)); Step(s, '\\').mode.TemplateEscape? || Step(s, '\\').mode.QuotedEscape?
    ensures !StopHere(lines, start, block, index, p + 1)
  {
    hide Run, Text, StopHere, Step;
    NextState(lines, start, index, p);
    InsideEscape(Step(Run(START, TextTo(lines, start, index, p)), '\\'));
    NotCode(lines, start, block, index, p + 1);
  }

  lemma StringHasNone(lines: seq<string>, start: nat, index: nat, block: bool, p: nat, stack: seq<Opened>, q: char)
    requires start <= index < |lines| && p < |lines[index]| && q in {'\'', '"', '`'}
    requires ReadingLine(Text(lines[start..index]), lines[index], p, Vars(stack, Some(q), false))
    ensures NoStopIn(lines, start, block, index, p, StringToken(lines[index], p, stack, q).p)
  {
    hide Run, Text, StopHere, Follows, Step, ReadingLine, NoStopIn;
    var line, v := lines[index], Vars(stack, Some(q), false);
    var s, code := StateHere(lines, start, index, p, v);
    InsideString(s, v.Lex(code), Some(line[p]));
    NotCode(lines, start, block, index, p);
    if line[p] == '\\' {
      if p + 1 < |line| { EscapedIsNone(lines, start, index, block, p); }
      NoneInTwo(lines, start, block, index, p);
    } else if q == '`' && Pair(line, p, '$', '{') {
      OtherChar(lines, start, block, index, p + 1);
      NoneInTwo(lines, start, block, index, p);
    } else {
      NoneInOne(lines, start, block, index, p);
    }
  }

  lemma NextState(lines: seq<string>, start: nat, i: nat, k: nat)
    requires start <= i < |lines| && k < |lines[i]|
    ensures TextTo(lines, start, i, k + 1) == TextTo(lines, start, i, k) + [lines[i][k]]
    ensures Run(START, TextTo(lines, start, i, k + 1)) == Step(Run(START, TextTo(lines, start, i, k)), lines[i][k])
  {
    assert TextTo(lines, start, i, k + 1) == TextTo(lines, start, i, k) + [lines[i][k]];
    OneChar(TextTo(lines, start, i, k), lines[i][k]);
    hide Run, Text, Step;
  }
  // ----- code

  lemma LineCommentHasNone(lines: seq<string>, start: nat, index: nat, block: bool, p: nat, stack: seq<Opened>)
    requires start <= index < |lines| && Pair(lines[index], p, '/', '/')
    requires ReadingLine(Text(lines[start..index]), lines[index], p, Vars(stack, None, false))
    ensures NoStopIn(lines, start, block, index, p, |lines[index]|)
  {
    hide StopHere, ReadingLine;
    forall k | p <= k < |lines[index]| ensures !StopHere(lines, start, block, index, k) {
      if k < p + 2 {
        OtherChar(lines, start, block, index, k);
      } else {
        InLineComment(lines, start, index, p, k, stack);
        InsideLineComment(Run(START, TextTo(lines, start, index, k)));
        NotCode(lines, start, block, index, k);
      }
    }
  }

  lemma InsideLineComment(s: Lex)
    requires s.mode == LineComment
    ensures Step(s, '}').mode != Code
  {
  }

  lemma InLineComment(lines: seq<string>, start: nat, index: nat, p: nat, k: nat, stack: seq<Opened>)
    requires start <= index < |lines| && Pair(lines[index], p, '/', '/') && p + 2 <= k <= |lines[index]|
    requires ReadingLine(Text(lines[start..index]), lines[index], p, Vars(stack, None, false))
    ensures Run(START, TextTo(lines, start, index, k)).mode == LineComment
  {
    var line, before := lines[index], TextTo(lines, start, index, p);
    TextHere(lines, start, index, p, Vars(stack, None, false));
    var code := SlashSlash(before, Vars(stack, None, false));
    CommentTail(lines, start, index, p, k);
    hide *;
    SilentComment(before + ['/', '/'], line[p + 2..k]);
  }

  lemma CommentTail(lines: seq<string>, start: nat, index: nat, p: nat, k: nat)
    requires start <= index < |lines| && Pair(lines[index], p, '/', '/') && p + 2 <= k <= |lines[index]|
    requires '\n' !in lines[index]
    ensures TextTo(lines, start, index, k) == TextTo(lines, start, index, p) + ['/', '/'] + lines[index][p + 2..k]
    ensures '\n' !in lines[index][p + 2..k]
  {
    hide Text;
    var line := lines[index];
    assert line[..k] == line[..p] + ['/', '/'] + line[p + 2..k];
    assert forall c :: c in line[p + 2..k] ==> c in line;
  }

  /** The bracket of a block's brace at the bottom of the stack is known to be open. */
  predicate Bottom(block: bool, inBlock: bool, stack: seq<Opened>) {
    block && stack != [] && stack[0] == Brace ==> inBlock
  }

  lemma OpenSemicolon(lines: seq<string>, start: nat, index: nat, block: bool, p: nat, stack: seq<Opened>)
    requires start <= index < |lines| && p < |lines[index]| && lines[index][p] == ';' && stack != []
    requires ReadingLine(Text(lines[start..index]), lines[index], p, Vars(stack, None, false))
    ensures !StopHere(lines, start, block, index, p)
  {
    var text := TextTo(lines, start, index, p);
    assert text == Text(lines[start..index]) + Upto(lines[index], p);
    hide Run, Text, Reading, IsNestedCode;
    NestedWhenEmpty(text, Vars(stack, None, false), Some(';'));
  }

  lemma PastChar(lines: seq<string>, start: nat, index: nat, p: nat)
    requires start <= index < |lines| && p < |lines[index]|
    ensures TextTo(lines, start, index, p) + [lines[index][p]] == Text(lines[start..index]) + Upto(lines[index], p + 1)
  {
    hide Text;
  }

  lemma OpenBrace(lines: seq<string>, start: nat, index: nat, block: bool, p: nat, v: Vars)
    requires start <= index < |lines| && p < |lines[index]| && lines[index][p] == '}' && v.stack != []
    requires ReadingLine(Text(lines[start..index]), lines[index], p + 1, v)
    ensures !StopHere(lines, start, block, index, p)
  {
    var text := TextTo(lines, start, index, p);
    PastChar(lines, start, index, p);
    assert Reading(text + ['}'], v, CharAt(lines[index], p + 1));
    hide Run, Text, Reading, IsNestedCode, TextTo, Upto;
    NestedWhenEmpty(text + ['}'], v, CharAt(lines[index], p + 1));
  }

  lemma SubstitutionBrace(lines: seq<string>, start: nat, index: nat, block: bool, p: nat, stack: seq<Opened>)
    requires start <= index < |lines| && p < |lines[index]| && lines[index][p] == '}'
    requires stack != [] && stack[|stack| - 1] == Substitution
    requires ReadingLine(Text(lines[start..index]), lines[index], p, Vars(stack, None, false))
    ensures !StopHere(lines, start, block, index, p)
  {
    hide ReadingLine, Text;
    var v := Vars(stack, None, false);
    var s, code := StateHere(lines, start, index, p, v);
    FollowsStep(s, v.Lex(code), '}');
    CloserSteps(stack, '}');
    OneChar(TextTo(lines, start, index, p), '}');
    hide Run, IsNestedCode, Follows, Step, Flat;
  }

  lemma CloserHasNone(lines: seq<string>, start: nat, index: nat, block: bool, p: nat, stack: seq<Opened>, inBlock: bool)
    requires start <= index < |lines| && p < |lines[index]| && IsCloser(lines[index][p])
    requires stack != [] && Closer(stack[|stack| - 1].Char()) == lines[index][p] && Bottom(block, inBlock, stack)
    requires block && inBlock ==> |stack| > 1 || stack[0] == Substitution
    requires ReadingLine(Text(lines[start..index]), lines[index], p, Vars(stack, None, false))
    requires var r := CloseToken(p, stack, lines[index][p]); ReadingLine(Text(lines[start..index]), lines[index], p + 1, r.v)
    ensures !StopHere(lines, start, block, index, p)
  {
    hide ReadingLine, Text, Run, IsNestedCode;
    if lines[index][p] != '}' {
      ParenIsNone(lines, start, block, index, p);
    } else if stack[|stack| - 1] == Substitution {
      SubstitutionBrace(lines, start, index, block, p, stack);
    } else if |stack| > 1 {
      OpenBrace(lines, start, index, block, p, CloseToken(p, stack, '}').v);
    } else {
      NoBlock(lines, start, index, p);
    }
  }

  lemma ParenIsNone(lines: seq<string>, start: nat, block: bool, i: nat, k: nat)
    requires start <= i < |lines| && k < |lines[i]| && lines[i][k] in {')', ']'}
    ensures !StopHere(lines, start, block, i, k)
  {
    OtherChar(lines, start, block, i, k);
  }

  /** A brace is no stop of a declaration that is no block. */
  lemma NoBlock(lines: seq<string>, start: nat, i: nat, k: nat)
    requires start <= i < |lines| && k < |lines[i]| && lines[i][k] == '}'
    ensures !StopHere(lines, start, false, i, k)
  {
    hide Run, Text, IsNestedCode;
  }
  lemma BracketHasNone(lines: seq<string>, start: nat, index: nat, block: bool, p: nat, stack: seq<Opened>, inBlock: bool)
    requires start <= index < |lines| && p < |lines[index]| && Bottom(block, inBlock, stack)
    requires ReadingLine(Text(lines[start..index]), lines[index], p, Vars(stack, None, false))
    requires lines[index][p] !in {'\'', '"', '`'} && !Pair(lines[index], p, '/', '/') && !Pair(lines[index], p, '/', '*')
    requires var r := BracketToken(lines[index][p], p, stack);
      r.token !in {Terminator, Mismatch} && !(block && inBlock && r.token.Closes? && r.v.stack == [])
    ensures !StopHere(lines, start, block, index, p)
  {
    var c := lines[index][p];
    hide ReadingLine, Text, StopHere, Closer;
    if IsCloser(c) {
      BracketTokenReads(Text(lines[start..index]), lines[index], p, stack);
      CloserHasNone(lines, start, index, block, p, stack, inBlock);
    } else if c == ';' {
      OpenSemicolon(lines, start, index, block, p, stack);
    } else {
      OtherChar(lines, start, block, index, p);
    }
  }

  lemma CodeHasNone(lines: seq<string>, start: nat, index: nat, block: bool, p: nat, stack: seq<Opened>, inBlock: bool)
    requires start <= index < |lines| && p < |lines[index]| && Bottom(block, inBlock, stack)
    requires ReadingLine(Text(lines[start..index]), lines[index], p, Vars(stack, None, false))
    requires var r := CodeToken(lines[index], p, stack);
      r.token !in {Terminator, Mismatch} && !(block && inBlock && r.token.Closes? && r.v.stack == [])
    ensures NoStopIn(lines, start, block, index, p, CodeToken(lines[index], p, stack).p)
  {
    var line, c := lines[index], lines[index][p];
    hide ReadingLine, Text, StopHere, NoStopIn, Bottom;
    if Pair(line, p, '/', '/') {
      LineCommentHasNone(lines, start, index, block, p, stack);
    } else if Pair(line, p, '/', '*') {
      OtherChar(lines, start, block, index, p);
      OtherChar(lines, start, block, index, p + 1);
      NoneInTwo(lines, start, block, index, p);
    } else {
      if c == '\'' || c == '"' || c == '`' {
        OtherChar(lines, start, block, index, p);
      } else {
        BracketHasNone(lines, start, index, block, p, stack, inBlock);
      }
      NoneInOne(lines, start, block, index, p);
    }
  }

  /** A token that goes on holds no stop. */
  lemma TokenHasNone(lines: seq<string>, start: nat, index: nat, block: bool, p: nat, v: Vars, inBlock: bool)
    requires InLine(lines, start, index, block, p, v, inBlock) && p < |lines[index]| && Bottom(block, inBlock, v.stack)
    requires StepAt(lines, start, index, block, p, v, inBlock).Go?
    ensures NoStopIn(lines, start, block, index, p, StepAt(lines, start, index, block, p, v, inBlock).p)
  {
    InLineShape(lines, start, index, block, p, v, inBlock);
    StepIsToken(lines, start, index, block, p, v, inBlock);
    hide ReadingLine, Text, NoStopIn, Bottom, CommentToken, StringToken, CodeToken, StepAt, BlockOpen;
    if v.inComment {
      CommentHasNone(lines, start, index, block, p, v.stack);
    } else if v.quote.Some? {
      StringHasNone(lines, start, index, block, p, v.stack, v.quote.value);
    } else {
      CodeHasNone(lines, start, index, block, p, v.stack, inBlock);
    }
  }

  lemma StepIsToken(lines: seq<string>, start: nat, index: nat, block: bool, p: nat, v: Vars, inBlock: bool)
    requires start <= index < |lines| && p < |lines[index]|
    requires StepAt(lines, start, index, block, p, v, inBlock).Go?
    ensures
      var p', r := StepAt(lines, start, index, block, p, v, inBlock).p, CodeToken(lines[index], p, v.stack);
      if v.inComment then p' == CommentToken(lines[index], p, v.stack).p
      else if v.quote.Some? then p' == StringToken(lines[index], p, v.stack, v.quote.value).p
      else p' == r.p && r.token !in {Terminator, Mismatch} && !(block && inBlock && r.token.Closes? && r.v.stack == [])
  {
    hide CommentToken, StringToken, CodeToken, EndLineOf;
  }

  lemma InLineShape(lines: seq<string>, start: nat, index: nat, block: bool, p: nat, v: Vars, inBlock: bool)
    requires InLine(lines, start, index, block, p, v, inBlock)
    ensures v.inComment ==> v == Vars(v.stack, None, true)
    ensures v.quote.Some? ==> v.quote.value in {'\'', '"', '`'}
  {
  }

  lemma BottomKept(lines: seq<string>, start: nat, index: nat, block: bool, p: nat, v: Vars, inBlock: bool)
    requires start <= index < |lines| && p < |lines[index]| && Bottom(block, inBlock, v.stack)
    requires StepAt(lines, start, index, block, p, v, inBlock).Go?
    ensures var m := StepAt(lines, start, index, block, p, v, inBlock); Bottom(block, m.inBlock, m.v.stack)
  {
    hide EndLineOf;
  }

  // ----- one line

  /** The scan of a line halts on the line, where nothing stops before. */
  ghost predicate HaltsFirst(lines: seq<string>, start: nat, block: bool, index: nat, from: nat, stop: Stop)
    requires start <= index < |lines|
  {
    match stop
    case Semicolon(i, p) => i == index && from <= p < |lines[i]| && NoStopIn(lines, start, block, i, from, p)
    case BlockEnd(i, p) => i == index && from <= p < |lines[i]| && NoStopIn(lines, start, block, i, from, p)
    case Unbalanced(i, p) => i == index && from <= p < |lines[i]| && NoStopIn(lines, start, block, i, from, p)
    case _ => false
  }

  lemma HaltHere(lines: seq<string>, start: nat, index: nat, block: bool, p: nat, v: Vars, inBlock: bool)
    requires start <= index < |lines| && p < |lines[index]|
    requires StepAt(lines, start, index, block, p, v, inBlock).Halt?
    ensures HaltsFirst(lines, start, block, index, p, StepAt(lines, start, index, block, p, v, inBlock).stop)
  {
    hide EndLineOf, StopHere;
  }

  lemma HaltsLater(lines: seq<string>, start: nat, block: bool, index: nat, from: nat, to: nat, stop: Stop)
    requires start <= index < |lines| && from <= to
    requires NoStopIn(lines, start, block, index, from, to) && HaltsFirst(lines, start, block, index, to, stop)
    ensures HaltsFirst(lines, start, block, index, from, stop)
  {
    hide StopHere;
  }

  lemma NoStopJoin(lines: seq<string>, start: nat, block: bool, i: nat, from: nat, mid: nat, to: nat)
    requires start <= i < |lines| && NoStopIn(lines, start, block, i, from, mid) && NoStopIn(lines, start, block, i, mid, to)
    ensures NoStopIn(lines, start, block, i, from, to)
  {
    hide StopHere;
  }

  lemma NoStopPast(lines: seq<string>, start: nat, block: bool, i: nat, from: nat)
    requires start <= i < |lines| && from >= |lines[i]|
    ensures NoStopIn(lines, start, block, i, from, |lines[i]|)
  {
  }

  lemma {:induction false} LineHasNone(lines: seq<string>, start: nat, index: nat, block: bool, p: nat, v: Vars, inBlock: bool)
    requires InLine(lines, start, index, block, p, v, inBlock) && Bottom(block, inBlock, v.stack)
    ensures
      var r := LineFrom(lines, start, index, block, p, v, inBlock);
      && (r.Went? ==> NoStopIn(lines, start, block, index, p, |lines[index]|) && Bottom(block, r.inBlock, r.v.stack))
      && (r.Stopped? ==> HaltsFirst(lines, start, block, index, p, r.stop))
    decreases |lines[index]| - p
  {
    hide ReadingLine, StopsAt, Text, StepAt, BlockOpen, EndsWithin, NoStopIn, HaltsFirst, Bottom;
    if p >= |lines[index]| {
      NoStopPast(lines, start, block, index, p);
    } else {
      StepReads(lines, start, index, block, p, v, inBlock);
      var m := StepAt(lines, start, index, block, p, v, inBlock);
      if m.Halt? {
        HaltHere(lines, start, index, block, p, v, inBlock);
      } else {
        TokenHasNone(lines, start, index, block, p, v, inBlock);
        BottomKept(lines, start, index, block, p, v, inBlock);
        LineHasNone(lines, start, index, block, m.p, m.v, m.inBlock);
        var r := LineFrom(lines, start, index, block, m.p, m.v, m.inBlock);
        if r.Went? {
          NoStopJoin(lines, start, block, index, p, m.p, |lines[index]|);
        } else {
          HaltsLater(lines, start, block, index, p, m.p, r.stop);
        }
      }
    }
  }
  // ----- the end of a line

  lemma NoQuoteOpen(lines: seq<string>, start: nat, index: nat, v: Vars)
    requires start <= index < |lines| && WentOn(lines, start, index, v)
    requires v.quote != Some('\'') && v.quote != Some('"')
    ensures !InQuote(Run(START, TextTo(lines, start, index, |lines[index]|)).mode)
  {
    LineWhole(lines, start, index, v);
    QuoteKinds(lines, start, index, v);
    var line := lines[index];
    assert line[..|line|] == line;
    hide WentOn, Run, Text, CodeBrackets, Reduce, Reading, InQuote;
    QuoteByMode(Text(lines[start..index]) + line, v);
  }

  lemma ModeAtNewline(text: string, v: Vars, next: Option<char>)
    requires Reading(text, v, next) && next.Some? && (v.quote.Some? || v.inComment)
    requires v.quote == None || v.quote == Some('`')
    ensures Run(START, text).mode != Code
  {
    hide Run, CodeBrackets, Reduce;
    var code :| Follows(Run(START, text), v.Lex(code), next);
  }

  lemma NoMargin(lines: seq<string>, start: nat, index: nat, v: Vars)
    requires start <= index < |lines| && PlainLines(lines) && WentOn(lines, start, index, v)
    requires v.quote != Some('\'') && v.quote != Some('"')
    requires v != Vars([], None, false) || !MarginFollows(lines, index + 1)
    ensures !MarginAt(lines, start, index)
  {
    if MarginFollows(lines, index + 1) {
      QuoteKinds(lines, start, index, v);
      hide WentOn, MarginFollows, PlainLines, Text, Run, Reading, IsNestedCode;
      var text := Text(lines[start..index + 1]);
      LineRead(lines, start, index, v, Some('x'));
      if v.quote.Some? || v.inComment {
        ModeAtNewline(text, v, Some('x'));
      } else {
        NestedWhenEmpty(text, v, Some('x'));
      }
    }
  }

  lemma LineEndHasNone(lines: seq<string>, start: nat, index: nat, block: bool, v: Vars, inBlock: bool)
    requires start <= index < |lines| && PlainLines(lines) && WentOn(lines, start, index, v)
    requires NoStopIn(lines, start, block, index, 0, |lines[index]|)
    requires LineEnd(lines, index, block, v, inBlock).Went?
    ensures NoStopOn(lines, start, block, index)
  {
    hide WentOn, MarginFollows, PlainLines, NoStopIn, MarginAt, Run, Text, InQuote;
    NoQuoteOpen(lines, start, index, v);
    if !block { NoMargin(lines, start, index, v); }
  }

  // ----- the declaration

  /** The first place where the declaration stops. */
  ghost predicate First(lines: seq<string>, start: nat, block: bool, stop: Stop) {
    match stop
    case Semicolon(i, p) => FirstAt(lines, start, block, i, p) && SemicolonAt(lines, start, i, p)
    case BlockEnd(i, p) => FirstAt(lines, start, block, i, p) && block && BraceAt(lines, start, i, p)
    case Unbalanced(i, p) => FirstAt(lines, start, block, i, p)
    case Margin(i) => FirstOn(lines, start, block, i) && !block && MarginAt(lines, start, i)
    case OpenQuote(i) => FirstOn(lines, start, block, i)
    case NoEnd => start <= |lines| && NoStopBefore(lines, start, block, |lines|)
  }

  ghost predicate FirstAt(lines: seq<string>, start: nat, block: bool, i: nat, p: nat) {
    && start <= i < |lines| && p < |lines[i]|
    && NoStopBefore(lines, start, block, i) && NoStopIn(lines, start, block, i, 0, p)
  }

  ghost predicate FirstOn(lines: seq<string>, start: nat, block: bool, i: nat) {
    && start <= i < |lines|
    && NoStopBefore(lines, start, block, i) && NoStopIn(lines, start, block, i, 0, |lines[i]|)
  }

  lemma StopIsThere(lines: seq<string>, start: nat, block: bool, stop: Stop, end: Option<nat>)
    requires StopsAt(lines, start, block, stop, end)
    ensures stop.Semicolon? ==> SemicolonAt(lines, start, stop.index, stop.position)
    ensures stop.BlockEnd? ==> block && BraceAt(lines, start, stop.index, stop.position)
    ensures stop.Margin? ==> !block && MarginAt(lines, start, stop.index)
  {
    if stop.BlockEnd? { TextGrows(lines, start, stop.index, stop.position); }
    hide Run, Text, IsNestedCode, EndLineOf, MarginFollows, CodeBrackets, Reduce;
  }

  lemma TextGrows(lines: seq<string>, start: nat, i: nat, k: nat)
    requires start <= i < |lines| && k < |lines[i]|
    ensures TextTo(lines, start, i, k + 1) == TextTo(lines, start, i, k) + [lines[i][k]]
  {
    hide Text;
  }

  /** A line that stops the scan does so first. */
  lemma LineFirst(lines: seq<string>, start: nat, index: nat, block: bool, v: Vars, inBlock: bool)
    requires index < |lines| && PlainLines(lines) && AtLine(lines, start, index, block, v, inBlock)
    requires Bottom(block, inBlock, v.stack) && NoStopBefore(lines, start, block, index)
    ensures
      var r := ReadLine(lines, start, index, block, v, inBlock);
      && (r.Went? ==> NoStopOn(lines, start, block, index) && Bottom(block, r.inBlock, r.v.stack))
      && (r.Stopped? ==> First(lines, start, block, r.stop))
  {
    assert InLine(lines, start, index, block, 0, v, inBlock);
    hide ReadingLine, Text, WentOn, StopsAt, MarginFollows, BlockOpen, PlainLines, LineFrom, EndsWithin, NoStopIn, NoStopOn,
      NoStopBefore, Bottom, InLine, AtLine;
    ReadLineReads(lines, start, index, block, v, inBlock);
    LineFromReads(lines, start, index, block, 0, v, inBlock);
    LineHasNone(lines, start, index, block, 0, v, inBlock);
    var r := LineFrom(lines, start, index, block, 0, v, inBlock);
    if r.Stopped? {
      StopIsThere(lines, start, block, r.stop, r.end);
    } else {
      var e := LineEnd(lines, index, block, r.v, r.inBlock);
      if e.Stopped? {
        StopIsThere(lines, start, block, e.stop, e.end);
      } else {
        LineEndHasNone(lines, start, index, block, r.v, r.inBlock);
      }
    }
  }

  lemma {:induction false} DeclarationFromFirst(lines: seq<string>, start: nat, index: nat, block: bool, v: Vars, inBlock: bool)
    requires PlainLines(lines) && start <= index && AtLine(lines, start, index, block, v, inBlock)
    requires Bottom(block, inBlock, v.stack) && NoStopBefore(lines, start, block, index)
    ensures First(lines, start, block, DeclarationFrom(lines, start, index, block, v, inBlock).0)
    decreases |lines| - index
  {
    AtLineWithin(lines, start, index, block, v, inBlock);
    hide AtLine, PlainLines, StopsAt, ReadLine, Bottom, First, NoStopBefore, NoStopOn;
    if index < |lines| {
      LineFirst(lines, start, index, block, v, inBlock);
      ReadLineReads(lines, start, index, block, v, inBlock);
      var r := ReadLine(lines, start, index, block, v, inBlock);
      if r.Went? {
        OneLineMore(lines, start, block, index);
        DeclarationFromFirst(lines, start, index + 1, block, r.v, r.inBlock);
      }
    } else {
      EndIsFirst(lines, start, block);
    }
  }

  lemma AtLineWithin(lines: seq<string>, start: nat, index: nat, block: bool, v: Vars, inBlock: bool)
    requires AtLine(lines, start, index, block, v, inBlock)
    ensures start <= index <= |lines|
  {
  }

  lemma OneLineMore(lines: seq<string>, start: nat, block: bool, index: nat)
    requires start <= index < |lines| && NoStopBefore(lines, start, block, index) && NoStopOn(lines, start, block, index)
    ensures NoStopBefore(lines, start, block, index + 1)
  {
    hide NoStopOn;
  }

  lemma EndIsFirst(lines: seq<string>, start: nat, block: bool)
    requires start <= |lines| && NoStopBefore(lines, start, block, |lines|)
    ensures First(lines, start, block, NoEnd)
  {
  }

  lemma NothingBefore(lines: seq<string>, start: nat, block: bool)
    requires start <= |lines|
    ensures NoStopBefore(lines, start, block, start) && Bottom(block, false, [])
  {
  }

  /** The scanner takes the first place where the declaration can stop; it has no end only where a
      bracket does not match, a quote stays open, or nothing stops it up to the end of the text. */
  lemma DeclarationStopsFirst(lines: seq<string>, start: nat, block: bool)
    requires start < |lines| && PlainLines(lines)
    ensures
      var r := DeclarationEndOf(lines, start, block);
      StopsAt(lines, start, block, r.0, r.1) && First(lines, start, block, r.0)
  {
    hide AtLine, PlainLines, StopsAt, First, DeclarationFrom, NoStopBefore, Bottom;
    DeclarationStops(lines, start, block);
    AtFirstLine(lines, start, block);
    NothingBefore(lines, start, block);
    DeclarationFromFirst(lines, start, start, block, Vars([], None, false), false);
  }
}
