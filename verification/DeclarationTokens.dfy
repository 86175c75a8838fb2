/** The tokens of `_declaration_end`, a second scanner that counts brackets, checked against
    the automaton of `LineLexer`. */
module DeclarationTokens {
  import opened Collections
  import opened Strings
  import opened Brackets
  import opened LineLexer

  // ----- the code brackets of a text, as the automaton sees them

  /** The bracket that reading `c` adds; `${` counts as the brace that it opens. */
  function BracketOf(s: Lex, c: char): string {
    if (IsOpener(c) || IsCloser(c)) && (s.mode.Code? || s.mode.Slash? || (s.mode.Dollar? && c == '{')) then [c] else ""
  }

  function CodeBrackets(s: Lex, text: string): string {
    if text == "" then ""
    else CodeBrackets(s, text[..|text| - 1]) + BracketOf(Run(s, text[..|text| - 1]), text[|text| - 1])
  }

  // ----- the scanner's own stack

  /** What is open: `Substitution` is a `${` inside a template string. */
  datatype Opened = Paren | Square | Brace | Substitution
  {
    function Char(): char {
      match this case Paren => '(' case Square => '[' case Brace => '{' case Substitution => '{'
    }
  }

  function Opening(c: char): Opened {
    if c == '(' then Paren else if c == '[' then Square else Brace
  }

  function Chars(stack: seq<Opened>): string {
    if stack == [] then "" else Chars(stack[..|stack| - 1]) + [stack[|stack| - 1].Char()]
  }

  /** The automaton's stack for the same openers: parentheses and square brackets are not
      on it, and a substitution stands on its template. */
  function Flat(stack: seq<Opened>): seq<char> {
    if stack == [] then []
    else
      Flat(stack[..|stack| - 1]) +
      match stack[|stack| - 1] case Paren => [] case Square => [] case Brace => ['{'] case Substitution => ['`', '{']
  }

  lemma {:induction false} FlatTop(stack: seq<Opened>)
    ensures Top(Flat(stack)) != Some('`')
  {
    if stack != [] {
      FlatTop(stack[..|stack| - 1]);
      match stack[|stack| - 1] case Paren => case Square => case Brace => case Substitution =>
    }
  }

  /** The automaton state that the scanner's variables stand for between tokens. */
  function At(stack: seq<Opened>, quote: Option<char>, inComment: bool, code: bool): Lex {
    if inComment then Lex(Block, Flat(stack), code)
    else if quote == Some('`') then Lex(Template, Flat(stack) + ['`'], code)
    else if quote.Some? then Lex(Quoted(quote.value), Flat(stack), code)
    else Lex(Code, Flat(stack), code)
  }

  /** At the end of a line, a line comment and an escape are forgotten. */
  predicate BreaksAs(mode: Mode, between: Mode) {
    match mode
    case LineComment => between.Code?
    case QuotedEscape(q) => between == Quoted(q)
    case TemplateEscape => between.Template?
    case _ => false
  }

  /** The automaton may have read half a token that the next character does not complete. */
  ghost predicate Follows(actual: Lex, between: Lex, next: Option<char>) {
    || actual == between
    || (actual == between.(mode := Star) && between.mode.Block? && next != Some('/'))
    || (actual == between.(mode := Dollar) && between.mode.Template? && between.code && next != Some('{'))
    || (actual.mode.Slash? && between == Lex(Code, actual.stack, true) && next != Some('/') && next != Some('*'))
    || (next == None && actual.stack == between.stack && BreaksAs(actual.mode, between.mode))
  }

  lemma FollowsStep(actual: Lex, between: Lex, c: char)
    requires Follows(actual, between, Some(c)) && c != '\n'
    ensures Step(actual, c) == Step(between, c)
    ensures BracketOf(actual, c) == BracketOf(between, c)
  {
  }

  lemma FollowsEnd(actual: Lex, between: Lex)
    requires Follows(actual, between, None)
    ensures EndLine(actual) == EndLine(between)
  {
  }

  /** The scanner's variables between tokens. */
  datatype Vars = Vars(stack: seq<Opened>, quote: Option<char>, inComment: bool)
  {
    function Lex(code: bool): Lex {
      At(stack, quote, inComment, code)
    }
  }

  /** The scanner has read `text` from the declaration on, and is between tokens with the
      brackets of `text` reduced to its stack. */
  ghost predicate Reading(text: string, v: Vars, next: Option<char>) {
    && Reduce("", CodeBrackets(START, text)) == Some(Chars(v.stack))
    && exists code :: Follows(Run(START, text), v.Lex(code), next)
  }

  /** Reading `c` takes the automaton from `v` to `v'`, and its brackets along. */
  ghost predicate Moves(v: Vars, c: char, v': Vars, next: Option<char>) {
    forall code :: MovesFrom(v, code, c, v', next)
  }

  ghost predicate MovesFrom(v: Vars, code: bool, c: char, v': Vars, next: Option<char>) {
    && Reduce(Chars(v.stack), BracketOf(v.Lex(code), c)) == Some(Chars(v'.stack))
    && exists code' :: Follows(Step(v.Lex(code), c), v'.Lex(code'), next)
  }

  ghost predicate MovesBy(v: Vars, a: char, b: char, v': Vars, next: Option<char>) {
    forall code :: MovesByFrom(v, code, a, b, v', next)
  }

  ghost predicate MovesByFrom(v: Vars, code: bool, a: char, b: char, v': Vars, next: Option<char>) {
    var s := v.Lex(code);
    && Reduce(Chars(v.stack), BracketOf(s, a) + BracketOf(Step(s, a), b)) == Some(Chars(v'.stack))
    && exists code' :: Follows(Step(Step(s, a), b), v'.Lex(code'), next)
  }

  lemma ReadChar(text: string, c: char, v: Vars, v': Vars, next: Option<char>)
    requires Reading(text, v, Some(c)) && c != '\n' && Moves(v, c, v', next)
    ensures Reading(text + [c], v', next)
  {
    var code :| Follows(Run(START, text), v.Lex(code), Some(c));
    assert MovesFrom(v, code, c, v', next);
    FollowsStep(Run(START, text), v.Lex(code), c);
    assert (text + [c])[..|text|] == text;
    hide Reduce, BracketOf, Follows, Step;
    ReduceConcat("", CodeBrackets(START, text), BracketOf(v.Lex(code), c));
  }

  /** Two characters at once. */
  lemma ReadPair(text: string, a: char, b: char, v: Vars, v': Vars, next: Option<char>)
    requires Reading(text, v, Some(a)) && a != '\n' && MovesBy(v, a, b, v', next)
    ensures Reading(text + [a, b], v', next)
  {
    var code :| Follows(Run(START, text), v.Lex(code), Some(a));
    assert MovesByFrom(v, code, a, b, v', next);
    FollowsStep(Run(START, text), v.Lex(code), a);
    TwoChars(text, a, b);
    var more := BracketOf(v.Lex(code), a) + BracketOf(Step(v.Lex(code), a), b);
    ReduceConcat("", CodeBrackets(START, text), more);
    hide Reduce, BracketOf, Follows, Step, Run, CodeBrackets;
  }

  lemma TwoChars(text: string, a: char, b: char)
    ensures
      var s := Run(START, text);
      && Run(START, text + [a, b]) == Step(Step(s, a), b)
      && CodeBrackets(START, text + [a, b]) == CodeBrackets(START, text) + (BracketOf(s, a) + BracketOf(Step(s, a), b))
  {
    hide BracketOf, Step;
    assert (text + [a])[..|text|] == text;
    assert (text + [a, b])[..|text| + 1] == text + [a];
  }

  lemma CharsPop(stack: seq<Opened>)
    requires stack != []
    ensures Chars(stack)[..|Chars(stack)| - 1] == Chars(stack[..|stack| - 1])
    ensures Chars(stack) != "" && Chars(stack)[|Chars(stack)| - 1] == stack[|stack| - 1].Char()
  {
  }

  lemma CharsPush(stack: seq<Opened>, o: Opened)
    ensures Chars(stack + [o]) == Chars(stack) + [o.Char()]
    ensures Flat(stack + [o]) == Flat(stack) + match o case Paren => [] case Square => [] case Brace => ['{'] case Substitution => ['`', '{']
  {
    assert (stack + [o])[..|stack|] == stack;
  }

  lemma ReduceOne(open: string, c: char)
    ensures IsOpener(c) ==> Reduce(open, [c]) == Some(open + [c])
    ensures open != "" && IsOpener(open[|open| - 1]) && c == Closer(open[|open| - 1]) ==>
      Reduce(open, [c]) == Some(open[..|open| - 1])
    ensures Reduce(open, "") == Some(open)
  {
    assert [c][1..] == "";
  }

  lemma Consume(text: string, line: string, p: nat)
    requires p < |line|
    ensures text + line[..p + 1] == text + line[..p] + [line[p]]
    ensures p + 1 < |line| ==> text + line[..p + 2] == text + line[..p] + [line[p], line[p + 1]]
  {
  }

  /** What has been consumed of a line; an escape at its end may point past it. */
  function Upto(line: string, p: nat): string {
    line[..if p <= |line| then p else |line|]
  }

  ghost predicate ReadingLine(text: string, line: string, p: nat, v: Vars) {
    && p <= |line| + 1 && '\n' !in line
    && (v.inComment ==> v.quote == None) && (v.quote.Some? ==> v.quote.value in {'\'', '"', '`'})
    && Reading(text + Upto(line, p), v, CharAt(line, p))
  }

  lemma LineChar(text: string, line: string, p: nat, v: Vars, v': Vars)
    requires p < |line| && ReadingLine(text, line, p, v) && Moves(v, line[p], v', CharAt(line, p + 1))
    requires (v'.inComment ==> v'.quote == None) && (v'.quote.Some? ==> v'.quote.value in {'\'', '"', '`'})
    ensures ReadingLine(text, line, p + 1, v')
  {
    hide Moves, Reading;
    assert line[p] in line;
    ReadChar(text + line[..p], line[p], v, v', CharAt(line, p + 1));
    Consume(text, line, p);
  }

  lemma LinePair(text: string, line: string, p: nat, v: Vars, v': Vars)
    requires p + 1 < |line| && ReadingLine(text, line, p, v)
    requires MovesBy(v, line[p], line[p + 1], v', CharAt(line, p + 2))
    requires (v'.inComment ==> v'.quote == None) && (v'.quote.Some? ==> v'.quote.value in {'\'', '"', '`'})
    ensures ReadingLine(text, line, p + 2, v')
  {
    hide MovesBy, Reading;
    assert line[p] in line;
    ReadPair(text + line[..p], line[p], line[p + 1], v, v', CharAt(line, p + 2));
    Consume(text, line, p);
  }

  // ----- the moves

  lemma CommentMoves(stack: seq<Opened>, c: char, next: Option<char>)
    requires !(c == '*' && next == Some('/')) && c != '\n'
    ensures Moves(Vars(stack, None, true), c, Vars(stack, None, true), next)
  {
    var v := Vars(stack, None, true);
    forall code ensures MovesFrom(v, code, c, v, next) {
      assert Follows(Step(v.Lex(code), c), v.Lex(code), next);
    }
  }

  lemma CommentCloses(stack: seq<Opened>, next: Option<char>)
    ensures MovesBy(Vars(stack, None, true), '*', '/', Vars(stack, None, false), next)
  {
    var v, v' := Vars(stack, None, true), Vars(stack, None, false);
    FlatTop(stack);
    forall code ensures MovesByFrom(v, code, '*', '/', v', next) {
      assert Follows(Step(Step(v.Lex(code), '*'), '/'), v'.Lex(code), next);
    }
  }

  /** One character of a string, neither a backslash nor a `${`. */
  lemma QuotedCharSteps(stack: seq<Opened>, q: char, c: char, code: bool)
    requires q != '`' && c != '\\' && c != '\n'
    ensures Step(At(stack, Some(q), false, code), c) == At(stack, if c == q then None else Some(q), false, true)
  {
    FlatTop(stack);
    hide Flat, CodeStep, TemplateStep, EndLine;
  }

  lemma TemplateCharSteps(stack: seq<Opened>, c: char, code: bool)
    requires c != '\\' && c != '\n'
    ensures c == '$' ==> Step(At(stack, Some('`'), false, code), c) == At(stack, Some('`'), false, true).(mode := Dollar)
    ensures c != '$' ==> Step(At(stack, Some('`'), false, code), c) == At(stack, if c == '`' then None else Some('`'), false, true)
  {
    FlatTop(stack);
    assert Pop(Flat(stack) + ['`']) == Flat(stack) && Top(Flat(stack) + ['`']) == Some('`');
    hide Flat, CodeStep, EndLine;
  }

  lemma StringCharMoves(stack: seq<Opened>, q: char, c: char, next: Option<char>)
    requires q in {'\'', '"', '`'} && c != '\\' && c != '\n' && !(q == '`' && c == '$' && next == Some('{'))
    ensures Moves(Vars(stack, Some(q), false), c, Vars(stack, if c == q then None else Some(q), false), next)
  {
    var v, v' := Vars(stack, Some(q), false), Vars(stack, if c == q then None else Some(q), false);
    ReduceOne(Chars(stack), c);
    hide Step, Chars, Reduce, Flat;
    forall code ensures MovesFrom(v, code, c, v', next) {
      if q == '`' { TemplateCharSteps(stack, c, code); } else { QuotedCharSteps(stack, q, c, code); }
      assert Follows(Step(v.Lex(code), c), v'.Lex(true), next);
    }
  }

  lemma EscapeMoves(stack: seq<Opened>, q: char, c: char, next: Option<char>)
    requires q in {'\'', '"', '`'} && c != '\n'
    ensures MovesBy(Vars(stack, Some(q), false), '\\', c, Vars(stack, Some(q), false), next)
  {
    var v := Vars(stack, Some(q), false);
    forall code ensures MovesByFrom(v, code, '\\', c, v, next) {
      assert Follows(Step(Step(v.Lex(code), '\\'), c), v.Lex(true), next);
    }
  }

  /** An escape that ends its line takes nothing from the next. */
  lemma LastEscapeMoves(stack: seq<Opened>, q: char)
    requires q in {'\'', '"', '`'}
    ensures Moves(Vars(stack, Some(q), false), '\\', Vars(stack, Some(q), false), None)
  {
    var v := Vars(stack, Some(q), false);
    FlatTop(stack);
    forall code ensures MovesFrom(v, code, '\\', v, None) {
      assert Follows(Step(v.Lex(code), '\\'), v.Lex(true), None);
    }
  }

  /** `${` in a template. */
  lemma TemplateOpens(below: seq<char>, code: bool)
    ensures
      var s, dollar := Lex(Template, below, code), Lex(Dollar, below, true);
      && Step(s, '$') == dollar && Step(dollar, '{') == Lex(Code, below + ['{'], true)
      && BracketOf(s, '$') == "" && BracketOf(dollar, '{') == ['{']
  {
    hide CodeStep, EndLine;
  }

  lemma SubstitutionSteps(stack: seq<Opened>, code: bool)
    ensures
      var s := Vars(stack, Some('`'), false).Lex(code);
      && Step(Step(s, '$'), '{') == Vars(stack + [Substitution], None, false).Lex(true)
      && BracketOf(s, '$') + BracketOf(Step(s, '$'), '{') == ['{']
  {
    CharsPush(stack, Substitution);
    assert Flat(stack) + ['`'] + ['{'] == Flat(stack) + ['`', '{'];
    hide Flat, Step, BracketOf;
    TemplateOpens(Flat(stack) + ['`'], code);
    assert "" + ['{'] == ['{'];
  }

  lemma SubstitutionMoves(stack: seq<Opened>, next: Option<char>)
    ensures MovesBy(Vars(stack, Some('`'), false), '$', '{', Vars(stack + [Substitution], None, false), next)
  {
    var v, v' := Vars(stack, Some('`'), false), Vars(stack + [Substitution], None, false);
    CharsPush(stack, Substitution);
    ReduceOne(Chars(stack), '{');
    hide Step, BracketOf, Reduce, Chars, Flat;
    forall code ensures MovesByFrom(v, code, '$', '{', v', next) {
      SubstitutionSteps(stack, code);
      assert Follows(Step(Step(v.Lex(code), '$'), '{'), v'.Lex(true), next);
    }
  }

  lemma CommentOpens(stack: seq<Opened>, next: Option<char>)
    ensures MovesBy(Vars(stack, None, false), '/', '*', Vars(stack, None, true), next)
  {
    var v, v' := Vars(stack, None, false), Vars(stack, None, true);
    forall code ensures MovesByFrom(v, code, '/', '*', v', next) {
      assert Follows(Step(Step(v.Lex(code), '/'), '*'), v'.Lex(code), next);
    }
  }

  lemma QuoteMoves(stack: seq<Opened>, q: char, next: Option<char>)
    requires q in {'\'', '"', '`'}
    ensures Moves(Vars(stack, None, false), q, Vars(stack, Some(q), false), next)
  {
    var v, v' := Vars(stack, None, false), Vars(stack, Some(q), false);
    forall code ensures MovesFrom(v, code, q, v', next) {
      assert Follows(Step(v.Lex(code), q), v'.Lex(true), next);
    }
  }

  lemma CodeOpens(below: seq<char>, c: char, code: bool)
    requires IsOpener(c)
    ensures
      var s := Lex(Code, below, code);
      && Step(s, c) == Lex(Code, below + (if c == '{' then ['{'] else []), true)
      && BracketOf(s, c) == [c]
  {
    hide EndLine, TemplateStep;
    assert below + [] == below;
  }

  lemma OpenerSteps(stack: seq<Opened>, c: char, code: bool)
    requires IsOpener(c)
    ensures Step(Vars(stack, None, false).Lex(code), c) == Vars(stack + [Opening(c)], None, false).Lex(true)
    ensures BracketOf(Vars(stack, None, false).Lex(code), c) == [c]
  {
    CharsPush(stack, Opening(c));
    hide Flat, Step, BracketOf;
    CodeOpens(Flat(stack), c, code);
  }

  lemma OpenerMoves(stack: seq<Opened>, c: char, next: Option<char>)
    requires IsOpener(c)
    ensures Moves(Vars(stack, None, false), c, Vars(stack + [Opening(c)], None, false), next)
  {
    var v, v' := Vars(stack, None, false), Vars(stack + [Opening(c)], None, false);
    CharsPush(stack, Opening(c));
    ReduceOne(Chars(stack), c);
    hide Step, BracketOf, Reduce, Chars, Flat;
    forall code ensures MovesFrom(v, code, c, v', next) {
      OpenerSteps(stack, c, code);
      assert Follows(Step(v.Lex(code), c), v'.Lex(true), next);
    }
  }

  /** A closer that matches the top: of a substitution, back into its template. */
  lemma CloserMoves(stack: seq<Opened>, c: char, next: Option<char>)
    requires stack != [] && IsCloser(c) && c == Closer(stack[|stack| - 1].Char())
    ensures
      var top := stack[|stack| - 1];
      Moves(Vars(stack, None, false), c,
            Vars(stack[..|stack| - 1], if top == Substitution then Some('`') else None, false), next)
  {
    var top, rest := stack[|stack| - 1], stack[..|stack| - 1];
    var v, v' := Vars(stack, None, false), Vars(rest, if top == Substitution then Some('`') else None, false);
    CharsPop(stack);
    ReduceOne(Chars(stack), c);
    CloserSteps(stack, c);
    hide Chars, Reduce, Step, Flat;
    forall code ensures MovesFrom(v, code, c, v', next) {
      assert Follows(Step(v.Lex(code), c), v'.Lex(true), next);
    }
  }

  lemma CloserSteps(stack: seq<Opened>, c: char)
    requires stack != [] && IsCloser(c) && c == Closer(stack[|stack| - 1].Char())
    ensures
      var rest, top := stack[..|stack| - 1], stack[|stack| - 1];
      var v' := Vars(rest, if top == Substitution then Some('`') else None, false);
      forall code :: Step(Vars(stack, None, false).Lex(code), c) == v'.Lex(true)
  {
    var top, rest := stack[|stack| - 1], stack[..|stack| - 1];
    FlatTop(rest);
    FlatPop(stack);
    hide Flat, BracketOf;
    match top
    case Paren =>
    case Square =>
    case Brace =>
    case Substitution =>
  }

  lemma FlatPop(stack: seq<Opened>)
    requires stack != []
    ensures
      var rest, top := Flat(stack[..|stack| - 1]), stack[|stack| - 1];
      && (top in {Paren, Square} ==> Flat(stack) == rest)
      && (top == Brace ==> Top(Flat(stack)) == Some('{') && Pop(Flat(stack)) == rest)
      && (top == Substitution ==> Top(Flat(stack)) == Some('{') && Pop(Flat(stack)) == rest + ['`'])
    ensures Top(Flat(stack[..|stack| - 1]) + ['`']) == Some('`')
  {
    var rest, top := Flat(stack[..|stack| - 1]), stack[|stack| - 1];
    var tail := match top case Paren => [] case Square => [] case Brace => ['{'] case Substitution => ['`', '{'];
    assert Flat(stack) == rest + tail;
    hide Flat;
    match top
    case Paren => assert rest + [] == rest;
    case Square => assert rest + [] == rest;
    case Brace => assert Pop(rest + ['{']) == rest;
    case Substitution => assert Pop(rest + ['`', '{']) == rest + ['`'];
  }

  /** Any other character outside strings and comments. */
  lemma OtherMoves(stack: seq<Opened>, c: char, next: Option<char>)
    requires !IsOpener(c) && !IsCloser(c) && c !in {'\'', '"', '`', '\n'}
    requires c == '/' ==> next != Some('/') && next != Some('*')
    ensures Moves(Vars(stack, None, false), c, Vars(stack, None, false), next)
  {
    var v := Vars(stack, None, false);
    forall code ensures MovesFrom(v, code, c, v, next) {
      assert Follows(Step(v.Lex(code), c), v.Lex(code || !IsSpace(c)), next);
    }
  }

  lemma CodeChar(text: string, line: string, p: nat, v: Vars)
    requires p < |line| && ReadingLine(text, line, p, v)
    ensures line[p] != '\n'
    ensures p + 1 < |line| ==> line[p + 1] != '\n'
  {
    assert line[p] in line;
    if p + 1 < |line| { assert line[p + 1] in line; }
  }

  /** The rest of a line after `//` adds no bracket and is forgotten at its end. */
  lemma CommentToEnd(text: string, line: string, p: nat, stack: seq<Opened>)
    requires ReadingLine(text, line, p, Vars(stack, None, false)) && Pair(line, p, '/', '/')
    ensures ReadingLine(text, line, |line|, Vars(stack, None, false))
  {
    var before, rest, v := text + line[..p], line[p + 2..], Vars(stack, None, false);
    var code := SlashSlash(before, v);
    CodeCharsAfter(line, p + 2);
    SilentComment(before + ['/', '/'], rest);
    AroundPair(text, line, p, '/', '/');
    CommentOver(before + ['/', '/'] + rest, v, code);
  }

  lemma CommentOver(text: string, v: Vars, code: bool)
    requires Run(START, text) == Lex(LineComment, Flat(v.stack), code) && v == Vars(v.stack, None, false)
    requires Reduce("", CodeBrackets(START, text)) == Some(Chars(v.stack))
    ensures Reading(text, v, None)
  {
    hide Run, CodeBrackets, Reduce;
    FlatTop(v.stack);
    assert Follows(Run(START, text), v.Lex(code), None);
  }

  lemma AroundPair(text: string, line: string, p: nat, a: char, b: char)
    requires Pair(line, p, a, b)
    ensures text + Upto(line, |line|) == text + line[..p] + [a, b] + line[p + 2..]
  {
    assert line[..|line|] == line[..p] + [a, b] + line[p + 2..];
  }

  lemma CodeCharsAfter(line: string, p: nat)
    requires '\n' !in line && p <= |line|
    ensures '\n' !in line[p..]
  {
    assert forall c :: c in line[p..] ==> c in line;
  }

  lemma SlashSlash(before: string, v: Vars) returns (code: bool)
    requires Reading(before, v, Some('/')) && v == Vars(v.stack, None, false)
    ensures Run(START, before + ['/', '/']) == Lex(LineComment, Flat(v.stack), code)
    ensures CodeBrackets(START, before + ['/', '/']) == CodeBrackets(START, before)
    ensures Reduce("", CodeBrackets(START, before)) == Some(Chars(v.stack))
  {
    code :| Follows(Run(START, before), v.Lex(code), Some('/'));
    TwoChars(before, '/', '/');
    FollowsStep(Run(START, before), v.Lex(code), '/');
    SlashSteps(v.stack, code);
    hide Run, CodeBrackets, Flat, Chars, Reduce, Follows, Step, BracketOf;
    assert CodeBrackets(START, before) + ("" + "") == CodeBrackets(START, before);
  }

  lemma SlashSteps(stack: seq<Opened>, code: bool)
    ensures
      var s := At(stack, None, false, code);
      && Step(Step(s, '/'), '/') == Lex(LineComment, Flat(stack), code)
      && BracketOf(s, '/') == "" && BracketOf(Step(s, '/'), '/') == ""
  {
    hide Flat;
  }

  lemma OneChar(text: string, c: char)
    ensures Run(START, text + [c]) == Step(Run(START, text), c)
    ensures CodeBrackets(START, text + [c]) == CodeBrackets(START, text) + BracketOf(Run(START, text), c)
  {
    assert (text + [c])[..|text|] == text;
  }

  lemma {:induction false} SilentComment(before: string, rest: string)
    requires Run(START, before).mode.LineComment? && '\n' !in rest
    ensures Run(START, before + rest) == Run(START, before)
    ensures CodeBrackets(START, before + rest) == CodeBrackets(START, before)
    decreases |rest|
  {
    hide Run, CodeBrackets;
    if rest == "" {
      assert before + rest == before;
    } else {
      var n := |rest| - 1;
      assert rest[n] in rest && forall c :: c in rest[..n] ==> c in rest;
      SilentComment(before, rest[..n]);
      OneChar(before + rest[..n], rest[n]);
      assert before + rest[..n] + [rest[n]] == before + rest;
    }
  }

  // ----- the tokens

  datatype Token = Plain | Opens(c: char) | Closes(c: char) | Terminator | Mismatch

  /** The position after a token, the variables there, and what the token was. */
  datatype Read = Read(p: nat, v: Vars, token: Token)

  function CommentToken(line: string, p: nat, stack: seq<Opened>): Read {
    if Pair(line, p, '*', '/') then Read(p + 2, Vars(stack, None, false), Plain)
    else Read(p + 1, Vars(stack, None, true), Plain)
  }

  function StringToken(line: string, p: nat, stack: seq<Opened>, q: char): Read
    requires p < |line|
  {
    if line[p] == '\\' then Read(p + 2, Vars(stack, Some(q), false), Plain)
    else if q == '`' && Pair(line, p, '$', '{') then Read(p + 2, Vars(stack + [Substitution], None, false), Plain)
    else Read(p + 1, Vars(stack, if line[p] == q then None else Some(q), false), Plain)
  }

  /** A bracket that closes the top of the stack; a substitution's brace returns to its string. */
  function CloseToken(p: nat, stack: seq<Opened>, c: char): Read
    requires stack != []
  {
    var rest := stack[..|stack| - 1];
    if stack[|stack| - 1] == Substitution then Read(p + 1, Vars(rest, Some('`'), false), Plain)
    else Read(p + 1, Vars(rest, None, false), Closes(c))
  }

  function BracketToken(c: char, p: nat, stack: seq<Opened>): Read {
    if IsOpener(c) then Read(p + 1, Vars(stack + [Opening(c)], None, false), Opens(c))
    else if IsCloser(c) then
      if stack == [] || Closer(stack[|stack| - 1].Char()) != c then Read(p, Vars(stack, None, false), Mismatch)
      else CloseToken(p, stack, c)
    else if c == ';' && stack == [] then Read(p, Vars(stack, None, false), Terminator)
    else Read(p + 1, Vars(stack, None, false), Plain)
  }

  /** Outside strings and comments. */
  function CodeToken(line: string, p: nat, stack: seq<Opened>): Read
    requires p < |line|
  {
    var c := line[p];
    if Pair(line, p, '/', '/') then Read(|line|, Vars(stack, None, false), Plain)
    else if Pair(line, p, '/', '*') then Read(p + 2, Vars(stack, None, true), Plain)
    else if c == '\'' || c == '"' || c == '`' then Read(p + 1, Vars(stack, Some(c), false), Plain)
    else BracketToken(c, p, stack)
  }

  // ----- tokens keep the scanner in step with the automaton

  lemma InCommentUnquoted(text: string, line: string, p: nat, v: Vars)
    requires ReadingLine(text, line, p, v) && v.inComment
    ensures v == Vars(v.stack, None, true)
  {
  }

  lemma CommentTokenReads(text: string, line: string, p: nat, stack: seq<Opened>)
    requires p < |line| && ReadingLine(text, line, p, Vars(stack, None, true))
    ensures var r := CommentToken(line, p, stack); ReadingLine(text, line, r.p, r.v)
  {
    hide Moves, MovesBy;
    assert line[p] in line;
    var v := Vars(stack, None, true);
    if Pair(line, p, '*', '/') {
      CommentCloses(stack, CharAt(line, p + 2));
      LinePair(text, line, p, v, Vars(stack, None, false));
    } else {
      CommentMoves(stack, line[p], CharAt(line, p + 1));
      LineChar(text, line, p, v, v);
    }
  }

  lemma EscapeReads(text: string, line: string, p: nat, stack: seq<Opened>, q: char)
    requires p < |line| && ReadingLine(text, line, p, Vars(stack, Some(q), false)) && line[p] == '\\'
    ensures ReadingLine(text, line, p + 2, Vars(stack, Some(q), false))
  {
    hide Moves, MovesBy;
    assert line[p] in line;
    var v := Vars(stack, Some(q), false);
    if p + 1 < |line| {
      assert line[p + 1] in line;
      EscapeMoves(stack, q, line[p + 1], CharAt(line, p + 2));
      LinePair(text, line, p, v, v);
    } else {
      LastEscapeMoves(stack, q);
      LineChar(text, line, p, v, v);
      assert Upto(line, p + 1) == Upto(line, p + 2);
    }
  }

  lemma StringTokenReads(text: string, line: string, p: nat, stack: seq<Opened>, q: char)
    requires p < |line| && ReadingLine(text, line, p, Vars(stack, Some(q), false))
    ensures var r := StringToken(line, p, stack, q); ReadingLine(text, line, r.p, r.v)
  {
    hide Moves, MovesBy;
    assert line[p] in line;
    var v, r := Vars(stack, Some(q), false), StringToken(line, p, stack, q);
    if line[p] == '\\' {
      EscapeReads(text, line, p, stack, q);
    } else if q == '`' && Pair(line, p, '$', '{') {
      SubstitutionMoves(stack, CharAt(line, p + 2));
      LinePair(text, line, p, v, r.v);
    } else {
      StringCharMoves(stack, q, line[p], CharAt(line, p + 1));
      LineChar(text, line, p, v, r.v);
    }
  }

  /** A character outside strings and comments that begins neither. */
  lemma BracketTokenReads(text: string, line: string, p: nat, stack: seq<Opened>)
    requires p < |line| && ReadingLine(text, line, p, Vars(stack, None, false))
    requires line[p] != '\'' && line[p] != '"' && line[p] != '`'
    requires !Pair(line, p, '/', '/') && !Pair(line, p, '/', '*')
    ensures var r := BracketToken(line[p], p, stack);
      r.token == Terminator || r.token == Mismatch || (r.p == p + 1 && ReadingLine(text, line, p + 1, r.v))
  {
    var c, v, r := line[p], Vars(stack, None, false), BracketToken(line[p], p, stack);
    CodeChar(text, line, p, v);
    hide Moves, ReadingLine;
    if IsOpener(c) {
      OpenerMoves(stack, c, CharAt(line, p + 1));
      LineChar(text, line, p, v, r.v);
    } else if IsCloser(c) {
      if stack != [] && Closer(stack[|stack| - 1].Char()) == c {
        CloserMoves(stack, c, CharAt(line, p + 1));
        LineChar(text, line, p, v, r.v);
      }
    } else if c != ';' || stack != [] {
      OtherMoves(stack, c, CharAt(line, p + 1));
      LineChar(text, line, p, v, v);
    }
  }

  lemma CodeTokenReads(text: string, line: string, p: nat, stack: seq<Opened>)
    requires p < |line| && ReadingLine(text, line, p, Vars(stack, None, false))
    ensures var r := CodeToken(line, p, stack);
      r.token == Terminator || r.token == Mismatch || ReadingLine(text, line, r.p, r.v)
  {
    var c, v, r := line[p], Vars(stack, None, false), CodeToken(line, p, stack);
    hide Moves, MovesBy, ReadingLine, BracketToken;
    if Pair(line, p, '/', '/') {
      CommentToEnd(text, line, p, stack);
    } else if Pair(line, p, '/', '*') {
      CommentOpens(stack, CharAt(line, p + 2));
      LinePair(text, line, p, v, r.v);
    } else if c == '\'' || c == '"' || c == '`' {
      QuoteMoves(stack, c, CharAt(line, p + 1));
      LineChar(text, line, p, v, r.v);
    } else {
      BracketTokenReads(text, line, p, stack);
    }
  }
}
