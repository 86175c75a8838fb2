/** Starting the automaton again inside a text: as long as no closer is left over, it reads the same
    code brackets as the one that read the text from its beginning, and moves the same part of the
    stack. */
module BracketRestart {
  import opened Collections
  import opened Brackets
  import opened LineLexer
  import opened DeclarationTokens
  import opened Strings

  function Lifted(base: seq<char>, s: Lex): Lex {
    s.(stack := base + s.stack)
  }

  function Braces(t: string): nat {
    if t == "" then 0 else Braces(t[..|t| - 1]) + if t[|t| - 1] == '{' then 1 else 0
  }

  lemma BracesAdd(t: string, c: char)
    ensures Braces(t + [c]) == Braces(t) + if c == '{' then 1 else 0
  {
    assert (t + [c])[..|t|] == t;
  }

  predicate OnStack(stack: seq<char>) {
    forall i :: 0 <= i < |stack| ==> stack[i] == '{' || stack[i] == '`'
  }

  /** What holds of a restarted automaton whose brackets leave `open`. */
  ghost predicate InStep(s: Lex, open: string) {
    Consistent(s) && OnStack(s.stack) && Braces(s.stack) == Braces(open)
  }

  lemma ReduceStep(open: string, c: char)
    ensures Reduce(open, [c]) ==
      if IsOpener(c) then Some(open + [c])
      else if open != "" && IsOpener(open[|open| - 1]) && c == Closer(open[|open| - 1]) then Some(open[..|open| - 1])
      else None
    ensures Reduce(open, "") == Some(open)
  {
    assert [c][1..] == "";
  }

  lemma PopBraces(t: string)
    ensures t != "" ==> Braces(t) == Braces(t[..|t| - 1]) + if t[|t| - 1] == '{' then 1 else 0
  {
  }

  lemma StepOnStack(s: Lex, c: char)
    requires OnStack(s.stack)
    ensures OnStack(Step(s, c).stack)
  {
    assert OnStack(s.stack + ['{']) && OnStack(s.stack + ['`']) && OnStack(Pop(s.stack));
    hide OnStack, IsSpace;
  }

  /** Any step but one that reads a bracket leaves the braces alone. */
  lemma OtherStep(s: Lex, c: char)
    requires Consistent(s) && BracketOf(s, c) == ""
    ensures Braces(Step(s, c).stack) == Braces(s.stack)
  {
    BracesAdd(s.stack, '`');
    PopBraces(s.stack);
    hide Braces, NoAdjacentBackticks, IsSpace;
  }

  lemma BraceStep(s: Lex, c: char)
    requires BracketOf(s, c) == [c]
    ensures c == '{' ==> Step(s, c).stack == s.stack + ['{']
    ensures c == '}' && Top(s.stack) == Some('{') ==> Step(s, c).stack == Pop(s.stack)
    ensures c != '{' && c != '}' ==> Step(s, c).stack == s.stack
  {
    hide IsSpace;
  }

  /** A brace can be closed only if the automaton has one on its stack. */
  lemma BraceOnTop(s: Lex, open: string)
    requires InStep(s, open) && BracketOf(s, '}') == "}" && Braces(open) > 0
    ensures Top(s.stack) == Some('{')
  {
    hide NoAdjacentBackticks, IsSpace;
    assert s.stack == "" ==> Braces(s.stack) == 0;
  }

  lemma BracketStep(s: Lex, open: string, c: char)
    requires InStep(s, open) && BracketOf(s, c) == [c] && Reduce(open, [c]).Some?
    ensures Braces(Step(s, c).stack) == Braces(Reduce(open, [c]).value)
    ensures c == '}' ==> Top(s.stack) == Some('{')
  {
    ReduceStep(open, c);
    PopBraces(open);
    PopBraces(s.stack);
    BracesAdd(s.stack, '{');
    BracesAdd(open, c);
    BraceStep(s, c);
    if c == '}' {
      assert open != "" && open[|open| - 1] == '{';
      BraceOnTop(s, open);
    }
    hide Braces, OnStack, Consistent, Step, Reduce, BracketOf;
  }

  /** A bracket that the stack machine accepts keeps the automaton's braces in step, and never takes
      one from below its own. */
  lemma StepInStep(s: Lex, open: string, c: char)
    requires InStep(s, open) && Reduce(open, BracketOf(s, c)).Some?
    ensures InStep(Step(s, c), Reduce(open, BracketOf(s, c)).value)
    ensures BracketOf(s, c) == "}" ==> Top(s.stack) == Some('{')
  {
    StepConsistent(s, c);
    StepOnStack(s, c);
    ReduceStep(open, c);
    assert BracketOf(s, c) == "" || BracketOf(s, c) == [c];
    hide Braces, OnStack, Consistent, Step, Reduce, BracketOf;
    if BracketOf(s, c) == "" {
      OtherStep(s, c);
    } else {
      BracketStep(s, open, c);
    }
  }

  // ----- inside a longer text

  lemma LiftedStack(base: seq<char>, stack: seq<char>)
    requires Top(base) != Some('`')
    ensures Home(base + stack) == Home(stack)
    ensures stack != [] ==> Top(base + stack) == Top(stack) && Pop(base + stack) == base + Pop(stack)
    ensures base + stack + ['{'] == base + (stack + ['{']) && base + stack + ['`'] == base + (stack + ['`'])
  {
    if stack == [] { assert base + stack == base; }
  }

  lemma LiftedClose(base: seq<char>, s: Lex)
    requires Top(base) != Some('`') && Top(s.stack) == Some('{')
    ensures CodeStep(Lifted(base, s), '}') == Lifted(base, CodeStep(s, '}'))
  {
    LiftedStack(base, s.stack);
    LiftedStack(base, Pop(s.stack));
    assert s.stack != [];
    hide IsSpace, Home, Top, Pop;
  }

  lemma LiftedCode(base: seq<char>, s: Lex, c: char)
    requires Top(base) != Some('`') && (c == '}' ==> Top(s.stack) == Some('{'))
    ensures CodeStep(Lifted(base, s), c) == Lifted(base, CodeStep(s, c))
  {
    if c == '}' {
      LiftedClose(base, s);
    } else {
      LiftedStack(base, s.stack);
      hide IsSpace, Home, Top, Pop;
    }
  }

  lemma LiftedTemplate(base: seq<char>, s: Lex, c: char)
    requires Top(base) != Some('`') && s.stack != []
    ensures TemplateStep(Lifted(base, s), c) == Lifted(base, TemplateStep(s, c))
  {
    LiftedStack(base, s.stack);
    LiftedStack(base, Pop(s.stack));
    hide Home;
  }

  /** One step above a longer stack, whose top is no template. */
  lemma LiftedStep(base: seq<char>, s: Lex, c: char)
    requires Top(base) != Some('`') && Consistent(s)
    requires BracketOf(s, c) == "}" ==> Top(s.stack) == Some('{')
    ensures Step(Lifted(base, s), c) == Lifted(base, Step(s, c)) && BracketOf(Lifted(base, s), c) == BracketOf(s, c)
  {
    LiftedStack(base, s.stack);
    var slash := Lex(Code, s.stack, true);
    if s.mode.Code? && c != '\n' { LiftedCode(base, s, c); }
    if s.mode.Slash? && c != '\n' { LiftedCode(base, slash, c); }
    if s.stack != [] { LiftedTemplate(base, s, c); }
    assert Lifted(base, slash) == Lex(Code, base + s.stack, true);
    hide CodeStep, TemplateStep, Home, NoAdjacentBackticks;
  }

  lemma LastBracket(s: Lex, text: string)
    requires text != ""
    ensures
      var before, c := text[..|text| - 1], text[|text| - 1];
      && Run(s, text) == Step(Run(s, before), c)
      && CodeBrackets(s, text) == CodeBrackets(s, before) + BracketOf(Run(s, before), c)
  {
  }

  /** A text whose code brackets leave no closer over is read alike from its start and inside a longer
      text, above a stack whose top is no template. */
  lemma {:induction false} ReadAlike(base: seq<char>, text: string)
    requires Top(base) != Some('`') && Reduce("", CodeBrackets(START, text)).Some?
    ensures Run(Lifted(base, START), text) == Lifted(base, Run(START, text))
    ensures CodeBrackets(Lifted(base, START), text) == CodeBrackets(START, text)
    ensures InStep(Run(START, text), Reduce("", CodeBrackets(START, text)).value)
  {
    if text != "" {
      var before, c := text[..|text| - 1], text[|text| - 1];
      LastBracket(START, text);
      LastBracket(Lifted(base, START), text);
      hide Run, CodeBrackets, Reduce, BracketOf, Step, InStep, Lifted, Top;
      ReduceConcat("", CodeBrackets(START, before), BracketOf(Run(START, before), c));
      ReadAlike(base, before);
      StepInStep(Run(START, before), Reduce("", CodeBrackets(START, before)).value, c);
      InStepConsistent(Run(START, before), Reduce("", CodeBrackets(START, before)).value);
      LiftedStep(base, Run(START, before), c);
    }
  }

  lemma InStepConsistent(s: Lex, open: string)
    requires InStep(s, open)
    ensures Consistent(s)
  {
  }
}
