/** Renaming the default-model variables of an environment file. */
module EnvMigration {
  import opened Collections
  import opened Strings
  import opened EnvLines

  function Prefix(): string { "PLATFORM_OCI_ENTERPRISE_AI_" }
  function TextKey(): string { Prefix() + "DEFAULT_TEXT_MODEL" }
  function VisionKey(): string { Prefix() + "DEFAULT_VISION_MODEL" }
  function DefaultKey(): string { Prefix() + "DEFAULT_MODEL" }
  function LlmKey(): string { Prefix() + "LLM_MODEL" }
  function VlmKey(): string { Prefix() + "VLM_MODEL" }

  lemma KeysApart()
    ensures |TextKey()| == 45 && |VisionKey()| == 47 && |DefaultKey()| == 40
    ensures |LlmKey()| == |VlmKey()| == 36 && LlmKey() != VlmKey()
  {
    assert LlmKey()[27] == 'L' && VlmKey()[27] == 'V';
  }

  /** The old names of a new one, the preferred first. */
  function Sources(target: string): seq<string> {
    if target == TextKey() then [DefaultKey(), LlmKey()] else if target == VisionKey() then [VlmKey()] else []
  }

  /** The new name of an old one. */
  function TargetOf(key: string): Option<string> {
    if key == DefaultKey() || key == LlmKey() then Some(TextKey()) else if key == VlmKey() then Some(VisionKey()) else None
  }

  predicate IsOld(key: string) {
    TargetOf(key).Some?
  }

  lemma SourcesAre(key: string, target: string)
    ensures key in Sources(target) <==> TargetOf(key) == Some(target)
    ensures TargetOf(key) == Some(target) ==> !IsOld(target)
  {
    KeysApart();
    hide TextKey, VisionKey, DefaultKey, LlmKey, VlmKey;
  }

  // ----- values

  function Assign(values: map<string, string>, line: string): map<string, string> {
    match Parse(line)
    case None => values
    case Some(a) => values[a.key := a.value]
  }

  /** The last assignment to a key gives its value. */
  function Values(lines: seq<string>): map<string, string> {
    if lines == [] then map[] else Assign(Values(lines[..|lines| - 1]), lines[|lines| - 1])
  }

  function Lookup(values: map<string, string>, key: string): Option<string> {
    if key in values then Some(values[key]) else None
  }

  function StripSpaces(s: string): string {
    if s != "" && IsSpace(s[0]) then StripSpaces(s[1..])
    else if s != "" && IsSpace(s[|s| - 1]) then StripSpaces(s[..|s| - 1])
    else s
  }

  predicate IsQuote(c: char) {
    c == '\'' || c == '"'
  }

  function StripQuotes(s: string): string {
    if s != "" && IsQuote(s[0]) then StripQuotes(s[1..])
    else if s != "" && IsQuote(s[|s| - 1]) then StripQuotes(s[..|s| - 1])
    else s
  }

  predicate IsBlank(value: string) {
    StripSpaces(StripQuotes(StripSpaces(value))) == ""
  }

  // ----- the plan

  function Present(values: map<string, string>, sources: seq<string>): seq<string> {
    if sources == [] then []
    else (if sources[0] in values then [sources[0]] else []) + Present(values, sources[1..])
  }

  function FirstFilled(values: map<string, string>, names: seq<string>): Option<string>
    requires forall name :: name in names ==> name in values
  {
    if names == [] then None
    else if !IsBlank(values[names[0]]) then Some(names[0])
    else FirstFilled(values, names[1..])
  }

  lemma {:induction false} PresentIs(values: map<string, string>, sources: seq<string>)
    ensures forall name :: name in Present(values, sources) <==> name in sources && name in values
  {
    if sources != [] {
      PresentIs(values, sources[1..]);
      assert sources == [sources[0]] + sources[1..];
    }
  }

  /** The first source that is set to something, or else the first that is set. */
  function Chosen(values: map<string, string>, sources: seq<string>): (chosen: Option<string>)
  {
    PresentIs(values, sources);
    var present := Present(values, sources);
    if present == [] then None
    else if FirstFilled(values, present).Some? then FirstFilled(values, present)
    else Some(present[0])
  }

  lemma {:induction false} FirstFilledIs(values: map<string, string>, names: seq<string>)
    requires forall name :: name in names ==> name in values
    ensures FirstFilled(values, names).Some? ==> FirstFilled(values, names).value in names
  {
    if names != [] { FirstFilledIs(values, names[1..]); }
  }

  lemma ChosenIs(values: map<string, string>, sources: seq<string>)
    ensures Chosen(values, sources).None? <==> forall name :: name in sources ==> name !in values
    ensures Chosen(values, sources).Some? ==> Chosen(values, sources).value in sources && Chosen(values, sources).value in values
  {
    PresentIs(values, sources);
    var present := Present(values, sources);
    FirstFilledIs(values, present);
    hide Present, FirstFilled;
    if present != [] {
      assert present[0] in present;
    }
  }

  /** What an old name becomes: the new one, or nothing. */
  function Planned(values: map<string, string>, target: string, key: string): Option<string> {
    if target in values then None
    else if Chosen(values, Sources(target)) == Some(key) then Some(target)
    else None
  }

  method PlanFor(values: map<string, string>, target: string, plan0: map<string, Option<string>>)
    returns (plan: map<string, Option<string>>)
    ensures forall key :: key in plan <==> key in plan0 || (key in Sources(target) && key in values)
    ensures forall key :: key in plan ==>
      plan[key] == if key in Sources(target) && key in values then Planned(values, target, key) else plan0[key]
  {
    plan := plan0;
    var present := Present(values, Sources(target));
    PresentIs(values, Sources(target));
    ChosenIs(values, Sources(target));
    hide Present, Sources, Chosen;
    if present == [] { return; }
    assert present[0] in present;
    var chosen := Chosen(values, Sources(target)).value;
    if target in values {
      for i := 0 to |present|
        invariant forall key :: key in plan <==> key in plan0 || key in present[..i]
        invariant forall key :: key in plan ==> plan[key] == if key in present[..i] then None else plan0[key]
      {
        plan := plan[present[i] := None];
      }
      return;
    }
    for i := 0 to |present|
      invariant forall key :: key in plan <==> key in plan0 || key in present[..i]
      invariant forall key :: key in plan ==>
        plan[key] == if key in present[..i] then (if key == chosen then Some(target) else None) else plan0[key]
    {
      plan := plan[present[i] := if present[i] == chosen then Some(target) else None];
    }
  }

  // ----- the new lines

  function Rewrite(values: map<string, string>, line: string): seq<string> {
    match Parse(line)
    case None => [line]
    case Some(a) =>
      match TargetOf(a.key)
      case None => [line]
      case Some(target) =>
        match Planned(values, target, a.key)
        case None => []
        case Some(key) => [Text(a.(key := key))]
  }

  function RewriteAll(values: map<string, string>, lines: seq<string>): seq<string> {
    if lines == [] then []
    else RewriteAll(values, lines[..|lines| - 1]) + Rewrite(values, lines[|lines| - 1])
  }

  function MigrateLines(lines: seq<string>): seq<string> {
    RewriteAll(Values(lines), lines)
  }

  predicate EndsNewline(text: string) {
    text != "" && text[|text| - 1] == '\n'
  }

  function MigrateText(text: string): string {
    Join(MigrateLines(SplitLines(text)), '\n') + if text == "" || EndsNewline(text) then "\n" else ""
  }

  method ReadValues(lines: seq<string>) returns (values: map<string, string>)
    ensures values == Values(lines)
  {
    values := map[];
    for i := 0 to |lines|
      invariant values == Values(lines[..i])
    {
      assert lines[..i + 1][..i] == lines[..i];
      match Parse(lines[i]) {
        case None =>
        case Some(a) => values := values[a.key := a.value];
      }
    }
    assert lines[..|lines|] == lines;
  }

  ghost predicate IsPlan(values: map<string, string>, plan: map<string, Option<string>>) {
    forall key :: key in values ==>
      (key in plan <==> IsOld(key)) && (key in plan ==> plan[key] == Planned(values, TargetOf(key).value, key))
  }

  method MakePlan(values: map<string, string>) returns (plan: map<string, Option<string>>)
    ensures IsPlan(values, plan)
  {
    var forText := PlanFor(values, TextKey(), map[]);
    plan := PlanFor(values, VisionKey(), forText);
    forall key | key in values
      ensures (key in plan <==> IsOld(key)) && (key in plan ==> plan[key] == Planned(values, TargetOf(key).value, key))
    {
      SourcesAre(key, TextKey());
      SourcesAre(key, VisionKey());
      TargetsAre(key);
      hide TextKey, VisionKey, Sources, TargetOf, Planned;
    }
  }

  lemma TargetsAre(key: string)
    ensures IsOld(key) ==> TargetOf(key).value == TextKey() || TargetOf(key).value == VisionKey()
    ensures TextKey() != VisionKey()
  {
    KeysApart();
  }

  lemma {:induction false} ValuesHold(lines: seq<string>, i: nat)
    requires i < |lines| && Parse(lines[i]).Some?
    ensures Parse(lines[i]).value.key in Values(lines)
  {
    hide Parse;
    if i < |lines| - 1 { ValuesHold(lines[..|lines| - 1], i); }
  }

  method RewriteLines(lines: seq<string>, values: map<string, string>, plan: map<string, Option<string>>)
    returns (output: seq<string>)
    requires values == Values(lines) && IsPlan(values, plan)
    ensures output == RewriteAll(values, lines)
  {
    hide Values, TargetOf, Planned, Parse, Text;
    output := [];
    for i := 0 to |lines|
      invariant output == RewriteAll(values, lines[..i])
    {
      assert lines[..i + 1][..i] == lines[..i];
      var parsed := Parse(lines[i]);
      if parsed.Some? { ValuesHold(lines, i); }
      if parsed.None? || parsed.value.key !in plan {
        output := output + [lines[i]];
      } else if plan[parsed.value.key].Some? {
        output := output + [Text(parsed.value.(key := plan[parsed.value.key].value))];
      }
    }
    assert lines[..|lines|] == lines;
  }

  /** `migrate`, without its messages. */
  method Migrate(text: string) returns (content: string)
    ensures content == MigrateText(text)
  {
    hide SplitLines, Values, RewriteAll, Join;
    var lines := SplitLines(text);
    var values := ReadValues(lines);
    var plan := MakePlan(values);
    var output := RewriteLines(lines, values, plan);
    content := Join(output, '\n');
    if EndsNewline(text) || text == "" {
      content := content + "\n";
    }
  }

  // ----- where each value comes from

  /** The key whose value `key` has afterwards. */
  function Origin(values: map<string, string>, key: string): string {
    if key in values || Chosen(values, Sources(key)).None? then key else Chosen(values, Sources(key)).value
  }

  predicate Becomes(values: map<string, string>, old': string, key: string) {
    if IsOld(old') then Planned(values, TargetOf(old').value, old') == Some(key) else old' == key
  }

  lemma OriginIs(values: map<string, string>, old': string, key: string)
    requires old' in values && !IsOld(key)
    ensures Becomes(values, old', key) <==> Origin(values, key) == old'
  {
    ChosenIs(values, Sources(key));
    SourcesAre(old', key);
    hide Chosen, Sources, TargetOf;
  }

  lemma BecomesNew(values: map<string, string>, old': string)
    requires IsOld(old') && Planned(values, TargetOf(old').value, old').Some?
    ensures Planned(values, TargetOf(old').value, old') == Some(TargetOf(old').value) && !IsOld(TargetOf(old').value)
  {
    SourcesAre(old', TargetOf(old').value);
  }

  /** Reading the rewritten line back. */
  lemma RewriteAssigns(values: map<string, string>, line: string, before: map<string, string>, key: string)
    requires Parse(line).Some? ==> Parse(line).value.key in values
    ensures var after := if Rewrite(values, line) == [] then before else Assign(before, Rewrite(values, line)[0]);
      Lookup(after, key) ==
        if Parse(line).Some? && Becomes(values, Parse(line).value.key, key) then Some(Parse(line).value.value)
        else Lookup(before, key)
  {
    if Parse(line).Some? {
      var a := Parse(line).value;
      if IsOld(a.key) && Planned(values, TargetOf(a.key).value, a.key).Some? {
        BecomesNew(values, a.key);
        TargetIsName(a.key);
        Rekeyed(line, TargetOf(a.key).value);
      }
      hide Parse, TargetOf, Planned, Text;
    }
  }

  lemma TargetIsName(key: string)
    requires IsOld(key)
    ensures IsName(TargetOf(key).value) && TargetOf(key).value[0] != 'e'
  {
    TextIsName();
    VisionIsName();
    hide TextKey, VisionKey, DefaultKey, LlmKey, VlmKey, IsName;
  }

  lemma PrefixIsName()
    ensures IsName(Prefix()) && Prefix()[0] == 'P'
  {
    assert Prefix()[0] == 'P';
  }

  lemma NameGrows(name: string, rest: string)
    requires IsName(name) && forall i :: 0 <= i < |rest| ==> IsNameChar(rest[i])
    ensures IsName(name + rest) && (name + rest)[0] == name[0]
  {
  }

  lemma TextIsName()
    ensures IsName(TextKey()) && TextKey()[0] == 'P'
  {
    PrefixIsName();
    hide Prefix;
    NameGrows(Prefix(), "DEFAULT_TEXT_MODEL");
  }

  lemma VisionIsName()
    ensures IsName(VisionKey()) && VisionKey()[0] == 'P'
  {
    PrefixIsName();
    hide Prefix;
    NameGrows(Prefix(), "DEFAULT_VISION_MODEL");
  }

  lemma RewriteIsShort(values: map<string, string>, line: string)
    ensures |Rewrite(values, line)| <= 1
  {
  }

  lemma NeverBecomesOld(values: map<string, string>, old': string, key: string)
    requires Becomes(values, old', key)
    ensures !IsOld(key)
  {
    if IsOld(old') { BecomesNew(values, old'); }
  }

  lemma ValuesGrow(front: seq<string>, tail: seq<string>)
    requires |tail| <= 1
    ensures Values(front + tail) == if tail == [] then Values(front) else Assign(Values(front), tail[0])
  {
    hide Assign;
    if tail != [] {
      assert (front + tail)[..|front|] == front && (front + tail)[|front|] == tail[0];
    } else {
      assert front + tail == front;
    }
  }

  lemma RewriteTail(values: map<string, string>, lines: seq<string>)
    requires lines != []
    ensures
      var front := Values(RewriteAll(values, lines[..|lines| - 1]));
      var tail := Rewrite(values, lines[|lines| - 1]);
      Values(RewriteAll(values, lines)) == if tail == [] then front else Assign(front, tail[0])
  {
    RewriteIsShort(values, lines[|lines| - 1]);
    hide Rewrite, Assign, Values;
    ValuesGrow(RewriteAll(values, lines[..|lines| - 1]), Rewrite(values, lines[|lines| - 1]));
  }

  lemma AssignLooksUp(values: map<string, string>, line: string, key: string)
    ensures Lookup(Assign(values, line), key) ==
      if Parse(line).Some? && Parse(line).value.key == key then Some(Parse(line).value.value) else Lookup(values, key)
  {
  }

  /** No old key has a value afterwards, and each other key has the value of its origin. */
  lemma {:induction false} Tracked(values: map<string, string>, lines: seq<string>, key: string)
    requires Values(lines).Keys <= values.Keys
    ensures Lookup(Values(RewriteAll(values, lines)), key) ==
      if IsOld(key) then None else Lookup(Values(lines), Origin(values, key))
  {
    if lines != [] {
      var front, line := lines[..|lines| - 1], lines[|lines| - 1];
      AssignedKeys(lines);
      Tracked(values, front, key);
      RewriteTail(values, lines);
      RewriteAssigns(values, line, Values(RewriteAll(values, front)), key);
      AssignLooksUp(Values(front), line, Origin(values, key));
      assert Values(lines) == Assign(Values(front), line);
      hide Values, RewriteAll, Rewrite, Assign, Parse, Lookup, Origin, Becomes, IsOld;
      if Parse(line).Some? {
        var old' := Parse(line).value.key;
        if Becomes(values, old', key) { NeverBecomesOld(values, old', key); }
        if !IsOld(key) { OriginIs(values, old', key); }
      }
    }
  }

  lemma AssignedKeys(lines: seq<string>)
    requires lines != []
    ensures Values(lines[..|lines| - 1]).Keys <= Values(lines).Keys
    ensures Parse(lines[|lines| - 1]).Some? ==> Parse(lines[|lines| - 1]).value.key in Values(lines)
  {
  }

  // ----- what the migration keeps

  lemma NoOldKeyLeft(lines: seq<string>, key: string)
    requires IsOld(key)
    ensures key !in Values(MigrateLines(lines))
  {
    Tracked(Values(lines), lines, key);
  }

  /** A key that is neither an old nor a new name keeps its value. */
  lemma OtherValueKept(lines: seq<string>, key: string)
    requires !IsOld(key) && key != TextKey() && key != VisionKey()
    ensures Lookup(Values(MigrateLines(lines)), key) == Lookup(Values(lines), key)
  {
    Tracked(Values(lines), lines, key);
    ChosenIs(Values(lines), Sources(key));
    hide Values, RewriteAll, Chosen, IsOld, TextKey, VisionKey;
  }

  lemma PresentOf2(values: map<string, string>, a: string, b: string)
    ensures Present(values, [a, b]) ==
      if a in values && b in values then [a, b] else if a in values then [a] else if b in values then [b] else []
  {
    assert [a, b][1..] == [b] && [b][1..] == [];
    assert Present(values, [b]) == if b in values then [b] else [];
    assert Present(values, [a, b]) == (if a in values then [a] else []) + Present(values, [b]);
  }

  lemma FilledOf1(values: map<string, string>, a: string)
    requires a in values
    ensures FirstFilled(values, [a]) == if IsBlank(values[a]) then None else Some(a)
  {
    hide IsBlank;
    assert [a][1..] == [];
  }

  lemma FilledOf2(values: map<string, string>, a: string, b: string)
    requires a in values && b in values
    ensures FirstFilled(values, [a, b]) ==
      if !IsBlank(values[a]) then Some(a) else if !IsBlank(values[b]) then Some(b) else None
  {
    FilledOf1(values, b);
    hide IsBlank;
    assert [a, b][1..] == [b];
  }

  lemma FirstOf2(values: map<string, string>, a: string, b: string)
    ensures Chosen(values, [a, b]) ==
      if a in values && !IsBlank(values[a]) then Some(a)
      else if b in values && !IsBlank(values[b]) then Some(b)
      else if a in values then Some(a)
      else if b in values then Some(b)
      else None
  {
    PresentOf2(values, a, b);
    PresentIs(values, [a, b]);
    hide IsBlank, Present, FirstFilled;
    if a in values && b in values {
      FilledOf2(values, a, b);
    } else if a in values {
      FilledOf1(values, a);
    } else if b in values {
      FilledOf1(values, b);
    }
  }

  /** The text model: the new name's value if it has one, and otherwise what the old program used. */
  lemma TextValue(lines: seq<string>)
    ensures
      var before, after := Values(lines), Values(MigrateLines(lines));
      Lookup(after, TextKey()) ==
        if TextKey() in before then Some(before[TextKey()])
        else if DefaultKey() in before && !IsBlank(before[DefaultKey()]) then Some(before[DefaultKey()])
        else if LlmKey() in before && !IsBlank(before[LlmKey()]) then Some(before[LlmKey()])
        else if DefaultKey() in before then Some(before[DefaultKey()])
        else Lookup(before, LlmKey())
  {
    var values := Values(lines);
    Tracked(values, lines, TextKey());
    TextIsNew();
    FirstOf2(values, DefaultKey(), LlmKey());
    hide Values, RewriteAll, Chosen, IsOld, TextKey, DefaultKey, LlmKey, IsBlank, VisionKey, VlmKey;
  }

  lemma TextIsNew()
    ensures !IsOld(TextKey()) && !IsOld(VisionKey()) && TextKey() != VisionKey()
  {
    KeysApart();
    hide TextKey, VisionKey, DefaultKey, LlmKey, VlmKey;
  }

  lemma VisionValue(lines: seq<string>)
    ensures
      var before, after := Values(lines), Values(MigrateLines(lines));
      Lookup(after, VisionKey()) ==
        if VisionKey() in before then Some(before[VisionKey()]) else Lookup(before, VlmKey())
  {
    var values := Values(lines);
    Tracked(values, lines, VisionKey());
    TextIsNew();
    ChosenIs(values, [VlmKey()]);
    hide Values, RewriteAll, Chosen, IsOld, TextKey, DefaultKey, LlmKey, VisionKey, VlmKey;
    assert VlmKey() in [VlmKey()];
  }

  /** Comments, blank lines and assignments to other keys. */
  predicate IsUnrelated(line: string) {
    Parse(line).None? || (!IsOld(Parse(line).value.key) && Parse(line).value.key != TextKey() && Parse(line).value.key != VisionKey())
  }

  function Unrelated(lines: seq<string>): seq<string> {
    if lines == [] then []
    else Unrelated(lines[..|lines| - 1]) + if IsUnrelated(lines[|lines| - 1]) then [lines[|lines| - 1]] else []
  }

  lemma UnrelatedRewrite(values: map<string, string>, line: string)
    ensures IsUnrelated(line) ==> Rewrite(values, line) == [line]
    ensures !IsUnrelated(line) && Rewrite(values, line) != [] ==> !IsUnrelated(Rewrite(values, line)[0])
  {
    if !IsUnrelated(line) {
      var a := Parse(line).value;
      if IsOld(a.key) && Planned(values, TargetOf(a.key).value, a.key).Some? {
        BecomesNew(values, a.key);
        TargetIsName(a.key);
        TargetsAre(a.key);
        Rekeyed(line, TargetOf(a.key).value);
      }
      hide Parse, TargetOf, Planned, Text, TextKey, VisionKey;
    }
  }

  lemma {:induction false} UnrelatedRewritten(values: map<string, string>, lines: seq<string>)
    ensures Unrelated(RewriteAll(values, lines)) == Unrelated(lines)
  {
    if lines != [] {
      var line := lines[|lines| - 1];
      var front, tail := RewriteAll(values, lines[..|lines| - 1]), Rewrite(values, line);
      UnrelatedRewritten(values, lines[..|lines| - 1]);
      UnrelatedRewrite(values, line);
      RewriteIsShort(values, line);
      hide Rewrite, IsUnrelated;
      if tail != [] {
        assert (front + tail)[..|front|] == front && (front + tail)[|front|] == tail[0];
      } else {
        assert front + tail == front;
      }
    }
  }

  /** Every unrelated line is kept as it is, in order. */
  lemma UnrelatedKept(lines: seq<string>)
    ensures Unrelated(MigrateLines(lines)) == Unrelated(lines)
  {
    UnrelatedRewritten(Values(lines), lines);
  }

  // ----- running it again

  lemma {:induction false} RewriteNothing(values: map<string, string>, lines: seq<string>)
    requires forall key :: IsOld(key) ==> key !in Values(lines)
    ensures RewriteAll(values, lines) == lines
  {
    if lines != [] {
      var front, line := lines[..|lines| - 1], lines[|lines| - 1];
      AssignedKeys(lines);
      assert front + [line] == lines;
      hide Values, Parse;
      forall key | IsOld(key) ensures key !in Values(front) {
        assert key !in Values(lines);
      }
      RewriteNothing(values, front);
    }
  }

  lemma MigrateLinesTwice(lines: seq<string>)
    ensures MigrateLines(MigrateLines(lines)) == MigrateLines(lines)
  {
    forall key | IsOld(key) ensures key !in Values(MigrateLines(lines)) {
      NoOldKeyLeft(lines, key);
    }
    hide Values, RewriteAll, IsOld;
    RewriteNothing(Values(MigrateLines(lines)), MigrateLines(lines));
  }

  lemma PartsAreLines(a: Assignment, key: string)
    requires IsLine(Text(a)) && IsName(key)
    ensures IsLine(Text(a.(key := key)))
  {
    var n, m := |a.lead|, |a.lead + a.key|;
    assert forall i :: 0 <= i < n ==> a.lead[i] == Text(a)[i];
    assert forall i :: 0 <= i < |a.equals| ==> a.equals[i] == Text(a)[m + i];
    assert forall i :: 0 <= i < |a.value| ==> a.value[i] == Text(a)[m + |a.equals| + i];
    assert forall i :: 0 <= i < |key| ==> IsNameChar(key[i]);
  }

  lemma RewriteIsLine(values: map<string, string>, line: string)
    requires IsLine(line)
    ensures AreLines(Rewrite(values, line))
  {
    if Parse(line).Some? {
      var a := Parse(line).value;
      ParseParts(line);
      if IsOld(a.key) && Planned(values, TargetOf(a.key).value, a.key).Some? {
        BecomesNew(values, a.key);
        TargetIsName(a.key);
        PartsAreLines(a, TargetOf(a.key).value);
      }
      hide Parse, TargetOf, Planned, Text, IsLine, IsName;
    }
  }

  lemma {:induction false} RewrittenAreLines(values: map<string, string>, lines: seq<string>)
    requires AreLines(lines)
    ensures AreLines(RewriteAll(values, lines))
  {
    if lines != [] {
      RewrittenAreLines(values, lines[..|lines| - 1]);
      RewriteIsLine(values, lines[|lines| - 1]);
      hide IsLine, Rewrite;
    }
  }

  lemma BlankHasNoValue()
    ensures Values([]) == map[] && Values([""]) == map[]
  {
    assert Parse("").None?;
    hide Parse;
    assert [""][..0] == [];
  }

  lemma NothingOld(lines: seq<string>)
    requires forall key :: IsOld(key) ==> key !in Values(lines)
    ensures MigrateLines(lines) == lines
  {
    RewriteNothing(Values(lines), lines);
  }

  lemma TargetHasValue(lines: seq<string>, key: string)
    requires IsOld(key) && key in Values(lines)
    ensures TargetOf(key).value in Values(MigrateLines(lines))
  {
    var target := TargetOf(key).value;
    Tracked(Values(lines), lines, target);
    SourcesAre(key, target);
    ChosenIs(Values(lines), Sources(target));
    hide Values, RewriteAll, Chosen, TargetOf, Sources;
  }

  /** The result is no line, or one blank line, only if the text is. */
  lemma BlankOnlyFromBlank(lines: seq<string>)
    ensures MigrateLines(lines) == [] <==> lines == []
    ensures MigrateLines(lines) == [""] <==> lines == [""]
  {
    BlankHasNoValue();
    hide Values, RewriteAll, IsOld, TargetOf, MigrateLines;
    if key :| IsOld(key) && key in Values(lines) {
      TargetHasValue(lines, key);
    } else {
      NothingOld(lines);
    }
  }

  lemma PrefixMigrated(lines: seq<string>)
    requires MigrateLines(lines) != []
    ensures var out := MigrateLines(lines); MigrateLines(out[..|out| - 1]) == out[..|out| - 1]
  {
    var out := MigrateLines(lines);
    AssignedKeys(out);
    forall key | IsOld(key) ensures key !in Values(out[..|out| - 1]) {
      NoOldKeyLeft(lines, key);
      hide Values, MigrateLines, IsOld;
    }
    hide Values, MigrateLines, IsOld;
    NothingOld(out[..|out| - 1]);
  }

  /** A lone break that is not a newline. */
  predicate IsLoneBreak(text: string) {
    |text| == 1 && IsBreak(text[0]) && text[0] != '\n'
  }

  lemma LoneBreakSplits(text: string)
    requires text != "" && !EndsNewline(text)
    ensures SplitLines(text) == [""] <==> IsLoneBreak(text)
  {
    var n := LineLength(text);
    if n == |text| {
      assert text[..n] == text;
    } else {
      SplitsBlank(text, n);
      assert n == 0 <==> IsBreak(text[0]);
      hide SplitLines, IsBreak, LineLength;
    }
  }

  lemma SplitsBlank(text: string, n: nat)
    requires n == LineLength(text) < |text|
    ensures SplitLines(text) == [""] <==> n == 0 && AfterBreak(text, n) == ""
  {
    assert SplitLines(text) == [text[..n]] + SplitLines(AfterBreak(text, n));
    hide SplitLines, LineLength, AfterBreak, IsBreak;
    if n == 0 && AfterBreak(text, n) == "" {
      assert SplitLines(AfterBreak(text, n)) == [];
    }
  }

  lemma MigrateEmpty()
    ensures MigrateText("") == "\n" && MigrateText("\n") == "\n"
  {
    BlankOnlyFromBlank([]);
    BlankOnlyFromBlank([""]);
    JoinOne("");
    assert "" + "\n" == "\n";
    assert SplitLines("") == [];
    hide SplitLines, MigrateLines;
  }

  lemma SettledText(text: string, lines: seq<string>, end: string)
    requires SplitLines(text) == lines && MigrateLines(lines) == lines
    requires (text == Join(lines, '\n') + end || (end == "" && text == Join(lines, '\n'))) && end == if text == "" || EndsNewline(text) then "\n" else ""
    ensures MigrateText(text) == text
  {
    hide Join, SplitLines, MigrateLines, EndsNewline;
  }

  /** A text whose result ends with a newline. */
  lemma NewlineTwice(text: string, lines: seq<string>)
    requires AreLines(lines) && lines != [] && MigrateLines(lines) == lines && text == Join(lines, '\n') + "\n"
    ensures MigrateText(text) == text
  {
    SplitJoined(lines);
    assert EndsNewline(text);
    hide *;
    SettledText(text, lines, "\n");
  }

  lemma BreakEnds(text: string)
    requires text != "" && !IsBreak(text[|text| - 1])
    ensures !EndsNewline(text)
  {
  }

  lemma PlainTwice(text: string, lines: seq<string>)
    requires AreLines(lines) && lines != [] && MigrateLines(lines) == lines && text == Join(lines, '\n')
    requires lines[|lines| - 1] != ""
    ensures MigrateText(text) == text
  {
    hide *;
    SplitJoined(lines);
    JoinEnds(lines);
    BreakEnds(text);
    SettledText(text, lines, "");
  }

  /** Migrating twice is migrating once, except for a text that is one break other than a newline:
      its result is empty, and the result of the empty text is a newline. */
  lemma MigrateTwice(text: string)
    ensures MigrateText(MigrateText(text)) == MigrateText(text) <==> !IsLoneBreak(text)
  {
    var lines := SplitLines(text);
    var out := MigrateLines(lines);
    BlankOnlyFromBlank(lines);
    RewrittenAreLines(Values(lines), lines);
    MigrateLinesTwice(lines);
    MigrateEmpty();
    var content := MigrateText(text);
    if text != "" {
      assert content == Join(out, '\n') + if EndsNewline(text) then "\n" else "";
      if EndsNewline(text) {
        hide SplitLines, MigrateLines, Join, MigrateText, AreLines;
        assert !IsLoneBreak(text);
        NewlineTwice(content, out);
      } else {
        assert content == Join(out, '\n');
        LoneBreakSplits(text);
        if out == [""] {
          assert content == "";
        } else {
          hide SplitLines, MigrateLines, MigrateText, Join, EndsNewline, IsLoneBreak;
          SettledTwice(lines, content);
        }
      }
    }
  }

  lemma SettledTwice(lines: seq<string>, content: string)
    requires AreLines(MigrateLines(lines)) && MigrateLines(lines) != [] && MigrateLines(lines) != [""]
    requires content == Join(MigrateLines(lines), '\n')
    ensures MigrateText(content) == content
  {
    var out := MigrateLines(lines);
    MigrateLinesTwice(lines);
    PrefixMigrated(lines);
    hide MigrateLines, MigrateText, Join;
    if out[|out| - 1] != "" {
      PlainTwice(content, out);
    } else {
      JoinEmptyLast(out);
      NewlineTwice(content, out[..|out| - 1]);
    }
  }

  lemma LoneBreakMigrates(text: string)
    requires IsLoneBreak(text)
    ensures MigrateText(text) == ""
  {
    LoneBreakSplits(text);
    BlankOnlyFromBlank([""]);
    JoinOne("");
    hide SplitLines, MigrateLines, Join, IsLoneBreak, EndsNewline;
    assert "" + "" == "";
  }

  /** A form feed becomes the empty text, and that a newline. */
  lemma MigrateTwiceExample()
    ensures MigrateText("\U{c}") == "" && MigrateText(MigrateText("\U{c}")) == "\n"
  {
    hide MigrateText;
    LoneBreakMigrates("\U{c}");
    MigrateEmpty();
  }
}
