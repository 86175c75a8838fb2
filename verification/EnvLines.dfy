/** Lines of a text, and assignments in an environment file. */
module EnvLines {
  import opened Collections
  import opened Strings

  // ----- lines

  /** The characters `str.splitlines` breaks at. */
  predicate IsBreak(c: char) {
    '\n' <= c <= '\r' || '\U{1c}' <= c <= '\U{1e}' || c == '\U{85}' || c == '\U{2028}' || c == '\U{2029}'
  }

  predicate IsLine(s: string) {
    forall i :: 0 <= i < |s| ==> !IsBreak(s[i])
  }

  ghost predicate AreLines(lines: seq<string>) {
    forall i :: 0 <= i < |lines| ==> IsLine(lines[i])
  }

  /** The length of the first line. */
  function LineLength(text: string): (n: nat)
    ensures n <= |text| && IsLine(text[..n]) && (n < |text| ==> IsBreak(text[n]))
  {
    if text == "" || IsBreak(text[0]) then 0
    else
      var n := LineLength(text[1..]);
      assert text[..n + 1] == [text[0]] + text[1..][..n];
      n + 1
  }

  /** `\r\n` is one break. */
  function AfterBreak(text: string, n: nat): (rest: string)
    requires n < |text|
    ensures |rest| < |text|
  {
    if text[n] == '\r' && n + 1 < |text| && text[n + 1] == '\n' then text[n + 2..] else text[n + 1..]
  }

  /** `str.splitlines`. */
  function SplitLines(text: string): (lines: seq<string>)
    ensures AreLines(lines) && (lines == [] <==> text == "")
    decreases |text|
  {
    var n := LineLength(text);
    if text == "" then [] else if n == |text| then [text[..n]] else [text[..n]] + SplitLines(AfterBreak(text, n))
  }

  lemma {:induction false} LineLengthOf(line: string, rest: string)
    requires IsLine(line) && (rest == "" || IsBreak(rest[0]))
    ensures LineLength(line + rest) == |line|
  {
    if line == "" {
      assert line + rest == rest;
    } else {
      assert !IsBreak(line[0]);
      assert (line + rest)[1..] == line[1..] + rest;
      LineLengthOf(line[1..], rest);
    }
  }

  lemma SplitFirst(line: string, rest: string)
    requires IsLine(line)
    ensures SplitLines(line + "\n" + rest) == [line] + SplitLines(rest)
  {
    var text := line + "\n" + rest;
    assert text == line + ("\n" + rest);
    LineLengthOf(line, "\n" + rest);
    assert text[..|line|] == line && text[|line| + 1..] == rest;
  }

  lemma SplitOne(line: string)
    requires IsLine(line)
    ensures SplitLines(line) == if line == "" then [] else [line]
  {
    LineLengthOf(line, "");
    assert line + "" == line && line[..|line|] == line;
  }

  lemma JoinIs(lines: seq<string>)
    requires |lines| > 1
    ensures Join(lines, '\n') == lines[0] + "\n" + Join(lines[1..], '\n')
    ensures Join(lines, '\n') + "\n" == lines[0] + "\n" + (Join(lines[1..], '\n') + "\n")
  {
  }

  lemma JoinFirst(lines: seq<string>)
    requires |lines| > 1 && IsLine(lines[0])
    ensures SplitLines(Join(lines, '\n')) == [lines[0]] + SplitLines(Join(lines[1..], '\n'))
    ensures SplitLines(Join(lines, '\n') + "\n") == [lines[0]] + SplitLines(Join(lines[1..], '\n') + "\n")
  {
    JoinIs(lines);
    hide *;
    SplitFirst(lines[0], Join(lines[1..], '\n'));
    SplitFirst(lines[0], Join(lines[1..], '\n') + "\n");
  }

  lemma JoinOne(line: string)
    requires IsLine(line)
    ensures Join([line], '\n') == line && SplitLines(line + "\n") == [line]
  {
    SplitFirst(line, "");
    assert SplitLines("") == [];
    hide SplitLines;
    assert line + "\n" + "" == line + "\n";
  }

  /** Joined lines split into the same lines, except that an empty last line needs its own newline. */
  lemma {:induction false} SplitJoined(lines: seq<string>)
    requires AreLines(lines) && lines != []
    ensures SplitLines(Join(lines, '\n') + "\n") == lines
    ensures lines[|lines| - 1] != "" ==> SplitLines(Join(lines, '\n')) == lines
  {
    assert IsLine(lines[0]);
    hide SplitLines, Join, IsLine;
    if |lines| == 1 {
      JoinOne(lines[0]);
      SplitOne(lines[0]);
      assert lines == [lines[0]];
    } else {
      SplitJoined(lines[1..]);
      JoinFirst(lines);
      assert [lines[0]] + lines[1..] == lines;
    }
  }

  lemma {:induction false} JoinEmptyLast(lines: seq<string>)
    requires |lines| > 1 && lines[|lines| - 1] == ""
    ensures Join(lines, '\n') == Join(lines[..|lines| - 1], '\n') + "\n"
  {
    if |lines| == 2 {
      assert Join(lines, '\n') == lines[0] + "\n" + Join(lines[1..], '\n');
      assert Join(lines[..1], '\n') == lines[0];
    } else {
      JoinEmptyLast(lines[1..]);
      assert lines[1..][..|lines| - 2] == lines[..|lines| - 1][1..];
    }
  }

  /** Joined lines end in a newline only after an empty last line. */
  lemma {:induction false} JoinEnds(lines: seq<string>)
    requires AreLines(lines) && lines != [] && lines[|lines| - 1] != ""
    ensures Join(lines, '\n') != "" && !IsBreak(Join(lines, '\n')[|Join(lines, '\n')| - 1])
  {
    if |lines| > 1 {
      JoinEnds(lines[1..]);
    } else {
      assert IsLine(lines[0]);
    }
  }

  // ----- assignments

  predicate AllSpaces(s: string) {
    forall i :: 0 <= i < |s| ==> IsSpace(s[i])
  }

  predicate IsNameStart(c: char) {
    'A' <= c <= 'Z' || 'a' <= c <= 'z' || c == '_'
  }

  predicate IsNameChar(c: char) {
    IsNameStart(c) || '0' <= c <= '9'
  }

  predicate IsName(s: string) {
    s != "" && IsNameStart(s[0]) && forall i :: 0 <= i < |s| ==> IsNameChar(s[i])
  }

  /** How many spaces, or name characters, the text begins with. */
  function Spaces(text: string): (n: nat)
    ensures n <= |text|
  {
    if text == "" || !IsSpace(text[0]) then 0 else 1 + Spaces(text[1..])
  }

  function NameChars(text: string): (n: nat)
    ensures n <= |text|
  {
    if text == "" || !IsNameChar(text[0]) then 0 else 1 + NameChars(text[1..])
  }

  datatype Assignment = Assignment(lead: string, key: string, equals: string, value: string)

  function Text(a: Assignment): string {
    a.lead + a.key + a.equals + a.value
  }

  /** A name, spaces and `=` at the start of `text`, which follows `lead`. */
  function ParseKey(lead: string, text: string): Option<Assignment> {
    var n := NameChars(text);
    var after := text[n..];
    var s := Spaces(after);
    if n == 0 || !IsNameStart(text[0]) || s == |after| || after[s] != '=' then None
    else Some(Assignment(lead, text[..n], after[..s + 1], after[s + 1..]))
  }

  function Export(): string { "export" }

  /** `export` and at least one space at the start of `text`. */
  predicate Exported(text: string) {
    Export() <= text && Spaces(text[|Export()|..]) > 0
  }

  function ExportLength(text: string): (n: nat)
    requires Exported(text)
    ensures n <= |text|
  {
    |Export()| + Spaces(text[|Export()|..])
  }

  /** `ASSIGNMENT_RE`: `export` is read as a prefix if a name and `=` follow, and as the name otherwise. */
  function Parse(line: string): Option<Assignment> {
    var s := Spaces(line);
    var text := line[s..];
    var exported :=
      if !Exported(text) then None else ParseKey(line[..s + ExportLength(text)], text[ExportLength(text)..]);
    if exported.Some? then exported else ParseKey(line[..s], text)
  }

  // ----- replacing the key

  lemma {:induction false} SpacesOf(spaces: string, rest: string)
    requires AllSpaces(spaces)
    requires rest == "" || !IsSpace(rest[0])
    ensures Spaces(spaces + rest) == |spaces|
  {
    if spaces == "" {
      assert spaces + rest == rest;
    } else {
      assert (spaces + rest)[1..] == spaces[1..] + rest;
      SpacesOf(spaces[1..], rest);
    }
  }

  lemma {:induction false} SpacesAre(text: string)
    ensures forall i :: 0 <= i < Spaces(text) ==> IsSpace(text[i])
    ensures Spaces(text) < |text| ==> !IsSpace(text[Spaces(text)])
  {
    if text != "" && IsSpace(text[0]) { SpacesAre(text[1..]); }
  }

  lemma {:induction false} NameCharsOf(name: string, rest: string)
    requires forall i :: 0 <= i < |name| ==> IsNameChar(name[i])
    requires rest == "" || !IsNameChar(rest[0])
    ensures NameChars(name + rest) == |name|
  {
    if name == "" {
      assert name + rest == rest;
    } else {
      assert (name + rest)[1..] == name[1..] + rest;
      NameCharsOf(name[1..], rest);
    }
  }

  predicate IsEquals(s: string) {
    s != "" && s[|s| - 1] == '=' && forall i :: 0 <= i < |s| - 1 ==> IsSpace(s[i])
  }

  lemma EqualsPart(after: string)
    requires Spaces(after) < |after| && after[Spaces(after)] == '='
    ensures IsEquals(after[..Spaces(after) + 1])
  {
    SpacesAre(after);
    hide Spaces, IsSpace;
  }

  lemma ParseKeyParts(lead: string, text: string)
    requires ParseKey(lead, text).Some?
    ensures var a := ParseKey(lead, text).value;
      a.lead == lead && a.key + a.equals + a.value == text && IsEquals(a.equals)
  {
    hide Spaces, NameChars, IsEquals, IsSpace;
    var n := NameChars(text);
    var after := text[n..];
    EqualsPart(after);
    ThreeParts(text, n, Spaces(after) + 1);
  }

  lemma ThreeParts(text: string, n: nat, m: nat)
    requires n + m <= |text|
    ensures text[..n] + text[n..][..m] + text[n..][m..] == text
  {
  }

  lemma ParseKeyOf(lead: string, key: string, equals: string, value: string)
    requires IsName(key) && IsEquals(equals)
    ensures ParseKey(lead, key + equals + value) == Some(Assignment(lead, key, equals, value))
  {
    var text := key + equals + value;
    assert text == key + (equals + value);
    NameCharsOf(key, equals + value);
    var after := text[|key|..];
    assert after == equals + value;
    var s := |equals| - 1;
    assert after == equals[..s] + ("=" + value);
    SpacesOf(equals[..s], "=" + value);
    assert after[..s + 1] == equals && after[s + 1..] == value && text[..|key|] == key;
  }

  lemma KeyedText(line: string, n: nat)
    requires n <= |line| && ParseKey(line[..n], line[n..]).Some?
    ensures var a := ParseKey(line[..n], line[n..]).value; Text(a) == line && IsEquals(a.equals)
  {
    ParseKeyParts(line[..n], line[n..]);
    hide ParseKey, IsEquals, Text;
    Reassemble(line[..n], ParseKey(line[..n], line[n..]).value, line[n..]);
    assert line[..n] + line[n..] == line;
  }

  /** The parts of an assignment make up its line. */
  lemma ParseParts(line: string)
    requires Parse(line).Some?
    ensures Text(Parse(line).value) == line && IsEquals(Parse(line).value.equals)
  {
    hide ParseKey, IsEquals, Exported, ExportLength, Text;
    var s := Spaces(line);
    var text := line[s..];
    if Exported(text) && ParseKey(line[..s + ExportLength(text)], text[ExportLength(text)..]).Some? {
      var e := ExportLength(text);
      assert text[e..] == line[s + e..];
      KeyedText(line, s + e);
    } else {
      KeyedText(line, s);
    }
  }

  lemma Reassemble(lead: string, a: Assignment, text: string)
    requires a.lead == lead && a.key + a.equals + a.value == text
    ensures Text(a) == lead + text
  {
  }

  lemma PlainParse(lead: string, text: string)
    requires AllSpaces(lead)
    requires text != "" && !IsSpace(text[0]) && text[0] != 'e'
    ensures Parse(lead + text) == ParseKey(lead, text)
  {
    hide ParseKey;
    SpacesOf(lead, text);
    assert (lead + text)[..|lead|] == lead && (lead + text)[|lead|..] == text;
  }

  lemma ExportedIs(gap: string, text: string)
    requires gap != "" && AllSpaces(gap) && text != "" && !IsSpace(text[0])
    ensures
      var after := Export() + gap + text;
      Exported(after) && ExportLength(after) == |Export()| + |gap| && after[ExportLength(after)..] == text && after[0] == 'e'
  {
    var after := Export() + gap + text;
    assert after[|Export()|..] == gap + text && after[..|Export()|] == Export();
    SpacesOf(gap, text);
    hide Spaces;
  }

  lemma FourSliced(a: string, b: string, c: string, d: string)
    ensures
      var whole := a + b + c + d;
      && whole == a + (b + c + d) && whole[|a|..] == b + c + d
      && whole[..|a| + (|b| + |c|)] == a + b + c
  {
  }

  lemma ExportedParse(lead: string, gap: string, text: string)
    requires AllSpaces(lead)
    requires gap != "" && AllSpaces(gap)
    requires text != "" && !IsSpace(text[0])
    requires ParseKey(lead + Export() + gap, text).Some?
    ensures Parse(lead + Export() + gap + text) == ParseKey(lead + Export() + gap, text)
  {
    ExportedIs(gap, text);
    SpacesOf(lead, Export() + gap + text);
    FourSliced(lead, Export(), gap, text);
    hide ParseKey, Spaces, AllSpaces, Exported, ExportLength, Export, IsSpace;
  }

  lemma ExportedShape(text: string) returns (gap: string)
    requires Exported(text)
    ensures gap != "" && AllSpaces(gap) && text[..ExportLength(text)] == Export() + gap
  {
    gap := text[|Export()|..ExportLength(text)];
    SpacesAre(text[|Export()|..]);
    hide Spaces;
    assert text[..|Export()|] == Export();
  }

  lemma LeadSpaces(line: string)
    ensures AllSpaces(line[..Spaces(line)]) && AllSpaces("")
  {
    SpacesAre(line);
    hide Spaces, IsSpace;
  }

  /** The lead is spaces, or spaces, `export` and spaces. */
  lemma LeadShape(line: string) returns (lead: string, gap: string)
    requires Parse(line).Some?
    ensures AllSpaces(lead) && AllSpaces(gap)
    ensures Parse(line).value.lead == if gap == "" then lead else lead + Export() + gap
  {
    LeadSpaces(line);
    hide ParseKey, Exported, ExportLength, Export, Spaces, AllSpaces, IsEquals;
    var s := Spaces(line);
    var text := line[s..];
    lead, gap := line[..s], "";
    if Exported(text) && ParseKey(line[..s + ExportLength(text)], text[ExportLength(text)..]).Some? {
      gap := ExportedShape(text);
      ParseKeyParts(line[..s + ExportLength(text)], text[ExportLength(text)..]);
      assert line[..s + ExportLength(text)] == lead + text[..ExportLength(text)] == lead + Export() + gap;
    } else {
      ParseKeyParts(line[..s], text);
    }
  }

  lemma NameIsNotSpace(c: char)
    requires IsNameStart(c)
    ensures !IsSpace(c)
  {
  }

  /** A name that cannot be taken for `export` may replace the key. */
  lemma Rekeyed(line: string, key: string)
    requires Parse(line).Some? && IsName(key) && key[0] != 'e'
    ensures Parse(Text(Parse(line).value.(key := key))) == Some(Parse(line).value.(key := key))
  {
    var a := Parse(line).value;
    ParseParts(line);
    var lead, gap := LeadShape(line);
    NameIsNotSpace(key[0]);
    hide Parse, ParseKey, IsSpace, Export, IsEquals;
    var tail := key + a.equals + a.value;
    ParseKeyOf(a.lead, key, a.equals, a.value);
    Reassemble(a.lead, a.(key := key), tail);
    assert tail[0] == key[0];
    if gap == "" {
      PlainParse(lead, tail);
    } else {
      ExportedParse(lead, gap, tail);
    }
  }
}
