/** A minimal PDF file, and a reader that finds its objects through the cross-reference
    table (sections 7.5.4 and 7.5.5 of ISO 32000-1). A byte is a character here. */
module PdfWriter {
  import opened Collections

  type Bytes = string

  // ----- decimal numbers

  predicate IsDigit(c: char) {
    '0' <= c <= '9'
  }

  predicate AllDigits(s: Bytes) {
    forall i :: 0 <= i < |s| ==> IsDigit(s[i])
  }

  function DigitOf(d: nat): char
    requires d < 10
  {
    '0' + d as char
  }

  function Digits(n: nat): (s: Bytes) {
    if n < 10 then [DigitOf(n)] else Digits(n / 10) + [DigitOf(n % 10)]
  }

  function Value(s: Bytes): nat {
    if s == "" then 0
    else
      var c := s[|s| - 1];
      10 * Value(s[..|s| - 1]) + if IsDigit(c) then (c - '0') as nat else 0
  }

  lemma {:induction false} DigitsRead(n: nat)
    ensures Digits(n) != "" && AllDigits(Digits(n)) && Value(Digits(n)) == n
  {
    if n >= 10 {
      DigitsRead(n / 10);
      assert Digits(n)[..|Digits(n)| - 1] == Digits(n / 10);
    } else {
      assert Digits(n)[..0] == "";
    }
  }

  function Power10(w: nat): nat {
    if w == 0 then 1 else 10 * Power10(w - 1)
  }

  lemma {:induction false} DigitsShort(n: nat, w: nat)
    requires w > 0 && n < Power10(w)
    ensures |Digits(n)| <= w
  {
    if n >= 10 {
      DigitsShort(n / 10, w - 1);
    }
  }

  function Zeros(n: nat): Bytes {
    seq(n, _ => '0')
  }

  /** `{n:010d}`. */
  function Pad10(n: nat): Bytes {
    var s := Digits(n);
    if |s| < 10 then Zeros(10 - |s|) + s else s
  }

  lemma {:induction false} ValueZeros(k: nat, s: Bytes)
    requires AllDigits(s)
    ensures AllDigits(Zeros(k) + s) && Value(Zeros(k) + s) == Value(s)
    decreases |s|, k
  {
    if s == "" {
      assert Zeros(k) + s == Zeros(k);
      if k > 0 {
        ValueZeros(k - 1, s);
        assert Zeros(k)[..k - 1] == Zeros(k - 1) == Zeros(k - 1) + s;
      }
    } else {
      ValueZeros(k, s[..|s| - 1]);
      assert (Zeros(k) + s)[..k + |s| - 1] == Zeros(k) + s[..|s| - 1];
    }
  }

  lemma Pad10Reads(n: nat)
    requires n < Power10(10)
    ensures |Pad10(n)| == 10 && AllDigits(Pad10(n)) && Value(Pad10(n)) == n
  {
    DigitsRead(n);
    DigitsShort(n, 10);
    ValueZeros(if |Digits(n)| < 10 then 10 - |Digits(n)| else 0, Digits(n));
  }

  /** How many digits `s` begins, or ends, with. */
  function Leading(s: Bytes): (k: nat)
    ensures k <= |s|
  {
    if s == "" || !IsDigit(s[0]) then 0 else 1 + Leading(s[1..])
  }

  function Trailing(s: Bytes): (k: nat)
    ensures k <= |s|
  {
    if s == "" || !IsDigit(s[|s| - 1]) then 0 else 1 + Trailing(s[..|s| - 1])
  }

  lemma {:induction false} LeadingIs(d: Bytes, rest: Bytes)
    requires AllDigits(d) && (rest == "" || !IsDigit(rest[0]))
    ensures Leading(d + rest) == |d|
  {
    if d == "" {
      assert d + rest == rest;
    } else {
      LeadingIs(d[1..], rest);
      assert (d + rest)[1..] == d[1..] + rest;
    }
  }

  lemma {:induction false} TrailingIs(before: Bytes, d: Bytes)
    requires AllDigits(d) && (before == "" || !IsDigit(before[|before| - 1]))
    ensures Trailing(before + d) == |d|
  {
    if d == "" {
      assert before + d == before;
    } else {
      TrailingIs(before, d[..|d| - 1]);
      assert (before + d)[..|before| + |d| - 1] == before + d[..|d| - 1];
    }
  }

  // ----- pieces of a document

  predicate HasAt(doc: Bytes, pos: nat, piece: Bytes) {
    pos + |piece| <= |doc| && doc[pos..pos + |piece|] == piece
  }

  lemma HasBetween(a: Bytes, piece: Bytes, b: Bytes)
    ensures HasAt(a + piece + b, |a|, piece)
  {
    assert (a + piece + b)[|a|..|a| + |piece|] == piece;
  }

  /** A piece of a piece. */
  lemma HasWithin(doc: Bytes, pos: nat, piece: Bytes, at: nat, part: Bytes)
    requires HasAt(doc, pos, piece) && HasAt(piece, at, part)
    ensures HasAt(doc, pos + at, part)
  {
    SliceOfSlice(doc, pos, pos + |piece|, at, at + |part|);
  }

  lemma HasFirst(a: Bytes, b: Bytes, pos: nat, part: Bytes)
    requires HasAt(a, pos, part)
    ensures HasAt(a + b, pos, part)
  {
    assert (a + b)[pos..pos + |part|] == a[pos..pos + |part|];
  }

  lemma HasLast(a: Bytes, b: Bytes)
    ensures HasAt(a + b, |a|, b)
  {
    assert (a + b)[|a|..|a| + |b|] == b;
  }

  lemma HasParts(doc: Bytes, pos: nat, a: Bytes, b: Bytes)
    requires HasAt(doc, pos, a + b)
    ensures HasAt(doc, pos, a) && HasAt(doc, pos + |a|, b)
  {
    assert (a + b)[0..|a|] == a;
    assert (a + b)[|a|..|a| + |b|] == b;
    HasWithin(doc, pos, a + b, 0, a);
    HasWithin(doc, pos, a + b, |a|, b);
  }

  lemma SliceOfSlice(s: Bytes, a: nat, b: nat, c: nat, d: nat)
    requires a <= b <= |s| && c <= d <= b - a
    ensures s[a..b][c..d] == s[a + c..a + d]
  {
    forall k | 0 <= k < d - c ensures s[a..b][c..d][k] == s[a + c..a + d][k] {
      assert s[a..b][c + k] == s[a + c + k];
    }
  }

  // ----- the document

  function XrefLine(): Bytes { "xref\n0 " }

  function FileHeader(): Bytes { "%PDF-1.4\n%\U{e2}\U{e3}\U{cf}\U{d3}\n" }
  function EndObj(): Bytes { "\nendobj\n" }
  function FreeEntry(): Bytes { "0000000000 65535 f \n" }
  function Used(): Bytes { " 00000 n \n" }
  function Tail(): Bytes { "\n%%EOF\n" }

  function ObjectHeader(i: nat): Bytes {
    Digits(i) + " 0 obj\n"
  }

  function ObjectText(i: nat, body: Bytes): Bytes {
    ObjectHeader(i) + body + EndObj()
  }

  /** The header and the first objects; objects are numbered from 1. */
  function Front(objects: seq<Bytes>): Bytes {
    if objects == [] then FileHeader()
    else Front(objects[..|objects| - 1]) + ObjectText(|objects|, objects[|objects| - 1])
  }

  /** Where object `i + 1` begins. */
  function Offset(objects: seq<Bytes>, i: nat): nat
    requires i <= |objects|
  {
    |Front(objects[..i])|
  }

  function Entry(offset: nat): Bytes {
    Pad10(offset) + Used()
  }

  function Entries(objects: seq<Bytes>, n: nat): Bytes
    requires n <= |objects|
  {
    if n == 0 then FreeEntry() else Entries(objects, n - 1) + Entry(Offset(objects, n - 1))
  }

  function XrefHead(n: nat): Bytes {
    XrefLine() + Digits(n) + "\n"
  }

  function Trailer(n: nat): Bytes {
    "trailer\n<< /Size " + Digits(n) + " /Root 1 0 R >>\nstartxref\n"
  }

  /** The cross-reference table, and what follows it. */
  function Xref(objects: seq<Bytes>): Bytes {
    XrefHead(|objects| + 1) + Entries(objects, |objects|)
  }

  function End(objects: seq<Bytes>): Bytes {
    Trailer(|objects| + 1) + Digits(|Front(objects)|) + Tail()
  }

  function Document(objects: seq<Bytes>): Bytes {
    Front(objects) + Xref(objects) + End(objects)
  }

  /** The loop over the objects. */
  method WriteObjects(objects: seq<Bytes>) returns (body: Bytes, offsets: seq<nat>)
    ensures body == Front(objects)
    ensures |offsets| == |objects| && forall k :: 0 <= k < |objects| ==> offsets[k] == Offset(objects, k)
  {
    body := FileHeader();
    offsets := [];
    assert objects[..0] == [];
    for i := 0 to |objects|
      invariant body == Front(objects[..i])
      invariant |offsets| == i && forall k :: 0 <= k < i ==> offsets[k] == Offset(objects, k)
    {
      offsets := offsets + [|body|];
      FrontStep(objects, i);
      ghost var before := body;
      body := body + ObjectHeader(i + 1);
      body := body + objects[i];
      body := body + EndObj();
      assert body == before + ObjectText(i + 1, objects[i]);
    }
    assert objects[..|objects|] == objects;
  }

  lemma FrontStep(objects: seq<Bytes>, i: nat)
    requires i < |objects|
    ensures Front(objects[..i + 1]) == Front(objects[..i]) + ObjectText(i + 1, objects[i])
  {
    assert objects[..i + 1][..i] == objects[..i];
  }

  /** The loop over the offsets. */
  method WriteXref(objects: seq<Bytes>, offsets: seq<nat>) returns (table: Bytes)
    requires |offsets| == |objects| && forall k :: 0 <= k < |objects| ==> offsets[k] == Offset(objects, k)
    ensures table == Xref(objects)
  {
    hide Offset, XrefHead, FreeEntry, Entry;
    table := XrefHead(|objects| + 1);
    ghost var head := table;
    table := table + FreeEntry();
    for k := 0 to |offsets|
      invariant table == head + Entries(objects, k)
    {
      table := table + Entry(offsets[k]);
    }
  }

  /** `_pdf_document`. */
  method WriteDocument(objects: seq<Bytes>) returns (body: Bytes)
    ensures body == Document(objects)
  {
    hide Front, Offset, Xref, Trailer, Digits, Tail;
    var offsets;
    body, offsets := WriteObjects(objects);
    var xrefStart := |body|;
    var table := WriteXref(objects, offsets);
    body := body + table;
    body := body + (Trailer(|objects| + 1) + Digits(xrefStart) + Tail());
  }

  // ----- the reader

  /** The number between the last `startxref` line and the end-of-file mark. */
  function StartXref(doc: Bytes): Option<nat> {
    if |doc| < 7 || doc[|doc| - 7..] != "\n%%EOF\n" then None
    else
      var text := doc[..|doc| - 7];
      var k := Trailing(text);
      if k == 0 then None else Some(Value(text[|text| - k..]))
  }

  /** The number at the start of a line that holds nothing else, and the line's length. */
  function CountAt(text: Bytes): Option<(nat, nat)> {
    var k := Leading(text);
    if k == 0 || k >= |text| || text[k] != '\n' then None else Some((Value(text[..k]), k + 1))
  }

  /** The number of table entries and where they begin. */
  function TableAt(doc: Bytes, xref: nat): Option<(nat, nat)> {
    if !HasAt(doc, xref, "xref\n0 ") then None
    else
      var count := CountAt(doc[xref + 7..]);
      if count.None? then None else Some((count.value.0, xref + 7 + count.value.1))
  }

  /** The offset in the `i`-th 20-byte entry. */
  function EntryAt(doc: Bytes, base: nat, i: nat): Option<nat> {
    var at := base + 20 * i;
    if at + 20 > |doc| || !AllDigits(doc[at..at + 10]) || !HasAt(doc, at + 10, " 00000 n \n") then None
    else Some(Value(doc[at..at + 10]))
  }

  /** The body of object `i` in the bytes from its offset to the next one. */
  function BodyAt(doc: Bytes, i: nat, from: nat, to: nat): Option<Bytes> {
    var head := Digits(i) + " 0 obj\n";
    if from + |head| + 8 > to || to > |doc| || !HasAt(doc, from, head) || !HasAt(doc, to - 8, "\nendobj\n") then None
    else Some(doc[from + |head|..to - 8])
  }

  /** Objects 1 to `n`, the table giving each offset and `xref` ending the last. */
  function Bodies(doc: Bytes, base: nat, xref: nat, count: nat, n: nat): Option<seq<Bytes>>
    requires n < count
  {
    if n == 0 then Some([])
    else
      var before := Bodies(doc, base, xref, count, n - 1);
      var from := EntryAt(doc, base, n);
      var to := if n + 1 < count then EntryAt(doc, base, n + 1) else Some(xref);
      if before.None? || from.None? || to.None? then None
      else
        var body := BodyAt(doc, n, from.value, to.value);
        if body.None? then None else Some(before.value + [body.value])
  }

  /** The file begins with its header, the table with the free entry, and the trailer follows it. */
  predicate HasForm(doc: Bytes, base: nat, count: nat) {
    && HasAt(doc, 0, "%PDF-1.")
    && HasAt(doc, base, "0000000000 65535 f \n")
    && HasAt(doc, base + 20 * count, "trailer\n<< /Size " + Digits(count) + " /Root 1 0 R >>\nstartxref\n")
  }

  function ReadDocument(doc: Bytes): Option<seq<Bytes>> {
    var xref := StartXref(doc);
    if xref.None? then None
    else
      var table := TableAt(doc, xref.value);
      if table.None? || table.value.0 == 0 || !HasForm(doc, table.value.1, table.value.0) then None
      else Bodies(doc, table.value.1, xref.value, table.value.0, table.value.0 - 1)
  }

  lemma Keywords()
    ensures Tail() == "\n%%EOF\n" && XrefLine() == "xref\n0 " && Used() == " 00000 n \n" && EndObj() == "\nendobj\n"
    ensures FreeEntry() == "0000000000 65535 f \n" && StreamLine() == " >>\nstream\n" && EndStream() == "\nendstream"
    ensures "%PDF-1." <= FileHeader()
    ensures |Tail()| == |XrefLine()| == 7 && |Used()| == 10 && |EndObj()| == 8 && |FreeEntry()| == 20
  {
  }

  // ----- what the reader finds

  lemma TailParsed(before: Bytes, number: Bytes)
    requires AllDigits(number) && number != "" && before != "" && !IsDigit(before[|before| - 1])
    ensures StartXref(before + number + Tail()) == Some(Value(number))
  {
    TrailingIs(before, number);
    Keywords();
    hide Tail, Trailing, Value, IsDigit;
    var doc, text := before + number + Tail(), before + number;
    assert doc[..|doc| - |Tail()|] == text;
    assert doc[|doc| - |Tail()|..] == Tail();
    assert text[|text| - |number|..] == number;
  }

  lemma TrailerEnds(n: nat)
    ensures Trailer(n) != "" && !IsDigit(Trailer(n)[|Trailer(n)| - 1])
  {
  }

  lemma DocumentEnds(objects: seq<Bytes>)
    ensures Document(objects) ==
      Front(objects) + Xref(objects) + Trailer(|objects| + 1) + Digits(|Front(objects)|) + Tail()
  {
    hide Digits, Front, Xref, Trailer, Tail;
    var a, b, c := Trailer(|objects| + 1), Digits(|Front(objects)|), Tail();
    Regroup(Front(objects) + Xref(objects), a, b, c);
  }

  lemma Regroup(front: Bytes, a: Bytes, b: Bytes, c: Bytes)
    ensures front + (a + b + c) == front + a + b + c
  {
  }

  lemma LastOfSum(a: Bytes, b: Bytes)
    requires b != ""
    ensures (a + b)[|a + b| - 1] == b[|b| - 1]
  {
  }

  lemma StartXrefFound(objects: seq<Bytes>)
    ensures StartXref(Document(objects)) == Some(|Front(objects)|)
  {
    var trailer, start := Trailer(|objects| + 1), Front(objects) + Xref(objects);
    DigitsRead(|Front(objects)|);
    TrailerEnds(|objects| + 1);
    LastOfSum(start, trailer);
    DocumentEnds(objects);
    hide *;
    TailParsed(start + trailer, Digits(|Front(objects)|));
  }

  lemma TableParsed(front: Bytes, number: Bytes, tail: Bytes)
    requires AllDigits(number) && CountAt(tail) == Some((Value(number), |number| + 1))
    ensures TableAt(front + XrefLine() + tail, |front|) == Some((Value(number), |front| + |XrefLine()| + |number| + 1))
  {
    hide *;
    HasBetween(front, XrefLine(), tail);
    AfterTwo(front, XrefLine(), tail);
    TableRead(front + XrefLine() + tail, |front|, number, tail);
  }

  lemma TableRead(doc: Bytes, xref: nat, number: Bytes, tail: Bytes)
    requires HasAt(doc, xref, XrefLine()) && xref + |XrefLine()| <= |doc| && tail == doc[xref + |XrefLine()|..]
    requires AllDigits(number) && CountAt(tail) == Some((Value(number), |number| + 1))
    ensures TableAt(doc, xref) == Some((Value(number), xref + |XrefLine()| + |number| + 1))
  {
    Keywords();
    hide XrefLine, CountAt, Value, HasAt, AllDigits, IsDigit;
  }

  lemma CountParsed(number: Bytes, rest: Bytes)
    requires AllDigits(number) && number != "" && rest != "" && rest[0] == '\n'
    ensures CountAt(number + rest) == Some((Value(number), |number| + 1))
  {
    LeadingIs(number, rest);
    hide Leading, Value, AllDigits;
    assert (number + rest)[..|number|] == number;
  }

  lemma AfterTwo(a: Bytes, b: Bytes, c: Bytes)
    ensures (a + b + c)[|a| + |b|..] == c
  {
  }

  lemma TableFound(objects: seq<Bytes>)
    ensures TableAt(Document(objects), |Front(objects)|) ==
      Some((|objects| + 1, |Front(objects)| + |XrefHead(|objects| + 1)|))
  {
    TableRest(objects);
    HeadLength(|objects| + 1);
    CountHeld(objects);
    hide *;
    TableParsed(Front(objects), Digits(|objects| + 1), AfterXrefLine(objects));
  }

  function AfterXrefLine(objects: seq<Bytes>): Bytes {
    Digits(|objects| + 1) + ("\n" + (Entries(objects, |objects|) + End(objects)))
  }

  lemma CountHeld(objects: seq<Bytes>)
    ensures AllDigits(Digits(|objects| + 1)) && Value(Digits(|objects| + 1)) == |objects| + 1
    ensures CountAt(AfterXrefLine(objects)) == Some((|objects| + 1, |Digits(|objects| + 1)| + 1))
  {
    DigitsRead(|objects| + 1);
    hide Digits, Entries, End, Value, CountAt, AllDigits;
    CountParsed(Digits(|objects| + 1), "\n" + (Entries(objects, |objects|) + End(objects)));
  }

  lemma HeadLength(n: nat)
    ensures |XrefHead(n)| == |XrefLine()| + |Digits(n)| + 1
  {
  }

  lemma TableRest(objects: seq<Bytes>)
    ensures Document(objects) == Front(objects) + XrefLine() + AfterXrefLine(objects)
  {
    hide Digits, Front, Entries, End, XrefLine;
    Reassociate(Front(objects), XrefLine(), Digits(|objects| + 1), "\n", Entries(objects, |objects|), End(objects));
  }

  lemma Reassociate(a: Bytes, b: Bytes, c: Bytes, d: Bytes, e: Bytes, f: Bytes)
    ensures a + ((b + c + d) + e) + f == a + b + (c + (d + (e + f)))
  {
  }

  // ----- entries and bodies

  ghost predicate ShortOffsets(objects: seq<Bytes>, n: nat)
    requires n <= |objects|
  {
    forall i :: 0 <= i < n ==> Offset(objects, i) < Power10(10)
  }

  lemma {:induction false} EntriesLength(objects: seq<Bytes>, n: nat)
    requires n <= |objects| && ShortOffsets(objects, n)
    ensures |Entries(objects, n)| == 20 * (n + 1)
  {
    if n == 0 {
      assert |FreeEntry()| == 20;
    } else {
      EntriesLength(objects, n - 1);
      Pad10Reads(Offset(objects, n - 1));
      Keywords();
    }
  }

  /** The entries before entry `i` being short, it begins at a multiple of 20 bytes. */
  lemma {:induction false} EntriesHold(objects: seq<Bytes>, n: nat, i: nat)
    requires i < n <= |objects| && ShortOffsets(objects, i)
    ensures HasAt(Entries(objects, n), 20 * (i + 1), Entry(Offset(objects, i)))
  {
    hide Entry, Offset, ShortOffsets, HasAt;
    if i < n - 1 {
      EntriesHold(objects, n - 1, i);
      HasFirst(Entries(objects, n - 1), Entry(Offset(objects, n - 1)), 20 * (i + 1), Entry(Offset(objects, i)));
    } else {
      EntriesLength(objects, i);
      HasLast(Entries(objects, i), Entry(Offset(objects, i)));
    }
  }

  lemma TableHolds(objects: seq<Bytes>)
    ensures HasAt(Document(objects), |Front(objects)| + |XrefHead(|objects| + 1)|, Entries(objects, |objects|))
  {
    hide Front, XrefHead, Entries, End, HasAt;
    var n, front := |objects|, Front(objects);
    HasBetween(front, XrefHead(n + 1) + Entries(objects, n), End(objects));
    HasParts(Document(objects), |front|, XrefHead(n + 1), Entries(objects, n));
  }

  lemma EntryFound(objects: seq<Bytes>, i: nat)
    requires i < |objects| && ShortOffsets(objects, i)
    ensures EntryAt(Document(objects), |Front(objects)| + |XrefHead(|objects| + 1)|, i + 1) ==
      if Offset(objects, i) < Power10(10) then Some(Offset(objects, i)) else None
  {
    hide *;
    EntriesHold(objects, |objects|, i);
    TableHolds(objects);
    EntryWithin(Document(objects), |Front(objects)| + |XrefHead(|objects| + 1)|, Entries(objects, |objects|), i + 1,
                Offset(objects, i));
  }

  lemma EntryWithin(doc: Bytes, base: nat, table: Bytes, i: nat, offset: nat)
    requires HasAt(doc, base, table) && HasAt(table, 20 * i, Entry(offset))
    ensures EntryAt(doc, base, i) == if offset < Power10(10) then Some(offset) else None
  {
    hide *;
    HasWithin(doc, base, table, 20 * i, Entry(offset));
    if offset < Power10(10) {
      Pad10Reads(offset);
      EntryParsed(doc, base, i, offset);
    } else {
      LongEntryUnread(doc, base, i, offset);
    }
  }

  lemma DigitNotUsed(doc: Bytes, at: nat, entry: Bytes)
    requires HasAt(doc, at, entry) && |entry| > 10 && IsDigit(entry[10])
    ensures !HasAt(doc, at + 10, Used())
  {
    assert doc[at..at + |entry|][10] == doc[at + 10];
    assert Used()[0] == ' ';
    if at + 20 <= |doc| {
      assert doc[at + 10..at + 20][0] == doc[at + 10];
    }
  }

  /** The eleventh byte of a long entry is a digit, not the space the reader expects. */
  lemma LongEntryUnread(doc: Bytes, base: nat, i: nat, offset: nat)
    requires HasAt(doc, base + 20 * i, Entry(offset)) && offset >= Power10(10)
    ensures EntryAt(doc, base, i) == None
  {
    DigitsRead(offset);
    DigitsLong(offset, 10);
    Keywords();
    hide Digits, Power10, Value, Used, HasAt, IsDigit;
    assert Entry(offset)[10] == Digits(offset)[10];
    DigitNotUsed(doc, base + 20 * i, Entry(offset));
  }

  lemma EntryParsed(doc: Bytes, base: nat, i: nat, offset: nat)
    requires HasAt(doc, base + 20 * i, Entry(offset))
    requires |Pad10(offset)| == 10 && AllDigits(Pad10(offset)) && Value(Pad10(offset)) == offset
    ensures EntryAt(doc, base, i) == Some(offset)
  {
    Keywords();
    hide Pad10, Value, Used, AllDigits;
    HasParts(doc, base + 20 * i, Pad10(offset), Used());
  }

  lemma OffsetEnd(objects: seq<Bytes>)
    ensures Offset(objects, |objects|) == |Front(objects)|
  {
    assert objects[..|objects|] == objects;
  }

  /** Each object's text lies between its offset and the next. */
  lemma {:induction false} FrontHolds(objects: seq<Bytes>, n: nat, i: nat)
    requires i < n <= |objects|
    ensures Offset(objects, i + 1) == Offset(objects, i) + |ObjectText(i + 1, objects[i])|
    ensures HasAt(Front(objects[..n]), Offset(objects, i), ObjectText(i + 1, objects[i]))
  {
    FrontStep(objects, n - 1);
    hide Front, ObjectText, HasAt;
    if i < n - 1 {
      FrontHolds(objects, n - 1, i);
      hide Offset;
      HasFirst(Front(objects[..n - 1]), ObjectText(n, objects[n - 1]), Offset(objects, i), ObjectText(i + 1, objects[i]));
    } else {
      HasLast(Front(objects[..i]), ObjectText(n, objects[i]));
    }
  }

  lemma FrontHeld(objects: seq<Bytes>)
    ensures HasAt(Document(objects), 0, Front(objects))
  {
    hide Front, Xref, End;
    HasBetween("", Front(objects), Xref(objects) + End(objects));
    assert "" + Front(objects) + (Xref(objects) + End(objects)) == Document(objects);
  }

  lemma BodyFound(objects: seq<Bytes>, i: nat)
    requires i < |objects|
    ensures BodyAt(Document(objects), i + 1, Offset(objects, i), Offset(objects, i + 1)) == Some(objects[i])
  {
    hide *;
    TextHeld(objects, i);
    BodyParsed(Document(objects), i + 1, Offset(objects, i), objects[i]);
  }

  lemma TextHeld(objects: seq<Bytes>, i: nat)
    requires i < |objects|
    ensures HasAt(Document(objects), Offset(objects, i), ObjectText(i + 1, objects[i]))
    ensures Offset(objects, i + 1) == Offset(objects, i) + |ObjectText(i + 1, objects[i])|
  {
    FrontHolds(objects, |objects|, i);
    assert objects[..|objects|] == objects;
    FrontHeld(objects);
    hide *;
    HasWithin(Document(objects), 0, Front(objects), Offset(objects, i), ObjectText(i + 1, objects[i]));
  }

  lemma BodyParsed(doc: Bytes, i: nat, from: nat, body: Bytes)
    requires HasAt(doc, from, ObjectText(i, body))
    ensures BodyAt(doc, i, from, from + |ObjectText(i, body)|) == Some(body)
  {
    Keywords();
    assert ObjectHeader(i) == Digits(i) + " 0 obj\n";
    hide ObjectHeader, EndObj, Digits;
    HasParts(doc, from, ObjectHeader(i) + body, EndObj());
    HasParts(doc, from, ObjectHeader(i), body);
  }

  lemma {:induction false} BodiesFound(objects: seq<Bytes>, n: nat)
    requires n <= |objects| && ShortOffsets(objects, |objects|)
    ensures
      var count, xref := |objects|, |Front(objects)|;
      Bodies(Document(objects), xref + |XrefHead(count + 1)|, xref, count + 1, n) == Some(objects[..n])
  {
    hide Document, Offset, XrefHead, EntryAt, BodyAt, Front, Power10;
    if n > 0 {
      BodiesFound(objects, n - 1);
      EntryFound(objects, n - 1);
      if n < |objects| { EntryFound(objects, n); } else { OffsetEnd(objects); }
      BodyFound(objects, n - 1);
      assert objects[..n] == objects[..n - 1] + [objects[n - 1]];
    }
  }

  lemma {:induction false} BodiesLost(doc: Bytes, base: nat, xref: nat, count: nat, n: nat, i: nat)
    requires 1 <= i <= n < count && EntryAt(doc, base, i) == None
    ensures Bodies(doc, base, xref, count, n) == None
  {
    hide EntryAt, BodyAt;
    if i < n { BodiesLost(doc, base, xref, count, n - 1, i); }
  }

  lemma {:induction false} FirstLong(objects: seq<Bytes>, n: nat) returns (i: nat)
    requires n <= |objects| && !ShortOffsets(objects, n)
    ensures i < n && ShortOffsets(objects, i) && Offset(objects, i) >= Power10(10)
  {
    hide Offset, Power10;
    i := n - 1;
    if !ShortOffsets(objects, n - 1) { i := FirstLong(objects, n - 1); }
  }

  lemma DocumentReadsBodies(objects: seq<Bytes>)
    ensures
      var n, xref := |objects|, |Front(objects)|;
      var bodies := Bodies(Document(objects), xref + |XrefHead(n + 1)|, xref, n + 1, n);
      && ReadDocument(Document(objects)) in {bodies, None}
      && (ShortOffsets(objects, n) ==> ReadDocument(Document(objects)) == bodies)
  {
    hide Document, XrefHead, StartXref, TableAt, Bodies, Front, HasForm, ShortOffsets;
    StartXrefFound(objects);
    TableFound(objects);
    if ShortOffsets(objects, |objects|) { FormHeld(objects); }
  }

  lemma FormHeld(objects: seq<Bytes>)
    requires ShortOffsets(objects, |objects|)
    ensures HasForm(Document(objects), |Front(objects)| + |XrefHead(|objects| + 1)|, |objects| + 1)
  {
    Keywords();
    hide *;
    HeaderHeld(objects);
    FreeHeld(objects);
    TrailerHeld(objects);
    FormIs(Document(objects), |Front(objects)| + |XrefHead(|objects| + 1)|, |objects| + 1);
  }

  lemma FormIs(doc: Bytes, base: nat, count: nat)
    requires HasAt(doc, 0, "%PDF-1.") && HasAt(doc, base, FreeEntry()) && HasAt(doc, base + 20 * count, Trailer(count))
    ensures HasForm(doc, base, count)
  {
    hide HasAt, Digits;
  }

  lemma HeaderHeld(objects: seq<Bytes>)
    ensures HasAt(Document(objects), 0, "%PDF-1.")
  {
    FrontHeld(objects);
    HeaderFirst(objects);
    hide Document, Front;
    HasWithin(Document(objects), 0, Front(objects), 0, "%PDF-1.");
  }

  lemma {:induction false} HeaderFirst(objects: seq<Bytes>)
    ensures HasAt(Front(objects), 0, "%PDF-1.")
  {
    hide ObjectText;
    if objects != [] {
      HeaderFirst(objects[..|objects| - 1]);
      HasFirst(Front(objects[..|objects| - 1]), ObjectText(|objects|, objects[|objects| - 1]), 0, "%PDF-1.");
    }
  }

  lemma FreeHeld(objects: seq<Bytes>)
    ensures HasAt(Document(objects), |Front(objects)| + |XrefHead(|objects| + 1)|, FreeEntry())
  {
    hide *;
    TableHolds(objects);
    FreeFirst(objects, |objects|);
    HasWithin(Document(objects), |Front(objects)| + |XrefHead(|objects| + 1)|, Entries(objects, |objects|), 0, FreeEntry());
  }

  lemma {:induction false} FreeFirst(objects: seq<Bytes>, n: nat)
    requires n <= |objects|
    ensures HasAt(Entries(objects, n), 0, FreeEntry())
  {
    hide Entry, FreeEntry;
    if n > 0 {
      FreeFirst(objects, n - 1);
      HasFirst(Entries(objects, n - 1), Entry(Offset(objects, n - 1)), 0, FreeEntry());
    } else {
      assert Entries(objects, 0)[0..|FreeEntry()|] == FreeEntry();
    }
  }

  lemma TrailerHeld(objects: seq<Bytes>)
    requires ShortOffsets(objects, |objects|)
    ensures HasAt(Document(objects), |Front(objects)| + |XrefHead(|objects| + 1)| + 20 * (|objects| + 1), Trailer(|objects| + 1))
  {
    EntriesLength(objects, |objects|);
    DocumentEnds(objects);
    assert |Xref(objects)| == |XrefHead(|objects| + 1)| + |Entries(objects, |objects|)|;
    hide *;
    var a, b := Digits(|Front(objects)|), Tail();
    HasBetween(Front(objects) + Xref(objects), Trailer(|objects| + 1), a + b);
    Associate(Front(objects) + Xref(objects) + Trailer(|objects| + 1), a, b);
  }

  lemma Associate(front: Bytes, a: Bytes, b: Bytes)
    ensures front + (a + b) == front + a + b
  {
  }

  /** A reader that follows `startxref`, the 20-byte entries and the offsets recovers every
      object in order exactly when each object begins before byte 10^10. */
  lemma DocumentReadsBack(objects: seq<Bytes>)
    ensures ReadDocument(Document(objects)) == Some(objects) <==> ShortOffsets(objects, |objects|)
  {
    DocumentReadsBodies(objects);
    hide *;
    if ShortOffsets(objects, |objects|) {
      BodiesFound(objects, |objects|);
      assert objects[..|objects|] == objects;
    } else {
      var i := FirstLong(objects, |objects|);
      EntryFound(objects, i);
      BodiesLost(Document(objects), |Front(objects)| + |XrefHead(|objects| + 1)|, |Front(objects)|, |objects| + 1, |objects|, i + 1);
    }
  }

  /** A document of at most 10^10 bytes is read back. */
  lemma ShortDocumentReadsBack(objects: seq<Bytes>)
    requires |Document(objects)| <= Power10(10)
    ensures ReadDocument(Document(objects)) == Some(objects)
  {
    forall i | 0 <= i < |objects| ensures Offset(objects, i) < Power10(10) {
      TextHeld(objects, i);
      hide Document, Offset, Power10;
    }
    hide Document, Offset, Power10, ReadDocument;
    DocumentReadsBack(objects);
  }

  lemma {:induction false} DigitsLong(n: nat, w: nat)
    requires n >= Power10(w)
    ensures |Digits(n)| > w
  {
    if w > 0 {
      assert n / 10 >= Power10(w - 1);
      DigitsLong(n / 10, w - 1);
    } else {
      DigitsRead(n);
    }
  }

  /** After an object of 10^10 bytes the next one is lost. */
  lemma LongObjectUnread()
    ensures ReadDocument(Document([Zeros(10_000_000_000), ""])) != Some([Zeros(10_000_000_000), ""])
  {
    var objects := [Zeros(10_000_000_000), ""];
    LongOffset(objects);
    hide *;
    DocumentReadsBack(objects);
  }

  lemma LongOffset(objects: seq<Bytes>)
    requires |objects| == 2 && |objects[0]| == 10_000_000_000
    ensures !ShortOffsets(objects, 2)
  {
    FrontStep(objects, 0);
    assert Power10(10) == 10_000_000_000 by { TenZeros(); }
    hide Front, Power10;
    assert Offset(objects, 1) >= Power10(10);
  }

  lemma TenZeros()
    ensures Power10(10) == 10_000_000_000
  {
    assert Power10(5) == 100_000;
  }

  // ----- stream objects

  function StreamLine(): Bytes { " >>\nstream\n" }
  function EndStream(): Bytes { "\nendstream" }

  /** `_stream_object`. */
  function StreamObject(stream: Bytes): Bytes {
    "<< /Length " + Digits(|stream|) + StreamLine() + stream + EndStream()
  }

  /** Reads the length, then that many bytes after the `stream` line. */
  function ReadStream(obj: Bytes): Option<Bytes> {
    if !HasAt(obj, 0, "<< /Length ") then None
    else
      var text := obj[11..];
      var k := Leading(text);
      if k == 0 then None
      else
        var length, at := Value(text[..k]), 11 + k + 11;
        if !HasAt(obj, 11 + k, " >>\nstream\n") || at + length > |obj| || obj[at + length..] != "\nendstream" then None
        else Some(obj[at..at + length])
  }

  lemma FourParts(a: Bytes, b: Bytes, c: Bytes, d: Bytes)
    ensures
      var whole := a + b + c + d;
      && HasAt(whole, 0, a) && whole[|a|..] == b + c + d && HasAt(whole, |a|, b)
      && HasAt(whole, |a| + |b|, c) && whole[|a| + |b| + |c|..] == d
  {
    var whole := a + b + c + d;
    assert whole[..|a|] == a;
    assert whole[|a|..|a| + |b|] == b;
    assert whole[|a| + |b|..|a| + |b| + |c|] == c;
  }

  lemma StreamText(number: Bytes, stream: Bytes)
    ensures
      var rest := StreamLine() + stream + EndStream();
      var obj := "<< /Length " + number + StreamLine() + stream + EndStream();
      var at := 11 + |number| + |StreamLine()|;
      && HasAt(obj, 0, "<< /Length ") && obj[11..] == number + rest
      && HasAt(obj, 11 + |number|, StreamLine())
      && HasAt(obj, at, stream) && obj[at + |stream|..] == EndStream()
  {
    var line, end := StreamLine(), EndStream();
    var head := "<< /Length " + number;
    hide *;
    FourParts(head, line, stream, end);
    FourParts("<< /Length ", number, line, stream + end);
    assert "<< /Length " + number + line + (stream + end) == head + line + stream + end;
    assert number + line + (stream + end) == number + (line + stream + end);
    assert |head| == 11 + |number|;
  }

  lemma StreamReadsBack(stream: Bytes)
    ensures ReadStream(StreamObject(stream)) == Some(stream)
  {
    var number, rest := Digits(|stream|), StreamLine() + stream + EndStream();
    DigitsRead(|stream|);
    StreamText(number, stream);
    Keywords();
    assert |StreamLine()| == 11;
    assert StreamObject(stream) == "<< /Length " + number + StreamLine() + stream + EndStream();
    assert rest[0] == ' ';
    hide Digits, Value, StreamObject, StreamLine, EndStream;
    LeadingIs(number, rest);
    assert (number + rest)[..|number|] == number;
  }
}
