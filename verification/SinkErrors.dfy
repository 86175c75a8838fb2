/** The error text of a queued event: one `sink:detail` per sink that has not accepted
    the event, joined by semicolons, from which the sinks still owed are read back. */
module SinkErrors {
  import opened Strings

  datatype Sink = Webhook | Otlp | Langfuse
  {
    function Name(): string {
      match this
      case Webhook => "webhook"
      case Otlp => "otlp"
      case Langfuse => "langfuse"
    }
  }

  /** A sanitised error: `timeout`, `http_status:<code>` or an exception class name. */
  type Detail = d: string | ';' !in d witness "timeout"

  /** Everything before the first `sep`, or the whole text. */
  function Before(text: string, sep: char): string {
    if text == "" || text[0] == sep then "" else [text[0]] + Before(text[1..], sep)
  }

  /** Python's `text.split(sep)`: at least one part, possibly empty ones. */
  function Split(text: string, sep: char): (parts: seq<string>)
    ensures parts != []
  {
    if text == "" then [""]
    else if text[0] == sep then [""] + Split(text[1..], sep)
    else
      var parts := Split(text[1..], sep);
      [[text[0]] + parts[0]] + parts[1..]
  }

  lemma {:induction false} SplitPlain(text: string, sep: char)
    requires sep !in text
    ensures Split(text, sep) == [text]
  {
    if text != "" {
      SplitPlain(text[1..], sep);
      assert [text[0]] + text[1..] == text;
    }
  }

  lemma {:induction false} SplitFirst(text: string, rest: string, sep: char)
    requires sep !in text
    ensures Split(text + [sep] + rest, sep) == [text] + Split(rest, sep)
  {
    if text == "" {
      assert text + [sep] + rest == [sep] + rest;
    } else {
      var whole := text + [sep] + rest;
      assert whole[1..] == text[1..] + [sep] + rest;
      SplitFirst(text[1..], rest, sep);
      assert whole[0] == text[0] && [text[0]] + text[1..] == text;
    }
  }

  /** Splitting undoes joining. */
  lemma {:induction false} SplitJoin(parts: seq<string>, sep: char)
    requires parts != [] && forall p :: p in parts ==> sep !in p
    ensures Split(Join(parts, sep), sep) == parts
  {
    if |parts| == 1 {
      SplitPlain(parts[0], sep);
    } else {
      SplitFirst(parts[0], Join(parts[1..], sep), sep);
      SplitJoin(parts[1..], sep);
    }
  }

  lemma {:induction false} BeforePrefix(text: string, rest: string, sep: char)
    requires sep !in text
    ensures Before(text + [sep] + rest, sep) == text
  {
    var whole := text + [sep] + rest;
    if text != "" {
      assert whole[1..] == text[1..] + [sep] + rest;
      BeforePrefix(text[1..], rest, sep);
      assert whole[0] == text[0] && [text[0]] + text[1..] == text;
    }
  }

  datatype Failure = Failure(sink: Sink, detail: Detail)
  {
    function Text(): string {
      sink.Name() + [':'] + detail
    }

    lemma TextReadsBack()
      ensures ';' !in Text() && Text() != "" && Before(Text(), ':') == sink.Name()
    {
      BeforePrefix(sink.Name(), detail, ':');
      assert forall c :: c in Text() ==> c in sink.Name() || c == ':' || c in detail;
    }
  }

  function Texts(failures: seq<Failure>): seq<string> {
    seq(|failures|, i requires 0 <= i < |failures| => failures[i].Text())
  }

  /** The text kept with a queued event. */
  function ErrorText(failures: seq<Failure>): string {
    Join(Texts(failures), ';')
  }

  /** The sink names read back from the text. */
  function NamesOwed(text: string): set<string> {
    set part | part in Split(text, ';') && part != "" :: Before(part, ':')
  }

  /** Reading the text gives exactly the sinks whose failures were written. */
  lemma OwedReadsBack(failures: seq<Failure>)
    ensures NamesOwed(ErrorText(failures)) == set f | f in failures :: f.sink.Name()
    ensures ErrorText(failures) == "" <==> failures == []
  {
    var texts, text := Texts(failures), ErrorText(failures);
    forall i | 0 <= i < |failures|
      ensures ';' !in texts[i] && texts[i] != "" && Before(texts[i], ':') == failures[i].sink.Name()
    {
      failures[i].TextReadsBack();
    }
    if failures == [] {
      assert Split(text, ';') == [""];
    } else {
      SplitJoin(texts, ';');
      forall f | f in failures ensures f.sink.Name() in NamesOwed(text) {
        var i :| 0 <= i < |failures| && failures[i] == f;
        assert texts[i] in Split(text, ';');
      }
      forall name | name in NamesOwed(text) ensures exists f :: f in failures && f.sink.Name() == name {
        var part :| part in Split(text, ';') && part != "" && Before(part, ':') == name;
        var i :| 0 <= i < |texts| && texts[i] == part;
        assert failures[i] in failures;
      }
      assert texts[0] != "";
    }
  }

  lemma NamesDistinct(s: Sink, t: Sink)
    requires s.Name() == t.Name()
    ensures s == t
  {
    assert s.Name()[0] == t.Name()[0];
  }
}
