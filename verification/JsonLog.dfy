/** The JSON log formatter of examples/bridge/main.cpp, with a decoder that inverts it. */
module JsonLogs {
  import opened Options
  import opened Sequences

  datatype LogField = LogField(key: string, value: string)

  datatype LogEvent = LogEvent(level: string, message: string, fields: seq<LogField>)

  // ---------- Formatting ----------

  function EscapeChar(ch: char): string {
    if ch == '\\' then "\\\\"
    else if ch == '"' then "\\\""
    else if ch == '\n' then "\\n"
    else [ch]
  }

  function Escape(s: string): string {
    Flat(s, EscapeChar)
  }

  function FormatField(field: LogField): string {
    ",\"" + Escape(field.key) + "\":\"" + Escape(field.value) + "\""
  }

  function FormatFields(fields: seq<LogField>): string {
    Flat(fields, FormatField)
  }

  function Format(event: LogEvent): string {
    FormatHead(event) + FormatFields(event.fields) + "}"
  }

  /** Everything before the fields. */
  function FormatHead(event: LogEvent): string {
    "{" + ("\"level\":\"" + Escape(event.level) + "\"") + (",\"msg\":\"" + Escape(event.message) + "\"")
  }

  // ---------- Decoding ----------

  /** Removes `prefix` from the front of `s`. */
  function Expect(prefix: string, s: string): Option<string> {
    if prefix <= s then Some(s[|prefix|..]) else None
  }

  /** The character an escape letter stands for. */
  function Unescape(letter: char): Option<char> {
    match letter
    case '\\' => Some('\\')
    case '"' => Some('"')
    case 'n' => Some('\n')
    case _ => None
  }

  /** Reads the rest of a JSON string, up to and including its closing quote. */
  function ReadString(s: string): (r: Option<(string, string)>)
    ensures r.Some? ==> |r.value.1| < |s|
  {
    if s == "" then None
    else if s[0] == '"' then Some(("", s[1..]))
    else if s[0] != '\\' then
      match ReadString(s[1..])
      case None => None
      case Some((value, rest)) => Some(([s[0]] + value, rest))
    else if |s| < 2 || Unescape(s[1]).None? then None
    else
      match ReadString(s[2..])
      case None => None
      case Some((value, rest)) => Some(([Unescape(s[1]).value] + value, rest))
  }

  /** Reads `prefix` and then a string. */
  function ReadAfter(prefix: string, s: string): (r: Option<(string, string)>)
    ensures r.Some? ==> |r.value.1| < |s|
  {
    match Expect(prefix, s)
    case None => None
    case Some(rest) => ReadString(rest)
  }

  /** Reads fields and the closing brace, which must end the line. */
  function ReadFields(s: string): Option<seq<LogField>>
    decreases |s|
  {
    if s == "}" then Some([])
    else
      match ReadAfter(",\"", s)
      case None => None
      case Some((key, afterKey)) =>
        match ReadAfter(":\"", afterKey)
        case None => None
        case Some((value, rest)) =>
          match ReadFields(rest)
          case None => None
          case Some(fields) => Some([LogField(key, value)] + fields)
  }

  function Decode(s: string): Option<LogEvent> {
    match ReadAfter("{\"level\":\"", s)
    case None => None
    case Some((level, afterLevel)) =>
      match ReadAfter(",\"msg\":\"", afterLevel)
      case None => None
      case Some((message, rest)) =>
        match ReadFields(rest)
        case None => None
        case Some(fields) => Some(LogEvent(level, message, fields))
  }

  // ---------- Round trip ----------

  /** Reading one escaped character and then the rest. */
  lemma ReadOne(ch: char, tail: string, value: string, rest: string)
    requires ReadString(tail) == Some((value, rest))
    ensures ReadString(EscapeChar(ch) + tail) == Some(([ch] + value, rest))
  {
    var text := EscapeChar(ch) + tail;
    if ch == '\\' || ch == '"' || ch == '\n' {
      assert text[0] == '\\' && text[2..] == tail;
      assert Unescape(text[1]) == Some(ch);
    } else {
      assert text[0] == ch && text[1..] == tail;
    }
  }

  /** An escaped string is read back exactly, whatever follows its closing quote. */
  lemma {:induction false} ReadEscaped(value: string, rest: string)
    ensures ReadString(Escape(value) + ("\"" + rest)) == Some((value, rest))
  {
    if value == "" {
      assert "" + ("\"" + rest) == "\"" + rest;
      assert ("\"" + rest)[1..] == rest;
    } else {
      ReadEscaped(value[1..], rest);
      ReadOne(value[0], Escape(value[1..]) + ("\"" + rest), value[1..], rest);
      Regroup(EscapeChar(value[0]), Escape(value[1..]), "\"" + rest);
      assert [value[0]] + value[1..] == value;
    }
  }

  lemma ReadAfterEscaped(prefix: string, value: string, rest: string)
    ensures ReadAfter(prefix, prefix + (Escape(value) + ("\"" + rest))) == Some((value, rest))
  {
    var text := prefix + (Escape(value) + ("\"" + rest));
    assert text[|prefix|..] == Escape(value) + ("\"" + rest);
    ReadEscaped(value, rest);
  }

  /** The pieces of a formatted field, grouped as they are read. */
  lemma FieldText(field: LogField, rest: string)
    ensures FormatField(field) + rest
            == ",\"" + (Escape(field.key) + ("\"" + (":\"" + (Escape(field.value) + ("\"" + rest)))))
  {
    var key, value := Escape(field.key), Escape(field.value);
    calc {
      FormatField(field) + rest;
      ((",\"" + key + "\":\"") + value + "\"") + rest;
      (",\"" + key + "\":\"") + (value + ("\"" + rest));
      { assert "\":\"" == "\"" + ":\""; }
      ",\"" + (key + ("\"" + (":\"" + (value + ("\"" + rest)))));
    }
  }

  lemma {:induction false} ReadFormattedFields(fields: seq<LogField>)
    ensures ReadFields(FormatFields(fields) + "}") == Some(fields)
    decreases |fields|
  {
    if fields == [] {
      assert FormatFields(fields) + "}" == "}";
    } else {
      ReadFormattedFields(fields[1..]);
      ReadOneField(fields[0], FormatFields(fields[1..]) + "}", fields[1..]);
      assert FormatFields(fields) + "}" == FormatField(fields[0]) + (FormatFields(fields[1..]) + "}");
      assert [fields[0]] + fields[1..] == fields;
    }
  }

  lemma ReadOneField(field: LogField, rest: string, others: seq<LogField>)
    requires ReadFields(rest) == Some(others)
    ensures ReadFields(FormatField(field) + rest) == Some([field] + others)
  {
    var afterKey := ":\"" + (Escape(field.value) + ("\"" + rest));
    FieldText(field, rest);
    ReadAfterEscaped(",\"", field.key, afterKey);
    ReadAfterEscaped(":\"", field.value, rest);
  }

  /** The head of a formatted event, grouped as it is read. */
  lemma HeadText(event: LogEvent, rest: string)
    ensures FormatHead(event) + rest
            == "{\"level\":\""
               + (Escape(event.level) + ("\"" + (",\"msg\":\"" + (Escape(event.message) + ("\"" + rest)))))
  {
    var level, message := Escape(event.level), Escape(event.message);
    calc {
      FormatHead(event) + rest;
      ("{" + ("\"level\":\"" + level + "\"")) + (",\"msg\":\"" + (message + ("\"" + rest)));
      { assert "{" + "\"level\":\"" == "{\"level\":\""; }
      "{\"level\":\"" + (level + ("\"" + (",\"msg\":\"" + (message + ("\"" + rest)))));
    }
  }

  /** Main result: the decoder recovers level, message and every field in order from the formatted line. */
  lemma DecodeFormat(event: LogEvent)
    ensures Decode(Format(event)) == Some(event)
  {
    var rest := FormatFields(event.fields) + "}";
    var afterLevel := ",\"msg\":\"" + (Escape(event.message) + ("\"" + rest));
    HeadText(event, rest);
    Regroup(FormatHead(event), FormatFields(event.fields), "}");
    ReadAfterEscaped("{\"level\":\"", event.level, afterLevel);
    ReadAfterEscaped(",\"msg\":\"", event.message, rest);
    ReadFormattedFields(event.fields);
  }

  /** So two events never format to the same line. */
  lemma FormatInjective(a: LogEvent, b: LogEvent)
    requires Format(a) == Format(b)
    ensures a == b
  {
    DecodeFormat(a);
    DecodeFormat(b);
  }

  // ---------- One line, valid strings ----------

  /** The inside of a string by section 7 of RFC 8259, for the three escapes the formatter uses. */
  predicate ValidString(s: string) {
    s == ""
    || (s[0] >= ' ' && s[0] != '"' && s[0] != '\\' && ValidString(s[1..]))
    || (s[0] == '\\' && |s| >= 2 && s[1] in {'\\', '"', 'n'} && ValidString(s[2..]))
  }

  predicate OnlyNewlineControls(s: string) {
    forall i | 0 <= i < |s| :: s[i] >= ' ' || s[i] == '\n'
  }

  /** An escaped string is valid exactly when the input has no control character but newlines. */
  lemma {:induction false} EscapeValidIff(s: string)
    ensures ValidString(Escape(s)) <==> OnlyNewlineControls(s)
  {
    if s != "" {
      EscapeValidIff(s[1..]);
      var text, tail := Escape(s), Escape(s[1..]);
      assert OnlyNewlineControls(s) <==> (s[0] >= ' ' || s[0] == '\n') && OnlyNewlineControls(s[1..]) by {
        assert forall i | 0 <= i < |s[1..]| :: s[1..][i] == s[i + 1];
        assert forall i | 1 <= i < |s| :: s[i] == s[1..][i - 1];
      }
      if |EscapeChar(s[0])| == 1 {
        assert text[1..] == tail;
      } else {
        assert text[2..] == tail;
      }
    }
  }

  /** A tab is copied as it is, which section 7 of RFC 8259 does not allow. */
  lemma EscapedTabIsInvalid()
    ensures Escape("\t") == "\t" && !ValidString(Escape("\t"))
  {
    assert Escape("\t") == EscapeChar('\t') + Escape("");
  }

  /** What needs no escape is copied, and the three escapes are those of the standard. */
  lemma {:induction false} EscapePlain(s: string)
    requires forall i | 0 <= i < |s| :: s[i] != '\\' && s[i] != '"' && s[i] != '\n'
    ensures Escape(s) == s
    ensures Escape("\\") == "\\\\" && Escape("\"") == "\\\"" && Escape("\n") == "\\n"
  {
    EscapeOne('\\');
    EscapeOne('"');
    EscapeOne('\n');
    if s != "" {
      EscapePlain(s[1..]);
    }
  }

  lemma EscapeOne(ch: char)
    ensures Escape([ch]) == EscapeChar(ch)
  {
    FlatSnoc("", ch, EscapeChar);
    assert "" + [ch] == [ch] && Escape("") + EscapeChar(ch) == EscapeChar(ch);
  }

  predicate Plain(s: string) {
    forall i | 0 <= i < |s| :: s[i] != '\\' && s[i] != '"' && s[i] != '\n'
  }

  lemma PlainHead(level: string, message: string, fields: seq<LogField>)
    requires Plain(level) && Plain(message)
    ensures FormatHead(LogEvent(level, message, fields))
         == "{" + ("\"level\":\"" + level + "\"") + (",\"msg\":\"" + message + "\"")
  {
    EscapePlain(level);
    EscapePlain(message);
  }

  /** The layout of a line, for strings that need no escapes. */
  lemma FormatLayout(level: string, message: string, key: string, value: string)
    requires Plain(level) && Plain(message) && Plain(key) && Plain(value)
    ensures Format(LogEvent(level, message, [LogField(key, value)]))
         == "{" + ("\"level\":\"" + level + "\"") + (",\"msg\":\"" + message + "\"")
            + (",\"" + key + "\":\"" + value + "\"") + "}"
  {
    PlainHead(level, message, [LogField(key, value)]);
    EscapePlain(key);
    EscapePlain(value);
    OneField(LogField(key, value));
  }

  lemma OneField(field: LogField)
    ensures FormatFields([field]) == FormatField(field)
  {
    FlatSnoc([], field, FormatField);
    assert [] + [field] == [field] && FormatFields([]) + FormatField(field) == FormatField(field);
  }

  predicate OneLine(s: string) { forall i | 0 <= i < |s| :: s[i] != '\n' }

  lemma {:induction false} EscapeOneLine(s: string)
    ensures OneLine(Escape(s))
  {
    if s != "" {
      EscapeOneLine(s[1..]);
    }
  }

  lemma {:induction false} FieldsOneLine(fields: seq<LogField>)
    ensures OneLine(FormatFields(fields))
  {
    if fields != [] {
      EscapeOneLine(fields[0].key);
      EscapeOneLine(fields[0].value);
      FieldsOneLine(fields[1..]);
    }
  }

  lemma HeadOneLine(event: LogEvent)
    ensures OneLine(FormatHead(event))
  {
    EscapeOneLine(event.level);
    EscapeOneLine(event.message);
  }

  /** A formatted event never contains a raw newline, so one event is one line of the sink. */
  lemma FormatOneLine(event: LogEvent)
    ensures '\n' !in Format(event)
  {
    HeadOneLine(event);
    FieldsOneLine(event.fields);
  }

  // ---------- The code ----------

  method EscapeJson(s: string) returns (out: string)
    ensures out == Escape(s)
  {
    out := "";
    for i := 0 to |s|
      invariant out == Escape(s[..i])
    {
      assert s[..i + 1] == s[..i] + [s[i]];
      FlatSnoc(s[..i], s[i], EscapeChar);
      match s[i] {
        case '\\' => out := out + "\\\\";
        case '"' => out := out + "\\\"";
        case '\n' => out := out + "\\n";
        case _ => out := out + [s[i]];
      }
    }
    assert s[..|s|] == s;
  }

  class InMemorySink {
    var lines: seq<string>

    constructor ()
      ensures lines == []
    {
      lines := [];
    }

    method WriteLine(line: string)
      modifies this
      ensures lines == old(lines) + [line]
    {
      lines := lines + [line];
    }
  }

  class JsonLogger {
    const sink: InMemorySink

    constructor (sink: InMemorySink)
      ensures this.sink == sink
    {
      this.sink := sink;
    }

    method FormatEvent(event: LogEvent) returns (out: string)
      ensures out == Format(event)
    {
      out := OpenLine(event);
      for i := 0 to |event.fields|
        invariant out == FormatHead(event) + FormatFields(event.fields[..i])
      {
        assert event.fields[..i + 1] == event.fields[..i] + [event.fields[i]];
        FlatSnoc(event.fields[..i], event.fields[i], FormatField);
        Regroup(FormatHead(event), FormatFields(event.fields[..i]), FormatField(event.fields[i]));
        out := AppendField(out, event.fields[i]);
      }
      assert event.fields[..|event.fields|] == event.fields;
      out := out + "}";
    }

    /** The lines of `format` before the loop. */
    method OpenLine(event: LogEvent) returns (out: string)
      ensures out == FormatHead(event)
    {
      out := "{";
      var level := EscapeJson(event.level);
      out := out + ("\"level\":\"" + level + "\"");
      var message := EscapeJson(event.message);
      out := out + (",\"msg\":\"" + message + "\"");
    }

    /** The body of the loop over the fields. */
    method AppendField(before: string, field: LogField) returns (out: string)
      ensures out == before + FormatField(field)
    {
      out := before + ",\"";
      var key := EscapeJson(field.key);
      out := out + key;
      out := out + "\":\"";
      var value := EscapeJson(field.value);
      out := out + value;
      out := out + "\"";
    }

    /** `emit`: the line written decodes to the event logged. */
    method Emit(event: LogEvent)
      modifies sink
      ensures exists line :: sink.lines == old(sink.lines) + [line] && Decode(line) == Some(event) && '\n' !in line
    {
      var line := FormatEvent(event);
      DecodeFormat(event);
      FormatOneLine(event);
      sink.WriteLine(line);
    }

    method Info(message: string, fields: seq<LogField>)
      modifies sink
      ensures exists line ::
                sink.lines == old(sink.lines) + [line] && Decode(line) == Some(LogEvent("INFO", message, fields))
    {
      Emit(LogEvent("INFO", message, fields));
    }

    method Warn(message: string, fields: seq<LogField>)
      modifies sink
      ensures exists line ::
                sink.lines == old(sink.lines) + [line] && Decode(line) == Some(LogEvent("WARN", message, fields))
    {
      Emit(LogEvent("WARN", message, fields));
    }
  }
}
