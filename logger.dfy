/** The singleton logger: a level filter, a TEXT or JSON record layout, an
    ambient trace-id slot that defaults to "N/A", and the standard output it
    writes one line to per accepted call. The clock, the caller's stack
    frame, the current traceback and uuid4 are inputs. */
module Logging {
  import opened Text
  import opened LogLevels
  import Exceptions

  datatype LogFormat = TEXT | JSON

  /** What `set_format` may be handed: a `LogFormat` member, or any other
      Python value (described by its text). */
  datatype FormatArg = FormatMember(format: LogFormat) | NotAFormat(value: string)

  /** A stack frame's file name and line number. */
  datatype SourceLocation = SourceLocation(file: string, line: int)

  /** What one log call reads from its surroundings: the clock's ISO
      timestamp, the frame three levels above the record builder (None when
      the stack is shallower), and `traceback.format_exc()`. */
  datatype CallEnv = CallEnv(timestamp: string, caller: Option<SourceLocation>, traceback: string)

  /** The dictionary `_prepare_log_data` builds. */
  datatype LogRecord = LogRecord(
    timestamp: string,
    level: string,
    file: string,
    line: int,
    traceId: string,
    message: string,
    exception: Option<string>)

  const NO_TRACE: string := "N/A"

  /** `_prepare_log_data`: the record for one call, with the caller's
      location or "unknown"/0, and a traceback only at EXCEPTION. */
  function PrepareLogData(level: LogLevel, message: string, traceId: string, env: CallEnv): (r: LogRecord)
    ensures r.level == Name(level) && r.message == message && r.traceId == traceId
    ensures r.timestamp == env.timestamp
    ensures env.caller.None? ==> r.file == "unknown" && r.line == 0
    ensures env.caller.Some? ==> r.file == env.caller.value.file && r.line == env.caller.value.line
    ensures r.exception.Some? <==> level == EXCEPTION
    ensures r.exception.Some? ==> r.exception.value == env.traceback
  {
    var file := if env.caller.Some? then env.caller.value.file else "unknown";
    var line := if env.caller.Some? then env.caller.value.line else 0;
    LogRecord(env.timestamp, Name(level), file, line, traceId, message,
              if Eq(level, Level(EXCEPTION)) then Some(env.traceback) else None)
  }

  // ------------------------------------------------------------- TEXT layout

  /** The single-line head of a TEXT record. */
  function TextHead(r: LogRecord): string
  {
    r.timestamp + " - " + r.level + " - " + r.traceId + " - " + r.file + ":" + IntToString(r.line)
    + " - " + r.message
  }

  /** The TEXT layout: the head, then a traceback block when the record
      carries one. */
  function TextLine(r: LogRecord): string
  {
    if r.exception.Some? then TextHead(r) + "\nTraceback:\n" + r.exception.value else TextHead(r)
  }

  /** The TEXT layout: the head opens with the timestamp and closes with
      the message, each set off by " - "; a record with a traceback adds
      exactly the "Traceback:" block after the head, a record without one
      is the head alone. */
  lemma TextLayout(r: LogRecord)
    ensures var h := TextHead(r);
            && |h| >= |r.timestamp| + |r.message| + 12
            && h[..|r.timestamp|] == r.timestamp && h[|r.timestamp|..|r.timestamp| + 3] == " - "
            && h[|h| - |r.message|..] == r.message && h[|h| - |r.message| - 3..|h| - |r.message|] == " - "
    ensures r.exception.None? ==> TextLine(r) == TextHead(r)
    ensures r.exception.Some? ==>
              var line, h := TextLine(r), TextHead(r);
              && |line| == |h| + 12 + |r.exception.value|
              && line[..|h|] == h
              && line[|h|..|h| + 12] == "\nTraceback:\n"
              && line[|h| + 12..] == r.exception.value
  {
    var middle := " - " + r.level + " - " + r.traceId + " - " + r.file + ":" + IntToString(r.line) + " - ";
    assert TextHead(r) == r.timestamp + middle + r.message;
    if r.exception.Some? {
      assert TextLine(r) == TextHead(r) + ("\nTraceback:\n" + r.exception.value);
    }
  }

  predicate NoNewline(s: string) { '\n' !in s }

  lemma NoNewlineInDigits(i: int)
    ensures NoNewline(IntToString(i))
  {
  }

  /** A TEXT record is one line when its inputs are, unless its level is
      EXCEPTION, where the traceback block always starts a new line. */
  lemma TextTracebackOnlyAtException(level: LogLevel, message: string, traceId: string, env: CallEnv)
    requires NoNewline(message) && NoNewline(traceId) && NoNewline(env.timestamp)
    requires env.caller.Some? ==> NoNewline(env.caller.value.file)
    ensures var line := TextLine(PrepareLogData(level, message, traceId, env));
            && (level != EXCEPTION ==> NoNewline(line))
            && (level == EXCEPTION ==>
                  line == TextHead(PrepareLogData(level, message, traceId, env)) + "\nTraceback:\n" + env.traceback
                  && !NoNewline(line))
  {
    var r := PrepareLogData(level, message, traceId, env);
    NoNewlineInDigits(r.line);
    if level == EXCEPTION {
      var line := TextHead(r) + "\nTraceback:\n" + env.traceback;
      assert line[|TextHead(r)|] == '\n';
    }
  }

  // ------------------------------------------------------------- JSON layout

  function HexDigit(d: nat): (c: char)
    requires d < 16
  {
    "0123456789abcdef"[d]
  }

  function HexValue(c: char): Option<nat>
  {
    if '0' <= c <= '9' then Some(c as int - '0' as int)
    else if 'a' <= c <= 'f' then Some(c as int - 'a' as int + 10)
    else if 'A' <= c <= 'F' then Some(c as int - 'A' as int + 10)
    else None
  }

  /** `json.dumps` escaping of one character with `ensure_ascii=False`:
      quote, backslash and the control characters below U+0020 are escaped,
      everything else is copied. */
  function EscapeChar(c: char): (r: string)
    ensures |r| >= 1
    ensures forall k :: 0 <= k < |r| ==> r[k] >= ' '
    ensures r[0] == '\\' || (r == [c] && c != '"')
    ensures c >= ' ' && c != '"' && c != '\\' ==> r == [c]
  {
    if c == '"' then "\\\""
    else if c == '\\' then "\\\\"
    else if c == '\n' then "\\n"
    else if c == '\r' then "\\r"
    else if c == '\t' then "\\t"
    else if c == '\U{8}' then "\\b"
    else if c == '\U{C}' then "\\f"
    else if c < ' ' then "\\u00" + [HexDigit(c as int / 16), HexDigit(c as int % 16)]
    else [c]
  }

  /** `json.dumps` escaping of a string's contents. */
  function EscapeJson(s: string): (r: string)
    ensures forall k :: 0 <= k < |r| ==> r[k] >= ' '
  {
    if s == [] then [] else EscapeChar(s[0]) + EscapeJson(s[1..])
  }

  function Prepend(c: char, rest: Option<string>): Option<string>
  {
    match rest
    case None => None
    case Some(t) => Some([c] + t)
  }

  /** JSON string-contents decoding, as `json.loads` reads it. */
  function UnescapeJson(s: string): Option<string>
    decreases |s|
  {
    if s == [] then Some([])
    else if s[0] == '"' then None
    else if s[0] != '\\' then Prepend(s[0], UnescapeJson(s[1..]))
    else if |s| < 2 then None
    else if s[1] == '"' then Prepend('"', UnescapeJson(s[2..]))
    else if s[1] == '\\' then Prepend('\\', UnescapeJson(s[2..]))
    else if s[1] == '/' then Prepend('/', UnescapeJson(s[2..]))
    else if s[1] == 'n' then Prepend('\n', UnescapeJson(s[2..]))
    else if s[1] == 'r' then Prepend('\r', UnescapeJson(s[2..]))
    else if s[1] == 't' then Prepend('\t', UnescapeJson(s[2..]))
    else if s[1] == 'b' then Prepend('\U{8}', UnescapeJson(s[2..]))
    else if s[1] == 'f' then Prepend('\U{C}', UnescapeJson(s[2..]))
    else if s[1] == 'u' && |s| >= 6 then
      match (HexValue(s[2]), HexValue(s[3]), HexValue(s[4]), HexValue(s[5]))
      case (Some(a), Some(b), Some(c), Some(d)) =>
        var v := ((a * 16 + b) * 16 + c) * 16 + d;
        if v < 0xD800 || 0xE000 <= v < 0x11_0000 then Prepend(v as char, UnescapeJson(s[6..])) else None
      case _ => None
    else None
  }

  lemma UnescapeEscapeChar(c: char, rest: string)
    ensures UnescapeJson(EscapeChar(c) + rest) == Prepend(c, UnescapeJson(rest))
  {
    var e := EscapeChar(c);
    if |e| == 1 {
      assert (e + rest)[1..] == rest;
    } else if |e| == 2 {
      assert (e + rest)[2..] == rest;
    } else {
      var hi, lo := c as int / 16, c as int % 16;
      assert hi < 2;
      assert (e + rest)[6..] == rest;
      assert HexValue(HexDigit(hi)) == Some(hi);
      assert HexValue(HexDigit(lo)) == Some(lo);
      assert ((0 * 16 + 0) * 16 + hi) * 16 + lo == c as int;
    }
  }

  /** Decoding an escaped string gives the string back. */
  lemma {:induction false} EscapeJsonRoundTrip(s: string)
    ensures UnescapeJson(EscapeJson(s)) == Some(s)
  {
    if s != [] {
      EscapeJsonRoundTrip(s[1..]);
      UnescapeEscapeChar(s[0], EscapeJson(s[1..]));
      assert [s[0]] + s[1..] == s;
    }
  }

  /** A JSON value the logger serialises. */
  datatype JsonValue = JStr(s: string) | JInt(i: int)

  /** The record as the ordered key/value pairs `json.dumps` writes. */
  function JsonFields(r: LogRecord): (fields: seq<(string, JsonValue)>)
    ensures |fields| == if r.exception.Some? then 7 else 6
    ensures fields[0] == ("timestamp", JStr(r.timestamp)) && fields[1] == ("level", JStr(r.level))
    ensures fields[2] == ("file", JStr(r.file)) && fields[3] == ("line", JInt(r.line))
    ensures fields[4] == ("trace_id", JStr(r.traceId)) && fields[5] == ("message", JStr(r.message))
    ensures r.exception.Some? ==> fields[6] == ("exception", JStr(r.exception.value))
  {
    [("timestamp", JStr(r.timestamp)), ("level", JStr(r.level)), ("file", JStr(r.file)),
     ("line", JInt(r.line)), ("trace_id", JStr(r.traceId)), ("message", JStr(r.message))]
    + (if r.exception.Some? then [("exception", JStr(r.exception.value))] else [])
  }

  function DumpValue(v: JsonValue): string
  {
    match v
    case JStr(s) => "\"" + EscapeJson(s) + "\""
    case JInt(i) => IntToString(i)
  }

  function DumpPairs(fields: seq<(string, JsonValue)>): string
    decreases |fields|
  {
    if fields == [] then ""
    else
      var head := "\"" + EscapeJson(fields[0].0) + "\": " + DumpValue(fields[0].1);
      if |fields| == 1 then head else head + ", " + DumpPairs(fields[1..])
  }

  /** `json.dumps(fields, ensure_ascii=False)` with the default separators. */
  function Dumps(fields: seq<(string, JsonValue)>): string
  {
    "{" + DumpPairs(fields) + "}"
  }

  predicate Printable(s: string) { forall k :: 0 <= k < |s| ==> s[k] >= ' ' }

  lemma PrintableDigits(i: int)
    ensures Printable(IntToString(i))
  {
    var d := NatToString(if i >= 0 then i else -i);
    assert forall k :: 0 <= k < |d| ==> IsDigit(d[k]);
  }

  lemma PrintableConcat(a: string, b: string)
    requires Printable(a) && Printable(b)
    ensures Printable(a + b)
  {
    forall k | 0 <= k < |a + b|
      ensures (a + b)[k] >= ' '
    {
      if k < |a| { assert (a + b)[k] == a[k]; } else { assert (a + b)[k] == b[k - |a|]; }
    }
  }

  lemma PrintableValue(v: JsonValue)
    ensures Printable(DumpValue(v))
  {
    match v
    case JStr(s) =>
      PrintableConcat("\"", EscapeJson(s));
      PrintableConcat("\"" + EscapeJson(s), "\"");
    case JInt(i) => PrintableDigits(i);
  }

  lemma {:induction false} PrintablePairs(fields: seq<(string, JsonValue)>)
    ensures Printable(DumpPairs(fields))
    decreases |fields|
  {
    if fields != [] {
      var key := EscapeJson(fields[0].0);
      PrintableConcat("\"", key);
      PrintableConcat("\"" + key, "\": ");
      PrintableValue(fields[0].1);
      var head := "\"" + key + "\": " + DumpValue(fields[0].1);
      PrintableConcat("\"" + key + "\": ", DumpValue(fields[0].1));
      if |fields| > 1 {
        PrintablePairs(fields[1..]);
        PrintableConcat(head, ", ");
        PrintableConcat(head + ", ", DumpPairs(fields[1..]));
      }
    }
  }

  /** A JSON record is always exactly one line: every character below
      U+0020 in every field, the traceback's newlines included, is escaped,
      so no newline is left. */
  lemma JsonRecordIsOneLine(r: LogRecord)
    ensures Printable(Dumps(JsonFields(r)))
    ensures NoNewline(Dumps(JsonFields(r)))
  {
    var d := Dumps(JsonFields(r));
    PrintablePairs(JsonFields(r));
    PrintableConcat("{", DumpPairs(JsonFields(r)));
    PrintableConcat("{" + DumpPairs(JsonFields(r)), "}");
    assert forall k :: 0 <= k < |d| ==> d[k] != '\n';
  }

  /** The layout `_log` picks: JSON for JSON, TEXT for anything else. */
  function Render(format: LogFormat, r: LogRecord): string
  {
    if format == JSON then Dumps(JsonFields(r)) else TextLine(r)
  }

  /** JSON output is one printable line holding a single object; TEXT
      output starts with the TEXT head, and is the head alone without a
      traceback. */
  lemma RenderLayout(format: LogFormat, r: LogRecord)
    ensures format == JSON ==>
              var out := Render(format, r);
              Printable(out) && NoNewline(out) && out[0] == '{' && out[|out| - 1] == '}'
    ensures format == TEXT ==> Render(format, r)[..|TextHead(r)|] == TextHead(r)
    ensures format == TEXT && r.exception.None? ==> Render(format, r) == TextHead(r)
  {
    if format == JSON {
      JsonRecordIsOneLine(r);
    } else {
      TextLayout(r);
    }
  }

  /** What one `_log` call writes: the rendered record and a newline when
      the level is at or above the minimum, nothing otherwise. */
  function Emitted(minLevel: LogLevel, format: LogFormat, traceId: string,
                   level: LogLevel, message: string, env: CallEnv): (out: seq<string>)
    ensures |out| <= 1
    ensures out != [] <==> Position(level) >= Position(minLevel)
    ensures out != [] ==> out[0] == Render(format, PrepareLogData(level, message, traceId, env)) + "\n"
  {
    if Ge(level, Level(minLevel)) then [Render(format, PrepareLogData(level, message, traceId, env)) + "\n"] else []
  }

  /** A logger set to minimum level `m` writes nothing below `m` and one
      line at `m` and above. */
  lemma FilterByMinimum(m: LogLevel, low: LogLevel, high: LogLevel, format: LogFormat,
                        traceId: string, message: string, env: CallEnv)
    requires Lt(low, Level(m)) && !Lt(high, Level(m))
    ensures Emitted(m, format, traceId, low, message, env) == []
    ensures |Emitted(m, format, traceId, high, message, env)| == 1
  {
  }

  // --------------------------------------------------------------- the logger

  /** The logger's id generator: the default uuid4 lambda, or a custom
      callable whose n-th call returns `next(n)`. */
  datatype IdGenerator = Uuid4 | Custom(next: nat -> string)

  /** `new_trace_id`'s id: uuid4 without a generator or with the default
      one, otherwise the custom generator's next value. */
  function NextTraceId(gen: Option<IdGenerator>, calls: nat, uuid: string): (t: string)
    ensures gen.Some? && gen.value.Custom? ==> t == gen.value.next(calls)
    ensures gen.None? || gen.value.Uuid4? ==> t == uuid
  {
    if gen.Some? && gen.value.Custom? then gen.value.next(calls) else uuid
  }

  class Logger {
    var logFormat: LogFormat
    var minLevel: LogLevel
    var idGenerator: Option<IdGenerator>
    /** Calls made so far to the current custom id generator. */
    var generatorCalls: nat
    /** The ambient trace-id slot. */
    var traceId: string
    /** Everything written to standard output. */
    var output: seq<string>

    /** The first construction: a fresh instance, the trace slot at its
        default, nothing written yet. */
    constructor (logFormat: LogFormat, minLevel: LogLevel, idGenerator: Option<IdGenerator>)
      ensures this.logFormat == logFormat && this.minLevel == minLevel && this.idGenerator == idGenerator
      ensures generatorCalls == 0 && traceId == NO_TRACE && output == []
    {
      this.logFormat := logFormat;
      this.minLevel := minLevel;
      this.idGenerator := idGenerator;
      generatorCalls := 0;
      traceId := NO_TRACE;
      output := [];
    }

    /** `__init__` on an existing instance: the three fields overwritten,
        the trace slot and the output untouched. */
    method Init(logFormat: LogFormat, minLevel: LogLevel, idGenerator: Option<IdGenerator>)
      modifies this`logFormat, this`minLevel, this`idGenerator, this`generatorCalls
      ensures this.logFormat == logFormat && this.minLevel == minLevel && this.idGenerator == idGenerator
      ensures generatorCalls == 0
    {
      this.logFormat := logFormat;
      this.minLevel := minLevel;
      this.idGenerator := idGenerator;
      generatorCalls := 0;
    }

    /** `set_format`: anything but a `LogFormat` member is refused with a
        `ValueError` and changes nothing. */
    method SetFormat(arg: FormatArg) returns (r: Exceptions.Result<()>)
      modifies this`logFormat
      ensures r.Err? <==> arg.NotAFormat?
      ensures r.Err? ==> r.error.ValueError? && logFormat == old(logFormat)
      ensures r.Ok? ==> logFormat == arg.format
    {
      if arg.NotAFormat? {
        return Exceptions.Err(Exceptions.ValueError("Log format must be an instance of LogFormat enum"));
      }
      logFormat := arg.format;
      r := Exceptions.Ok(());
    }

    method SetMinLevel(level: LogLevel)
      modifies this`minLevel
      ensures minLevel == level
    {
      minLevel := level;
    }

    /** `new_trace_id`: draws an id, installs it in the slot and returns it.
        `uuid` is what `uuid4()` yields for this call. */
    method NewTraceId(uuid: string) returns (t: string)
      modifies this`traceId, this`generatorCalls
      ensures t == NextTraceId(idGenerator, old(generatorCalls), uuid)
      ensures traceId == t
      ensures generatorCalls == if idGenerator.Some? && idGenerator.value.Custom? then old(generatorCalls) + 1 else old(generatorCalls)
    {
      t := NextTraceId(idGenerator, generatorCalls, uuid);
      if idGenerator.Some? && idGenerator.value.Custom? {
        generatorCalls := generatorCalls + 1;
      }
      traceId := t;
    }

    method SetTraceId(t: string)
      modifies this`traceId
      ensures traceId == t
    {
      traceId := t;
    }

    method GetTraceId() returns (t: string)
      ensures t == traceId
    {
      t := traceId;
    }

    method ClearTraceId()
      modifies this`traceId
      ensures traceId == NO_TRACE
    {
      traceId := NO_TRACE;
    }

    /** `_log` followed by `_write`: at most one line appended. */
    method Log(level: LogLevel, message: string, env: CallEnv)
      modifies this`output
      ensures output == old(output) + Emitted(minLevel, logFormat, traceId, level, message, env)
    {
      if Ge(level, Level(minLevel)) {
        var data := PrepareLogData(level, message, traceId, env);
        var line := if logFormat == JSON then Dumps(JsonFields(data)) else TextLine(data);
        output := output + [line + "\n"];
      }
    }

    method Debug(message: string, env: CallEnv)
      modifies this`output
      ensures output == old(output) + Emitted(minLevel, logFormat, traceId, DEBUG, message, env)
    {
      Log(DEBUG, message, env);
    }

    method Info(message: string, env: CallEnv)
      modifies this`output
      ensures output == old(output) + Emitted(minLevel, logFormat, traceId, INFO, message, env)
    {
      Log(INFO, message, env);
    }

    method Warning(message: string, env: CallEnv)
      modifies this`output
      ensures output == old(output) + Emitted(minLevel, logFormat, traceId, WARNING, message, env)
    {
      Log(WARNING, message, env);
    }

    method Error(message: string, env: CallEnv)
      modifies this`output
      ensures output == old(output) + Emitted(minLevel, logFormat, traceId, ERROR, message, env)
    {
      Log(ERROR, message, env);
    }

    method Critical(message: string, env: CallEnv)
      modifies this`output
      ensures output == old(output) + Emitted(minLevel, logFormat, traceId, CRITICAL, message, env)
    {
      Log(CRITICAL, message, env);
    }

    method Exception(message: string, env: CallEnv)
      modifies this`output
      ensures output == old(output) + Emitted(minLevel, logFormat, traceId, EXCEPTION, message, env)
    {
      Log(EXCEPTION, message, env);
    }
  }

  /** `Logger.__init__`'s parameter defaults. */
  const DEFAULT_FORMAT: LogFormat := TEXT
  const DEFAULT_MIN_LEVEL: LogLevel := INFO

  /** The `Logger` class object, holding `_instance`: calling it returns the
      one instance, creating it the first time and re-running `__init__` on
      it every time. */
  class LoggerClass {
    var instance: Logger?

    constructor ()
      ensures instance == null
    {
      instance := null;
    }

    method Call(logFormat: LogFormat := DEFAULT_FORMAT, minLevel: LogLevel := DEFAULT_MIN_LEVEL,
                idGenerator: Option<IdGenerator> := Some(Uuid4)) returns (l: Logger)
      modifies this, instance
      ensures instance == l
      ensures old(instance) == null ==> fresh(l) && l.traceId == NO_TRACE && l.output == []
      ensures old(instance) != null ==> l == old(instance)
      ensures old(instance) != null ==> l.traceId == old(instance.traceId) && l.output == old(instance.output)
      ensures l.logFormat == logFormat && l.minLevel == minLevel && l.idGenerator == idGenerator
      ensures l.generatorCalls == 0
    {
      if instance == null {
        l := new Logger(logFormat, minLevel, idGenerator);
        instance := l;
      } else {
        l := instance;
        l.Init(logFormat, minLevel, idGenerator);
      }
    }
  }

  /** Two constructions give the same object, and the second one's
      arguments are the ones in force. */
  method ConstructTwice(cls: LoggerClass, f1: LogFormat, m1: LogLevel, f2: LogFormat, m2: LogLevel)
    returns (a: Logger, b: Logger)
    modifies cls, cls.instance
    ensures a == b
    ensures b.logFormat == f2 && b.minLevel == m2
  {
    a := cls.Call(f1, m1);
    b := cls.Call(f2, m2);
  }
}
