/** Server-sent events: what writeSSEData and the done event of infra/job/worker.go put on
    the wire, read back by the rules of the WHATWG HTML Living Standard, section 9.2.6
    ("Interpreting an event stream"). */
module Sse {
  import opened Text

  // ---------- the reader of the standard ----------

  datatype Event = Event(kind: string, data: string)

  /** Buffers of the standard: the line being read, the data and event type buffers, and
      whether the last character was a carriage return (a line feed after it ends no line).
      The last event ID and the reconnection time do not influence the events. */
  datatype Reader = Reader(line: string, data: string, kind: string, cr: bool)

  const START := Reader("", "", "", false)

  datatype Reading = Reading(reader: Reader, events: seq<Event>)

  /** The position of the first colon, or the length. */
  function Colon(line: string): (n: nat)
    ensures n <= |line| && (n < |line| ==> line[n] == ':')
  {
    if line == "" || line[0] == ':' then 0 else 1 + Colon(line[1..])
  }

  function Value(line: string): string
    requires Colon(line) <= |line|
  {
    var v := if Colon(line) < |line| then line[Colon(line) + 1..] else "";
    if v != "" && v[0] == ' ' then v[1..] else v
  }

  /** One complete line, without its end. */
  function EndLine(r: Reader): (e: Reading)
    ensures !e.reader.cr
  {
    if r.line == "" then
      Reading(Reader("", "", "", false),
              if r.data == "" then []
              else [Event(if r.kind == "" then "message" else r.kind, r.data[..|r.data| - 1])])
    else
      var field := r.line[..Colon(r.line)];
      Reading(
        if field == "data" then Reader("", r.data + Value(r.line) + "\n", r.kind, false)
        else if field == "event" then Reader("", r.data, Value(r.line), false)
        else Reader("", r.data, r.kind, false),
        [])
  }

  function ReadChar(r: Reader, c: char): Reading {
    if c == '\n' && r.cr then Reading(r.(cr := false), [])
    else if c == '\n' || c == '\r' then EndLine(r).(reader := EndLine(r).reader.(cr := c == '\r'))
    else Reading(r.(line := r.line + [c], cr := false), [])
  }

  function Read(r: Reader, wire: string): Reading
    decreases |wire|
  {
    if wire == "" then Reading(r, [])
    else
      var first := ReadChar(r, wire[0]);
      var rest := Read(first.reader, wire[1..]);
      Reading(rest.reader, first.events + rest.events)
  }

  /** The events of a whole stream; what follows the last one is dropped. */
  function Events(wire: string): seq<Event> {
    Read(START, wire).events
  }

  lemma {:induction false} ReadConcat(r: Reader, a: string, b: string)
    ensures var x := Read(r, a); var y := Read(x.reader, b);
            Read(r, a + b) == Reading(y.reader, x.events + y.events)
    decreases |a|
  {
    if a == "" {
      assert a + b == b;
    } else {
      assert (a + b)[0] == a[0] && (a + b)[1..] == a[1..] + b;
      ReadConcat(ReadChar(r, a[0]).reader, a[1..], b);
    }
  }

  predicate OneLine(s: string) {
    '\n' !in s && '\r' !in s
  }

  lemma {:induction false} ReadText(r: Reader, s: string)
    requires OneLine(s) && s != ""
    ensures Read(r, s) == Reading(r.(line := r.line + s, cr := false), [])
    decreases |s|
  {
    hide EndLine;
    var first := ReadChar(r, s[0]);
    if |s| == 1 {
      assert r.line + s == r.line + [s[0]];
    } else {
      ReadText(first.reader, s[1..]);
      assert r.line + [s[0]] + s[1..] == r.line + s;
    }
  }

  lemma ReadNothing(r: Reader)
    ensures Read(r, "") == Reading(r, [])
  {
  }

  lemma ReadEnd(r: Reader, c: char)
    requires (c == '\n' && !r.cr) || c == '\r'
    ensures Read(r, [c]) == EndLine(r).(reader := EndLine(r).reader.(cr := c == '\r'))
  {
    hide EndLine;
    assert [c][1..] == "";
    ReadNothing(ReadChar(r, c).reader);
  }

  lemma ReadLine(r: Reader, s: string)
    requires OneLine(s) && s != "" && r.line == ""
    ensures Read(r, s + "\n") == EndLine(r.(line := s, cr := false))
  {
    hide Read, EndLine;
    ReadText(r, s);
    ReadConcat(r, s, "\n");
    assert r.line + s == s;
    ReadEnd(r.(line := s, cr := false), '\n');
  }

  // ---------- line ends ----------

  /** Every CRLF, and every other CR, becomes LF. */
  function Norm(s: string): string {
    if s == "" then ""
    else if HasPrefix(s, "\r\n") then "\n" + Norm(s[2..])
    else if s[0] == '\r' then "\n" + Norm(s[1..])
    else [s[0]] + Norm(s[1..])
  }

  lemma {:induction false} TwoReplacements(s: string)
    ensures ReplaceAll(ReplaceAll(s, "\r\n", "\n"), "\r", "\n") == Norm(s)
    decreases |s|
  {
    if s != "" {
      var n := if HasPrefix(s, "\r\n") then 2 else 1;
      TwoReplacements(s[n..]);
      var first := if n == 2 then '\n' else s[0];
      var once := ReplaceAll(s[n..], "\r\n", "\n");
      assert ReplaceAll(s, "\r\n", "\n") == [first] + once;
      assert ([first] + once)[1..] == once;
      assert HasPrefix([first] + once, "\r") <==> first == '\r';
    }
  }

  lemma {:induction false} NormHasNoCr(s: string)
    ensures '\r' !in Norm(s) && (s != "" ==> Norm(s) != "")
    decreases |s|
  {
    if s != "" { NormHasNoCr(s[if HasPrefix(s, "\r\n") then 2 else 1..]); }
  }

  /** A pair CR LF that is cut in two becomes two line ends. */
  predicate Cut(a: string, b: string) {
    a != "" && b != "" && a[|a| - 1] == '\r' && b[0] == '\n'
  }

  lemma {:induction false} NormOfParts(a: string, b: string)
    ensures |Norm(a) + Norm(b)| == |Norm(a + b)| + if Cut(a, b) then 1 else 0
    ensures !Cut(a, b) ==> Norm(a) + Norm(b) == Norm(a + b)
    decreases |a|
  {
    hide Norm, HasPrefix;
    if a == "" {
      assert a + b == b && Norm("") + Norm(b) == Norm(b) by { NormNothing(); }
    } else if HasPrefix(a, "\r\n") {
      NormPair(a, b);
      NormOfParts(a[2..], b);
    } else if |a| == 1 && Cut(a, b) {
      CutPair(a, b);
    } else {
      PairAcross(a, b);
      NormStep(a);
      NormStep(a + b);
      assert (a + b)[1..] == a[1..] + b && (a + b)[0] == a[0];
      NormOfParts(a[1..], b);
      CutLater(a, b);
    }
  }

  lemma NormNothing()
    ensures Norm("") == ""
  {
  }

  lemma CutLater(a: string, b: string)
    requires |a| >= 2 || !Cut(a, b)
    ensures a != "" ==> Cut(a[1..], b) == Cut(a, b)
  {
  }

  lemma NormPair(a: string, b: string)
    requires HasPrefix(a, "\r\n")
    ensures |a| >= 2 && Norm(a) == ['\n'] + Norm(a[2..]) && Norm(a + b) == ['\n'] + Norm(a[2..] + b)
    ensures Cut(a[2..], b) == Cut(a, b)
  {
    assert (a + b)[2..] == a[2..] + b && (a + b)[..2] == a[..2];
    assert a[1] == a[..2][1] == '\n';
  }

  lemma NormStep(s: string)
    requires s != "" && !HasPrefix(s, "\r\n")
    ensures Norm(s) == [if s[0] == '\r' then '\n' else s[0]] + Norm(s[1..])
  {
  }

  lemma PairAcross(a: string, b: string)
    requires a != "" && !HasPrefix(a, "\r\n") && !(|a| == 1 && Cut(a, b))
    ensures !HasPrefix(a + b, "\r\n")
  {
    if |a| >= 2 {
      assert (a + b)[..2] == a[..2];
    } else if b != "" {
      assert (a + b)[..2] == [a[0], b[0]];
      assert "\r\n"[0] == '\r' && "\r\n"[1] == '\n';
    }
  }

  lemma CutPair(a: string, b: string)
    requires |a| == 1 && Cut(a, b)
    ensures Norm(a) == "\n" && Norm(b) == "\n" + Norm(b[1..]) && Norm(a + b) == "\n" + Norm(b[1..])
  {
    assert a == "\r" && (a + b)[..2] == "\r\n" && (a + b)[2..] == b[1..];
    NormStep(a);
    assert !HasPrefix(b, "\r\n") by { if |b| >= 2 { assert b[..2][0] == '\n'; } }
    NormStep(b);
  }

  // ---------- one chunk ----------

  /** strings.Split at line feeds. */
  function Lines(s: string): (r: seq<string>)
    ensures |r| >= 1
  {
    if s == "" then [""]
    else
      var rest := Lines(s[1..]);
      if s[0] == '\n' then [""] + rest else [[s[0]] + rest[0]] + rest[1..]
  }

  /** strings.SplitAfter at line feeds. */
  function SplitAfter(s: string): (r: seq<string>)
    ensures |r| >= 1
  {
    if s == "" then [""]
    else
      var rest := SplitAfter(s[1..]);
      if s[0] == '\n' then ["\n"] + rest else [[s[0]] + rest[0]] + rest[1..]
  }

  function TrimNewline(s: string): string {
    if HasSuffix(s, "\n") then s[..|s| - 1] else s
  }

  lemma {:induction false} SplitAfterLines(s: string)
    ensures |SplitAfter(s)| == |Lines(s)|
    ensures forall i :: 0 <= i < |Lines(s)| ==>
              SplitAfter(s)[i] == Lines(s)[i] + if i < |Lines(s)| - 1 then "\n" else ""
  {
    if s != "" {
      SplitAfterLines(s[1..]);
      var after, lines := SplitAfter(s), Lines(s);
      var after', lines' := SplitAfter(s[1..]), Lines(s[1..]);
      var shift := if s[0] == '\n' then 1 else 0;
      forall i | 0 <= i < |lines| ensures after[i] == lines[i] + if i < |lines| - 1 then "\n" else "" {
        if i > 0 { assert after[i] == after'[i - shift] && lines[i] == lines'[i - shift]; }
      }
    }
  }

  function DataLines(lines: seq<string>): string {
    if lines == [] then "" else "data: " + lines[0] + "\n" + DataLines(lines[1..])
  }

  /** What writeSSEData writes. */
  function Frame(chunk: string): string {
    if chunk == "" then "" else DataLines(Lines(Norm(chunk))) + "\n"
  }

  lemma {:induction false} LinesEnded(s: string)
    requires '\r' !in s
    ensures Ended(Lines(s)) == s + "\n"
    ensures forall l <- Lines(s) :: OneLine(l)
  {
    if s != "" {
      LinesEnded(s[1..]);
      var rest := Lines(s[1..]);
      if s[0] == '\n' {
        assert ([""] + rest)[1..] == rest;
      } else {
        var lines := [[s[0]] + rest[0]] + rest[1..];
        assert lines[1..] == rest[1..];
        assert s[0] in s && rest[0] in rest;
        assert [s[0]] + (rest[0] + "\n" + Ended(rest[1..])) == lines[0] + "\n" + Ended(rest[1..]);
        assert [s[0]] + (s[1..] + "\n") == s + "\n";
      }
    }
  }

  lemma {:induction false} DataLinesMore(lines: seq<string>, more: string)
    ensures DataLines(lines + [more]) == DataLines(lines) + "data: " + more + "\n"
  {
    if lines == [] {
      assert lines + [more] == [more];
      assert DataLines([more][1..]) == "";
    } else {
      assert (lines + [more])[1..] == lines[1..] + [more];
      DataLinesMore(lines[1..], more);
    }
  }

  method WriteSSEData(chunk: string) returns (wire: string)
    ensures wire == Frame(chunk)
  {
    if chunk == "" { return ""; }
    var text := ReplaceAll(chunk, "\r\n", "\n");
    text := ReplaceAll(text, "\r", "\n");
    TwoReplacements(chunk);
    wire := "";
    var lines := SplitAfter(text);
    ghost var all := Lines(text);
    SplitAfterLines(text);
    LinesEnded(text) by { NormHasNoCr(chunk); }
    for i := 0 to |lines|
      invariant wire == DataLines(all[..i])
    {
      var line := TrimNewline(lines[i]);
      LineWithoutEnd(all, lines, i);
      wire := wire + "data: " + line + "\n";
      DataLinesMore(all[..i], line);
      assert all[..i + 1] == all[..i] + [line];
    }
    assert all[..|lines|] == all;
    wire := wire + "\n";
  }

  lemma LineWithoutEnd(all: seq<string>, lines: seq<string>, i: nat)
    requires i < |all| == |lines| && lines[i] == all[i] + (if i < |all| - 1 then "\n" else "") && OneLine(all[i])
    ensures TrimNewline(lines[i]) == all[i]
  {
    if i < |all| - 1 {
      assert lines[i][|all[i]|..] == "\n";
    } else {
      assert lines[i] == all[i];
      assert all[i] != "" ==> all[i][|all[i]| - 1] in all[i];
    }
  }

  lemma {:induction false} ReadDataLines(data: string, kind: string, lines: seq<string>)
    requires forall l <- lines :: OneLine(l)
    ensures Read(Reader("", data, kind, false), DataLines(lines)) ==
              Reading(Reader("", data + Ended(lines), kind, false), [])
    decreases |lines|
  {
    hide Read, OneLine, Colon, Value;
    if lines == [] {
      assert data + Ended(lines) == data;
      ReadNothing(Reader("", data, kind, false));
    } else {
      var r := Reader("", data, kind, false);
      var line := "data: " + lines[0];
      DataLine(lines[0]);
      ReadLine(r, line);
      var after := Reader("", data + lines[0] + "\n", kind, false);
      assert EndLine(r.(line := line)) == Reading(after, []);
      ReadDataLines(data + lines[0] + "\n", kind, lines[1..]);
      ReadConcat(r, line + "\n", DataLines(lines[1..]));
      assert DataLines(lines) == line + "\n" + DataLines(lines[1..]);
      assert data + lines[0] + "\n" + Ended(lines[1..]) == data + Ended(lines);
    }
  }

  lemma ColonAt(field: string, value: string)
    requires ':' !in field
    ensures Colon(field + ":" + value) == |field|
    decreases |field|
  {
    var line := field + ":" + value;
    if field != "" {
      assert line[1..] == field[1..] + ":" + value;
      ColonAt(field[1..], value);
    }
  }

  lemma FieldLine(field: string, text: string)
    requires ':' !in field
    ensures var line := field + ": " + text;
            Colon(line) == |field| && line[..|field|] == field && Value(line) == text &&
            (OneLine(field) && OneLine(text) ==> OneLine(line))
  {
    hide OneLine;
    var line := field + ": " + text;
    assert line == field + ":" + (" " + text);
    ColonAt(field, " " + text);
    assert line[|field| + 1..] == " " + text;
    assert (" " + text)[1..] == text;
    if OneLine(field) && OneLine(text) { OneLineParts(field, text); }
  }

  lemma OneLineParts(field: string, text: string)
    requires OneLine(field) && OneLine(text)
    ensures OneLine(field + ": " + text)
  {
  }

  lemma DataLine(text: string)
    ensures var line := "data: " + text; Colon(line) == 4 && line[..4] == "data" && Value(line) == text
    ensures OneLine(text) ==> OneLine("data: " + text)
  {
    hide Colon, Value;
    FieldLine("data", text);
    assert "data" + ": " + text == "data: " + text;
  }

  /** A chunk arrives as one message that holds the chunk with its line ends normalised, and
      leaves the reader as it found it. */
  lemma ChunkArrives(chunk: string)
    requires chunk != ""
    ensures Read(START, Frame(chunk)) == Reading(START, [Event("message", Norm(chunk))])
  {
    hide Read, Norm;
    NormHasNoCr(chunk);
    LinesEnded(Norm(chunk));
    var lines := Lines(Norm(chunk));
    ReadDataLines("", "", lines);
    var r := Reader("", Norm(chunk) + "\n", "", false);
    assert "" + Ended(lines) == Norm(chunk) + "\n";
    ReadConcat(START, DataLines(lines), "\n");
    ReadEnd(r, '\n');
    assert r.data[..|r.data| - 1] == Norm(chunk);
  }

  // ---------- the end of the stream ----------

  function DoneFrame(message: string): string {
    "event: done\ndata: " + message + "\n\n"
  }

  lemma EventLine()
    ensures var line := "event: done";
            OneLine(line) && Colon(line) == 5 && line[..5] == "event" && Value(line) == "done" &&
            line + "\n" == "event: done\n"
  {
    hide Colon, Value;
    FieldLine("event", "done");
    assert "event" + ": " + "done" == "event: done";
  }

  lemma ReadEventLine()
    ensures Read(START, "event: done\n") == Reading(Reader("", "", "done", false), [])
  {
    hide Read, Colon, Value, OneLine;
    EventLine();
    ReadLine(START, "event: done");
  }

  /** The state after the first line of the message, and what is still to be read. */
  lemma ReadFirstLine(first: string, end: char, rest: string)
    requires OneLine(first) && (end == '\n' || end == '\r')
    ensures Read(START, "event: done\ndata: " + first + [end] + rest)
            == Read(Reader("", first + "\n", "done", end == '\r'), rest)
  {
    hide Read, Colon, Value, OneLine;
    ReadEventLine();
    var r := Reader("", "", "done", false);
    var line := "data: " + first;
    DataLine(first);
    ReadText(r, line);
    var full := r.(line := line);
    assert r.line + line == line;
    assert "" + first + "\n" == first + "\n";
    ReadEnd(full, end);
    ReadConcat(r, line, [end]);
    ReadConcat(r, line + [end], rest);
    ReadConcat(START, "event: done\n", line + [end] + rest);
    assert "event: done\ndata: " + first + [end] + rest == "event: done\n" + (line + [end] + rest);
  }

  function FirstLine(s: string): (n: nat)
    ensures n <= |s| && OneLine(s[..n]) && (n < |s| ==> s[n] == '\n' || s[n] == '\r')
  {
    if s == "" || s[0] == '\n' || s[0] == '\r' then 0
    else
      var n := FirstLine(s[1..]);
      assert s[..n + 1] == [s[0]] + s[1..][..n];
      n + 1
  }

  /** A line gives less text than it has characters, and only an empty line ends an event.
      So the first event is no longer than what was already read, or shorter than all that
      is read together. */
  lemma {:induction false} FirstEventIsShort(r: Reader, wire: string, bound: int)
    requires |r.data| + |r.line| <= bound
    ensures var e := Read(r, wire).events;
            e == [] || |e[0].data| <= bound + |wire| - 4 || (r.line == "" && |e[0].data| < |r.data|)
    decreases |wire|
  {
    hide Colon, Value;
    if wire != "" {
      var first := ReadChar(r, wire[0]);
      if first.events == [] {
        ValueIsShort(r.line);
        if wire[0] == '\n' && r.cr {
          FirstEventIsShort(first.reader, wire[1..], bound);
        } else if wire[0] == '\n' || wire[0] == '\r' {
          FirstEventIsShort(first.reader, wire[1..], bound - if r.line == "" then 0 else 1);
          if |wire| == 1 { ReadNothing(first.reader); }
        } else {
          FirstEventIsShort(first.reader, wire[1..], bound + 1);
        }
      }
    }
  }

  lemma ValueIsShort(line: string)
    ensures line[..Colon(line)] == "data" ==> |Value(line)| <= |line| - 4
  {
  }

  lemma DoneArrives(message: string)
    requires OneLine(message)
    ensures Read(START, DoneFrame(message)) == Reading(START, [Event("done", message)])
  {
    hide Read;
    ReadFirstLine(message, '\n', "\n");
    assert DoneFrame(message) == "event: done\ndata: " + message + ['\n'] + "\n";
    var r := Reader("", message + "\n", "done", false);
    ReadEnd(r, '\n');
    assert r.data[..|r.data| - 1] == message;
  }

  /** The done event carries its message exactly when the message is a single line. */
  lemma DoneArrivesIff(message: string)
    ensures Events(DoneFrame(message)) == [Event("done", message)] <==> OneLine(message)
  {
    hide Read;
    if OneLine(message) {
      DoneArrives(message);
    } else {
      var n := FirstLine(message);
      assert message[..|message|] == message;
      var first := message[..n];
      var rest := message[n + 1..] + "\n\n";
      assert message == first + [message[n]] + message[n + 1..];
      ReadFirstLine(first, message[n], rest);
      assert DoneFrame(message) == "event: done\ndata: " + first + [message[n]] + rest;
      FirstEventIsShort(Reader("", first + "\n", "done", message[n] == '\r'), rest, n + 1);
    }
  }
}
