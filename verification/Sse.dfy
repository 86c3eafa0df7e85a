// Server-Sent Events: formatting an event, and an event stream reader that
// follows section 9.2.6 of the HTML Living Standard.
module Sse {
  import opened Text

  // ---------------------------------------------------------------------
  // Formatting
  // ---------------------------------------------------------------------

  function DataLine(line: string): string { "data: " + line + "\n" }

  /** One `data:` line for each line of the payload from `start` on. */
  function DataLines(data: string, start: nat): string
    requires start <= |data|
    decreases |data| - start
  {
    var nl := FindFrom(data, '\n', start);
    DataLine(data[start..nl]) + if nl == |data| then "" else DataLines(data, nl + 1)
  }

  function Named(field: string, value: string): string {
    if value == "" then "" else field + ": " + value + "\n"
  }

  function Format(event: string, data: string, id: string): string {
    Named("id", id) + Named("event", event) + DataLines(data, 0) + "\n"
  }

  lemma DataLinesStep(data: string, start: nat)
    requires start <= |data|
    ensures var nl := FindFrom(data, '\n', start);
            DataLines(data, start) == DataLine(data[start..nl]) + if nl == |data| then "" else DataLines(data, nl + 1)
    ensures FindFrom(data, '\n', start) == |data| ==> DataLines(data, start) == DataLine(data[start..])
  {
    hide FindFrom, DataLine;
    assert data[start..|data|] == data[start..];
  }

  method AppendDataLines(out0: string, data: string) returns (out: string)
    ensures out == out0 + DataLines(data, 0)
  {
    hide FindFrom, DataLine, DataLines;
    out := out0;
    var start := 0;
    while true
      invariant start <= |data|
      invariant out + DataLines(data, start) == out0 + DataLines(data, 0)
      decreases |data| - start
    {
      DataLinesStep(data, start);
      var nl := FindFrom(data, '\n', start);
      out := AppendLine(out, if nl == |data| then data[start..] else data[start..nl]);
      if nl == |data| { break; }
      start := nl + 1;
    }
  }

  method AppendLine(out0: string, line: string) returns (out: string)
    ensures out == out0 + DataLine(line)
  {
    out := out0 + "data: ";
    out := out + line;
    out := out + "\n";
  }

  method SendEvent(event: string, data: string, id: string) returns (msg: string)
    ensures msg == Format(event, data, id)
  {
    hide DataLines;
    msg := "";
    if id != "" {
      msg := msg + ("id" + ": " + id + "\n");
    }
    assert msg == Named("id", id);
    if event != "" {
      msg := msg + ("event" + ": " + event + "\n");
    }
    assert msg == Named("id", id) + Named("event", event);
    hide Named;
    msg := AppendDataLines(msg, data);
    msg := msg + "\n";
  }

  method Send(data: string) returns (msg: string)
    ensures msg == Format("", data, "")
  {
    hide DataLines;
    msg := AppendDataLines("", data);
    msg := msg + "\n";
  }

  function CommentText(text: string): string { ": " + text + "\n\n" }

  // ---------------------------------------------------------------------
  // Reading
  // ---------------------------------------------------------------------

  datatype Event = Event(kind: string, data: string, lastId: string)

  /** The reader's buffers and what it has dispatched. */
  datatype Reader = Reader(data: string, kind: string, lastId: string, events: seq<Event>)

  predicate Break(c: char) { c == '\n' || c == '\r' }

  function FindBreak(s: string): (i: nat)
    ensures i <= |s| && (i < |s| ==> Break(s[i]))
    ensures forall k | 0 <= k < i :: !Break(s[k])
  {
    if s == "" || Break(s[0]) then 0 else 1 + FindBreak(s[1..])
  }

  function TakeField(r: Reader, field: string, value: string): Reader {
    if field == "event" then r.(kind := value)
    else if field == "data" then r.(data := r.data + value + "\n")
    else if field == "id" && '\0' !in value then r.(lastId := value)
    else r
  }

  function Dispatch(r: Reader): Reader {
    if r.data == "" then r.(kind := "")
    else
      Reader("", "", r.lastId,
             r.events + [Event(if r.kind == "" then "message" else r.kind, r.data[..|r.data| - 1], r.lastId)])
  }

  function TakeLine(r: Reader, line: string): Reader {
    if line == "" then Dispatch(r)
    else
      var colon := Find(line, ':');
      if colon == 0 then r
      else if colon == |line| then TakeField(r, line, "")
      else
        var value := line[colon + 1..];
        TakeField(r, line[..colon], if value != "" && value[0] == ' ' then value[1..] else value)
  }

  /** Lines end at a line feed, a carriage return, or both; an unfinished line waits. */
  function Read(r: Reader, s: string): Reader
    decreases |s|
  {
    var i := FindBreak(s);
    if i == |s| then r
    else
      var rest := if s[i] == '\r' && i + 1 < |s| && s[i + 1] == '\n' then s[i + 2..] else s[i + 1..];
      Read(TakeLine(r, s[..i]), rest)
  }

  // ---------------------------------------------------------------------
  // A clean event is read back
  // ---------------------------------------------------------------------

  predicate OneLine(s: string) { '\n' !in s && '\r' !in s }

  lemma ReadLine(r: Reader, line: string, rest: string)
    requires OneLine(line)
    ensures Read(r, line + "\n" + rest) == Read(TakeLine(r, line), rest)
  {
    hide TakeLine;
    var s := line + "\n" + rest;
    assert s[|line|] == '\n';
    assert forall k | 0 <= k < |line| :: s[k] == line[k];
    assert FindBreak(s) == |line|;
    assert s[..|line|] == line && s[|line| + 1..] == rest;
  }

  lemma TakeNamed(r: Reader, field: string, value: string)
    requires ':' !in field && field != ""
    ensures TakeLine(r, field + ": " + value) == TakeField(r, field, value)
  {
    hide Find, TakeField;
    var line := field + ": " + value;
    assert line == field + [':'] + (" " + value);
    FindAfter(field, ':', " " + value);
    assert line[..|field|] == field && line[|field| + 1..] == " " + value;
    assert (" " + value)[1..] == value;
  }

  /** The payload from `start` on goes to the data buffer, each line closed. */
  lemma {:induction false} ReadDataLines(r: Reader, data: string, start: nat, rest: string)
    requires start <= |data| && '\r' !in data
    ensures Read(r, DataLines(data, start) + rest) == Read(r.(data := r.data + data[start..] + "\n"), rest)
    decreases |data| - start
  {
    hide Read, FindFrom, DataLine, DataLines;
    var nl := FindFrom(data, '\n', start);
    var line := data[start..nl];
    var more := if nl == |data| then "" else DataLines(data, nl + 1);
    var after := r.(data := r.data + line + "\n");
    DataLinesStep(data, start);
    ReadDataLine(r, line, more + rest);
    assert DataLines(data, start) + rest == DataLine(line) + (more + rest);
    if nl < |data| {
      ReadDataLines(after, data, nl + 1, rest);
      assert data[start..] == line + "\n" + data[nl + 1..];
      assert after.data + data[nl + 1..] + "\n" == r.data + data[start..] + "\n";
    } else {
      assert more + rest == rest && line == data[start..];
    }
  }

  lemma ReadDataLine(r: Reader, line: string, rest: string)
    requires OneLine(line)
    ensures Read(r, DataLine(line) + rest) == Read(r.(data := r.data + line + "\n"), rest)
  {
    hide Read, TakeLine;
    assert OneLine("data: " + line);
    assert "data" + ": " + line == "data: " + line;
    TakeNamed(r, "data", line);
    ReadLine(r, "data: " + line, rest);
  }

  lemma ReadNamed(r: Reader, field: string, value: string, rest: string)
    requires OneLine(value) && (field == "id" || field == "event")
    ensures Read(r, Named(field, value) + rest) == Read(if value == "" then r else TakeField(r, field, value), rest)
  {
    hide Read, TakeLine, TakeField;
    if value == "" {
      assert Named(field, value) + rest == rest;
    } else {
      TakeNamed(r, field, value);
      ReadLine(r, field + ": " + value, rest);
      assert Named(field, value) + rest == field + ": " + value + "\n" + rest;
    }
  }

  predicate CleanEvent(event: string, data: string, id: string) {
    OneLine(event) && '\r' !in data && OneLine(id) && '\0' !in id
  }

  function Dispatched(event: string, data: string, id: string, lastId: string): Event {
    Event(if event == "" then "message" else event, data, if id == "" then lastId else id)
  }

  /** One event's text dispatches that event and leaves the buffers empty. */
  lemma ReadEvent(r: Reader, event: string, data: string, id: string, rest: string)
    requires CleanEvent(event, data, id) && r.data == "" && r.kind == ""
    ensures var e := Dispatched(event, data, id, r.lastId);
            Read(r, Format(event, data, id) + rest) == Read(Reader("", "", e.lastId, r.events + [e]), rest)
  {
    hide Read, Named, DataLines;
    var r1 := if id == "" then r else r.(lastId := id);
    var r2 := r1.(kind := event);
    var r3 := r2.(data := data + "\n");
    var tail := "\n" + rest;
    var body := DataLines(data, 0) + tail;
    var named := Named("event", event) + body;
    assert Format(event, data, id) + rest == Named("id", id) + named;
    ReadNamed(r, "id", id, named);
    ReadNamed(r1, "event", event, body);
    ReadDataLines(r2, data, 0, tail);
    assert r2.data + data[0..] + "\n" == data + "\n";
    ReadLine(r3, "", rest);
    assert "" + "\n" + rest == tail;
    assert r3.data[..|r3.data| - 1] == data;
  }

  datatype Message = Message(event: string, data: string, id: string)

  function StreamText(ms: seq<Message>): string {
    if ms == [] then "" else Format(ms[0].event, ms[0].data, ms[0].id) + StreamText(ms[1..])
  }

  /** The events of a stream; one without an id keeps the last. */
  function EventsOf(ms: seq<Message>, lastId: string): seq<Event> {
    if ms == [] then []
    else
      var e := Dispatched(ms[0].event, ms[0].data, ms[0].id, lastId);
      [e] + EventsOf(ms[1..], e.lastId)
  }

  /** A stream of clean events is read back in order, each exactly once. */
  lemma {:induction false} StreamRoundTrip(r: Reader, ms: seq<Message>)
    requires r.data == "" && r.kind == ""
    requires forall i | 0 <= i < |ms| :: CleanEvent(ms[i].event, ms[i].data, ms[i].id)
    ensures Read(r, StreamText(ms)).events == r.events + EventsOf(ms, r.lastId)
    decreases |ms|
  {
    hide CleanEvent, Format;
    if ms != [] {
      var m := ms[0];
      assert CleanEvent(m.event, m.data, m.id);
      var e := Dispatched(m.event, m.data, m.id, r.lastId);
      ReadEvent(r, m.event, m.data, m.id, StreamText(ms[1..]));
      var next := Reader("", "", e.lastId, r.events + [e]);
      StreamRoundTrip(next, ms[1..]);
    }
  }

  /** A comment of one line says nothing. */
  lemma CommentIsSilent(r: Reader, text: string, rest: string)
    requires OneLine(text) && r.data == "" && r.kind == ""
    ensures Read(r, CommentText(text) + rest) == Read(r, rest)
  {
    hide Read;
    var line := ": " + text;
    assert CommentText(text) + rest == line + "\n" + ("\n" + rest);
    ReadLine(r, line, "\n" + rest);
    assert Find(line, ':') == 0;
    ReadLine(r, "", rest);
    assert "" + "\n" + rest == "\n" + rest;
  }

  // ---------------------------------------------------------------------
  // No other event is
  // ---------------------------------------------------------------------

  predicate CleanRead(e: Event) {
    OneLine(e.kind) && '\r' !in e.data && OneLine(e.lastId) && '\0' !in e.lastId
  }

  predicate CleanReader(r: Reader) {
    && '\r' !in r.data && OneLine(r.kind) && OneLine(r.lastId) && '\0' !in r.lastId
    && forall i | 0 <= i < |r.events| :: CleanRead(r.events[i])
  }

  lemma TakeFieldClean(r: Reader, field: string, value: string)
    requires CleanReader(r) && OneLine(value)
    ensures CleanReader(TakeField(r, field, value))
  {
  }

  lemma TakeLineClean(r: Reader, line: string)
    requires CleanReader(r) && OneLine(line)
    ensures CleanReader(TakeLine(r, line))
  {
    hide TakeField, Find;
    if line == "" {
      assert OneLine("message");
    } else {
      var colon := Find(line, ':');
      TakeFieldClean(r, line, "");
      if colon < |line| {
        var value := line[colon + 1..];
        TakeFieldClean(r, line[..colon], if value != "" && value[0] == ' ' then value[1..] else value);
      }
    }
  }

  /** Nothing a reader dispatches has line breaks where events have none. */
  lemma {:induction false} ReadClean(r: Reader, s: string)
    requires CleanReader(r)
    ensures CleanReader(Read(r, s))
    decreases |s|
  {
    hide TakeLine, CleanReader;
    var i := FindBreak(s);
    if i < |s| {
      var rest := if s[i] == '\r' && i + 1 < |s| && s[i + 1] == '\n' then s[i + 2..] else s[i + 1..];
      assert OneLine(s[..i]) by {
        assert forall k | 0 <= k < i :: s[..i][k] == s[k];
      }
      TakeLineClean(r, s[..i]);
      ReadClean(TakeLine(r, s[..i]), rest);
    }
  }

  /** An event comes through as it was sent exactly when it is clean. */
  lemma EventRoundTrip(event: string, data: string, id: string)
    ensures Read(Reader("", "", "", []), Format(event, data, id)).events == [Dispatched(event, data, id, "")]
            <==> CleanEvent(event, data, id)
  {
    hide Read, Format, CleanReader;
    var r := Reader("", "", "", []);
    var e := Dispatched(event, data, id, "");
    if CleanEvent(event, data, id) {
      ReadEvent(r, event, data, id, "");
      assert Format(event, data, id) + "" == Format(event, data, id);
      ReadNothing(Reader("", "", e.lastId, [e]));
      assert [] + [e] == [e];
    } else {
      FreshClean();
      ReadClean(r, Format(event, data, id));
      OnlyCleanRead(Read(r, Format(event, data, id)), e);
    }
  }

  /** A carriage return in the data ends a line for the reader: what follows it is lost. */
  lemma ReturnCutsData(a: string, b: string)
    requires OneLine(a) && OneLine(b) && ':' !in b && b !in {"", "event", "data", "id"}
    ensures Read(Reader("", "", "", []), Format("", a + "\r" + b, "")).events == [Event("message", a, "")]
  {
    hide Read, TakeLine, Format;
    var r := Reader("", "", "", []);
    var r1 := r.(data := a + "\n");
    ReturnText(a, b);
    assert "data" + ": " + a == "data: " + a;
    TakeNamed(r, "data", a);
    ReadReturn(r, "data: " + a, b + "\n" + "\n");
    WordIgnored(r1, b);
    ReadLine(r1, b, "\n");
    ReadBlank(r1);
    assert r1 == TakeField(r, "data", a);
    assert r1.data[..|r1.data| - 1] == a;
  }

  lemma ReturnText(a: string, b: string)
    requires OneLine(a) && OneLine(b)
    ensures Format("", a + "\r" + b, "") == "data: " + a + "\r" + (b + "\n" + "\n")
  {
    hide Format;
    FormatOneLine("", a + "\r" + b);
  }

  lemma ReadReturn(r: Reader, line: string, rest: string)
    requires OneLine(line) && rest != "" && rest[0] != '\n'
    ensures Read(r, line + "\r" + rest) == Read(TakeLine(r, line), rest)
  {
    hide TakeLine;
    var s := line + "\r" + rest;
    assert s[|line|] == '\r';
    assert forall k | 0 <= k < |line| :: s[k] == line[k];
    assert FindBreak(s) == |line|;
    assert s[|line| + 1] == rest[0];
    assert s[..|line|] == line && s[|line| + 1..] == rest;
  }

  lemma WordIgnored(r: Reader, word: string)
    requires ':' !in word && word !in {"", "event", "data", "id"}
    ensures TakeLine(r, word) == r
  {
    hide Find;
    assert Find(word, ':') == |word|;
  }

  /** The blank line that dispatches one buffered event. */
  lemma ReadBlank(r: Reader)
    ensures Read(r, "\n") == Dispatch(r)
  {
    hide Read, Dispatch;
    assert "" + "\n" + "" == "\n";
    ReadLine(r, "", "");
    ReadNothing(Dispatch(r));
  }

  /** A line feed in the name moves the rest of the name into a line of its own, data for instance. */
  lemma LineFeedLeavesName(kind: string, x: string, y: string)
    requires OneLine(kind) && kind != "" && OneLine(x) && OneLine(y)
    ensures Read(Reader("", "", "", []), Format(kind + "\ndata: " + x, y, "")).events == [Event(kind, x + "\n" + y, "")]
  {
    hide Read, DataLine, Format, Named;
    var r := Reader("", "", "", []);
    var r1 := r.(kind := kind);
    var r2 := r1.(data := "" + x + "\n");
    var r3 := r2.(data := r2.data + y + "\n");
    LineFeedText(kind, x, y);
    ReadNamed(r, "event", kind, DataLine(x) + (DataLine(y) + "\n"));
    ReadDataLine(r1, x, DataLine(y) + "\n");
    ReadDataLine(r2, y, "\n");
    ReadBlank(r3);
    assert r3.data[..|r3.data| - 1] == x + "\n" + y;
  }

  lemma LineFeedText(kind: string, x: string, y: string)
    requires kind != "" && '\n' !in y
    ensures Format(kind + "\ndata: " + x, y, "") == Named("event", kind) + (DataLine(x) + (DataLine(y) + "\n"))
  {
    hide *;
    NameSplits(kind, x);
    FormatOneLine(kind + "\ndata: " + x, y);
    Regroup(Named("event", kind), DataLine(x), DataLine(y));
  }

  lemma FormatOneLine(event: string, data: string)
    requires '\n' !in data
    ensures Format(event, data, "") == Named("event", event) + DataLine(data) + "\n"
  {
    hide FindFrom, DataLines, DataLine;
    assert data[0..] == data;
    assert FindFrom(data, '\n', 0) == |data|;
    DataLinesStep(data, 0);
    assert Named("id", "") == "";
    hide Named;
    assert "" + Named("event", event) == Named("event", event);
  }

  lemma Regroup(a: string, b: string, c: string)
    ensures a + b + c + "\n" == a + (b + (c + "\n"))
  {
  }

  lemma NameSplits(kind: string, x: string)
    requires kind != ""
    ensures Named("event", kind + "\ndata: " + x) == Named("event", kind) + DataLine(x)
  {
    var cut := "\ndata: ";
    assert cut == "\n" + "data: ";
    assert "event" + ": " + (kind + cut + x) + "\n" == "event" + ": " + kind + "\n" + ("data: " + x + "\n");
  }

  lemma ReadNothing(r: Reader)
    ensures Read(r, "") == r
  {
  }

  lemma FreshClean()
    ensures CleanReader(Reader("", "", "", []))
  {
  }

  lemma OnlyCleanRead(r: Reader, e: Event)
    requires CleanReader(r) && !CleanRead(e)
    ensures r.events != [e]
  {
    assert |r.events| > 0 ==> CleanRead(r.events[0]);
  }
}
