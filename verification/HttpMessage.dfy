// A request message as text: request line, header lines, blank line, sized
// body.  The parser reads back exactly the message, whatever its clean fields.
module HttpMessage {
  import opened Common
  import opened Splitting
  import opened Text
  import opened Http
  import opened HttpParser

  /** A message as its sender sees it; header names may repeat. */
  datatype Message = Message(verb: Method, target: string, version: string, fields: seq<Field>, body: string)

  function RenderField(f: Field): string { f.name + ": " + f.value + "\r\n" }

  function Render(fs: seq<Field>): string {
    if fs == [] then "" else RenderField(fs[0]) + Render(fs[1..])
  }

  lemma {:induction false} RenderAppend(a: seq<Field>, b: seq<Field>)
    ensures Render(a + b) == Render(a) + Render(b)
  {
    if a == [] {
      assert a + b == b;
    } else {
      assert (a + b)[1..] == a[1..] + b;
      RenderAppend(a[1..], b);
    }
  }

  function LineText(verb: Method, target: string, version: string): string {
    MethodName(verb) + " " + target + " " + version
  }

  function Head(m: Message): string {
    LineText(m.verb, m.target, m.version) + "\r\n" + Render(m.fields) + "\r\n"
  }

  function MessageText(m: Message): string { Head(m) + m.body }

  predicate CleanName(name: string) {
    && name != "" && ':' !in name && '\n' !in name
    && !IsBlank(name[|name| - 1])
  }

  predicate CleanValue(value: string) { '\n' !in value && Trimmed(value) }

  predicate CleanField(f: Field) { CleanName(f.name) && CleanValue(f.value) }

  predicate CleanTarget(target: string) { target != "" && ' ' !in target && '\n' !in target }

  predicate KnownVersion(version: string) { version == "HTTP/1.1" || version == "HTTP/1.0" }

  /** The header map that the lines add up to; a repeated name is joined. */
  function AddAll(h: HeaderMap, fs: seq<Field>): HeaderMap
    decreases fs
  {
    if fs == [] then h else AddAll(AddField(h, fs[0].name, fs[0].value), fs[1..])
  }

  /** The headers announce exactly the body. */
  predicate Framed(m: Message) {
    var h := AddAll(map[], m.fields);
    && Lookup(h, "Transfer-Encoding").None?
    && Lookup(h, "Content-Length") == if m.body == "" then None else Some(Print(|m.body|, 10))
  }

  /** No separators inside the parts, and a framing that fits. */
  predicate CleanMessage(m: Message) {
    && RealMethod(m.verb) && CleanTarget(m.target) && KnownVersion(m.version)
    && (forall i | 0 <= i < |m.fields| :: CleanField(m.fields[i]))
    && Framed(m)
    && |m.body| < TWO63
  }

  predicate MessageFits(m: Message, lim: Limits) {
    && (lim.maxHeader == 0 || |Head(m)| <= lim.maxHeader)
    && (lim.maxBody == 0 || |m.body| <= lim.maxBody)
  }

  /** The request line the parser should recover. */
  function ParsedLine(verb: Method, target: string, version: string): RequestLine {
    var q := Find(target, '?');
    RequestLine(verb, target, target[..q], if q == |target| then "" else target[q + 1..], version)
  }

  // ---- the request line ----

  lemma StartLineText(s: State, verb: Method, target: string, version: string)
    requires RealMethod(verb) && CleanTarget(target) && KnownVersion(version)
    ensures TakeStartLine(s, LineText(verb, target, version)) == s.(req := ParsedLine(verb, target, version), phase := Headers)
  {
    hide MethodFromString, MethodName, FindFrom, Find;
    var m, line := MethodName(verb), LineText(verb, target, version);
    MethodRoundTrip(verb);
    NameHasNoSpace(verb);
    FirstSpace(m, target, version);
    SecondSpace(m, target, version);
    assert line == m + [' '] + target + [' '] + version == m + [' '] + target + ([' '] + version);
    var p1, p2 := |m|, |m| + 1 + |target|;
    assert line[..p1] == m && line[p1 + 1..p2] == target && line[p2 + 1..] == version;
  }

  lemma FirstSpace(m: string, t: string, v: string)
    requires ' ' !in m
    ensures Find(m + [' '] + t + [' '] + v, ' ') == |m|
  {
    hide *;
    FindAfter(m, ' ', t + [' '] + v);
    assert m + [' '] + t + [' '] + v == m + [' '] + (t + [' '] + v);
  }

  lemma SecondSpace(m: string, t: string, v: string)
    requires ' ' !in t
    ensures FindFrom(m + [' '] + t + ([' '] + v), ' ', |m| + 1) == |m| + 1 + |t|
  {
    hide *;
    FindPast(m + [' '], t, [' '] + v, ' ');
  }

  lemma NameHasNoSpace(m: Method)
    requires RealMethod(m)
    ensures ' ' !in MethodName(m) && '\n' !in MethodName(m) && MethodName(m) != ""
  {
  }

  lemma StartLineParses(verb: Method, target: string, version: string, lim: Limits)
    requires RealMethod(verb) && CleanTarget(target) && KnownVersion(version)
    requires lim.maxHeader == 0 || |LineText(verb, target, version)| + 2 <= lim.maxHeader
    ensures var line := LineText(verb, target, version);
            Run(Fresh(), line + "\r\n", lim) ==
            Fresh().(req := ParsedLine(verb, target, version), phase := Headers, headerBytes := |line| + 2)
  {
    hide TakeStartLine, ParsedLine, MethodName;
    var line := LineText(verb, target, version);
    var text := line + "\r";
    NameHasNoSpace(verb);
    assert '\n' !in text;
    LineParses(Fresh(), text, lim);
    assert line + "\r\n" == text + ['\n'];
    assert ChopCR(text) == line;
    StartLineText(Fresh().(headerBytes := |text| + 1), verb, target, version);
  }

  /** A whole head line, LF included. */
  lemma LineParses(s: State, text: string, lim: Limits)
    requires s.phase == StartLine || s.phase == Headers
    requires s.line == "" && '\n' !in text
    requires lim.maxHeader == 0 || s.headerBytes + |text| + 1 <= lim.maxHeader
    ensures var s1 := s.(headerBytes := s.headerBytes + |text| + 1);
            Run(s, text + ['\n'], lim) ==
            if s.phase == StartLine
            then if ChopCR(text) == "" then s1 else TakeStartLine(s1, ChopCR(text))
            else if ChopCR(text) == "" then EndHeaders(s1, lim) else TakeHeaderLine(s1, ChopCR(text))
    ensures Run(s, text, lim) == s.(line := text, headerBytes := s.headerBytes + |text|)
  {
    hide Run, Step, TakeStartLine, TakeHeaderLine, EndHeaders, ChopCR;
    RunHeadLine(s, text, lim);
    var t := Run(s, text, lim);
    assert s.line + text == text;
    RunAppend(s, text, ['\n'], lim);
    OneByte(t, '\n', lim);
    LineEnds(t, lim);
    assert t.(line := "", headerBytes := t.headerBytes + 1) == s.(headerBytes := s.headerBytes + |text| + 1);
  }

  lemma LineEnds(s: State, lim: Limits)
    requires s.phase == StartLine || s.phase == Headers
    requires lim.maxHeader == 0 || s.headerBytes + 1 <= lim.maxHeader
    ensures var s1 := s.(line := "", headerBytes := s.headerBytes + 1);
            Step(s, '\n', lim) ==
            if s.phase == StartLine
            then if ChopCR(s.line) == "" then s1 else TakeStartLine(s1, ChopCR(s.line))
            else if ChopCR(s.line) == "" then EndHeaders(s1, lim) else TakeHeaderLine(s1, ChopCR(s.line))
  {
    hide TakeStartLine, TakeHeaderLine, EndHeaders, ChopCR;
  }

  // ---- header lines ----

  lemma NameTrimmed(f: Field)
    requires CleanField(f)
    ensures TrimRight(f.name) == f.name
  {
    hide TrimLeft, Trimmed;
    TrimRightKeeps(f.name);
  }

  lemma ValueTrimmed(f: Field)
    requires CleanField(f)
    ensures Trim(" " + f.value) == f.value
  {
    hide TrimLeft, TrimRight;
    TrimKeeps(f.value);
  }

  lemma FieldText(s: State, f: Field)
    requires CleanField(f)
    ensures TakeHeaderLine(s, f.name + ": " + f.value) == s.(headers := AddField(s.headers, f.name, f.value))
  {
    NameTrimmed(f);
    ValueTrimmed(f);
    hide AddField, Find, Trim, TrimRight, CleanValue, IsBlank;
    var line := f.name + ": " + f.value;
    FieldParts(f.name, f.value);
  }

  /** Where the colon of a header line is, and what lies on either side. */
  lemma FieldParts(name: string, val: string)
    requires ':' !in name
    ensures var line := name + ": " + val;
            Find(line, ':') == |name| && line[..|name|] == name && line[|name| + 1..] == " " + val
  {
    hide Find;
    var line := name + ": " + val;
    assert line == name + [':'] + (" " + val);
    FindAfter(name, ':', " " + val);
  }

  lemma FieldParses(s: State, f: Field, lim: Limits)
    requires s.phase == Headers && s.line == "" && CleanField(f)
    requires lim.maxHeader == 0 || s.headerBytes + |RenderField(f)| <= lim.maxHeader
    ensures Run(s, RenderField(f), lim) ==
            s.(headers := AddField(s.headers, f.name, f.value), headerBytes := s.headerBytes + |RenderField(f)|)
  {
    hide AddField, TakeHeaderLine;
    var text := f.name + ": " + f.value + "\r";
    assert RenderField(f) == text + ['\n'];
    LineParses(s, text, lim);
    assert ChopCR(text) == f.name + ": " + f.value;
    FieldText(s.(headerBytes := s.headerBytes + |text| + 1), f);
  }

  /** A block of clean header lines, in one go. */
  lemma {:induction false} FieldsParse(s: State, fs: seq<Field>, lim: Limits)
    requires s.phase == Headers && s.line == ""
    requires forall i | 0 <= i < |fs| :: CleanField(fs[i])
    requires lim.maxHeader == 0 || s.headerBytes + |Render(fs)| <= lim.maxHeader
    ensures Run(s, Render(fs), lim) ==
            s.(headers := AddAll(s.headers, fs), headerBytes := s.headerBytes + |Render(fs)|)
    decreases fs
  {
    hide RenderField, CleanField, AddField;
    if fs != [] {
      FieldParses(s, fs[0], lim);
      var t := Run(s, RenderField(fs[0]), lim);
      RunAppend(s, RenderField(fs[0]), Render(fs[1..]), lim);
      FieldsParse(t, fs[1..], lim);
    }
  }

  // ---- the whole message ----

  lemma LengthRoundTrip(n: nat)
    requires n < TWO63
    ensures LengthOf(Print(n, 10)) == Some(n)
  {
    hide Print, Scan;
    ScanPrinted(n, 10);
  }

  /** The state when all header lines are in. */
  function Headed(m: Message): State {
    Fresh().(req := ParsedLine(m.verb, m.target, m.version), phase := Headers, headers := AddAll(map[], m.fields),
             headerBytes := |Head(m)| - 2)
  }

  lemma HeadParses(m: Message, lim: Limits)
    requires RealMethod(m.verb) && CleanTarget(m.target) && KnownVersion(m.version)
    requires forall i | 0 <= i < |m.fields| :: CleanField(m.fields[i])
    requires lim.maxHeader == 0 || |Head(m)| <= lim.maxHeader
    ensures Run(Fresh(), LineText(m.verb, m.target, m.version) + "\r\n" + Render(m.fields), lim) == Headed(m)
  {
    hide ParsedLine, Render, AddAll, LineText, CleanField, Run, Step;
    var line := LineText(m.verb, m.target, m.version) + "\r\n";
    StartLineParses(m.verb, m.target, m.version, lim);
    RunAppend(Fresh(), line, Render(m.fields), lim);
    FieldsParse(Run(Fresh(), line, lim), m.fields, lim);
  }

  /** The blank line ends the head: complete, or waiting for exactly the body. */
  lemma EndOfHead(m: Message, lim: Limits)
    requires CleanMessage(m) && MessageFits(m, lim)
    ensures var s := Headed(m).(headerBytes := |Head(m)|);
            EndHeaders(s, lim) ==
            if m.body == "" then s.(phase := Complete)
            else s.(contentLength := |m.body|, phase := Body)
  {
    hide ParsedLine, AddAll, LengthOf, Lookup, Head, Print, MentionsChunked;
    LengthRoundTrip(|m.body|);
  }

  /** What the parser holds once the message is in. */
  function ParsedMessage(m: Message): State {
    var s := Headed(m).(headerBytes := |Head(m)|, phase := Complete);
    if m.body == "" then s
    else s.(contentLength := |m.body|, bodyReceived := |m.body|, body := m.body, view := m.body)
  }

  /** Up to and including the blank line, whatever the framing. */
  lemma HeadRuns(m: Message, lim: Limits)
    requires RealMethod(m.verb) && CleanTarget(m.target) && KnownVersion(m.version)
    requires forall i | 0 <= i < |m.fields| :: CleanField(m.fields[i])
    requires lim.maxHeader == 0 || |Head(m)| <= lim.maxHeader
    ensures Run(Fresh(), Head(m), lim) == EndHeaders(Headed(m).(headerBytes := |Head(m)|), lim)
    ensures Used(Fresh(), Head(m), lim) == |Head(m)|
  {
    hide Headed, EndHeaders, Step, Run, Used, TakeHeaderLine, TakeStartLine, CleanField, LineText, Render;
    var a := LineText(m.verb, m.target, m.version) + "\r\n" + Render(m.fields);
    HeadParses(m, lim);
    var s := Headed(m);
    HeadedFacts(m);
    LineParses(s, "\r", lim);
    RunAppend(Fresh(), a, "\r", lim);
    RunAppend(Fresh(), a, "\r" + ['\n'], lim);
    assert Head(m) == a + ("\r" + ['\n']) == (a + "\r") + ['\n'];
    ExactlyUsed(Fresh(), a + "\r", '\n', lim);
  }

  lemma BodyRuns(m: Message, s: State, lim: Limits)
    requires m.body != "" && s.phase == Body && s.contentLength == |m.body|
    requires s.bodyReceived == 0 && s.body == ""
    requires Run(Fresh(), Head(m), lim) == s
    ensures Run(Fresh(), MessageText(m), lim) ==
            s.(bodyReceived := |m.body|, body := m.body, view := m.body, phase := Complete)
    ensures Used(Fresh(), MessageText(m), lim) == |MessageText(m)|
  {
    hide Step, Head, Fresh, Run, Used;
    var b, n := m.body, |m.body|;
    RunAppend(Fresh(), Head(m), b, lim);
    RunBody(s, b, lim);
    assert "" + b == b;
    RunBody(s, b[..n - 1], lim);
    RunAppend(Fresh(), Head(m), b[..n - 1], lim);
    assert MessageText(m) == (Head(m) + b[..n - 1]) + [b[n - 1]];
    ExactlyUsed(Fresh(), Head(m) + b[..n - 1], b[n - 1], lim);
  }

  /** The parser takes the message whole and ends in the one state the message determines. */
  lemma MessageRuns(m: Message, lim: Limits)
    requires CleanMessage(m) && MessageFits(m, lim)
    ensures Run(Fresh(), MessageText(m), lim) == ParsedMessage(m)
    ensures Used(Fresh(), MessageText(m), lim) == |MessageText(m)|
  {
    hide Headed, EndHeaders, Run, Used, Head, CleanField, Framed;
    HeadRuns(m, lim);
    HeadedFacts(m);
    EndOfHead(m, lim);
    if m.body == "" {
      assert MessageText(m) == Head(m);
    } else {
      BodyRuns(m, Run(Fresh(), Head(m), lim), lim);
    }
  }

  lemma HeadedFacts(m: Message)
    ensures var s := Headed(m);
            && s.phase == Headers && s.line == "" && s.body == "" && s.view == ""
            && s.bodyReceived == 0 && s.contentLength == 0 && s.headerBytes == |Head(m)| - 2
  {
    hide ParsedLine, AddAll, LineText, Render;
  }

  /** A message still open before its last byte uses that byte too. */
  lemma ExactlyUsed(s: State, d: string, c: char, lim: Limits)
    requires !Terminal(Run(s, d, lim))
    ensures Used(s, d + [c], lim) == |d| + 1
  {
    hide Step;
    UsedEnds(s, d, lim);
    UsedAppend(s, d, [c], lim);
  }

  /** The message comes back: line, body, and the headers its lines add up to. */
  lemma MessageRoundTrip(m: Message, lim: Limits)
    requires CleanMessage(m) && MessageFits(m, lim)
    ensures var s := Run(Fresh(), MessageText(m), lim);
            && s.phase == Complete
            && Used(Fresh(), MessageText(m), lim) == |MessageText(m)|
            && s.req.verb == m.verb && s.req.target == m.target && s.req.version == m.version
            && s.body == m.body && s.view == m.body && s.headers == AddAll(map[], m.fields)
  {
    hide AddAll, MessageText, Run, Used, CleanMessage, MessageFits, Head;
    MessageRuns(m, lim);
  }
}
