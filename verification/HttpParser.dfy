// The incremental HTTP/1.1 request parser: a class whose phases consume
// slices of input, refined against a function that takes one byte at a time.
module HttpParser {
  import opened Common
  import opened Text
  import opened Http

  datatype Phase =
    | StartLine | Headers | Body
    | ChunkSize | ChunkData | ChunkDataEnd | ChunkTrailer
    | Complete | Error

  /** A cap of zero means "no cap". */
  datatype Limits = Limits(maxHeader: nat, maxBody: nat)

  /** The request line as parsed so far. */
  datatype RequestLine = RequestLine(verb: Method, target: string, path: string, query: string, version: string)

  /** Why parsing failed: the message and the HTTP status to answer with. */
  datatype Diagnosis = Diagnosis(message: string, status: nat)

  const NO_LINE: RequestLine := RequestLine(UNKNOWN, "", "", "", "")
  const NO_ERROR: Diagnosis := Diagnosis("", 400)

  /** The parser's fields as a value. */
  datatype State = State(
    phase: Phase,
    line: string,
    req: RequestLine,
    headers: HeaderMap,
    chunked: bool,
    contentLength: nat,
    bodyReceived: nat,
    chunkRemaining: nat,
    body: string,
    view: string,
    err: Diagnosis,
    headerBytes: nat)

  const MAX_SIZE_LINE: nat := 128
  const MAX_TRAILER: nat := 8 * 1024

  function Fresh(): State {
    State(StartLine, "", NO_LINE, map[], false, 0, 0, 0, "", "", NO_ERROR, 0)
  }

  predicate Terminal(s: State) { s.phase == Complete || s.phase == Error }

  function Fail(s: State, message: string, status: nat): State {
    s.(phase := Error, err := Diagnosis(message, status))
  }

  function ChopCR(line: string): string {
    if line != "" && line[|line| - 1] == '\r' then line[..|line| - 1] else line
  }

  // ---------------------------------------------------------------------
  // One byte at a time
  // ---------------------------------------------------------------------

  /** A complete, non-empty request line. */
  function TakeStartLine(s: State, line: string): State {
    var p1 := Find(line, ' ');
    var p2 := if p1 == |line| then |line| else FindFrom(line, ' ', p1 + 1);
    if p2 == |line| then Fail(s, "Malformed start-line", 400)
    else TakeRequestLine(s, MethodFromString(line[..p1]), line[p1 + 1..p2], line[p2 + 1..])
  }

  /** The three words of a request line. */
  function TakeRequestLine(s: State, m: Method, target: string, version: string): State {
    if m == UNKNOWN then Fail(s.(req := s.req.(verb := m)), "Unknown HTTP method", 501)
    else if target == "" then Fail(s.(req := s.req.(verb := m)), "Empty request-target", 400)
    else if version != "HTTP/1.1" && version != "HTTP/1.0" then
      Fail(s.(req := s.req.(verb := m)), "Unsupported HTTP version", 505)
    else
      var q := Find(target, '?');
      var query := if q == |target| then "" else target[q + 1..];
      s.(req := RequestLine(m, target, target[..q], query, version), phase := Headers)
  }

  /** A complete, non-empty header line. */
  function TakeHeaderLine(s: State, line: string): State {
    var colon := Find(line, ':');
    if colon == |line| then Fail(s, "Header missing ':'", 400)
    else
      var key := TrimRight(line[..colon]);
      var value := Trim(line[colon + 1..]);
      if key == "" then Fail(s, "Empty header name", 400)
      else s.(headers := AddField(s.headers, key, value))
  }

  /** The number strtoll reads from a Content-Length value, when it is accepted. */
  function LengthOf(value: string): Option<nat> {
    var sc := Scan(value, 10);
    if !sc.any || !StopsAtEnd(value, sc) || (sc.neg && sc.magnitude > 0) || sc.magnitude >= TWO63
    then None else Some(sc.magnitude)
  }

  /** The number strtoull reads from a chunk-size line, when it is accepted. */
  function ChunkLengthOf(line: string): Option<nat> {
    var sc := Scan(line, 16);
    if !sc.any || !StopsAtEnd(line, sc) || sc.magnitude >= TWO64 then None
    else Some(if sc.neg then (TWO64 - sc.magnitude) % TWO64 else sc.magnitude)
  }

  /** `low.find("chunked") != npos` */
  predicate MentionsChunked(value: string) {
    var low := Lower(value);
    FindSub(low, "chunked", 0) < |low|
  }

  /** The blank line after the headers. */
  function EndHeaders(s: State, lim: Limits): State {
    var te := Lookup(s.headers, "Transfer-Encoding");
    if te.Some? && !MentionsChunked(te.value) then Fail(s, "Unsupported Transfer-Encoding", 501)
    else
      var s1 := s.(chunked := s.chunked || te.Some?);
      var cl := Lookup(s.headers, "Content-Length");
      if cl.Some? && s1.chunked then Fail(s1, "Both Content-Length and chunked", 400)
      else if cl.Some? && LengthOf(cl.value).None? then Fail(s1, "Invalid Content-Length", 400)
      else
        var s2 := if cl.Some? then s1.(contentLength := LengthOf(cl.value).value) else s1;
        if cl.Some? && lim.maxBody != 0 && s2.contentLength > lim.maxBody then Fail(s2, "Body too large", 413)
        else if s2.chunked then s2.(phase := ChunkSize)
        else if s2.contentLength > 0 then s2.(phase := Body)
        else s2.(view := s2.body, phase := Complete)
  }

  /** `body_storage_.size() + n` in 64-bit arithmetic against the cap. */
  predicate BodyFits(s: State, n: nat, lim: Limits) {
    lim.maxBody == 0 || (|s.body| + n) % TWO64 <= lim.maxBody
  }

  function WithoutExtension(line: string): string {
    line[..Find(line, ';')]
  }

  /** A complete chunk-size line. */
  function TakeSizeLine(s: State, line: string, lim: Limits): State {
    var size := WithoutExtension(line);
    if size == "" then Fail(s, "Missing chunk size", 400)
    else match ChunkLengthOf(size)
      case None => Fail(s, "Invalid chunk size", 400)
      case Some(v) =>
        if !BodyFits(s, v, lim) then Fail(s, "Body too large", 413)
        else s.(chunkRemaining := v, phase := if v == 0 then ChunkTrailer else ChunkData)
  }

  /** The blank line after the trailers. */
  function EndTrailers(s: State): State {
    s.(contentLength := |s.body|, view := s.body, phase := Complete)
  }

  predicate HeaderOverflow(s: State, lim: Limits) {
    lim.maxHeader != 0 && s.headerBytes > lim.maxHeader
  }

  function StepStartLine(s: State, c: char, lim: Limits): State {
    var s1 := s.(headerBytes := s.headerBytes + 1);
    if HeaderOverflow(s1, lim) then Fail(s1, "Header section too large", 431)
    else if c != '\n' then s1.(line := s1.line + [c])
    else
      var line, s2 := ChopCR(s.line), s1.(line := "");
      if line == "" then s2 else TakeStartLine(s2, line)
  }

  function StepHeaders(s: State, c: char, lim: Limits): State {
    var s1 := s.(headerBytes := s.headerBytes + 1);
    if HeaderOverflow(s1, lim) then Fail(s1, "Header section too large", 431)
    else if c != '\n' then s1.(line := s1.line + [c])
    else
      var line, s2 := ChopCR(s.line), s1.(line := "");
      if line == "" then EndHeaders(s2, lim) else TakeHeaderLine(s2, line)
  }

  function StepBody(s: State, c: char): State {
    var s1 := s.(body := s.body + [c], bodyReceived := s.bodyReceived + 1);
    if s1.bodyReceived == s1.contentLength then s1.(view := s1.body, phase := Complete) else s1
  }

  function StepSize(s: State, c: char, lim: Limits): State {
    if c != '\n' then
      if |s.line| > MAX_SIZE_LINE then Fail(s, "Chunk size line too long", 400)
      else s.(line := s.line + [c])
    else TakeSizeLine(s.(line := ""), ChopCR(s.line), lim)
  }

  function StepData(s: State, c: char): State {
    if s.chunkRemaining == 0 then s
    else
      var s1 := s.(body := s.body + [c], chunkRemaining := s.chunkRemaining - 1);
      if s1.chunkRemaining == 0 then s1.(phase := ChunkDataEnd) else s1
  }

  function StepDataEnd(s: State, c: char): State {
    if c == '\r' then s
    else if c == '\n' then s.(phase := ChunkSize)
    else Fail(s, "Malformed chunk terminator", 400)
  }

  function StepTrailer(s: State, c: char): State {
    if c != '\n' then
      if |s.line| > MAX_TRAILER then Fail(s, "Trailer too long", 400)
      else s.(line := s.line + [c])
    else
      var s1 := s.(line := "");
      if ChopCR(s.line) == "" then EndTrailers(s1) else s1
  }

  function Step(s: State, c: char, lim: Limits): State {
    match s.phase
    case StartLine => StepStartLine(s, c, lim)
    case Headers => StepHeaders(s, c, lim)
    case Body => StepBody(s, c)
    case ChunkSize => StepSize(s, c, lim)
    case ChunkData => StepData(s, c)
    case ChunkDataEnd => StepDataEnd(s, c)
    case ChunkTrailer => StepTrailer(s, c)
    case Complete => s
    case Error => s
  }

  /** The state after all of `data`; bytes past the end of the message are ignored. */
  function Run(s: State, data: string, lim: Limits): State
    decreases data
  {
    if data == "" then s else Run(Step(s, data[0], lim), data[1..], lim)
  }

  /** How many bytes of `data` belong to the message. */
  function Used(s: State, data: string, lim: Limits): (n: nat)
    ensures n <= |data|
    decreases data
  {
    if data == "" || Terminal(s) then 0 else 1 + Used(Step(s, data[0], lim), data[1..], lim)
  }

  // ---------------------------------------------------------------------
  // Cuts do not matter
  // ---------------------------------------------------------------------

  lemma {:induction false} RunTerminal(s: State, data: string, lim: Limits)
    requires Terminal(s)
    ensures Run(s, data, lim) == s
  {
    if data != "" {
      RunTerminal(s, data[1..], lim);
    }
  }

  /** Feeding a stream in two pieces is feeding it whole. */
  lemma {:induction false} RunAppend(s: State, a: string, b: string, lim: Limits)
    ensures Run(s, a + b, lim) == Run(Run(s, a, lim), b, lim)
    decreases a
  {
    if a == "" {
      assert a + b == b;
    } else {
      assert (a + b)[1..] == a[1..] + b;
      RunAppend(Step(s, a[0], lim), a[1..], b, lim);
    }
  }

  lemma OneByte(s: State, c: char, lim: Limits)
    ensures Run(s, [c], lim) == Step(s, c, lim)
    ensures Used(s, [c], lim) == if Terminal(s) then 0 else 1
  {
    hide Step;
    assert [c][1..] == "";
  }

  lemma RunSnoc(s: State, data: string, i: nat, lim: Limits)
    requires i < |data|
    ensures Run(s, data[..i + 1], lim) == Step(Run(s, data[..i], lim), data[i], lim)
  {
    hide *;
    assert data[..i + 1] == data[..i] + [data[i]];
    RunAppend(s, data[..i], [data[i]], lim);
    OneByte(Run(s, data[..i], lim), data[i], lim);
  }

  /** The bytes a cut stream uses: the second piece only counts if the first left the message open. */
  lemma {:induction false} UsedAppend(s: State, a: string, b: string, lim: Limits)
    ensures Used(s, a + b, lim) ==
            if Terminal(Run(s, a, lim)) then Used(s, a, lim)
            else |a| + Used(Run(s, a, lim), b, lim)
    decreases a
  {
    if a == "" {
      assert a + b == b;
    } else if Terminal(s) {
      RunTerminal(s, a, lim);
    } else {
      assert (a + b)[1..] == a[1..] + b;
      UsedAppend(Step(s, a[0], lim), a[1..], b, lim);
    }
  }

  /** Unless the message ended, every byte was used; a message that ended used only its own bytes. */
  lemma {:induction false} UsedEnds(s: State, data: string, lim: Limits)
    ensures !Terminal(Run(s, data, lim)) ==> Used(s, data, lim) == |data|
    ensures Run(s, data[..Used(s, data, lim)], lim) == Run(s, data, lim)
    decreases data
  {
    hide Step;
    if data != "" {
      if Terminal(s) {
        RunTerminal(s, data, lim);
      } else {
        UsedEnds(Step(s, data[0], lim), data[1..], lim);
        var n := Used(s, data, lim);
        assert data[..n][1..] == data[1..][..n - 1];
      }
    }
  }

  // ---------------------------------------------------------------------
  // What every state keeps
  // ---------------------------------------------------------------------

  /** How the counters and the body hang together in each phase. */
  ghost predicate Shape(s: State) {
    && s.chunkRemaining < TWO64
    && (s.phase != ChunkData && s.phase != Error ==> s.chunkRemaining == 0)
    && match s.phase
       case Error => true
       case StartLine => s.body == "" && s.bodyReceived == 0 && s.contentLength == 0 && !s.chunked
       case Headers => s.body == "" && s.bodyReceived == 0 && s.contentLength == 0 && !s.chunked
       case Body => !s.chunked && |s.body| == s.bodyReceived < s.contentLength
       case ChunkSize => s.chunked
       case ChunkData => s.chunked && s.chunkRemaining > 0
       case ChunkDataEnd => s.chunked
       case ChunkTrailer => s.chunked
       case Complete =>
         && s.view == s.body
         && |s.body| == s.contentLength
         && (!s.chunked ==> s.bodyReceived == s.contentLength)
  }

  lemma StartLineKeepsShape(s: State, c: char, lim: Limits)
    requires Shape(s) && s.phase == StartLine
    ensures Shape(StepStartLine(s, c, lim))
  {
    hide MethodFromString, Find, FindFrom, ChopCR, TakeRequestLine;
    forall m, target, version, t | Shape(t) && t.phase == StartLine
      ensures Shape(TakeRequestLine(t, m, target, version))
    {
      RequestLineKeepsShape(t, m, target, version);
    }
  }

  lemma RequestLineKeepsShape(s: State, m: Method, target: string, version: string)
    requires Shape(s) && s.phase == StartLine
    ensures Shape(TakeRequestLine(s, m, target, version))
  {
    hide Find;
  }

  lemma EndHeadersKeepsShape(s: State, lim: Limits)
    requires Shape(s) && s.phase == Headers
    ensures Shape(EndHeaders(s, lim))
  {
    hide LengthOf, MentionsChunked, Lookup;
  }

  lemma HeadersKeepShape(s: State, c: char, lim: Limits)
    requires Shape(s) && s.phase == Headers
    ensures Shape(StepHeaders(s, c, lim))
  {
    hide EndHeaders, TakeHeaderLine, ChopCR;
    var s1 := s.(headerBytes := s.headerBytes + 1, line := "");
    EndHeadersKeepsShape(s1, lim);
    HeaderLineKeepsShape(s1, ChopCR(s.line));
  }

  lemma HeaderLineKeepsShape(s: State, line: string)
    requires Shape(s) && s.phase == Headers
    ensures Shape(TakeHeaderLine(s, line))
  {
    hide Find, Trim, TrimRight, AddField;
  }

  lemma SizeKeepsShape(s: State, c: char, lim: Limits)
    requires Shape(s) && s.phase == ChunkSize
    ensures Shape(StepSize(s, c, lim))
  {
  }

  lemma StepKeepsShape(s: State, c: char, lim: Limits)
    requires Shape(s)
    ensures Shape(Step(s, c, lim))
  {
    hide StepStartLine, StepHeaders, StepSize;
    match s.phase
    case StartLine => StartLineKeepsShape(s, c, lim);
    case Headers => HeadersKeepShape(s, c, lim);
    case ChunkSize => SizeKeepsShape(s, c, lim);
    case _ =>
  }

  lemma {:induction false} RunKeepsShape(s: State, data: string, lim: Limits)
    requires Shape(s)
    ensures Shape(Run(s, data, lim))
    decreases data
  {
    if data != "" {
      StepKeepsShape(s, data[0], lim);
      RunKeepsShape(Step(s, data[0], lim), data[1..], lim);
    }
  }

  /** The caps hold: header bytes, and body bytes received or still announced. */
  ghost predicate Capped(s: State, lim: Limits) {
    s.phase != Error ==>
      && (lim.maxHeader != 0 ==> s.headerBytes <= lim.maxHeader)
      && (lim.maxBody != 0 ==>
            if s.chunked then |s.body| + s.chunkRemaining <= lim.maxBody else s.contentLength <= lim.maxBody)
  }

  /** The announced size plus the body received is beyond 64 bits. */
  ghost predicate SumWraps(s: State, line: string) {
    var size := ChunkLengthOf(WithoutExtension(line));
    size.Some? && |s.body| + size.value >= TWO64
  }

  /** Exactly when an accepted chunk-size line breaks the body cap. */
  lemma CapBreaksOnlyByWrapping(s: State, line: string, lim: Limits)
    requires Shape(s) && s.phase == ChunkSize && Capped(s, lim) && 0 < lim.maxBody < TWO64
    requires TakeSizeLine(s, line, lim).phase != Error
    ensures Capped(TakeSizeLine(s, line, lim), lim) <==> !SumWraps(s, line)
  {
    hide ChunkLengthOf, WithoutExtension;
    var v := ChunkLengthOf(WithoutExtension(line)).value;
    if |s.body| + v >= TWO64 {
      assert lim.maxBody < |s.body| + v;
    } else {
      assert (|s.body| + v) % TWO64 == |s.body| + v;
    }
  }

  /** The same for any size line, refused ones included. */
  lemma SizeLineCaps(s: State, line: string, lim: Limits)
    requires Shape(s) && s.phase == ChunkSize && Capped(s, lim) && lim.maxBody < TWO64
    ensures Capped(TakeSizeLine(s, line, lim), lim) <==>
            !(lim.maxBody != 0 && SumWraps(s, line) && BodyFits(s, ChunkLengthOf(WithoutExtension(line)).value, lim))
  {
    hide ChunkLengthOf, WithoutExtension;
    NothingIsNoLength();
    if lim.maxBody != 0 && TakeSizeLine(s, line, lim).phase != Error {
      CapBreaksOnlyByWrapping(s, line, lim);
    }
  }

  lemma NothingIsNoLength()
    ensures ChunkLengthOf("") == None
  {
  }

  /** Byte `c` completes a chunk-size line whose sum wraps and is let through. */
  ghost predicate StepWraps(s: State, c: char, lim: Limits) {
    && s.phase == ChunkSize && c == '\n' && lim.maxBody != 0
    && SumWraps(s, ChopCR(s.line))
    && BodyFits(s, ChunkLengthOf(WithoutExtension(ChopCR(s.line))).value, lim)
  }

  lemma HeadersKeepCaps(s: State, c: char, lim: Limits)
    requires Shape(s) && Capped(s, lim) && s.phase == Headers
    ensures Capped(StepHeaders(s, c, lim), lim)
  {
    hide LengthOf, MentionsChunked, Lookup;
  }

  lemma SizeKeepsCaps(s: State, c: char, lim: Limits)
    requires Shape(s) && s.phase == ChunkSize && Capped(s, lim) && lim.maxBody < TWO64
    ensures Capped(StepSize(s, c, lim), lim) <==> !StepWraps(s, c, lim)
  {
    hide ChunkLengthOf, WithoutExtension, TakeSizeLine, ChopCR;
    if c == '\n' {
      var line := ChopCR(s.line);
      SizeLineCaps(s.(line := ""), line, lim);
    }
  }

  lemma StepKeepsCaps(s: State, c: char, lim: Limits)
    requires Shape(s) && Capped(s, lim) && lim.maxBody < TWO64
    ensures Capped(Step(s, c, lim), lim) <==> !StepWraps(s, c, lim)
  {
    hide StepHeaders, StepSize, SumWraps;
    match s.phase
    case Headers => HeadersKeepCaps(s, c, lim);
    case ChunkSize => SizeKeepsCaps(s, c, lim);
    case _ =>
  }

  lemma {:induction false} CapsUpTo(s: State, data: string, n: nat, lim: Limits)
    requires Shape(s) && Capped(s, lim) && lim.maxBody < TWO64 && n <= |data|
    requires forall i | 0 <= i < n :: !StepWraps(Run(s, data[..i], lim), data[i], lim)
    ensures Capped(Run(s, data[..n], lim), lim)
  {
    hide Run, Step, Capped, StepWraps, Shape;
    if n == 0 {
      RunNothing(s, lim);
      assert data[..0] == "";
    } else {
      CapsUpTo(s, data, n - 1, lim);
      RunKeepsShape(s, data[..n - 1], lim);
      RunSnoc(s, data, n - 1, lim);
      StepKeepsCaps(Run(s, data[..n - 1], lim), data[n - 1], lim);
    }
  }

  lemma RunNothing(s: State, lim: Limits)
    ensures Run(s, "", lim) == s
  {
  }

  /**
   * Over a whole run: the caps hold in every state passed through exactly when
   * no size line lets a wrapping sum through.
   */
  lemma CapsHoldExactly(s: State, data: string, lim: Limits)
    requires Shape(s) && Capped(s, lim) && lim.maxBody < TWO64
    ensures (forall i | 0 <= i <= |data| :: Capped(Run(s, data[..i], lim), lim))
            <==> forall i | 0 <= i < |data| :: !StepWraps(Run(s, data[..i], lim), data[i], lim)
  {
    hide Run, Step, Capped, StepWraps, Shape;
    if forall i | 0 <= i < |data| :: !StepWraps(Run(s, data[..i], lim), data[i], lim) {
      forall i | 0 <= i <= |data|
        ensures Capped(Run(s, data[..i], lim), lim)
      {
        CapsUpTo(s, data, i, lim);
      }
    }
    if forall i | 0 <= i <= |data| :: Capped(Run(s, data[..i], lim), lim) {
      forall i | 0 <= i < |data|
        ensures !StepWraps(Run(s, data[..i], lim), data[i], lim)
      {
        RunKeepsShape(s, data[..i], lim);
        RunSnoc(s, data, i, lim);
        assert Capped(Run(s, data[..i], lim), lim) && Capped(Run(s, data[..i + 1], lim), lim);
        StepKeepsCaps(Run(s, data[..i], lim), data[i], lim);
      }
    }
  }

  // ---------------------------------------------------------------------
  // Whole lines and whole slices
  // ---------------------------------------------------------------------

  /** Bytes of a head line short of its end only fill the line buffer. */
  lemma {:induction false} RunHeadLine(s: State, text: string, lim: Limits)
    requires s.phase == StartLine || s.phase == Headers
    requires '\n' !in text
    requires lim.maxHeader == 0 || s.headerBytes + |text| <= lim.maxHeader
    ensures Run(s, text, lim) == s.(line := s.line + text, headerBytes := s.headerBytes + |text|)
    decreases text
  {
    if text != "" {
      assert text[0] in text;
      RunHeadLine(Step(s, text[0], lim), text[1..], lim);
      assert s.line + [text[0]] + text[1..] == s.line + text;
    } else {
      assert s.line + text == s.line;
    }
  }

  /** A slice of a fixed-length body. */
  lemma {:induction false} RunBody(s: State, d: string, lim: Limits)
    requires s.phase == Body && s.bodyReceived < s.contentLength
    requires |d| <= s.contentLength - s.bodyReceived
    ensures var s1 := s.(body := s.body + d, bodyReceived := s.bodyReceived + |d|);
            Run(s, d, lim) == if s1.bodyReceived == s1.contentLength
                              then s1.(view := s1.body, phase := Complete) else s1
    decreases d
  {
    if d != "" {
      assert s.body + [d[0]] + d[1..] == s.body + d;
      if |d| > 1 {
        RunBody(Step(s, d[0], lim), d[1..], lim);
      } else {
        assert d[1..] == "";
        assert [d[0]] == d;
      }
    } else {
      assert s.body + d == s.body;
    }
  }

  /** A slice of a chunk's payload. */
  lemma {:induction false} RunData(s: State, d: string, lim: Limits)
    requires s.phase == ChunkData && s.chunkRemaining > 0
    requires |d| <= s.chunkRemaining
    ensures var s1 := s.(body := s.body + d, chunkRemaining := s.chunkRemaining - |d|);
            Run(s, d, lim) == if s1.chunkRemaining == 0 then s1.(phase := ChunkDataEnd) else s1
    decreases d
  {
    if d != "" {
      assert s.body + [d[0]] + d[1..] == s.body + d;
      if |d| > 1 {
        RunData(Step(s, d[0], lim), d[1..], lim);
      } else {
        assert d[1..] == "";
        assert [d[0]] == d;
      }
    } else {
      assert s.body + d == s.body;
    }
  }

  // ---------------------------------------------------------------------
  // The parser object
  // ---------------------------------------------------------------------

  /** Moves `end` back over blanks, no further than `start`. */
  method RetreatBlanks(line: string, start: nat, end: nat) returns (e: nat)
    requires start <= end <= |line|
    ensures start <= e <= end
    ensures line[start..e] == TrimRight(line[start..end])
  {
    e := end;
    while e > start && IsBlank(line[e - 1])
      invariant start <= e <= end
      invariant TrimRight(line[start..e]) == TrimRight(line[start..end])
    {
      assert line[start..e][..e - start - 1] == line[start..e - 1];
      e := e - 1;
    }
  }

  /** Moves `start` forward over blanks. */
  method SkipBlanks(line: string, start: nat) returns (i: nat)
    requires start <= |line|
    ensures start <= i <= |line|
    ensures line[i..] == TrimLeft(line[start..])
  {
    i := start;
    while i < |line| && IsBlank(line[i])
      invariant start <= i <= |line|
      invariant TrimLeft(line[i..]) == TrimLeft(line[start..])
    {
      assert line[i..][1..] == line[i + 1..];
      i := i + 1;
    }
  }

  method CutField(line: string, colon: nat) returns (key: string, value: string)
    requires colon < |line|
    ensures key == TrimRight(line[..colon]) && value == Trim(line[colon + 1..])
  {
    hide TrimLeft, TrimRight;
    var keyEnd := RetreatBlanks(line, 0, colon);
    key := line[..keyEnd];
    assert line[0..colon] == line[..colon] && line[0..keyEnd] == key;
    var valueStart := SkipBlanks(line, colon + 1);
    var valueEnd := RetreatBlanks(line, valueStart, |line|);
    value := line[valueStart..valueEnd];
    assert line[valueStart..|line|] == line[valueStart..];
  }

  /** From `s`, exactly the first `n` bytes of `data` were needed to get to `t`. */
  ghost predicate Took(s: State, t: State, data: string, n: nat, lim: Limits) {
    n <= |data| && t == Run(s, data[..n], lim) && Used(s, data[..n], lim) == n
  }

  lemma TookNone(s: State, data: string, lim: Limits)
    ensures Took(s, s, data, 0, lim)
  {
    assert data[..0] == "";
  }

  lemma TookSnoc(s: State, t: State, data: string, n: nat, lim: Limits)
    requires n < |data| && Took(s, t, data, n, lim) && !Terminal(t)
    ensures Took(s, Step(t, data[n], lim), data, n + 1, lim)
  {
    hide Step;
    assert data[..n + 1] == data[..n] + [data[n]];
    RunSnoc(s, data, n, lim);
    UsedAppend(s, data[..n], [data[n]], lim);
  }

  lemma TookAll(s: State, t: State, data: string, n: nat, lim: Limits)
    requires Took(s, t, data, n, lim) && (n == |data| || Terminal(t))
    ensures t == Run(s, data, lim) && n == Used(s, data, lim)
  {
    hide Step;
    if n == |data| {
      assert data[..n] == data;
    } else {
      assert data == data[..n] + data[n..];
      RunAppend(s, data[..n], data[n..], lim);
      RunTerminal(t, data[n..], lim);
      UsedAppend(s, data[..n], data[n..], lim);
    }
  }

  /** Consecutive slices. */
  lemma TookThen(s: State, t: State, u: State, data: string, n: nat, m: nat, lim: Limits)
    requires n <= |data| && Took(s, t, data, n, lim) && Took(t, u, data[n..], m, lim)
    requires !Terminal(t)
    ensures Took(s, u, data, n + m, lim)
  {
    hide Step;
    assert data[..n + m] == data[..n] + data[n..][..m];
    RunAppend(s, data[..n], data[n..][..m], lim);
    UsedAppend(s, data[..n], data[n..][..m], lim);
  }

  lemma TookKeepsShape(s: State, t: State, data: string, n: nat, lim: Limits)
    requires Took(s, t, data, n, lim) && Shape(s)
    ensures n <= |data| && Shape(t)
  {
    RunKeepsShape(s, data[..n], lim);
  }

  lemma TookBody(s: State, data: string, n: nat, lim: Limits)
    requires s.phase == Body && s.bodyReceived < s.contentLength
    requires n <= |data| && n <= s.contentLength - s.bodyReceived
    ensures Took(s, Run(s, data[..n], lim), data, n, lim)
  {
    if n > 0 {
      var d := data[..n - 1];
      RunBody(s, d, lim);
      UsedEnds(s, d, lim);
      hide Step;
      TookSnoc(s, Run(s, d, lim), data, n - 1, lim);
      RunSnoc(s, data, n - 1, lim);
    }
  }

  lemma TookData(s: State, data: string, n: nat, lim: Limits)
    requires s.phase == ChunkData && s.chunkRemaining > 0
    requires n <= |data| && n <= s.chunkRemaining
    ensures Took(s, Run(s, data[..n], lim), data, n, lim)
  {
    RunData(s, data[..n], lim);
    UsedEnds(s, data[..n], lim);
  }

  class Parser {
    var phase: Phase
    var lineBuf: string
    var req: RequestLine
    var headers: HeaderMap
    var chunked: bool
    var contentLength: nat
    var bodyReceived: nat
    var chunkRemaining: nat
    var bodyStorage: string
    var body: string
    var err: Diagnosis
    var headerBytes: nat
    var maxHeaderBytes: nat
    var maxBodyBytes: nat

    ghost function Abs(): State
      reads this
    {
      State(phase, lineBuf, req, headers, chunked, contentLength, bodyReceived, chunkRemaining,
            bodyStorage, body, err, headerBytes)
    }

    function Lim(): Limits
      reads this
    {
      Limits(maxHeaderBytes, maxBodyBytes)
    }

    constructor (maxHeader: nat, maxBody: nat)
      ensures Abs() == Fresh() && Lim() == Limits(maxHeader, maxBody)
    {
      phase, lineBuf, req, headers := StartLine, "", NO_LINE, map[];
      chunked, contentLength, bodyReceived, chunkRemaining := false, 0, 0, 0;
      bodyStorage, body, err, headerBytes := "", "", NO_ERROR, 0;
      maxHeaderBytes, maxBodyBytes := maxHeader, maxBody;
    }

    /** A reused parser is as good as new, whatever it parsed before. */
    method Reset()
      modifies this
      ensures Abs() == Fresh() && Lim() == old(Lim())
    {
      phase, lineBuf, req, headers := StartLine, "", NO_LINE, map[];
      chunked, contentLength, bodyReceived, chunkRemaining := false, 0, 0, 0;
      bodyStorage, body, err, headerBytes := "", "", NO_ERROR, 0;
    }

    /** Hands over the body; the parser keeps an empty one. */
    method TakeBody() returns (b: string)
      modifies this
      ensures b == old(bodyStorage)
      ensures Abs() == old(Abs()).(body := "", view := "") && Lim() == old(Lim())
    {
      b := bodyStorage;
      bodyStorage := "";
      body := "";
    }

    method SetError(message: string, status: nat)
      modifies this
      ensures Abs() == Fail(old(Abs()), message, status) && Lim() == old(Lim())
    {
      phase := Error;
      err := Diagnosis(message, status);
    }

    method GrowHeaderBytes(n: nat) returns (ok: bool)
      modifies this
      ensures var s := old(Abs()).(headerBytes := old(headerBytes) + n);
              && ok == !HeaderOverflow(s, Lim())
              && Abs() == if ok then s else Fail(s, "Header section too large", 431)
      ensures Lim() == old(Lim())
    {
      headerBytes := headerBytes + n;
      if maxHeaderBytes != 0 && headerBytes > maxHeaderBytes {
        SetError("Header section too large", 431);
        return false;
      }
      return true;
    }

    method GrowBodyBytes(n: nat) returns (ok: bool)
      modifies this
      ensures ok == BodyFits(old(Abs()), n, Lim())
      ensures Abs() == if ok then old(Abs()) else Fail(old(Abs()), "Body too large", 413)
      ensures Lim() == old(Lim())
    {
      if maxBodyBytes != 0 && (|bodyStorage| + n) % TWO64 > maxBodyBytes {
        SetError("Body too large", 413);
        return false;
      }
      return true;
    }

    /** `std::move(line_buf_)` and the trailing CR. */
    method TakeLine() returns (line: string)
      modifies this
      ensures line == ChopCR(old(lineBuf))
      ensures Abs() == old(Abs()).(line := "") && Lim() == old(Lim())
    {
      line := lineBuf;
      lineBuf := "";
      if line != "" && line[|line| - 1] == '\r' {
        line := line[..|line| - 1];
      }
    }

    method FinishStartLine(line: string)
      modifies this
      ensures Abs() == TakeStartLine(old(Abs()), line) && Lim() == old(Lim())
      ensures phase == Headers || phase == Error
    {
      hide MethodFromString, Find, FindFrom, TakeRequestLine;
      var p1 := Find(line, ' ');
      var p2 := |line|;
      if p1 < |line| {
        p2 := FindFrom(line, ' ', p1 + 1);
      }
      if p1 == |line| || p2 == |line| {
        SetError("Malformed start-line", 400);
        return;
      }
      AcceptRequestLine(MethodFromString(line[..p1]), line[p1 + 1..p2], line[p2 + 1..]);
    }

    method AcceptRequestLine(m: Method, rt: string, ver: string)
      modifies this
      ensures Abs() == TakeRequestLine(old(Abs()), m, rt, ver) && Lim() == old(Lim())
      ensures phase == Headers || phase == Error
    {
      hide Find;
      req := req.(verb := m);
      if m == UNKNOWN {
        SetError("Unknown HTTP method", 501);
        return;
      }
      if rt == "" {
        SetError("Empty request-target", 400);
        return;
      }
      if !(ver == "HTTP/1.1" || ver == "HTTP/1.0") {
        SetError("Unsupported HTTP version", 505);
        return;
      }
      req := req.(version := ver, target := rt);
      StoreTarget(rt);
      phase := Headers;
    }

    /** The path, and the query after the first question mark. */
    method StoreTarget(target: string)
      modifies this`req
      ensures var q := Find(target, '?');
              req == old(req).(path := target[..q], query := if q == |target| then "" else target[q + 1..])
    {
      hide Find;
      var q := Find(target, '?');
      if q == |target| {
        req := req.(path := target, query := "");
      } else {
        req := req.(path := target[..q], query := target[q + 1..]);
      }
    }

    method StoreField(key: string, value: string)
      modifies this
      ensures Abs() == old(Abs()).(headers := AddField(old(headers), key, value)) && Lim() == old(Lim())
    {
      var k := Lower(key);
      if k in headers {
        headers := headers[k := Field(headers[k].name, headers[k].value + ", " + value)];
      } else {
        headers := headers[k := Field(key, value)];
      }
    }

    method FinishHeaderLine(line: string)
      modifies this
      ensures Abs() == TakeHeaderLine(old(Abs()), line) && Lim() == old(Lim())
    {
      var colon := Find(line, ':');
      if colon == |line| {
        SetError("Header missing ':'", 400);
        return;
      }
      hide Trim, TrimRight, AddField;
      var key, value := CutField(line, colon);
      if key == "" {
        SetError("Empty header name", 400);
        return;
      }
      StoreField(key, value);
    }

    method FinishHeaders()
      modifies this
      ensures Abs() == EndHeaders(old(Abs()), old(Lim())) && Lim() == old(Lim())
      ensures phase != Headers
    {
      hide MentionsChunked, LengthOf;
      var te := Lookup(headers, "Transfer-Encoding");
      if te.Some? {
        if MentionsChunked(te.value) {
          chunked := true;
        } else {
          SetError("Unsupported Transfer-Encoding", 501);
          return;
        }
      }
      var cl := Lookup(headers, "Content-Length");
      if cl.Some? {
        if chunked {
          SetError("Both Content-Length and chunked", 400);
          return;
        }
        var v := LengthOf(cl.value);
        if v.None? {
          SetError("Invalid Content-Length", 400);
          return;
        }
        contentLength := v.value;
        if maxBodyBytes != 0 && contentLength > maxBodyBytes {
          SetError("Body too large", 413);
          return;
        }
      }
      if chunked {
        phase := ChunkSize;
      } else if contentLength > 0 {
        phase := Body;
      } else {
        body := bodyStorage;
        phase := Complete;
      }
    }

    method FinishSizeLine(line: string)
      modifies this
      ensures Abs() == TakeSizeLine(old(Abs()), line, old(Lim())) && Lim() == old(Lim())
      ensures phase != ChunkSize
    {
      hide ChunkLengthOf;
      var size := line[..Find(line, ';')];
      if size == "" {
        SetError("Missing chunk size", 400);
        return;
      }
      var v := ChunkLengthOf(size);
      if v.None? {
        SetError("Invalid chunk size", 400);
        return;
      }
      var ok := GrowBodyBytes(v.value);
      if !ok {
        return;
      }
      chunkRemaining := v.value;
      phase := if chunkRemaining == 0 then ChunkTrailer else ChunkData;
    }

    /** One byte of the request line; `true` when the phase is over. */
    method StartLineByte(c: char) returns (done: bool)
      requires phase == StartLine
      modifies this
      ensures Abs() == StepStartLine(old(Abs()), c, Lim()) && Lim() == old(Lim())
      ensures done <==> phase != StartLine
    {
      hide TakeStartLine, ChopCR;
      var ok := GrowHeaderBytes(1);
      if !ok {
        return true;
      }
      if c != '\n' {
        lineBuf := lineBuf + [c];
        return false;
      }
      var line := TakeLine();
      // Empty lines between pipelined requests are skipped.
      if line == "" {
        return false;
      }
      FinishStartLine(line);
      return true;
    }

    method ParseStartLine(data: string) returns (i: nat)
      requires phase == StartLine
      modifies this
      ensures Took(old(Abs()), Abs(), data, i, Lim()) && Lim() == old(Lim())
      ensures data != "" ==> i > 0
    {
      hide Took, StepStartLine;
      TookNone(Abs(), data, Lim());
      i := 0;
      while i < |data|
        invariant i <= |data| && phase == StartLine
        invariant Took(old(Abs()), Abs(), data, i, Lim()) && Lim() == old(Lim())
      {
        TookSnoc(old(Abs()), Abs(), data, i, Lim());
        var done := StartLineByte(data[i]);
        i := i + 1;
        if done {
          return;
        }
      }
    }

    /** One byte of the header section; `true` when the phase is over. */
    method HeadersByte(c: char) returns (done: bool)
      requires phase == Headers
      modifies this
      ensures Abs() == StepHeaders(old(Abs()), c, Lim()) && Lim() == old(Lim())
      ensures done <==> phase != Headers
    {
      hide TakeHeaderLine, EndHeaders, ChopCR;
      var ok := GrowHeaderBytes(1);
      if !ok {
        return true;
      }
      if c != '\n' {
        lineBuf := lineBuf + [c];
        return false;
      }
      var line := TakeLine();
      if line == "" {
        FinishHeaders();
        return true;
      }
      FinishHeaderLine(line);
      return phase != Headers;
    }

    method ParseHeaders(data: string) returns (i: nat)
      requires phase == Headers
      modifies this
      ensures Took(old(Abs()), Abs(), data, i, Lim()) && Lim() == old(Lim())
      ensures data != "" ==> i > 0
    {
      hide Took, StepHeaders;
      TookNone(Abs(), data, Lim());
      i := 0;
      while i < |data|
        invariant i <= |data| && phase == Headers
        invariant Took(old(Abs()), Abs(), data, i, Lim()) && Lim() == old(Lim())
      {
        TookSnoc(old(Abs()), Abs(), data, i, Lim());
        var done := HeadersByte(data[i]);
        i := i + 1;
        if done {
          return;
        }
      }
    }

    method ParseBody(data: string) returns (take: nat)
      requires phase == Body && bodyReceived < contentLength
      modifies this
      ensures Took(old(Abs()), Abs(), data, take, Lim()) && Lim() == old(Lim())
      ensures data != "" ==> take > 0
    {
      hide Took;
      var need := contentLength - bodyReceived;
      take := if |data| < need then |data| else need;
      TookBody(Abs(), data, take, Lim());
      RunBody(Abs(), data[..take], Lim());
      if take > 0 {
        bodyStorage := bodyStorage + data[..take];
        bodyReceived := bodyReceived + take;
      }
      if bodyReceived == contentLength {
        body := bodyStorage;
        phase := Complete;
      }
    }

    /** One byte of a chunk-size line; `true` when the phase is over. */
    method SizeByte(c: char) returns (done: bool)
      requires phase == ChunkSize
      modifies this
      ensures Abs() == StepSize(old(Abs()), c, Lim()) && Lim() == old(Lim())
      ensures done <==> phase != ChunkSize
    {
      hide TakeSizeLine, ChopCR;
      if c != '\n' {
        if |lineBuf| > MAX_SIZE_LINE {
          SetError("Chunk size line too long", 400);
          return true;
        }
        lineBuf := lineBuf + [c];
        return false;
      }
      var line := TakeLine();
      FinishSizeLine(line);
      return true;
    }

    method ParseChunkSize(data: string) returns (i: nat)
      requires phase == ChunkSize
      modifies this
      ensures Took(old(Abs()), Abs(), data, i, Lim()) && Lim() == old(Lim())
      ensures data != "" ==> i > 0
    {
      hide Took, StepSize;
      TookNone(Abs(), data, Lim());
      i := 0;
      while i < |data|
        invariant i <= |data| && phase == ChunkSize
        invariant Took(old(Abs()), Abs(), data, i, Lim()) && Lim() == old(Lim())
      {
        TookSnoc(old(Abs()), Abs(), data, i, Lim());
        var done := SizeByte(data[i]);
        i := i + 1;
        if done {
          return;
        }
      }
    }

    method ParseChunkData(data: string) returns (take: nat)
      requires phase == ChunkData && chunkRemaining > 0
      modifies this
      ensures Took(old(Abs()), Abs(), data, take, Lim()) && Lim() == old(Lim())
      ensures data != "" ==> take > 0
    {
      hide Took;
      take := if |data| < chunkRemaining then |data| else chunkRemaining;
      TookData(Abs(), data, take, Lim());
      RunData(Abs(), data[..take], Lim());
      if take > 0 {
        bodyStorage := bodyStorage + data[..take];
        chunkRemaining := chunkRemaining - take;
      }
      if chunkRemaining == 0 {
        phase := ChunkDataEnd;
      }
    }

    method ParseChunkDataEnd(data: string) returns (i: nat)
      requires phase == ChunkDataEnd
      modifies this
      ensures Took(old(Abs()), Abs(), data, i, Lim()) && Lim() == old(Lim())
      ensures data != "" ==> i > 0
    {
      hide Took;
      TookNone(Abs(), data, Lim());
      i := 0;
      while i < |data|
        invariant i <= |data| && phase == ChunkDataEnd
        invariant Took(old(Abs()), Abs(), data, i, Lim()) && Lim() == old(Lim())
      {
        TookSnoc(old(Abs()), Abs(), data, i, Lim());
        var c := data[i];
        i := i + 1;
        if c == '\n' {
          phase := ChunkSize;
          return;
        }
        if c != '\r' {
          SetError("Malformed chunk terminator", 400);
          return;
        }
      }
    }

    /** One byte of the trailer section; `true` when the phase is over. */
    method TrailerByte(c: char) returns (done: bool)
      requires phase == ChunkTrailer
      modifies this
      ensures Abs() == StepTrailer(old(Abs()), c) && Lim() == old(Lim())
      ensures done <==> phase != ChunkTrailer
    {
      hide ChopCR;
      if c != '\n' {
        if |lineBuf| > MAX_TRAILER {
          SetError("Trailer too long", 400);
          return true;
        }
        lineBuf := lineBuf + [c];
        return false;
      }
      var line := TakeLine();
      if line != "" {
        return false;
      }
      contentLength := |bodyStorage|;
      body := bodyStorage;
      phase := Complete;
      return true;
    }

    method ParseChunkTrailer(data: string) returns (i: nat)
      requires phase == ChunkTrailer
      modifies this
      ensures Took(old(Abs()), Abs(), data, i, Lim()) && Lim() == old(Lim())
      ensures data != "" ==> i > 0
    {
      hide Took, StepTrailer;
      TookNone(Abs(), data, Lim());
      i := 0;
      while i < |data|
        invariant i <= |data| && phase == ChunkTrailer
        invariant Took(old(Abs()), Abs(), data, i, Lim()) && Lim() == old(Lim())
      {
        TookSnoc(old(Abs()), Abs(), data, i, Lim());
        var done := TrailerByte(data[i]);
        i := i + 1;
        if done {
          return;
        }
      }
    }

    /** Dispatches on the phase. */
    method ParsePhase(data: string) returns (n: nat)
      requires Shape(Abs()) && !Terminal(Abs())
      modifies this
      ensures Took(old(Abs()), Abs(), data, n, Lim()) && Lim() == old(Lim())
      ensures data != "" ==> n > 0
    {
      hide Took;
      match phase
      case StartLine => n := ParseStartLine(data);
      case Headers => n := ParseHeaders(data);
      case Body => n := ParseBody(data);
      case ChunkSize => n := ParseChunkSize(data);
      case ChunkData => n := ParseChunkData(data);
      case ChunkDataEnd => n := ParseChunkDataEnd(data);
      case ChunkTrailer => n := ParseChunkTrailer(data);
    }

    /**
     * Takes the bytes of `data` that belong to the current message and no others:
     * the effect is that of taking them one at a time.
     */
    method Consume(data: string) returns (consumed: nat)
      requires Shape(Abs())
      modifies this
      ensures Abs() == Run(old(Abs()), data, Lim()) && Lim() == old(Lim())
      ensures consumed == Used(old(Abs()), data, Lim())
      ensures consumed < |data| ==> Terminal(Abs())
      ensures Shape(Abs())
    {
      hide Took, Shape;
      TookNone(Abs(), data, Lim());
      consumed := 0;
      while consumed < |data| && phase != Error && phase != Complete
        invariant consumed <= |data|
        invariant Took(old(Abs()), Abs(), data, consumed, Lim()) && Lim() == old(Lim())
        invariant Shape(Abs())
      {
        ghost var s := Abs();
        var n := ParsePhase(data[consumed..]);
        TookKeepsShape(s, Abs(), data[consumed..], n, Lim());
        TookThen(old(Abs()), s, Abs(), data, consumed, n, Lim());
        consumed := consumed + n;
        if n == 0 {
          break;
        }
      }
      TookAll(old(Abs()), Abs(), data, consumed, Lim());
    }
  }
}
