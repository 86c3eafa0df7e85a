// Lines and chunks the request parser refuses, and with what status.
module HttpRefusals {
  import opened Common
  import opened Text
  import opened Http
  import opened HttpParser
  import opened HttpMessage
  import opened HttpFraming
  import opened Chunked

  // ---------------------------------------------------------------------
  // The request line
  // ---------------------------------------------------------------------

  /** None of the nine methods, in any letter case. */
  predicate NoMethod(word: string) {
    Lower(word) !in {"get", "post", "put", "patch", "delete", "options", "head", "trace", "connect"}
  }

  /** Three words parted by single spaces; the last may hold more spaces. */
  function Words(a: string, t: string, v: string): string { a + " " + t + " " + v }

  lemma SpacesFound(a: string, t: string, v: string)
    requires ' ' !in a && ' ' !in t
    ensures var line := Words(a, t, v);
            && |line| == |a| + |t| + |v| + 2
            && Find(line, ' ') == |a| && FindFrom(line, ' ', |a| + 1) == |a| + 1 + |t|
            && line[..|a|] == a && line[|a| + 1..|a| + 1 + |t|] == t && line[|a| + 1 + |t| + 1..] == v
  {
    hide Find, FindFrom;
    var line := Words(a, t, v);
    FirstSpace(a, t, v);
    SecondSpace(a, t, v);
    assert line == a + [' '] + t + [' '] + v == a + [' '] + t + ([' '] + v);
  }

  /** How a request line is judged: method first, then target, then version. */
  lemma WordsJudged(s: State, a: string, t: string, v: string)
    requires ' ' !in a && ' ' !in t
    ensures var u := TakeStartLine(s, Words(a, t, v));
            && (NoMethod(a) ==> Refused(u, "Unknown HTTP method", 501))
            && (!NoMethod(a) && t == "" ==> Refused(u, "Empty request-target", 400))
            && (!NoMethod(a) && t != "" && !KnownVersion(v) ==> Refused(u, "Unsupported HTTP version", 505))
            && (!NoMethod(a) && t != "" && KnownVersion(v) ==> u.phase == Headers)
  {
    hide Find, FindFrom, Words, Lower;
    SpacesFound(a, t, v);
  }

  /** A line without two spaces. */
  lemma FewWords(s: State, line: string)
    requires forall a, t, v :: line != Words(a, t, v)
    ensures Refused(TakeStartLine(s, line), "Malformed start-line", 400)
  {
    hide TakeRequestLine;
    var p1 := Find(line, ' ');
    if p1 < |line| {
      var p2 := FindFrom(line, ' ', p1 + 1);
      if p2 < |line| {
        ThreeWords(line, p1, p2);
      }
    }
  }

  lemma ThreeWords(line: string, p1: nat, p2: nat)
    requires p1 < p2 < |line| && line[p1] == line[p2] == ' '
    ensures line == Words(line[..p1], line[p1 + 1..p2], line[p2 + 1..])
  {
  }

  predicate LineFits(s: State, line: string, lim: Limits) {
    lim.maxHeader == 0 || s.headerBytes + |line| + 2 <= lim.maxHeader
  }

  lemma LineTaken(s: State, line: string, lim: Limits)
    requires s.phase == StartLine || s.phase == Headers
    requires s.line == "" && line != "" && '\n' !in line && LineFits(s, line, lim)
    ensures var s1 := s.(headerBytes := s.headerBytes + |line| + 2);
            Run(s, line + "\r\n", lim) == if s.phase == StartLine then TakeStartLine(s1, line) else TakeHeaderLine(s1, line)
  {
    hide Run, TakeStartLine, TakeHeaderLine;
    var text := line + "\r";
    LineParses(s, text, lim);
    assert line + "\r\n" == text + ['\n'];
    assert ChopCR(text) == line;
  }

  /** A request whose first line is not a request line is refused, whatever follows. */
  lemma RequestLineRefused(a: string, t: string, v: string, more: string, lim: Limits)
    requires ' ' !in a && ' ' !in t && '\n' !in Words(a, t, v) && LineFits(Fresh(), Words(a, t, v), lim)
    ensures var u := Run(Fresh(), Words(a, t, v) + "\r\n" + more, lim);
            && (NoMethod(a) ==> Refused(u, "Unknown HTTP method", 501))
            && (!NoMethod(a) && t == "" ==> Refused(u, "Empty request-target", 400))
            && (!NoMethod(a) && t != "" && !KnownVersion(v) ==> Refused(u, "Unsupported HTTP version", 505))
  {
    hide Run, TakeStartLine, NoMethod, KnownVersion;
    var line := Words(a, t, v);
    LineTaken(Fresh(), line, lim);
    WordsJudged(Fresh().(headerBytes := |line| + 2), a, t, v);
    RefusedForGood(Fresh(), line + "\r\n", more, lim);
  }

  lemma FewWordsRefused(line: string, more: string, lim: Limits)
    requires line != "" && '\n' !in line && LineFits(Fresh(), line, lim)
    requires forall a, t, v :: line != Words(a, t, v)
    ensures Refused(Run(Fresh(), line + "\r\n" + more, lim), "Malformed start-line", 400)
  {
    hide Run, TakeStartLine;
    LineTaken(Fresh(), line, lim);
    FewWords(Fresh().(headerBytes := |line| + 2), line);
    RefusedForGood(Fresh(), line + "\r\n", more, lim);
  }

  // ---------------------------------------------------------------------
  // Header lines
  // ---------------------------------------------------------------------

  predicate Blank(s: string) { forall i | 0 <= i < |s| :: IsBlank(s[i]) }

  lemma {:induction false} BlankTrimmed(s: string)
    requires Blank(s)
    ensures TrimRight(s) == ""
  {
    hide IsBlank;
    if s != "" {
      BlankTrimmed(s[..|s| - 1]);
    }
  }

  lemma NoColonRefused(s: State, line: string, more: string, lim: Limits)
    requires s.phase == Headers && s.line == ""
    requires line != "" && '\n' !in line && LineFits(s, line, lim) && ':' !in line
    ensures Refused(Run(s, line + "\r\n" + more, lim), "Header missing ':'", 400)
  {
    hide Run, TrimRight, Trim, AddField;
    LineTaken(s, line, lim);
    RefusedForGood(s, line + "\r\n", more, lim);
  }

  /** Nothing but blanks before the colon. */
  lemma NoNameRefused(s: State, blanks: string, rest: string, more: string, lim: Limits)
    requires s.phase == Headers && s.line == "" && Blank(blanks)
    requires '\n' !in blanks + ":" + rest && LineFits(s, blanks + ":" + rest, lim)
    ensures Refused(Run(s, blanks + ":" + rest + "\r\n" + more, lim), "Empty header name", 400)
  {
    hide Run, TrimRight, Trim, AddField, Find;
    var line := blanks + ":" + rest;
    LineTaken(s, line, lim);
    assert ':' !in blanks;
    FindAfter(blanks, ':', rest);
    assert line == blanks + [':'] + rest && line[..|blanks|] == blanks;
    BlankTrimmed(blanks);
    RefusedForGood(s, line + "\r\n", more, lim);
  }

  // ---------------------------------------------------------------------
  // A head that is too long
  // ---------------------------------------------------------------------

  predicate InHead(s: State) { s.phase == StartLine || s.phase == Headers }

  lemma HeadByte(s: State, c: char, lim: Limits)
    requires InHead(s)
    ensures var t := Step(s, c, lim);
            if lim.maxHeader != 0 && s.headerBytes + 1 > lim.maxHeader then Refused(t, "Header section too large", 431)
            else t.headerBytes == s.headerBytes + 1
  {
    hide MethodFromString, Find, FindFrom, Lookup, AddField, LengthOf, MentionsChunked, TrimRight, Trim;
  }

  lemma OutOfHead(s: State, c: char, lim: Limits)
    requires !InHead(s)
    ensures !InHead(Step(s, c, lim))
  {
    hide ChunkLengthOf, WithoutExtension, BodyFits;
  }

  /** In the head every byte is counted. */
  lemma {:induction false} HeadCounted(data: string, lim: Limits)
    requires InHead(Run(Fresh(), data, lim))
    ensures Run(Fresh(), data, lim).headerBytes == |data|
    decreases data
  {
    hide Step, Run;
    if data == "" {
      RunNothing(Fresh(), lim);
    } else {
      var n := |data| - 1;
      RunSnoc(Fresh(), data, n, lim);
      assert data[..n + 1] == data;
      var s := Run(Fresh(), data[..n], lim);
      if !InHead(s) {
        OutOfHead(s, data[n], lim);
      } else {
        HeadCounted(data[..n], lim);
        HeadByte(s, data[n], lim);
      }
    }
  }

  /** The byte that passes the cap is refused, and no byte before it is for that reason. */
  lemma HeadTooLong(data: string, c: char, more: string, lim: Limits)
    requires InHead(Run(Fresh(), data, lim)) && lim.maxHeader != 0
    ensures |data| >= lim.maxHeader ==> Refused(Run(Fresh(), data + [c] + more, lim), "Header section too large", 431)
    ensures |data| < lim.maxHeader ==> Run(Fresh(), data + [c], lim).headerBytes == |data| + 1
  {
    hide Step, Run;
    var s := Run(Fresh(), data, lim);
    HeadCounted(data, lim);
    HeadByte(s, c, lim);
    RunLast(Fresh(), data, c, lim);
    RefusedForGood(Fresh(), data + [c], more, lim);
  }

  // ---------------------------------------------------------------------
  // Chunks
  // ---------------------------------------------------------------------

  predicate AtChunk(s: State) { s.phase == ChunkSize && s.line == "" && s.chunkRemaining == 0 }

  /** A size line is judged by what stands before its first semicolon. */
  lemma SizeLineJudged(s: State, size: string, extension: string, lim: Limits)
    requires AtChunk(s) && ';' !in size && (extension == "" || extension[0] == ';')
    requires '\n' !in size + extension && |size + extension| < MAX_SIZE_LINE
    ensures var t := Run(s, size + extension + "\r\n", lim);
            && (size == "" ==> Refused(t, "Missing chunk size", 400))
            && (size != "" && (forall n: nat :: !AnnouncesChunk(size, n)) ==> Refused(t, "Invalid chunk size", 400))
            && (forall n: nat | AnnouncesChunk(size, n) ::
                  if lim.maxBody != 0 && (|s.body| + n) % TWO64 > lim.maxBody then Refused(t, "Body too large", 413)
                  else t == s.(chunkRemaining := n, phase := if n == 0 then ChunkTrailer else ChunkData))
  {
    hide Run, AnnouncesChunk, TakeSizeLine;
    var line := size + extension;
    var text := line + "\r";
    SizeLineTaken(s, text, lim);
    assert line + "\r\n" == text + "\n";
    assert ChopCR(text) == line;
    SizeJudged(s, size, extension, lim);
  }

  lemma SizeJudged(s: State, size: string, extension: string, lim: Limits)
    requires ';' !in size && (extension == "" || extension[0] == ';')
    ensures var t := TakeSizeLine(s, size + extension, lim);
            && (size == "" ==> Refused(t, "Missing chunk size", 400))
            && (size != "" && (forall n: nat :: !AnnouncesChunk(size, n)) ==> Refused(t, "Invalid chunk size", 400))
            && (forall n: nat | AnnouncesChunk(size, n) ::
                  if lim.maxBody != 0 && (|s.body| + n) % TWO64 > lim.maxBody then Refused(t, "Body too large", 413)
                  else t == s.(chunkRemaining := n, phase := if n == 0 then ChunkTrailer else ChunkData))
  {
    hide ChunkLengthOf, AnnouncesChunk, WithoutExtension;
    SizeCut(size, extension);
    EmptyIsNoChunk();
    forall n: nat ensures ChunkLengthOf(size) == Some(n) <==> AnnouncesChunk(size, n) {
      ChunkAnnounced(size, n);
    }
  }

  lemma SizeCut(size: string, extension: string)
    requires ';' !in size && (extension == "" || extension[0] == ';')
    ensures WithoutExtension(size + extension) == size
  {
    hide Find;
    if extension != "" {
      FindAfter(size, ';', extension[1..]);
      assert size + extension == size + [';'] + extension[1..];
    } else {
      assert size + extension == size;
      assert Find(size, ';') == |size|;
    }
  }

  lemma EmptyIsNoChunk()
    ensures ChunkLengthOf("") == None
  {
  }

  /** A size line that goes on too long. */
  lemma SizeLineTooLong(s: State, text: string, c: char, more: string, lim: Limits)
    requires AtChunk(s) && '\n' !in text + [c] && |text| == MAX_SIZE_LINE + 1
    ensures Refused(Run(s, text + [c] + more, lim), "Chunk size line too long", 400)
  {
    hide Run;
    SizeTextKept(s, text, lim);
    RunLast(s, text, c, lim);
    RefusedForGood(s, text + [c], more, lim);
  }

  lemma SizeTextKept(s: State, text: string, lim: Limits)
    requires AtChunk(s) && '\n' !in text && |text| == MAX_SIZE_LINE + 1
    ensures Run(s, text, lim) == s.(line := text)
  {
    hide Run;
    var n := MAX_SIZE_LINE;
    RunSizeText(s, text[..n], lim);
    assert "" + text[..n] == text[..n];
    RunSnoc(s, text, n, lim);
    assert text[..n + 1] == text == text[..n] + [text[n]];
  }

  /** After a chunk's bytes only a line break may come. */
  lemma ChunkEndRefused(s: State, c: char, more: string, lim: Limits)
    requires s.phase == ChunkDataEnd && c != '\r' && c != '\n'
    ensures Refused(Run(s, [c] + more, lim), "Malformed chunk terminator", 400)
  {
    hide Run;
    OneByte(s, c, lim);
    RefusedForGood(s, [c], more, lim);
  }

  // ---------------------------------------------------------------------
  // Trailers
  // ---------------------------------------------------------------------

  function Lines(ls: seq<string>): string {
    if ls == [] then "" else ls[0] + "\r\n" + Lines(ls[1..])
  }

  predicate Trailer(l: string) { l != "" && '\n' !in l && |l| < MAX_TRAILER }

  lemma {:induction false} TrailerText(s: State, text: string, lim: Limits)
    requires s.phase == ChunkTrailer && '\n' !in text && |s.line| + |text| <= MAX_TRAILER
    ensures Run(s, text, lim) == s.(line := s.line + text)
    decreases text
  {
    if text == "" {
      assert s.line + text == s.line;
    } else {
      assert text[0] in text;
      TrailerText(Step(s, text[0], lim), text[1..], lim);
      assert s.line + [text[0]] + text[1..] == s.line + text;
    }
  }

  /** Trailer lines are dropped, up to the empty one, which completes the message. */
  lemma {:induction false} TrailersDropped(s: State, ls: seq<string>, lim: Limits)
    requires s.phase == ChunkTrailer && s.line == ""
    requires forall l | l in ls :: Trailer(l)
    ensures var t := Run(s, Lines(ls) + "\r\n", lim);
            t.phase == Complete && t.view == s.body && t.headers == s.headers
    decreases ls
  {
    hide Run;
    if ls == [] {
      RunTrailerEnd(s, lim);
      assert Lines(ls) + "\r\n" == CRLF;
    } else {
      OneTrailer(s, ls[0], lim);
      RunAppend(s, ls[0] + "\r\n", Lines(ls[1..]) + "\r\n", lim);
      assert Lines(ls) + "\r\n" == ls[0] + "\r\n" + (Lines(ls[1..]) + "\r\n");
      TrailersDropped(s, ls[1..], lim);
    }
  }

  lemma OneTrailer(s: State, l: string, lim: Limits)
    requires s.phase == ChunkTrailer && s.line == "" && Trailer(l)
    ensures Run(s, l + "\r\n", lim) == s
  {
    hide Run;
    var text := l + "\r";
    TrailerText(s, text, lim);
    assert "" + text == text;
    RunLast(s, text, '\n', lim);
    assert l + "\r\n" == text + ['\n'];
    assert ChopCR(text) == l;
    assert s.(line := "") == s;
  }

  /** A trailer line that goes on too long. */
  lemma TrailerTooLong(s: State, text: string, c: char, more: string, lim: Limits)
    requires s.phase == ChunkTrailer && s.line == "" && '\n' !in text + [c] && |text| == MAX_TRAILER + 1
    ensures Refused(Run(s, text + [c] + more, lim), "Trailer too long", 400)
  {
    hide Run;
    var n := MAX_TRAILER;
    TrailerText(s, text[..n], lim);
    assert "" + text[..n] == text[..n];
    RunSnoc(s, text, n, lim);
    assert text[..n + 1] == text == text[..n] + [text[n]];
    RunLast(s, text, c, lim);
    RefusedForGood(s, text + [c], more, lim);
  }
}
