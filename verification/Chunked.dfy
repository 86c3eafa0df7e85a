// Chunked transfer encoding (section 4.1 of RFC 7230): the server's incremental
// parser undoes it, and lets a wrapping size through.
module Chunked {
  import opened Common
  import opened Text
  import opened Http
  import opened HttpParser
  import opened HttpMessage

  function Concat(chunks: seq<string>): string {
    if chunks == [] then "" else chunks[0] + Concat(chunks[1..])
  }

  function EncodeChunk(c: string): string { Print(|c|, 16) + CRLF + c + CRLF }

  function Encode(chunks: seq<string>): string {
    if chunks == [] then "0" + CRLF + CRLF else EncodeChunk(chunks[0]) + Encode(chunks[1..])
  }

  /** Chunks a sender may send: not empty, and of a 64-bit size. */
  predicate Sendable(chunks: seq<string>) {
    forall i | 0 <= i < |chunks| :: 0 < |chunks[i]| < TWO64
  }

  lemma SizeLine(n: nat)
    requires n < TWO64
    ensures WithoutExtension(Print(n, 16)) == Print(n, 16)
    ensures ChunkLengthOf(Print(n, 16)) == Some(n)
  {
    var s := Print(n, 16);
    ScanPrinted(n, 16);
    assert ';' !in s;
    assert s[..|s|] == s;
  }

  lemma OneDigit()
    ensures Print(0, 16) == "0" && Print(1, 16) == "1"
  {
  }

  // ---------------------------------------------------------------------
  // The server: the incremental parser
  // ---------------------------------------------------------------------

  function Pow16(k: nat): nat {
    if k == 0 then 1 else 16 * Pow16(k - 1)
  }

  lemma {:induction false} HexLength(n: nat, k: nat)
    requires k > 0 && n < Pow16(k)
    ensures |Print(n, 16)| <= k
  {
    if n >= 16 {
      assert k > 1;
      HexLength(n / 16, k - 1);
    }
  }

  lemma SixteenDigits()
    ensures Pow16(16) == TWO64
  {
    assert Pow16(4) == 0x10000;
    assert Pow16(8) == 0x1_0000_0000;
    assert Pow16(12) == 0x1_0000_0000_0000;
  }

  /** Bytes of a size line short of its end only fill the line buffer. */
  lemma {:induction false} RunSizeText(s: State, text: string, lim: Limits)
    requires s.phase == ChunkSize && '\n' !in text
    requires |s.line| + |text| <= MAX_SIZE_LINE
    ensures Run(s, text, lim) == s.(line := s.line + text)
    decreases text
  {
    hide TakeSizeLine;
    if text == "" {
      assert s.line + text == s.line;
    } else {
      assert text[0] in text;
      RunSizeText(Step(s, text[0], lim), text[1..], lim);
      assert s.line + [text[0]] + text[1..] == s.line + text;
    }
  }

  lemma RunLast(s: State, text: string, c: char, lim: Limits)
    ensures Run(s, text + [c], lim) == Step(Run(s, text, lim), c, lim)
  {
    hide *;
    RunAppend(s, text, [c], lim);
    OneByte(Run(s, text, lim), c, lim);
  }

  /** Any complete size line, in one go. */
  lemma SizeLineTaken(s: State, text: string, lim: Limits)
    requires s.phase == ChunkSize && s.line == "" && '\n' !in text && |text| <= MAX_SIZE_LINE
    ensures Run(s, text + "\n", lim) == TakeSizeLine(s, ChopCR(text), lim)
  {
    hide TakeSizeLine, ChopCR, Run;
    RunSizeText(s, text, lim);
    assert "" + text == text;
    RunLast(s, text, '\n', lim);
  }

  lemma RunSizeLine(s: State, n: nat, lim: Limits)
    requires s.phase == ChunkSize && s.line == "" && n < TWO64 && BodyFits(s, n, lim)
    ensures Run(s, Print(n, 16) + CRLF, lim) ==
            s.(chunkRemaining := n, phase := if n == 0 then ChunkTrailer else ChunkData)
  {
    var text := Print(n, 16) + "\r";
    SizeText(n);
    SizeLineAccepted(s, n, lim);
    hide *;
    SizeLineTaken(s, text, lim);
    assert Print(n, 16) + CRLF == text + "\n";
  }

  lemma SizeText(n: nat)
    requires n < TWO64
    ensures var text := Print(n, 16) + "\r";
            '\n' !in text && |text| <= MAX_SIZE_LINE && ChopCR(text) == Print(n, 16)
  {
    hide Print;
    SixteenDigits();
    HexLength(n, 16);
    NoNewline(n);
  }

  lemma SizeLineAccepted(s: State, n: nat, lim: Limits)
    requires n < TWO64 && BodyFits(s, n, lim)
    ensures TakeSizeLine(s, Print(n, 16), lim) ==
            s.(chunkRemaining := n, phase := if n == 0 then ChunkTrailer else ChunkData)
  {
    hide Print, ChunkLengthOf, BodyFits;
    SizeLine(n);
  }

  lemma NoNewline(n: nat)
    ensures '\n' !in Print(n, 16)
  {
  }

  lemma RunChunkEnd(s: State, lim: Limits)
    requires s.phase == ChunkDataEnd
    ensures Run(s, CRLF, lim) == s.(phase := ChunkSize)
  {
    RunLast(s, "\r", '\n', lim);
    RunLast(s, "", '\r', lim);
    assert "" + ['\r'] == "\r";
    assert "\r" + ['\n'] == CRLF;
  }

  lemma RunChunk(s: State, c: string, lim: Limits)
    requires s.phase == ChunkSize && s.line == "" && s.chunkRemaining == 0
    requires 0 < |c| < TWO64 && BodyFits(s, |c|, lim)
    ensures Run(s, EncodeChunk(c), lim) == s.(body := s.body + c)
  {
    hide Step, Run, BodyFits, Print;
    var a := Print(|c|, 16) + CRLF;
    assert EncodeChunk(c) == (a + c) + CRLF;
    RunSizeLine(s, |c|, lim);
    RunAppend(s, a, c, lim);
    RunData(Run(s, a, lim), c, lim);
    RunAppend(s, a + c, CRLF, lim);
    RunChunkEnd(Run(s, a + c, lim), lim);
  }

  lemma RunTrailerEnd(s: State, lim: Limits)
    requires s.phase == ChunkTrailer && s.line == ""
    ensures Run(s, CRLF, lim) == EndTrailers(s)
    ensures Used(s, CRLF, lim) == 2
  {
    hide Run, Used;
    RunLast(s, "\r", '\n', lim);
    OneByte(s, '\r', lim);
    assert "\r" + ['\n'] == CRLF;
    UsedAppend(s, "\r", "\n", lim);
    OneByte(Run(s, "\r", lim), '\n', lim);
  }

  lemma {:induction false} ParserUndoes(s: State, chunks: seq<string>, lim: Limits)
    requires s.phase == ChunkSize && s.line == "" && s.chunkRemaining == 0
    requires Sendable(chunks)
    requires lim.maxBody == 0 || |s.body| + |Concat(chunks)| <= lim.maxBody < TWO64
    ensures Run(s, Encode(chunks), lim) == EndTrailers(s.(body := s.body + Concat(chunks), phase := ChunkTrailer))
    ensures Used(s, Encode(chunks), lim) == |Encode(chunks)|
    decreases chunks
  {
    hide Step, Run, Used, EncodeChunk, Print;
    if chunks == [] {
      assert Print(0, 16) == "0" by { OneDigit(); }
      RunSizeLine(s, 0, lim);
      var t := Run(s, "0" + CRLF, lim);
      RunAppend(s, "0" + CRLF, CRLF, lim);
      RunTrailerEnd(t, lim);
      UsedAppend(s, "0" + CRLF, CRLF, lim);
      assert s.body + "" == s.body;
    } else {
      var c, rest := chunks[0], chunks[1..];
      RunChunk(s, c, lim);
      var t := Run(s, EncodeChunk(c), lim);
      RunAppend(s, EncodeChunk(c), Encode(rest), lim);
      UsedAppend(s, EncodeChunk(c), Encode(rest), lim);
      ParserUndoes(t, rest, lim);
      assert (s.body + c) + Concat(rest) == s.body + Concat(chunks);
    }
  }

  // ---------------------------------------------------------------------
  // A request that breaks the body cap
  // ---------------------------------------------------------------------

  const CHUNKED_HEAD: string := "POST / HTTP/1.1" + "\r\n" + ("Transfer-Encoding: chunked" + "\r\n") + "\r\n"
  const WRAPPING: string := CHUNKED_HEAD + "1\r\nx\r\n" + "-1\r\n"

  /**
   * The sum can wrap: after one body byte the line "-1" announces 2^64 - 1 more,
   * and is accepted under any body cap.
   */
  lemma WrappingExample(lim: Limits)
    requires 0 < lim.maxBody < TWO64 && (lim.maxHeader == 0 || lim.maxHeader >= 64)
    ensures var t := Run(Fresh(), WRAPPING, lim);
            t.phase == ChunkData && t.body == "x" && t.chunkRemaining == TWO64 - 1 && !Capped(t, lim)
  {
    hide Run, Step, EncodeChunk, TakeSizeLine;
    var head := CHUNKED_HEAD;
    ChunkedHeadRuns(lim);
    var s := Run(Fresh(), head, lim);
    RunAppend(Fresh(), head, "1\r\nx\r\n", lim);
    RunAppend(Fresh(), head + "1\r\nx\r\n", "-1\r\n", lim);
    OneByteChunk();
    RunChunk(s, "x", lim);
    var t := s.(body := s.body + "x");
    assert t.body == "x";
    assert "-1\r\n" == "-1\r" + "\n";
    SizeLineTaken(t, "-1\r", lim);
    assert ChopCR("-1\r") == "-1";
    MinusOneAccepted(t, lim);
  }

  lemma OneByteChunk()
    ensures EncodeChunk("x") == "1\r\nx\r\n"
  {
    OneDigit();
  }

  lemma MinusOneAccepted(s: State, lim: Limits)
    requires |s.body| == 1 && 0 < lim.maxBody
    ensures TakeSizeLine(s, "-1", lim) == s.(chunkRemaining := TWO64 - 1, phase := ChunkData)
  {
    var line := "-1";
    assert WithoutExtension(line) == line;
    assert ScanDigits(line, 2, 16, 1) == (1, 2);
    assert Scan(line, 16) == Scanned(true, true, 1, 2);
    assert (1 + (TWO64 - 1)) % TWO64 == 0;
  }

  lemma ChunkedHeadRuns(lim: Limits)
    requires lim.maxHeader == 0 || lim.maxHeader >= 64
    ensures var s := Run(Fresh(), CHUNKED_HEAD, lim);
            && s.phase == ChunkSize && s.chunked && s.line == "" && s.body == "" && s.chunkRemaining == 0
  {
    var fs := [Field("Transfer-Encoding", "chunked")];
    var m := Message(POST, "/", "HTTP/1.1", fs, "");
    ChunkedHeadText(m);
    ChunkedFieldClean();
    assert ' ' !in "/" && '\n' !in "/";
    hide *;
    HeadRuns(m, lim);
    HeadedFacts(m);
    ChunkedFieldsHeld(fs);
    HeadedHeaders(m);
    ChunkedHeadEnds(Headed(m).(headerBytes := |Head(m)|), lim);
  }

  lemma HeadedHeaders(m: Message)
    ensures Headed(m).headers == AddAll(map[], m.fields) && !Headed(m).chunked && Headed(m).chunkRemaining == 0
  {
    hide ParsedLine, AddAll, Head;
  }

  lemma ChunkedHeadText(m: Message)
    requires m == Message(POST, "/", "HTTP/1.1", [Field("Transfer-Encoding", "chunked")], "")
    ensures Head(m) == CHUNKED_HEAD && |Head(m)| <= 64
    ensures RealMethod(m.verb) && KnownVersion(m.version) && |m.fields| == 1
  {
    hide LineText, RenderField;
    ChunkedLine();
    ChunkedField();
    assert m.fields[1..] == [];
    var field := "Transfer-Encoding: chunked" + "\r\n";
    assert Render(m.fields) == field + "";
    assert field + "" == field;
  }

  lemma ChunkedLine()
    ensures LineText(POST, "/", "HTTP/1.1") == "POST / HTTP/1.1"
  {
    assert "POST" + " " == "POST ";
    assert "POST " + "/" == "POST /";
    assert "POST /" + " " == "POST / ";
  }

  lemma ChunkedField()
    ensures RenderField(Field("Transfer-Encoding", "chunked")) == "Transfer-Encoding: chunked" + "\r\n"
  {
    assert "Transfer-Encoding" + ": " + "chunked" == "Transfer-Encoding: chunked";
  }

  lemma ChunkedFieldClean()
    ensures CleanField(Field("Transfer-Encoding", "chunked"))
  {
  }

  lemma ChunkedFieldsHeld(fs: seq<Field>)
    requires fs == [Field("Transfer-Encoding", "chunked")]
    ensures Lookup(AddAll(map[], fs), "Transfer-Encoding") == Some("chunked")
    ensures Lookup(AddAll(map[], fs), "Content-Length") == None
  {
    hide Lower;
    assert fs[1..] == [];
    NamesApart();
  }

  lemma NamesApart()
    ensures Lower("Content-Length") != Lower("Transfer-Encoding")
  {
    assert |Lower("Content-Length")| != |Lower("Transfer-Encoding")|;
  }

  lemma ChunkedHeadEnds(s: State, lim: Limits)
    requires Lookup(s.headers, "Transfer-Encoding") == Some("chunked")
    requires Lookup(s.headers, "Content-Length") == None
    ensures EndHeaders(s, lim) == s.(chunked := true, phase := ChunkSize)
  {
    hide Lookup;
    assert Lower("chunked") == "chunked";
    assert OccursAt("chunked", "chunked", 0) by {
      assert "chunked"[0..7] == "chunked";
    }
  }
}
