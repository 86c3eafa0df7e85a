// What is written part by part is read back part by part, for any part data
// that does not hold the closing delimiter (section 5.1.1 of RFC 2046).
module MultipartRoundTrip {
  import opened Common
  import opened Multipart
  import opened Splitting
  import opened Text

  /** A part as its sender sees it. */
  datatype Part = Part(name: string, filename: string, contentType: string, data: string)

  predicate Plain(s: string) { ';' !in s && '\n' !in s }

  ghost predicate Lacks(s: string, pat: string) {
    forall i: nat :: !OccursAt(s, pat, i)
  }

  /** Names that fit in a disposition line, and data that does not hold the closing delimiter. */
  ghost predicate Fits(p: Part, b: string) {
    && Plain(p.name) && Plain(p.filename)
    && '\n' !in p.contentType && Trimmed(p.contentType)
    && Lacks(p.data, Closing(b))
  }

  function Disposition(p: Part): string {
    "form-data; name=\"" + p.name + "\"" + if p.filename == "" then "" else "; filename=\"" + p.filename + "\""
  }

  const DISPOSITION: string := "Content-Disposition"
  const TYPE: string := "Content-Type"

  function DispositionLine(p: Part): string { DISPOSITION + ": " + Disposition(p) }

  function TypeLine(p: Part): string { TYPE + ": " + p.contentType }

  function HeadingText(p: Part): string {
    DispositionLine(p) + CRLF + (if p.contentType == "" then "" else TypeLine(p) + CRLF) + CRLF
  }

  /** Everything after a delimiter. */
  function PartsText(parts: seq<Part>, b: string, epilogue: string): string {
    if parts == [] then "--" + epilogue
    else CRLF + HeadingText(parts[0]) + parts[0].data + Closing(b) + PartsText(parts[1..], b, epilogue)
  }

  function BodyText(preamble: string, parts: seq<Part>, b: string, epilogue: string): string {
    preamble + Delimiter(b) + PartsText(parts, b, epilogue)
  }

  /** What the receiver is to see: files in order, fields by name, the last of a name winning. */
  function Collect(parts: seq<Part>, d: Data): Data {
    if parts == [] then d
    else
      var p := parts[0];
      Collect(parts[1..],
              if p.filename != "" || p.contentType != "" then
                d.(files := d.files + [FilePart(p.name, p.filename, p.contentType, p.data)])
              else if p.name != "" then d.(fields := d.fields[p.name := p.data])
              else d)
  }

  // ---------------------------------------------------------------------
  // Searching
  // ---------------------------------------------------------------------

  /** A pattern whose first character does not come again in it cannot overlap itself. */
  predicate SelfFree(pat: string) {
    pat != "" && pat[0] !in pat[1..]
  }

  /** So it is found where it was put, right after text that lacks it. */
  lemma FindPut(before: string, data: string, pat: string, rest: string)
    requires SelfFree(pat) && Lacks(data, pat)
    ensures FindSub(before + data + pat + rest, pat, |before|) == |before| + |data|
  {
    hide FindSub;
    var s := before + data + pat + rest;
    var at := |before| + |data|;
    assert OccursAt(s, pat, at);
    forall k | |before| <= k < at
      ensures !OccursAt(s, pat, k)
    {
      var j := at - k;
      if j < |pat| {
        assert pat[1..][j - 1] == pat[j];
        assert k + |pat| <= |s| ==> s[k..k + |pat|][j] == s[at];
        assert s[at] == pat[0];
      } else {
        var x := k - |before|;
        assert data[x..x + |pat|] == s[k..k + |pat|];
        assert !OccursAt(data, pat, x);
      }
    }
  }

  lemma ClosingSelfFree(b: string)
    requires '\r' !in b
    ensures SelfFree(Closing(b))
  {
    var pat := Closing(b);
    assert pat[1..] == "\n--" + b;
  }

  lemma LineLacksBreak(line: string)
    requires '\n' !in line
    ensures Lacks(line, CRLF)
  {
    forall i: nat
      ensures !OccursAt(line, CRLF, i)
    {
      assert i + 2 <= |line| ==> line[i..i + 2][1] == line[i + 1];
    }
  }

  // ---------------------------------------------------------------------
  // Header lines
  // ---------------------------------------------------------------------

  lemma FieldRead(h: Heading, name: string, val: string)
    requires ':' !in name && Trimmed(name) && Trimmed(val)
    ensures IEqual(name, DISPOSITION) ==> Read(h, name + ": " + val) == h.(disposition := val)
    ensures !IEqual(name, DISPOSITION) && IEqual(name, TYPE) ==> Read(h, name + ": " + val) == h.(contentType := val)
  {
    hide Find, Trim, IEqual;
    var line := name + ": " + val;
    assert line == name + [':'] + (" " + val);
    FindAfter(name, ':', " " + val);
    assert line[..|name|] == name && line[|name| + 1..] == " " + val;
    TrimKeeps(name);
    TrimKeeps(val);
  }

  /** A line of a heading is read and the cursor moves past it. */
  lemma LineRead(before: string, line: string, rest: string, h: Heading)
    requires '\n' !in line
    ensures var body := before + line + CRLF + rest;
            ReadHeading(body, |before|, h) ==
            if line == "" then Some((h, |before| + 2))
            else ReadHeading(body, |before + line + CRLF|, Read(h, line))
  {
    hide FindSub, Read;
    var body := before + line + CRLF + rest;
    LineLacksBreak(line);
    FindPut(before, line, CRLF, rest);
    assert body[|before|..|before| + |line|] == line;
  }

  lemma DispositionRead(before: string, p: Part, rest: string)
    requires Plain(p.name) && Plain(p.filename)
    ensures var next := before + DispositionLine(p) + CRLF;
            ReadHeading(next + rest, |before|, Heading("", "")) ==
            ReadHeading(next + rest, |next|, Heading(Disposition(p), ""))
  {
    hide ReadHeading, Read, Disposition, IEqual;
    DispositionIsClean(p);
    NamesApart();
    FieldRead(Heading("", ""), DISPOSITION, Disposition(p));
    LineRead(before, DispositionLine(p), rest, Heading("", ""));
  }

  lemma TypeRead(before: string, p: Part, rest: string, h: Heading)
    requires '\n' !in p.contentType && Trimmed(p.contentType)
    ensures var next := before + TypeLine(p) + CRLF;
            ReadHeading(next + rest, |before|, h) == ReadHeading(next + rest, |next|, h.(contentType := p.contentType))
  {
    hide ReadHeading, Read, IEqual;
    NamesApart();
    FieldRead(h, TYPE, p.contentType);
    LineRead(before, TypeLine(p), rest, h);
  }

  lemma HeadingRead(before: string, p: Part, rest: string)
    requires Plain(p.name) && Plain(p.filename) && '\n' !in p.contentType && Trimmed(p.contentType)
    ensures ReadHeading(before + HeadingText(p) + rest, |before|, Heading("", "")) ==
            Some((Heading(Disposition(p), p.contentType), |before + HeadingText(p)|))
  {
    hide ReadHeading, Disposition, DispositionLine, TypeLine, Plain, Trimmed;
    var body := before + HeadingText(p) + rest;
    var typed := if p.contentType == "" then "" else TypeLine(p) + CRLF;
    var first := before + DispositionLine(p) + CRLF;
    DispositionRead(before, p, typed + CRLF + rest);
    assert body == first + (typed + CRLF + rest);
    if p.contentType != "" {
      TypeRead(first, p, CRLF + rest, Heading(Disposition(p), ""));
      assert body == first + TypeLine(p) + CRLF + (CRLF + rest);
      assert first + TypeLine(p) + CRLF == first + typed;
    }
    assert body == first + typed + "" + CRLF + rest;
    LineRead(first + typed, "", rest, Heading(Disposition(p), p.contentType));
    assert before + HeadingText(p) == first + typed + CRLF;
  }

  lemma NamesApart()
    ensures IEqual(DISPOSITION, DISPOSITION) && IEqual(TYPE, TYPE) && !IEqual(TYPE, DISPOSITION)
  {
    assert |Lower(TYPE)| != |Lower(DISPOSITION)|;
  }

  lemma DispositionIsClean(p: Part)
    requires '\n' !in p.name && '\n' !in p.filename
    ensures '\n' !in Disposition(p) && Trimmed(Disposition(p))
  {
    var d := Disposition(p);
    assert d[0] == 'f' && d[|d| - 1] == '"';
  }

  // ---------------------------------------------------------------------
  // Disposition parameters
  // ---------------------------------------------------------------------

  function Piece(key: string, val: string): string { " " + key + "=\"" + val + "\"" }

  /** Only the outer quotes and the first equals sign count. */
  lemma PieceRead(key: string, val: string, param: string)
    requires key != "" && '=' !in key && Trimmed(key)
    ensures Names(Piece(key, val), param) <==> IEqual(key, param)
    ensures Names(Piece(key, val), param) ==> ValueIn(Piece(key, val)) == val
  {
    hide Find, Trim, IEqual, Piece;
    PieceParts(key, val);
    var quoted := "\"" + val + "\"";
    assert quoted[1..|quoted| - 1] == val;
  }

  lemma PieceParts(key: string, val: string)
    requires key != "" && '=' !in key && Trimmed(key)
    ensures var p, quoted := Trim(Piece(key, val)), "\"" + val + "\"";
            && p == key + ['='] + quoted && Find(p, '=') == |key|
            && Trim(p[..|key|]) == key && Trim(p[|key| + 1..]) == quoted
  {
    hide Find, Trim;
    var quoted := "\"" + val + "\"";
    var p := key + ['='] + quoted;
    assert Piece(key, val) == " " + p;
    assert p[0] == key[0] && p[|p| - 1] == '"';
    TrimKeeps(p);
    TrimKeeps(key);
    TrimKeeps(quoted);
    FindAfter(key, '=', quoted);
    assert p[..|key|] == key && p[|key| + 1..] == quoted;
  }

  lemma DispositionPieces(p: Part)
    requires Plain(p.name) && Plain(p.filename)
    ensures SplitFrom(Disposition(p), ';', 0) ==
            ["form-data", Piece("name", p.name)] + if p.filename == "" then [] else [Piece("filename", p.filename)]
  {
    var n, f := Piece("name", p.name), Piece("filename", p.filename);
    DispositionText(p);
    PieceClean("name", p.name);
    PieceClean("filename", p.filename);
    hide *;
    var two := "form-data" + [';'] + n;
    if p.filename == "" {
      SplitTwo("form-data", n);
      assert Disposition(p) == two;
      assert ["form-data", n] + [] == ["form-data", n];
    } else {
      SplitThree("form-data", n, f);
      assert Disposition(p) == two + ([';'] + f);
    }
  }

  lemma DispositionText(p: Part)
    ensures Disposition(p) ==
            "form-data" + [';'] + Piece("name", p.name)
            + if p.filename == "" then "" else [';'] + Piece("filename", p.filename)
  {
  }

  lemma PieceClean(key: string, val: string)
    requires ';' !in key && Plain(val)
    ensures ';' !in Piece(key, val) && Piece(key, val) != ""
  {
  }

  lemma SplitTwo(a: string, b: string)
    requires ';' !in a && a != "" && ';' !in b && b != ""
    ensures SplitFrom(a + [';'] + b, ';', 0) == [a, b]
  {
    hide SplitFrom;
    SplitHead(a, ';', b);
    SplitHead(b, ';', "");
  }

  lemma SplitThree(a: string, b: string, c: string)
    requires ';' !in a && a != "" && ';' !in b && b != "" && ';' !in c && c != ""
    ensures SplitFrom(a + [';'] + b + ([';'] + c), ';', 0) == [a, b, c]
  {
    hide SplitFrom;
    SplitHead(a, ';', b + [';'] + c);
    assert a + [';'] + b + ([';'] + c) == a + [';'] + (b + [';'] + c);
    SplitTwo(b, c);
  }

  lemma ParamStep(pieces: seq<string>, piece: string, param: string)
    ensures ParamIn([piece] + pieces, param) == if Names(piece, param) then ValueIn(piece) else ParamIn(pieces, param)
  {
    hide Names, ValueIn;
    assert ([piece] + pieces)[1..] == pieces;
  }

  lemma NoEqualsNoName(s: string, param: string)
    requires '=' !in s && Trimmed(s)
    ensures !Names(s, param)
  {
    hide Find, Trim, IEqual;
    TrimKeeps(s);
  }

  /** The name and the file name come back, whatever quotes and equals signs they hold. */
  lemma ParamsRead(p: Part)
    requires Plain(p.name) && Plain(p.filename)
    ensures Param(Disposition(p), "name") == p.name
    ensures Param(Disposition(p), "filename") == p.filename
  {
    hide SplitFrom, Disposition, ParamIn, ValueIn, Find, Trim, IEqual, Plain, Piece;
    var n, f := Piece("name", p.name), Piece("filename", p.filename);
    DispositionPieces(p);
    KeysApart();
    var files := if p.filename == "" then [] else [f];
    forall param
      ensures Param(Disposition(p), param) ==
              if Names(n, param) then ValueIn(n) else ParamIn(files, param)
    {
      assert ["form-data", n] + files == ["form-data"] + ([n] + files);
      NoEqualsNoName("form-data", param);
      ParamStep([n] + files, "form-data", param);
      ParamStep(files, n, param);
    }
    PieceRead("name", p.name, "name");
    PieceRead("name", p.name, "filename");
    PieceRead("filename", p.filename, "filename");
    ParamStep([], f, "filename");
    assert [f] + [] == [f];
    NoParam("filename");
  }

  lemma NoParam(param: string)
    ensures ParamIn([], param) == ""
  {
  }

  lemma KeysApart()
    ensures IEqual("name", "name") && IEqual("filename", "filename") && !IEqual("name", "filename")
  {
    assert |Lower("name")| != |Lower("filename")|;
  }

  // ---------------------------------------------------------------------
  // The parts
  // ---------------------------------------------------------------------

  lemma AddPartRead(p: Part, d: Data)
    requires Plain(p.name) && Plain(p.filename)
    ensures Collect([p], d) == Add(d, Heading(Disposition(p), p.contentType), p.data)
  {
    hide Param, Disposition;
    ParamsRead(p);
  }

  lemma CollectStep(parts: seq<Part>, d: Data)
    requires parts != []
    ensures Collect(parts, d) == Collect(parts[1..], Collect([parts[0]], d))
  {
  }

  /** One part: the cursor moves past its closing delimiter, and the part is added. */
  lemma PartRead(before: string, p: Part, b: string, rest: string, d: Data)
    requires Fits(p, b) && '\r' !in b
    ensures var next := before + CRLF + HeadingText(p) + p.data + Closing(b);
            ReadParts(next + rest, b, |before|, d) == ReadParts(next + rest, b, |next|, Collect([p], d))
  {
    hide ReadParts, FindSub, Add, Collect, HeadingText, Fits, Lacks, Plain, Trimmed, Disposition, ReadHeading, Closing;
    FitsMeans(p, b);
    var start := before + CRLF;
    var data := start + HeadingText(p);
    var next := data + p.data + Closing(b);
    var body := next + rest;
    HeadingRead(start, p, p.data + Closing(b) + rest);
    assert body == start + HeadingText(p) + (p.data + Closing(b) + rest);
    ClosingSelfFree(b);
    CloseLength(b);
    FindPut(data, p.data, Closing(b), rest);
    assert body == data + p.data + Closing(b) + rest;
    assert body[|before|..|before| + 2] == CRLF;
    OnePart(body, b, |before|, d, Heading(Disposition(p), p.contentType), |data|, |data| + |p.data|);
    DataBetween(data, p.data, Closing(b), rest);
    AddPartRead(p, d);
  }

  /** One turn of the outer loop, its two searches known. */
  lemma OnePart(body: string, b: string, pos: nat, d: Data, h: Heading, start: nat, end: nat)
    requires pos + 2 <= |body| && body[pos..pos + 2] == CRLF
    requires ReadHeading(body, pos + 2, Heading("", "")) == Some((h, start))
    requires start <= end < |body| && FindSub(body, Closing(b), start) == end
    ensures end + |Closing(b)| <= |body|
    ensures ReadParts(body, b, pos, d) == ReadParts(body, b, end + |Closing(b)|, Add(d, h, body[start..end]))
  {
    hide ReadParts, ReadHeading, FindSub, Closing, Add;
    CloseLength(b);
    SkipsLine(body, pos);
    ReadPartsStep(body, b, pos, d);
  }

  lemma DataBetween(before: string, data: string, pat: string, rest: string)
    ensures (before + data + pat + rest)[|before|..|before| + |data|] == data
  {
  }

  lemma SkipsLine(body: string, pos: nat)
    requires pos + 2 <= |body| && body[pos..pos + 2] == CRLF
    ensures LineSkipped(body, pos) == pos + 2 && body[pos..pos + 2] != "--"
  {
    assert CRLF[0] != "--"[0];
  }

  lemma FitsMeans(p: Part, b: string)
    requires Fits(p, b)
    ensures Plain(p.name) && Plain(p.filename) && '\n' !in p.contentType && Trimmed(p.contentType)
    ensures Lacks(p.data, Closing(b))
  {
    hide Plain, Trimmed, Lacks, Closing;
  }

  lemma {:induction false} PartsRead(before: string, parts: seq<Part>, b: string, epilogue: string, d: Data)
    requires '\r' !in b && forall i | 0 <= i < |parts| :: Fits(parts[i], b)
    ensures ReadParts(before + PartsText(parts, b, epilogue), b, |before|, d) == Some(Collect(parts, d))
    decreases |parts|
  {
    hide Fits, HeadingText, Closing, Collect, ReadParts;
    var body := before + PartsText(parts, b, epilogue);
    if parts == [] {
      assert body[|before|..|before| + 2] == "--";
      ReadPartsStep(body, b, |before|, d);
      NothingCollected(d);
    } else {
      var p, rest := parts[0], PartsText(parts[1..], b, epilogue);
      var next := before + CRLF + HeadingText(p) + p.data + Closing(b);
      assert body == next + rest;
      PartRead(before, p, b, rest, d);
      PartsRead(next, parts[1..], b, epilogue, Collect([p], d));
      CollectStep(parts, d);
    }
  }

  lemma NothingCollected(d: Data)
    ensures Collect([], d) == d
  {
  }

  // ---------------------------------------------------------------------
  // The boundary
  // ---------------------------------------------------------------------

  /** A boundary that may be written bare, or between quotes. */
  predicate Announceable(b: string, quoted: bool) {
    b != "" && if quoted then '"' !in b else ';' !in b && Trimmed(b) && b[0] != '"'
  }

  const FORM: string := "multipart/form-data"

  function ContentTypeOf(b: string, quoted: bool): string {
    FORM + "; " + KEY + Announced(b, quoted)
  }

  function Announced(b: string, quoted: bool): string { if quoted then "\"" + b + "\"" else b }

  lemma BoundaryRead(b: string, quoted: bool)
    requires Announceable(b, quoted)
    ensures StartsWithI(ContentTypeOf(b, quoted), FORM)
    ensures Boundary(ContentTypeOf(b, quoted)) == b
  {
    hide FindSub, BoundaryValue, Boundary, Announced, Lower;
    var rest := Announced(b, quoted);
    var ct := FORM + "; " + KEY + rest;
    assert ct[..|FORM|] == FORM;
    KeyFound(rest);
    assert ct == "" + (FORM + "; ") + KEY + rest;
    assert ct[|FORM| + 2 + |KEY|..] == rest;
    BoundaryAt(ct, |FORM| + 2);
    ValueRead(b, quoted);
  }

  lemma BoundaryAt(contentType: string, found: nat)
    requires found < |contentType| && FindSub(contentType, KEY, 0) == found
    requires found > 0 && contentType[found - 1] == ' '
    ensures Boundary(contentType) == BoundaryValue(contentType[found + |KEY|..])
  {
    hide FindSub, BoundaryValue;
  }

  lemma ValueRead(b: string, quoted: bool)
    requires Announceable(b, quoted)
    ensures BoundaryValue(Announced(b, quoted)) == b
  {
    hide FindFrom, Find, Trim;
    if quoted {
      var rest := "\"" + b + "\"";
      FindPast("\"", b, "\"", '"');
      assert rest[1..1 + |b|] == b;
    } else {
      TrimKeeps(b);
      assert b[..|b|] == b;
    }
  }

  lemma KeyFound(rest: string)
    ensures FindSub("" + (FORM + "; ") + KEY + rest, KEY, 0) == |FORM| + 2
  {
    var lead := FORM + "; ";
    assert KEY[1..] == "oundary=";
    assert 'b' !in lead;
    forall i: nat
      ensures !OccursAt(lead, KEY, i)
    {
      assert i + |KEY| <= |lead| ==> lead[i..i + |KEY|][0] == lead[i];
    }
    FindPut("", lead, KEY, rest);
  }

  /** Nothing, or text that ends its last line and does not hold the delimiter. */
  ghost predicate Preamble(s: string, b: string) {
    s == "" || (|s| >= 2 && s[|s| - 2..] == CRLF && '\n' !in b && Lacks(s, Delimiter(b)))
  }

  lemma FirstDelimiter(preamble: string, b: string, rest: string)
    requires Preamble(preamble, b)
    ensures FindSub(preamble + Delimiter(b) + rest, Delimiter(b), 0) == |preamble|
  {
    hide FindSub;
    var s, pat := preamble + Delimiter(b) + rest, Delimiter(b);
    assert OccursAt(s, pat, |preamble|);
    forall k | 0 <= k < |preamble|
      ensures !OccursAt(s, pat, k)
    {
      var j := |preamble| - 1 - k;
      assert s[|preamble| - 1] == preamble[|preamble| - 2..][1] == '\n';
      assert '\n' !in pat;
      if j < |pat| {
        assert k + |pat| <= |s| ==> s[k..k + |pat|][j] == s[|preamble| - 1];
      } else {
        assert preamble[k..k + |pat|] == s[k..k + |pat|];
        assert !OccursAt(preamble, pat, k);
      }
    }
  }

  /**
   * The round trip: a body written with any parts whose data does not hold the
   * closing delimiter comes back as exactly those parts.
   */
  lemma MultipartRoundTrip(preamble: string, parts: seq<Part>, b: string, quoted: bool, epilogue: string)
    requires Announceable(b, quoted) && '\r' !in b && Preamble(preamble, b)
    requires forall i | 0 <= i < |parts| :: Fits(parts[i], b)
    ensures Parse(ContentTypeOf(b, quoted), BodyText(preamble, parts, b, epilogue)) == Some(Collect(parts, Data(map[], [])))
  {
    hide *;
    var text := PartsText(parts, b, epilogue);
    BoundaryRead(b, quoted);
    BoundaryNotEmpty(b, quoted);
    FirstDelimiter(preamble, b, text);
    PartsRead(preamble + Delimiter(b), parts, b, epilogue, Data(map[], []));
    ParseStarts(ContentTypeOf(b, quoted), preamble, b, text);
    BodyTextIs(preamble, parts, b, epilogue);
  }

  /** Once the boundary is known and its first delimiter found, the parts follow. */
  lemma ParseStarts(contentType: string, preamble: string, b: string, text: string)
    requires StartsWithI(contentType, FORM) && Boundary(contentType) == b && b != ""
    requires FindSub(preamble + Delimiter(b) + text, Delimiter(b), 0) == |preamble|
    ensures Parse(contentType, preamble + Delimiter(b) + text) ==
            ReadParts(preamble + Delimiter(b) + text, b, |preamble + Delimiter(b)|, Data(map[], []))
  {
    hide FindSub, Boundary, StartsWithI, ReadParts;
  }

  lemma BodyTextIs(preamble: string, parts: seq<Part>, b: string, epilogue: string)
    ensures BodyText(preamble, parts, b, epilogue) == preamble + Delimiter(b) + PartsText(parts, b, epilogue)
  {
    hide PartsText, Delimiter;
  }

  lemma BoundaryNotEmpty(b: string, quoted: bool)
    requires Announceable(b, quoted)
    ensures b != ""
  {
  }

  // ---------------------------------------------------------------------
  // Whatever the body
  // ---------------------------------------------------------------------

  ghost predicate AllLack(files: seq<FilePart>, b: string) {
    forall k | 0 <= k < |files| :: Lacks(files[k].data, Closing(b))
  }

  lemma {:induction false} ReadPartsLack(body: string, b: string, pos: nat, d: Data)
    requires pos <= |body|
    ensures var r := ReadParts(body, b, pos, d);
            AllLack(d.files, b) && r.Some? ==> AllLack(r.value.files, b)
    decreases |body| - pos
  {
    hide ReadParts, FindSub, ReadHeading, Lacks, Closing, Add;
    ReadPartsStep(body, b, pos, d);
    if !(pos + 2 > |body| || body[pos..pos + 2] == "--") {
      var head := ReadHeading(body, LineSkipped(body, pos), Heading("", ""));
      CloseLength(b);
      if head.Some? && FindSub(body, Closing(b), head.value.1) < |body| {
        var (h, start) := head.value;
        var end := FindSub(body, Closing(b), start);
        FoundDataLacks(body, Closing(b), start);
        AddedFiles(d, h, body[start..end]);
        ReadPartsLack(body, b, end + |Closing(b)|, Add(d, h, body[start..end]));
      }
    }
  }

  /** No file that any body yields holds the closing delimiter of that body. */
  lemma FilesLackClosing(contentType: string, body: string)
    ensures Parse(contentType, body).Some? ==> AllLack(Parse(contentType, body).value.files, Boundary(contentType))
  {
    hide Boundary, FindSub, ReadParts, StartsWithI, Lacks;
    var b := Boundary(contentType);
    var first := FindSub(body, Delimiter(b), 0);
    if first < |body| {
      ReadPartsLack(body, b, first + |Delimiter(b)|, Data(map[], []));
    }
  }

  lemma AddedFiles(d: Data, h: Heading, data: string)
    ensures Add(d, h, data).files == d.files || exists f: FilePart | f.data == data :: Add(d, h, data).files == d.files + [f]
  {
    hide Param;
  }

  lemma FoundDataLacks(s: string, pat: string, start: nat)
    requires pat != "" && start <= |s| && FindSub(s, pat, start) < |s|
    ensures Lacks(s[start..FindSub(s, pat, start)], pat)
  {
    hide FindSub;
    var end := FindSub(s, pat, start);
    forall i: nat
      ensures !OccursAt(s[start..end], pat, i)
    {
      assert i + |pat| <= end - start ==> s[start..end][i..i + |pat|] == s[start + i..start + i + |pat|];
      assert i + |pat| <= end - start ==> !OccursAt(s, pat, start + i);
    }
  }
}
