// What is not a form: other content types, boundaries that are not parameters,
// and bodies that break off.
module MultipartRefusals {
  import opened Common
  import opened Text
  import opened Multipart
  import opened MultipartRoundTrip

  // ---------------------------------------------------------------------
  // The content type
  // ---------------------------------------------------------------------

  /** Any other content type, in any letter case. */
  lemma OtherTypesRefused(contentType: string, body: string)
    requires |contentType| < 19 || Lower(contentType[..19]) != "multipart/form-data"
    ensures Parse(contentType, body) == None
  {
    hide Boundary, FindSub, ReadParts;
    FormLowered();
    assert |FORM| == 19;
  }

  lemma FormLowered()
    ensures Lower("multipart/form-data") == "multipart/form-data"
  {
  }

  /** The key stands at the beginning or after a separator: it names a parameter. */
  predicate ParameterAt(contentType: string, i: nat) {
    OccursAt(contentType, "boundary=", i) && (i == 0 || contentType[i - 1] in {';', ' ', '\t'})
  }

  lemma KeyLetters(s: string, i: nat)
    requires OccursAt(s, KEY, i)
    ensures i + 9 <= |s| && s[i] == 'b' && forall j | i < j < i + 9 :: s[j] != 'b'
  {
    assert |KEY| == 9;
    assert s[i] == s[i..i + 9][0];
    forall j | i < j < i + 9
      ensures s[j] != 'b'
    {
      assert s[j] == s[i..i + 9][j - i] == KEY[j - i];
    }
  }

  /** The key does not overlap itself. */
  lemma KeysApart(s: string, i: nat, j: nat)
    requires OccursAt(s, KEY, i) && OccursAt(s, KEY, j) && i < j
    ensures i + 9 <= j
  {
    KeyLetters(s, i);
    KeyLetters(s, j);
  }

  /** The boundary is read at the first place from `pos` on where the key names a parameter. */
  lemma {:induction false} ReadAtFirst(contentType: string, pos: nat, i: nat)
    requires pos <= i && ParameterAt(contentType, i)
    requires forall k | pos <= k < i :: !ParameterAt(contentType, k)
    ensures BoundaryFrom(contentType, pos) == BoundaryValue(contentType[i + 9..])
    decreases |contentType| - pos
  {
    hide FindSub, BoundaryValue;
    var found := FindSub(contentType, KEY, pos);
    assert |KEY| == 9;
    assert OccursAt(contentType, KEY, i);
    assert found <= i;
    if found < i {
      assert !ParameterAt(contentType, found);
      KeysApart(contentType, found, i);
      ReadAtFirst(contentType, found + |KEY|, i);
    }
  }

  lemma {:induction false} ReadNowhere(contentType: string, pos: nat)
    requires forall k: nat | pos <= k :: !ParameterAt(contentType, k)
    ensures BoundaryFrom(contentType, pos) == ""
    decreases |contentType| - pos
  {
    hide FindSub, BoundaryValue;
    var found := FindSub(contentType, KEY, pos);
    if pos < |contentType| && found < |contentType| {
      assert !ParameterAt(contentType, found);
      ReadNowhere(contentType, found + |KEY|);
    }
  }

  /** Only a parameter counts, and the first one. */
  lemma BoundaryIsParameter(contentType: string, body: string)
    ensures forall i: nat | ParameterAt(contentType, i) && (forall k: nat | k < i :: !ParameterAt(contentType, k)) ::
              Boundary(contentType) == BoundaryValue(contentType[i + 9..])
    ensures (forall k: nat :: !ParameterAt(contentType, k)) ==> Parse(contentType, body) == None
  {
    hide FindSub, BoundaryValue, BoundaryFrom, StartsWithI;
    forall i: nat | ParameterAt(contentType, i) && (forall k: nat | k < i :: !ParameterAt(contentType, k))
      ensures Boundary(contentType) == BoundaryValue(contentType[i + 9..])
    {
      ReadAtFirst(contentType, 0, i);
    }
    if forall k: nat :: !ParameterAt(contentType, k) {
      ReadNowhere(contentType, 0);
    }
  }

  // ---------------------------------------------------------------------
  // The body
  // ---------------------------------------------------------------------

  /** A body without its delimiter. */
  lemma NoDelimiterRefused(contentType: string, body: string)
    requires Lacks(body, Delimiter(Boundary(contentType)))
    ensures Parse(contentType, body) == None
  {
    hide Boundary, StartsWithI, ReadParts;
  }

  /** Whole parts, and then something that is not one. */
  function CutText(parts: seq<Part>, b: string, tail: string): string {
    if parts == [] then CRLF + tail
    else CRLF + HeadingText(parts[0]) + parts[0].data + Closing(b) + CutText(parts[1..], b, tail)
  }

  /** A heading that does not end, or data that does not. */
  ghost predicate Unfinished(tail: string, b: string) {
    || Lacks(tail, CRLF)
    || exists p: Part, data: string :: tail == HeadingText(p) + data && FitsButData(p) && Lacks(data, Closing(b))
  }

  predicate FitsButData(p: Part) {
    Plain(p.name) && Plain(p.filename) && '\n' !in p.contentType && Trimmed(p.contentType)
  }

  lemma LacksAfter(before: string, tail: string, pat: string)
    requires Lacks(tail, pat) && pat != ""
    ensures FindSub(before + tail, pat, |before|) == |before + tail|
  {
    hide FindSub;
    var s := before + tail;
    forall k: nat | |before| <= k
      ensures !OccursAt(s, pat, k)
    {
      assert !OccursAt(tail, pat, k - |before|);
      assert k + |pat| <= |s| ==> s[k..k + |pat|] == tail[k - |before|..k - |before| + |pat|];
    }
  }

  lemma TailRefused(before: string, b: string, tail: string, d: Data)
    requires Unfinished(tail, b)
    ensures ReadParts(before + CRLF + tail, b, |before|, d) == None
  {
    hide FindSub, ReadParts, Lacks, HeadingText, Closing, ReadHeading, Plain, Trimmed;
    var body := before + CRLF + tail;
    assert body[|before|..|before| + 2] == CRLF;
    if Lacks(tail, CRLF) {
      LacksAfter(before + CRLF, tail, CRLF);
      NoLineNoHeading(body, |before| + 2);
      NoHeadingRefused(body, b, |before|, d);
    } else {
      var p: Part, data: string :| tail == HeadingText(p) + data && FitsButData(p) && Lacks(data, Closing(b));
      DataRefused(before, p, b, data, d);
      assert before + CRLF + HeadingText(p) + data == body;
    }
  }

  lemma NoHeadingRefused(body: string, b: string, pos: nat, d: Data)
    requires pos + 2 <= |body| && body[pos..pos + 2] == CRLF && ReadHeading(body, pos + 2, Heading("", "")) == None
    ensures ReadParts(body, b, pos, d) == None
  {
    hide FindSub, ReadParts, ReadHeading;
    SkipsLine(body, pos);
    ReadPartsStep(body, b, pos, d);
  }

  lemma NoEndRefused(body: string, b: string, pos: nat, h: Heading, start: nat, d: Data)
    requires pos + 2 <= |body| && body[pos..pos + 2] == CRLF
    requires ReadHeading(body, pos + 2, Heading("", "")) == Some((h, start)) && FindSub(body, Closing(b), start) == |body|
    ensures ReadParts(body, b, pos, d) == None
  {
    hide FindSub, ReadParts, ReadHeading, Closing;
    SkipsLine(body, pos);
    ReadPartsStep(body, b, pos, d);
  }

  lemma DataRefused(before: string, p: Part, b: string, data: string, d: Data)
    requires FitsButData(p) && Lacks(data, Closing(b))
    ensures ReadParts(before + CRLF + HeadingText(p) + data, b, |before|, d) == None
  {
    hide FindSub, ReadParts, Lacks, HeadingText, Closing, ReadHeading, Plain, Trimmed, Disposition;
    var start := before + CRLF;
    var body := start + HeadingText(p) + data;
    assert body[|before|..|before| + 2] == CRLF;
    HeadingRead(start, p, data);
    CloseLength(b);
    LacksAfter(start + HeadingText(p), data, Closing(b));
    NoEndRefused(body, b, |before|, Heading(Disposition(p), p.contentType), |start + HeadingText(p)|, d);
  }

  lemma NoLineNoHeading(body: string, pos: nat)
    requires pos <= |body| && FindSub(body, CRLF, pos) == |body|
    ensures ReadHeading(body, pos, Heading("", "")) == None
  {
    hide FindSub;
  }

  lemma {:induction false} CutRead(before: string, parts: seq<Part>, b: string, tail: string, d: Data)
    requires '\r' !in b && Unfinished(tail, b) && forall i | 0 <= i < |parts| :: Fits(parts[i], b)
    ensures ReadParts(before + CutText(parts, b, tail), b, |before|, d) == None
    decreases |parts|
  {
    hide Fits, HeadingText, Closing, Collect, ReadParts, Unfinished;
    if parts == [] {
      TailRefused(before, b, tail, d);
      assert before + CRLF + tail == before + (CRLF + tail);
    } else {
      var p, rest := parts[0], CutText(parts[1..], b, tail);
      var next := before + CRLF + HeadingText(p) + p.data + Closing(b);
      assert before + CutText(parts, b, tail) == next + rest;
      PartRead(before, p, b, rest, d);
      CutRead(next, parts[1..], b, tail, Collect([p], d));
    }
  }

  /** A body that breaks off in a part is refused as a whole, however many parts came before. */
  lemma CutOffRefused(preamble: string, parts: seq<Part>, b: string, quoted: bool, tail: string)
    requires Announceable(b, quoted) && '\r' !in b && Preamble(preamble, b) && Unfinished(tail, b)
    requires forall i | 0 <= i < |parts| :: Fits(parts[i], b)
    ensures Parse(ContentTypeOf(b, quoted), preamble + Delimiter(b) + CutText(parts, b, tail)) == None
  {
    hide *;
    var text := CutText(parts, b, tail);
    BoundaryRead(b, quoted);
    BoundaryNotEmpty(b, quoted);
    FirstDelimiter(preamble, b, text);
    CutRead(preamble + Delimiter(b), parts, b, tail, Data(map[], []));
    ParseStarts(ContentTypeOf(b, quoted), preamble, b, text);
  }
}
