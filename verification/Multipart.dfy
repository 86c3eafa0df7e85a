// multipart/form-data bodies: reading the boundary, the part headings and the
// part data, and what comes back from a body written part by part.
module Multipart {
  import opened Common
  import opened Splitting
  import opened Text

  datatype FilePart = FilePart(name: string, filename: string, contentType: string, data: string)

  datatype Data = Data(fields: map<string, string>, files: seq<FilePart>)

  /** What a part's header lines say. */
  datatype Heading = Heading(disposition: string, contentType: string)

  const KEY: string := "boundary="

  predicate StartsWithI(s: string, prefix: string) {
    |s| >= |prefix| && IEqual(s[..|prefix|], prefix)
  }

  // ---------------------------------------------------------------------
  // The boundary
  // ---------------------------------------------------------------------

  function BoundaryValue(rest: string): string {
    if rest != "" && rest[0] == '"' then
      var endq := FindFrom(rest, '"', 1);
      if endq == |rest| then "" else rest[1..endq]
    else
      Trim(rest[..Find(rest, ';')])
  }

  function BoundaryFrom(contentType: string, pos: nat): string
    decreases |contentType| - pos
  {
    if pos >= |contentType| then ""
    else
      var found := FindSub(contentType, KEY, pos);
      if found == |contentType| then ""
      else if found > 0 && contentType[found - 1] !in {';', ' ', '\t'} then BoundaryFrom(contentType, found + |KEY|)
      else BoundaryValue(contentType[found + |KEY|..])
  }

  function Boundary(contentType: string): string { BoundaryFrom(contentType, 0) }

  method ExtractBoundary(contentType: string) returns (b: string)
    ensures b == Boundary(contentType)
  {
    hide FindSub, FindFrom, Find, Trim;
    var pos := 0;
    while pos < |contentType|
      invariant BoundaryFrom(contentType, pos) == Boundary(contentType)
    {
      var found := FindSub(contentType, KEY, pos);
      if found == |contentType| { return ""; }
      if found > 0 {
        var prev := contentType[found - 1];
        if prev != ';' && prev != ' ' && prev != '\t' {
          pos := found + |KEY|;
          continue;
        }
      }
      var rest := contentType[found + |KEY|..];
      if rest != "" && rest[0] == '"' {
        var endq := FindFrom(rest, '"', 1);
        if endq == |rest| { return ""; }
        return rest[1..endq];
      }
      var semi := Find(rest, ';');
      return Trim(rest[..semi]);
    }
    return "";
  }

  // ---------------------------------------------------------------------
  // Content-Disposition parameters
  // ---------------------------------------------------------------------

  function Unquoted(val: string): string {
    if |val| >= 2 && val[0] == '"' && val[|val| - 1] == '"' then val[1..|val| - 1] else val
  }

  predicate Names(piece: string, param: string) {
    var p := Trim(piece);
    Find(p, '=') < |p| && IEqual(Trim(p[..Find(p, '=')]), param)
  }

  function ValueIn(piece: string): string
    requires Find(Trim(piece), '=') < |Trim(piece)|
  {
    var p := Trim(piece);
    Unquoted(Trim(p[Find(p, '=') + 1..]))
  }

  /** The value of the first piece that names the parameter. */
  function ParamIn(pieces: seq<string>, param: string): string {
    if pieces == [] then ""
    else if Names(pieces[0], param) then ValueIn(pieces[0])
    else ParamIn(pieces[1..], param)
  }

  function Param(value: string, param: string): string { ParamIn(SplitFrom(value, ';', 0), param) }

  method DispositionParam(value: string, param: string) returns (r: string)
    ensures r == Param(value, param)
  {
    hide SplitFrom, Find, Trim, IEqual;
    var pieces := SplitView(value, ';');
    for i := 0 to |pieces|
      invariant ParamIn(pieces[i..], param) == ParamIn(pieces, param)
    {
      assert pieces[i..][1..] == pieces[i + 1..];
      var piece := Trim(pieces[i]);
      var eq := Find(piece, '=');
      if eq == |piece| { continue; }
      var key := Trim(piece[..eq]);
      if !IEqual(key, param) { continue; }
      var val := Trim(piece[eq + 1..]);
      if |val| >= 2 && val[0] == '"' && val[|val| - 1] == '"' {
        val := val[1..|val| - 1];
      }
      return val;
    }
    return "";
  }

  // ---------------------------------------------------------------------
  // The parts
  // ---------------------------------------------------------------------

  function Delimiter(b: string): string { "--" + b }

  function Closing(b: string): string { CRLF + Delimiter(b) }

  /** What one header line adds to the heading. */
  function Read(h: Heading, line: string): Heading {
    var colon := Find(line, ':');
    if colon == |line| then h
    else
      var key, val := Trim(line[..colon]), Trim(line[colon + 1..]);
      if IEqual(key, "Content-Disposition") then h.(disposition := val)
      else if IEqual(key, "Content-Type") then h.(contentType := val)
      else h
  }

  /** The heading up to its empty line, and where the data starts. */
  function ReadHeading(body: string, pos: nat, h: Heading): (r: Option<(Heading, nat)>)
    requires pos <= |body|
    ensures r.Some? ==> pos + 2 <= r.value.1 <= |body|
    decreases |body| - pos
  {
    var eol := FindSub(body, CRLF, pos);
    if eol == |body| then None
    else if eol == pos then Some((h, eol + 2))
    else ReadHeading(body, eol + 2, Read(h, body[pos..eol]))
  }

  /** A part with a file name or a content type is a file; another one with a name is a field. */
  function Add(d: Data, h: Heading, data: string): Data {
    var name, filename := Param(h.disposition, "name"), Param(h.disposition, "filename");
    if filename != "" || h.contentType != "" then
      d.(files := d.files + [FilePart(name, filename, h.contentType, data)])
    else if name != "" then d.(fields := d.fields[name := data])
    else d
  }

  function LineSkipped(body: string, pos: nat): nat
    requires pos + 2 <= |body|
  {
    if body[pos..pos + 2] == CRLF then pos + 2 else pos
  }

  function ReadParts(body: string, b: string, pos: nat, d: Data): Option<Data>
    requires pos <= |body|
    decreases |body| - pos
  {
    if pos + 2 > |body| || body[pos..pos + 2] == "--" then Some(d)
    else
      match ReadHeading(body, LineSkipped(body, pos), Heading("", ""))
      case None => None
      case Some((h, start)) =>
        var end := FindSub(body, Closing(b), start);
        if end == |body| then None
        else ReadParts(body, b, end + |Closing(b)|, Add(d, h, body[start..end]))
  }

  function Parse(contentType: string, body: string): Option<Data> {
    var b := Boundary(contentType);
    if !StartsWithI(contentType, "multipart/form-data") || b == "" then None
    else
      var first := FindSub(body, Delimiter(b), 0);
      if first == |body| then None
      else ReadParts(body, b, first + |Delimiter(b)|, Data(map[], []))
  }

  /** The parser: a cursor moving through nested loops. */
  method ParseBody(contentType: string, body: string) returns (r: Option<Data>)
    ensures r == Parse(contentType, body)
  {
    hide Boundary, FindSub, ReadParts, StartsWithI;
    if !StartsWithI(contentType, "multipart/form-data") { return None; }
    var b := ExtractBoundary(contentType);
    if b == "" { return None; }
    var pos := FindSub(body, Delimiter(b), 0);
    if pos == |body| { return None; }
    r := CollectParts(body, b, pos + |Delimiter(b)|);
  }

  method CollectParts(body: string, b: string, from: nat) returns (r: Option<Data>)
    requires from <= |body|
    ensures r == ReadParts(body, b, from, Data(map[], []))
  {
    hide FindSub, ReadParts, ReadHeading, Add, Closing;
    var pos := from;
    var closing := Closing(b);
    assert closing != "" by { CloseLength(b); }
    var out := Data(map[], []);
    while true
      invariant pos <= |body|
      invariant ReadParts(body, b, pos, out) == ReadParts(body, b, from, Data(map[], []))
      decreases |body| - pos
    {
      ReadPartsStep(body, b, pos, out);
      if pos + 2 > |body| || body[pos..pos + 2] == "--" { break; }
      var head := ReadHeadingLines(body, LineSkipped(body, pos));
      if head.None? { return None; }
      var start := head.value.1;
      var end := FindSub(body, closing, start);
      if end == |body| { return None; }
      out := AddPart(out, head.value.0, body[start..end]);
      pos := end + |closing|;
    }
    return Some(out);
  }

  lemma CloseLength(b: string)
    ensures |Closing(b)| == 4 + |b|
  {
  }

  /** One turn of the outer loop, on the function. */
  lemma ReadPartsStep(body: string, b: string, pos: nat, d: Data)
    requires pos <= |body|
    ensures pos + 2 > |body| || body[pos..pos + 2] == "--" ==> ReadParts(body, b, pos, d) == Some(d)
    ensures !(pos + 2 > |body| || body[pos..pos + 2] == "--") ==>
              var head := ReadHeading(body, LineSkipped(body, pos), Heading("", ""));
              ReadParts(body, b, pos, d) ==
                if head.None? then None
                else
                  var end := FindSub(body, Closing(b), head.value.1);
                  if end == |body| then None
                  else ReadParts(body, b, end + |Closing(b)|, Add(d, head.value.0, body[head.value.1..end]))
  {
    hide FindSub, ReadHeading, Add;
  }

  method ReadHeadingLines(body: string, from: nat) returns (r: Option<(Heading, nat)>)
    requires from <= |body|
    ensures r == ReadHeading(body, from, Heading("", ""))
  {
    hide FindSub, Find, Trim, IEqual;
    var pos := from;
    var disposition, contentType := "", "";
    while true
      invariant pos <= |body|
      invariant ReadHeading(body, pos, Heading(disposition, contentType)) == ReadHeading(body, from, Heading("", ""))
      decreases |body| - pos
    {
      var eol := FindSub(body, CRLF, pos);
      if eol == |body| { return None; }
      var line := body[pos..eol];
      pos := eol + 2;
      if line == "" { return Some((Heading(disposition, contentType), pos)); }
      var colon := Find(line, ':');
      if colon == |line| { continue; }
      var key := Trim(line[..colon]);
      var val := Trim(line[colon + 1..]);
      if IEqual(key, "Content-Disposition") {
        disposition := val;
      } else if IEqual(key, "Content-Type") {
        contentType := val;
      }
    }
  }

  method AddPart(d: Data, h: Heading, data: string) returns (out: Data)
    ensures out == Add(d, h, data)
  {
    hide Param;
    var name := DispositionParam(h.disposition, "name");
    var filename := DispositionParam(h.disposition, "filename");
    out := d;
    if filename != "" || h.contentType != "" {
      out := out.(files := out.files + [FilePart(name, filename, h.contentType, data)]);
    } else if name != "" {
      out := out.(fields := out.fields[name := data]);
    }
  }
}
