// Route patterns: splitting, compiling, and matching a path against compiled
// segments while binding parameters.
module Router {
  import opened Splitting
  import opened Text

  /** The pieces between slashes, empty ones left out. */
  function Split(s: string): seq<string> { SplitFrom(s, '/', 0) }

  method SplitPath(s: string) returns (out: seq<string>)
    ensures out == Split(s)
  {
    out := SplitView(s, '/');
  }

  function Render(parts: seq<string>): string {
    if parts == [] then "" else "/" + parts[0] + Render(parts[1..])
  }

  predicate Piece(p: string) { p != "" && '/' !in p }

  /** A rendered path splits back into its parts. */
  lemma {:induction false} SplitRender(parts: seq<string>)
    requires forall i | 0 <= i < |parts| :: Piece(parts[i])
    ensures Split(Render(parts)) == parts
  {
    hide SplitFrom;
    if parts == [] {
      SplitEnd("", '/');
    } else {
      var p, rest := parts[0], Render(parts[1..]);
      assert Piece(p);
      SplitRender(parts[1..]);
      SplitLead('/', p + rest);
      assert Render(parts) == ['/'] + (p + rest);
      if parts[1..] == [] {
        SplitHead(p, '/', "");
        assert p + rest == p;
      } else {
        var tail := parts[1] + Render(parts[1..][1..]);
        assert rest == ['/'] + tail;
        SplitLead('/', tail);
        SplitHead(p, '/', tail);
        assert p + rest == p + ['/'] + tail;
      }
    }
  }

  // ---------------------------------------------------------------------
  // Patterns
  // ---------------------------------------------------------------------

  datatype Seg = Static(text: string) | Param(text: string) | Wildcard(text: string)

  function SegOf(part: string): Seg
    requires part != ""
  {
    if part[0] == ':' then Param(part[1..])
    else if part[0] == '*' then Wildcard(part[1..])
    else Static(part)
  }

  function CompileParts(parts: seq<string>): (segs: seq<Seg>)
    requires forall i | 0 <= i < |parts| :: parts[i] != ""
    ensures WildcardLast(segs)
  {
    if parts == [] then []
    else
      var seg := SegOf(parts[0]);
      [seg] + if seg.Wildcard? then [] else CompileParts(parts[1..])
  }

  /** A wildcard eats the rest, so nothing follows it. */
  predicate WildcardLast(segs: seq<Seg>) {
    forall i | 0 <= i < |segs| - 1 :: !segs[i].Wildcard?
  }

  function Compile(pattern: string): (segs: seq<Seg>)
    ensures WildcardLast(segs)
  {
    CompileParts(Split(pattern))
  }

  method CompilePattern(pattern: string) returns (segs: seq<Seg>)
    ensures segs == Compile(pattern)
  {
    segs := [];
    if pattern == "" { return; }
    var parts := SplitPath(pattern);
    for i := 0 to |parts|
      invariant segs + CompileParts(parts[i..]) == CompileParts(parts)
    {
      var part := parts[i];
      assert parts[i..][1..] == parts[i + 1..];
      if part == "" { continue; }
      if part[0] == ':' {
        segs := segs + [Param(part[1..])];
      } else if part[0] == '*' {
        segs := segs + [Wildcard(part[1..])];
        break;
      } else {
        segs := segs + [Static(part)];
      }
    }
  }

  /** A segment as it is written in a pattern. */
  function PartOf(seg: Seg): string {
    match seg
    case Static(text) => text
    case Param(name) => ":" + name
    case Wildcard(name) => "*" + name
  }

  predicate Writable(seg: Seg) {
    match seg
    case Static(text) => Piece(text) && text[0] != ':' && text[0] != '*'
    case Param(name) => '/' !in name
    case Wildcard(name) => '/' !in name
  }

  function PartsOf(segs: seq<Seg>): (parts: seq<string>)
    ensures |parts| == |segs| && forall i | 0 <= i < |segs| :: parts[i] == PartOf(segs[i])
  {
    seq(|segs|, i requires 0 <= i < |segs| => PartOf(segs[i]))
  }

  predicate AllPieces(parts: seq<string>) { forall i | 0 <= i < |parts| :: Piece(parts[i]) }

  lemma PartsArePieces(segs: seq<Seg>, more: seq<string>)
    requires (forall seg | seg in segs :: Writable(seg)) && AllPieces(more)
    ensures AllPieces(PartsOf(segs) + more)
  {
    var parts := PartsOf(segs) + more;
    forall i | 0 <= i < |parts|
      ensures Piece(parts[i])
    {
      if i < |segs| {
        assert Writable(segs[i]) && parts[i] == PartOf(segs[i]);
      }
    }
  }

  lemma {:induction false} CompileParsed(segs: seq<Seg>, more: seq<string>, parts: seq<string>)
    requires (forall seg | seg in segs :: Writable(seg)) && WildcardLast(segs)
    requires parts == PartsOf(segs) + more && AllPieces(parts)
    requires more == [] || (segs != [] && segs[|segs| - 1].Wildcard?)
    ensures CompileParts(parts) == segs
    decreases segs
  {
    hide WildcardLast;
    if segs != [] {
      assert Writable(segs[0]);
      assert parts[0] == PartOf(segs[0]);
      assert SegOf(PartOf(segs[0])) == segs[0];
      if !segs[0].Wildcard? {
        RestWritable(segs);
        assert parts[1..] == PartsOf(segs[1..]) + more;
        CompileParsed(segs[1..], more, parts[1..]);
      } else {
        OnlyWildcard(segs);
      }
    }
  }

  lemma RestWritable(segs: seq<Seg>)
    requires segs != [] && WildcardLast(segs)
    ensures WildcardLast(segs[1..])
  {
  }

  lemma OnlyWildcard(segs: seq<Seg>)
    requires segs != [] && segs[0].Wildcard? && WildcardLast(segs)
    ensures segs == [segs[0]]
  {
  }

  /** Compiling a written pattern gives its segments; what follows a wildcard is dropped. */
  lemma CompileWritten(segs: seq<Seg>, more: seq<string>)
    requires (forall seg | seg in segs :: Writable(seg)) && WildcardLast(segs)
    requires AllPieces(more) && (more == [] || (segs != [] && segs[|segs| - 1].Wildcard?))
    ensures Compile(Render(PartsOf(segs) + more)) == segs
  {
    hide CompileParts, Render, Split;
    PartsArePieces(segs, more);
    CompileParsed(segs, more, PartsOf(segs) + more);
    SplitRender(PartsOf(segs) + more);
  }

  // ---------------------------------------------------------------------
  // Matching
  // ---------------------------------------------------------------------

  predicate Open(segs: seq<Seg>) { segs != [] && segs[|segs| - 1].Wildcard? }

  /** The relation, by position: static texts agree, and only a final wildcard may stand for several parts. */
  predicate Matches(parts: seq<string>, segs: seq<Seg>) {
    && (if Open(segs) then |parts| >= |segs| - 1 else |parts| == |segs|)
    && forall k | 0 <= k < |segs| && k < |parts| && segs[k].Static? :: parts[k] == segs[k].text
  }

  function JoinSlash(parts: seq<string>): string {
    if parts == [] then ""
    else if |parts| == 1 then parts[0]
    else JoinSlash(parts[..|parts| - 1]) + "/" + parts[|parts| - 1]
  }

  /** What the first `n` segments bind; a later binding of a name wins. */
  function Bindings(parts: seq<string>, segs: seq<Seg>, n: nat): map<string, string>
    requires n <= |segs| && n <= |parts| + 1
  {
    if n == 0 then map[]
    else
      var m := Bindings(parts, segs, n - 1);
      match segs[n - 1]
      case Static(_) => m
      case Param(name) => if n - 1 < |parts| then m[name := parts[n - 1]] else m
      case Wildcard(name) => m[name := JoinSlash(parts[n - 1..])]
  }

  /** A pattern without segments matches the root only. */
  predicate PathMatches(path: string, segs: seq<Seg>) {
    if segs == [] then path == "/" || path == "" else Matches(Split(path), segs)
  }

  method JoinRest(parts: seq<string>, from: nat) returns (rest: string)
    requires from <= |parts| && forall i | 0 <= i < |parts| :: parts[i] != ""
    ensures rest == JoinSlash(parts[from..])
  {
    rest := "";
    for i := from to |parts|
      invariant rest == JoinSlash(parts[from..i])
      invariant rest == "" <==> i == from
    {
      if rest != "" {
        rest := rest + "/";
      }
      rest := rest + parts[i];
      assert parts[from..i + 1][..i - from] == parts[from..i];
    }
    assert parts[from..|parts|] == parts[from..];
  }

  method MatchAndBind(path: string, segs: seq<Seg>) returns (ok: bool, params: map<string, string>)
    requires WildcardLast(segs)
    ensures ok <==> PathMatches(path, segs)
    ensures ok && segs != [] ==> |segs| <= |Split(path)| + 1 && params == Bindings(Split(path), segs, |segs|)
    ensures segs == [] ==> params == map[]
  {
    hide Split, JoinSlash;
    params := map[];
    if segs == [] {
      return path == "/" || path == "", params;
    }
    var parts := SplitPath(path);
    var i, j := 0, 0;
    while i < |parts| && j < |segs|
      invariant 0 <= i <= |parts| && 0 <= j <= |segs| && j <= |parts| + 1
      invariant i == j || (j == |segs| && i == |parts| && Open(segs) && |parts| >= |segs|)
      invariant forall k | 0 <= k < j && k < |parts| && segs[k].Static? :: parts[k] == segs[k].text
      invariant i < |parts| && j > 0 ==> !segs[j - 1].Wildcard?
      invariant params == Bindings(parts, segs, j)
      decreases |segs| - j
    {
      var seg := segs[j];
      match seg
      case Static(text) =>
        if parts[i] != text { return false, params; }
        i, j := i + 1, j + 1;
      case Param(name) =>
        params := params[name := parts[i]];
        i, j := i + 1, j + 1;
      case Wildcard(name) =>
        PartsNotEmpty(path);
        var rest := JoinRest(parts, i);
        params := params[name := rest];
        j := j + 1;
        i := |parts|;
    }
    if j < |segs| {
      if !(segs[j].Wildcard? && j + 1 == |segs|) {
        return false, params;
      }
      params := params[segs[j].text := ""];
      JoinNothing(parts, j);
      j := j + 1;
    }
    ok := i == |parts| && j == |segs|;
  }

  lemma PartsNotEmpty(path: string)
    ensures forall i | 0 <= i < |Split(path)| :: Split(path)[i] != ""
  {
  }

  lemma JoinNothing(parts: seq<string>, n: nat)
    requires n == |parts|
    ensures JoinSlash(parts[n..]) == ""
  {
    assert parts[n..] == [];
  }

  // ---------------------------------------------------------------------
  // A rendered pattern matches, with its own arguments
  // ---------------------------------------------------------------------

  predicate DistinctNames(segs: seq<Seg>) {
    forall i, j | 0 <= i < j < |segs| && !segs[i].Static? && !segs[j].Static? :: segs[i].text != segs[j].text
  }

  /** Arguments: one piece for each segment but a wildcard, and the pieces a wildcard stands for. */
  datatype Args = Args(pieces: seq<string>, rest: seq<string>)

  predicate Fits(segs: seq<Seg>, a: Args) {
    && |a.pieces| == (if Open(segs) then |segs| - 1 else |segs|)
    && (forall k | 0 <= k < |a.pieces| :: Piece(a.pieces[k]) && (segs[k].Static? ==> a.pieces[k] == segs[k].text))
    && (forall k | 0 <= k < |a.rest| :: Piece(a.rest[k]))
    && (!Open(segs) ==> a.rest == [])
  }

  /** Every parameter is bound to its own argument, and nothing else is bound. */
  lemma {:induction false} BindingsAre(parts: seq<string>, segs: seq<Seg>, n: nat, k: nat)
    requires n <= |segs| && n <= |parts| + 1 && k < n
    requires DistinctNames(segs) && WildcardLast(segs)
    ensures segs[k].Param? && k < |parts| ==>
              segs[k].text in Bindings(parts, segs, n) && Bindings(parts, segs, n)[segs[k].text] == parts[k]
    ensures segs[k].Wildcard? ==>
              segs[k].text in Bindings(parts, segs, n) && Bindings(parts, segs, n)[segs[k].text] == JoinSlash(parts[k..])
  {
    hide JoinSlash;
    if k < n - 1 {
      BindingsAre(parts, segs, n - 1, k);
    }
  }

  lemma {:induction false} OnlyNamesBound(parts: seq<string>, segs: seq<Seg>, n: nat, name: string)
    requires n <= |segs| && n <= |parts| + 1 && name in Bindings(parts, segs, n)
    ensures exists k | 0 <= k < n :: !segs[k].Static? && segs[k].text == name
  {
    hide JoinSlash;
    if name in Bindings(parts, segs, n - 1) {
      OnlyNamesBound(parts, segs, n - 1, name);
    } else {
      assert !segs[n - 1].Static? && segs[n - 1].text == name;
    }
  }

  lemma RenderedMatches(segs: seq<Seg>, a: Args)
    requires segs != [] && WildcardLast(segs) && Fits(segs, a)
    ensures Split(Render(a.pieces + a.rest)) == a.pieces + a.rest
    ensures PathMatches(Render(a.pieces + a.rest), segs)
  {
    hide Split, Render;
    var parts := a.pieces + a.rest;
    forall i | 0 <= i < |parts|
      ensures Piece(parts[i])
    {
      assert i >= |a.pieces| ==> parts[i] == a.rest[i - |a.pieces|];
    }
    SplitRender(parts);
  }

  /**
   * Matching a pattern rendered with arguments returns exactly those arguments,
   * the wildcard's pieces joined again, and binds nothing else.
   */
  lemma MatchRendered(segs: seq<Seg>, a: Args, k: nat, name: string)
    requires segs != [] && WildcardLast(segs) && DistinctNames(segs) && Fits(segs, a) && k < |segs|
    ensures PathMatches(Render(a.pieces + a.rest), segs)
    ensures var parts := Split(Render(a.pieces + a.rest));
            && |segs| <= |parts| + 1
            && var params := Bindings(parts, segs, |segs|);
               && (segs[k].Param? ==> segs[k].text in params && params[segs[k].text] == a.pieces[k])
               && (segs[k].Wildcard? ==> segs[k].text in params && params[segs[k].text] == JoinSlash(a.rest))
               && (name in params ==> exists j | 0 <= j < |segs| :: !segs[j].Static? && segs[j].text == name)
  {
    RenderedMatches(segs, a);
    hide Split, Render, Bindings, JoinSlash, Matches;
    var parts, n := a.pieces + a.rest, |segs|;
    BindingsAre(parts, segs, n, k);
    assert segs[k].Wildcard? ==> k == n - 1 && parts[k..] == a.rest;
    if name in Bindings(parts, segs, n) {
      OnlyNamesBound(parts, segs, n, name);
    }
  }

  /** Nothing else matches: a path that does consists of arguments for the segments. */
  lemma MatchedIsRendered(path: string, segs: seq<Seg>) returns (a: Args)
    requires segs != [] && WildcardLast(segs) && PathMatches(path, segs)
    ensures Fits(segs, a) && Split(path) == a.pieces + a.rest
  {
    hide SplitFrom;
    var parts := Split(path);
    var n := if Open(segs) then |segs| - 1 else |segs|;
    a := Args(parts[..n], parts[n..]);
    assert parts == a.pieces + a.rest;
    PiecesOf(path);
    forall k | 0 <= k < n && segs[k].Static?
      ensures a.pieces[k] == segs[k].text
    {
      assert parts[k] == segs[k].text;
    }
  }

  lemma PiecesOf(path: string)
    ensures forall k | 0 <= k < |Split(path)| :: Piece(Split(path)[k])
  {
  }

  /** The joined rest of a path is its text without the first slash. */
  lemma {:induction false} JoinedIsText(rest: seq<string>)
    requires rest != []
    ensures Render(rest) == "/" + JoinSlash(rest)
    decreases |rest|
  {
    if |rest| == 1 {
      assert rest[1..] == [];
      assert Render(rest[1..]) == "";
      assert "/" + rest[0] + "" == "/" + rest[0];
    } else {
      var init, last := rest[..|rest| - 1], rest[|rest| - 1];
      JoinedIsText(init);
      assert rest == init + [last];
      RenderSnoc(init, last);
      assert "/" + JoinSlash(init) + "/" + last == "/" + (JoinSlash(init) + "/" + last);
    }
  }

  lemma {:induction false} RenderSnoc(parts: seq<string>, last: string)
    ensures Render(parts + [last]) == Render(parts) + "/" + last
    decreases parts
  {
    if parts == [] {
      assert parts + [last] == [last];
      assert Render([]) == "";
      assert [last][1..] == [];
    } else {
      assert (parts + [last])[1..] == parts[1..] + [last];
      RenderSnoc(parts[1..], last);
    }
  }
}
