// The client's one-shot chunked decoder, with the 64-bit position it computes:
// where it decodes, where it stops, and where it never stops.
module Dechunk {
  import opened Common
  import opened Text
  import opened HttpParser
  import opened Chunked

  /** `stoul(size_line, nullptr, 16)`; None where it throws. */
  function SizeOf(line: string): (r: Option<nat>)
    ensures r.Some? ==> r.value < TWO64
  {
    var sc := Scan(WithoutExtension(line), 16);
    if !sc.any || sc.magnitude >= TWO64 then None
    else Some(if sc.neg then (TWO64 - sc.magnitude) % TWO64 else sc.magnitude)
  }

  /** The loop's variables; `done` once it has left the loop. */
  datatype Cursor = Cursor(pos: nat, out: string, done: bool)

  const START: Cursor := Cursor(0, "", false)

  function SkipCRLF(raw: string, pos: nat): (p: nat)
    requires pos <= |raw|
    ensures pos <= p <= |raw|
  {
    if OccursAt(raw, CRLF, pos) then pos + 2 else pos
  }

  /** `raw.substr(p, n)`, which stops at the end of the text. */
  function Slice(raw: string, p: nat, n: nat): string
    requires p <= |raw|
  {
    raw[p..if p + n <= |raw| then p + n else |raw|]
  }

  /** The size announced at `pos` and where its payload starts; None where there is no more to decode. */
  function Announced(raw: string, pos: nat): (r: Option<(nat, nat)>)
    requires pos <= |raw|
    ensures r.Some? ==> pos < r.value.0 <= |raw| && 0 < r.value.1 < TWO64
  {
    var eol := FindSub(raw, CRLF, pos);
    if eol == |raw| then None
    else
      var size := SizeOf(raw[pos..eol]);
      if size.None? || size.value == 0 then None else Some((eol + 2, size.value))
  }

  /** One turn of the loop; the end of the chunk is computed in 64 bits. */
  function Turn(raw: string, c: Cursor): (d: Cursor)
    requires c.pos <= |raw|
    ensures d.pos <= |raw|
  {
    if c.done then c
    else
      match Announced(raw, c.pos)
      case None => c.(done := true)
      case Some((p, n)) =>
        var end := (p + n) % TWO64;
        if end > |raw| then c.(done := true)
        else Cursor(SkipCRLF(raw, end), c.out + Slice(raw, p, n), false)
  }

  function Turns(raw: string, c: Cursor, k: nat): (d: Cursor)
    requires c.pos <= |raw|
    ensures d.pos <= |raw|
  {
    if k == 0 then c else Turn(raw, Turns(raw, c, k - 1))
  }

  /** At most `turns` turns of the loop. */
  method Decode(raw: string, turns: nat) returns (pos: nat, out: string, done: bool)
    requires |raw| < TWO64
    ensures Cursor(pos, out, done) == Turns(raw, START, turns)
  {
    hide SizeOf, FindSub, SkipCRLF, Slice, Turn;
    pos, out, done := 0, "", false;
    for i := 0 to turns
      invariant pos <= |raw| && Cursor(pos, out, done) == Turns(raw, START, i)
    {
      if !done {
        TurnIs(raw, Cursor(pos, out, done));
        pos, out, done := DecodeChunk(raw, pos, out);
      } else {
        DoneStays(raw, Cursor(pos, out, done));
      }
    }
  }

  lemma TurnIs(raw: string, c: Cursor)
    requires c.pos <= |raw| && !c.done
    ensures Announced(raw, c.pos).None? ==> Turn(raw, c) == c.(done := true)
    ensures Announced(raw, c.pos).Some? ==>
              var (p, n) := Announced(raw, c.pos).value;
              var end := (p + n) % TWO64;
              Turn(raw, c) == if end > |raw| then c.(done := true)
                              else Cursor(SkipCRLF(raw, end), c.out + Slice(raw, p, n), false)
  {
    hide Announced, SkipCRLF, Slice;
  }

  lemma DoneStays(raw: string, c: Cursor)
    requires c.pos <= |raw| && c.done
    ensures Turn(raw, c) == c
  {
  }

  /** The body of the loop. */
  method DecodeChunk(raw: string, pos0: nat, out0: string) returns (pos: nat, out: string, done: bool)
    requires pos0 <= |raw| < TWO64
    ensures pos <= |raw| && Cursor(pos, out, done) == Turn(raw, Cursor(pos0, out0, false))
  {
    hide SizeOf, FindSub;
    pos, out, done := pos0, out0, true;
    if pos0 == |raw| { return; }
    var eol := FindSub(raw, CRLF, pos0);
    if eol == |raw| { return; }
    var size := SizeOf(raw[pos0..eol]);
    if size.None? { return; }
    var chunk := size.value;
    if chunk == 0 { return; }
    var p := eol + 2;
    var end := (p + chunk) % TWO64;
    if end > |raw| { return; }
    out := out + Slice(raw, p, chunk);
    pos := end;
    if OccursAt(raw, CRLF, pos) {
      pos := pos + 2;
    }
    done := false;
  }

  // ---------------------------------------------------------------------
  // Decoding without wrapping
  // ---------------------------------------------------------------------

  /** The same turn with unbounded positions: a chunk that does not fit ends the decoding. */
  function IdealTurn(raw: string, c: Cursor): (d: Cursor)
    requires c.pos <= |raw|
    ensures d.pos <= |raw|
  {
    if c.done then c
    else
      match Announced(raw, c.pos)
      case None => c.(done := true)
      case Some((p, n)) =>
        if p + n > |raw| then c.(done := true)
        else Cursor(SkipCRLF(raw, p + n), c.out + raw[p..p + n], false)
  }

  function IdealTurns(raw: string, c: Cursor, k: nat): (d: Cursor)
    requires c.pos <= |raw|
    ensures d.pos <= |raw|
  {
    if k == 0 then c else IdealTurn(raw, IdealTurns(raw, c, k - 1))
  }

  /** What decoding from `pos` on contributes. */
  function DechunkFrom(raw: string, pos: nat): string
    requires pos <= |raw|
    decreases |raw| - pos
  {
    match Announced(raw, pos)
    case None => ""
    case Some((p, n)) =>
      if p + n > |raw| then "" else raw[p..p + n] + DechunkFrom(raw, SkipCRLF(raw, p + n))
  }

  /** A size line at `pos` whose chunk would end beyond 64 bits. */
  predicate WrapsAt(raw: string, pos: nat)
    requires pos <= |raw|
  {
    Announced(raw, pos).Some? && Announced(raw, pos).value.0 + Announced(raw, pos).value.1 >= TWO64
  }

  predicate Wraps(raw: string, c: Cursor)
    requires c.pos <= |raw|
  {
    !c.done && WrapsAt(raw, c.pos)
  }

  /** A turn is the unbounded one exactly when its sum does not wrap. */
  lemma TurnIsIdeal(raw: string, c: Cursor)
    requires c.pos <= |raw| < TWO64
    ensures Turn(raw, c) == IdealTurn(raw, c) <==> !Wraps(raw, c)
  {
    hide Announced, SkipCRLF;
    if !c.done && Announced(raw, c.pos).Some? {
      var (p, n) := Announced(raw, c.pos).value;
      if p + n >= TWO64 {
        assert (p + n) % TWO64 == p + n - TWO64;
      } else {
        assert (p + n) % TWO64 == p + n;
      }
    }
  }

  lemma {:induction false} IdealUpTo(raw: string, k: nat)
    requires |raw| < TWO64
    requires forall i | 0 <= i < k :: !Wraps(raw, Turns(raw, START, i))
    ensures Turns(raw, START, k) == IdealTurns(raw, START, k)
  {
    hide Turn, IdealTurn, Wraps;
    if k > 0 {
      IdealUpTo(raw, k - 1);
      TurnIsIdeal(raw, Turns(raw, START, k - 1));
    }
  }

  lemma IdealAlways(raw: string, k: nat)
    requires |raw| < TWO64
    requires forall i: nat :: !Wraps(raw, Turns(raw, START, i))
    ensures Turns(raw, START, k) == IdealTurns(raw, START, k)
  {
    hide Turns, IdealTurns, Wraps;
    IdealUpTo(raw, k);
  }

  lemma NeverWraps(raw: string, k: nat)
    requires |raw| < TWO64
    requires Turns(raw, START, k) == IdealTurns(raw, START, k)
    requires Turns(raw, START, k + 1) == IdealTurns(raw, START, k + 1)
    ensures !Wraps(raw, Turns(raw, START, k))
  {
    hide Turn, IdealTurn, Wraps;
    TurnIsIdeal(raw, Turns(raw, START, k));
  }

  ghost predicate AlwaysIdeal(raw: string) {
    forall k: nat :: Turns(raw, START, k) == IdealTurns(raw, START, k)
  }

  ghost predicate NeverWrapping(raw: string) {
    forall k: nat :: !Wraps(raw, Turns(raw, START, k))
  }

  /** The loop goes as it would with unbounded positions exactly when no size line it reaches makes the sum wrap. */
  lemma LoopIsIdeal(raw: string)
    requires |raw| < TWO64
    ensures AlwaysIdeal(raw) <==> NeverWrapping(raw)
  {
    hide Turns, IdealTurns, Wraps;
    if NeverWrapping(raw) {
      forall k: nat
        ensures Turns(raw, START, k) == IdealTurns(raw, START, k)
      {
        IdealAlways(raw, k);
      }
    }
    if AlwaysIdeal(raw) {
      forall k: nat
        ensures !Wraps(raw, Turns(raw, START, k))
      {
        NeverWraps(raw, k);
      }
    }
  }

  /** What a cursor has decoded and will decode, unbounded. */
  function Whole(raw: string, c: Cursor): string
    requires c.pos <= |raw|
  {
    c.out + if c.done then "" else DechunkFrom(raw, c.pos)
  }

  lemma IdealStep(raw: string, c: Cursor)
    requires c.pos <= |raw|
    ensures var d := IdealTurn(raw, c);
            (c.done ==> d == c) && (d.done || d.pos > c.pos) && Whole(raw, d) == Whole(raw, c)
  {
    hide Announced, SkipCRLF;
    if !c.done && Announced(raw, c.pos).Some? {
      var (p, n) := Announced(raw, c.pos).value;
      if p + n <= |raw| {
        var rest := DechunkFrom(raw, SkipCRLF(raw, p + n));
        assert c.out + (raw[p..p + n] + rest) == c.out + raw[p..p + n] + rest;
      }
    }
  }

  /** Unbounded, each turn ends the loop or moves on, and adds what it decodes. */
  lemma {:induction false} IdealProgress(raw: string, k: nat)
    ensures var c := IdealTurns(raw, START, k);
            (c.done || c.pos >= k) && Whole(raw, c) == DechunkFrom(raw, 0)
  {
    hide IdealTurn, Whole, DechunkFrom;
    if k == 0 {
      WholeStart(raw);
    } else {
      IdealProgress(raw, k - 1);
      IdealStep(raw, IdealTurns(raw, START, k - 1));
    }
  }

  lemma WholeStart(raw: string)
    ensures Whole(raw, START) == DechunkFrom(raw, 0)
  {
    hide DechunkFrom;
    assert "" + DechunkFrom(raw, 0) == DechunkFrom(raw, 0);
  }

  /** Then the loop ends, and has decoded what it should. */
  lemma DecodesUnlessWrapping(raw: string, turns: nat)
    requires |raw| < turns && |raw| < TWO64 && NeverWrapping(raw)
    ensures Turns(raw, START, turns).done && Turns(raw, START, turns).out == DechunkFrom(raw, 0)
  {
    hide Turn, IdealTurn, Wraps, DechunkFrom;
    IdealUpTo(raw, turns);
    IdealProgress(raw, turns);
    var out := Turns(raw, START, turns).out;
    assert out + "" == out;
  }

  // ---------------------------------------------------------------------
  // Loops
  // ---------------------------------------------------------------------

  function Copies(s: string, k: nat): string {
    if k == 0 then "" else Copies(s, k - 1) + s
  }

  /**
   * A size line that announces 2^64 less its own length, line break included,
   * leads back to itself: the loop never ends and appends the rest every time.
   */
  lemma {:induction false} LoopsForever(line: string, rest: string, k: nat)
    requires '\n' !in line && SizeOf(line) == Some(TWO64 - (|line| + 2))
    requires |line + CRLF + rest| < TWO64
    ensures Turns(line + CRLF + rest, START, k) == Cursor(0, Copies(rest, k), false)
  {
    hide SizeOf, Turn, SkipCRLF, Slice;
    if k > 0 {
      LoopsForever(line, rest, k - 1);
      BackToStart(line, rest, Copies(rest, k - 1));
    }
  }

  lemma BackToStart(line: string, rest: string, out: string)
    requires '\n' !in line && SizeOf(line) == Some(TWO64 - (|line| + 2))
    requires |line + CRLF + rest| < TWO64
    ensures Turn(line + CRLF + rest, Cursor(0, out, false)) == Cursor(0, out + rest, false)
  {
    hide SizeOf, FindSub;
    var raw, p := line + CRLF + rest, |line| + 2;
    LineEnds(line, rest);
    assert raw[0..|line|] == line;
    assert (p + (TWO64 - p)) % TWO64 == 0;
    assert OccursAt(raw, CRLF, 0) ==> raw[0..2][1] == raw[1] == '\n';
    assert |line| >= 2 ==> raw[1] == line[1];
    assert |line| == 1 ==> raw[1] == '\r';
    assert line != "" by { NoSize(); }
    assert Slice(raw, p, TWO64 - p) == rest;
  }

  lemma NoSize()
    ensures SizeOf("") == None
  {
  }

  lemma LineEnds(line: string, rest: string)
    requires '\n' !in line
    ensures FindSub(line + CRLF + rest, CRLF, 0) == |line|
  {
    hide FindSub;
    var raw := line + CRLF + rest;
    assert raw[|line|..|line| + 2] == CRLF;
    forall k | 0 <= k < |line|
      ensures !OccursAt(raw, CRLF, k)
    {
      assert k + 2 <= |raw| && raw[k..k + 2][1] == raw[k + 1];
      assert k + 1 < |line| ==> raw[k + 1] == line[k + 1];
      assert k + 1 == |line| ==> raw[k + 1] == '\r';
    }
    assert OccursAt(raw, CRLF, |line|);
  }

  lemma MinusFour()
    ensures SizeOf("-4") == Some(TWO64 - (|"-4"| + 2)) && '\n' !in "-4"
    ensures |"-4" + CRLF + ""| < TWO64 && |"-4" + CRLF + "abc"| < TWO64
  {
    var line := "-4";
    assert WithoutExtension(line) == line;
    assert ScanDigits(line, 2, 16, 4) == (4, 2);
    assert Scan(line, 16) == Scanned(true, true, 4, 2);
  }

  /** For one: the size line "-4", which also copies whatever follows without end. */
  lemma LoopingExample(k: nat)
    ensures Turns("-4" + CRLF + "", START, k) == Cursor(0, Copies("", k), false)
    ensures Turns("-4" + CRLF + "abc", START, k) == Cursor(0, Copies("abc", k), false)
  {
    hide *;
    MinusFour();
    LoopsForever("-4", "", k);
    LoopsForever("-4", "abc", k);
  }

  // ---------------------------------------------------------------------
  // Encodings are decoded
  // ---------------------------------------------------------------------

  lemma SizeLineReads(n: nat)
    requires n < TWO64
    ensures SizeOf(Print(n, 16)) == Some(n)
  {
    hide Print;
    SizeLine(n);
    ScanPrinted(n, 16);
  }

  /** The end of the size line is the first CRLF there is. */
  lemma SizeLineEnds(pre: string, n: nat, post: string)
    ensures var raw := pre + Print(n, 16) + CRLF + post;
            FindSub(raw, CRLF, |pre|) == |pre| + |Print(n, 16)|
  {
    hide FindSub;
    var digits := Print(n, 16);
    var raw, end := pre + digits + CRLF + post, |pre| + |digits|;
    assert raw[end..end + 2] == CRLF;
    forall k | |pre| <= k < end
      ensures !OccursAt(raw, CRLF, k)
    {
      assert raw[k] == digits[k - |pre|] && digits[k - |pre|] in digits;
      assert k + 2 <= |raw| && raw[k..k + 2][0] == raw[k] != CRLF[0];
    }
    assert OccursAt(raw, CRLF, end);
  }

  /** Where the parts of one chunk lie. */
  lemma ChunkLayout(pre: string, digits: string, c: string, post: string)
    ensures var raw, eol := pre + (digits + CRLF + c + CRLF) + post, |pre| + |digits|;
            && raw == pre + digits + CRLF + (c + CRLF + post)
            && eol + 2 + |c| + 2 <= |raw|
            && raw[|pre|..eol] == digits && raw[eol + 2..eol + 2 + |c|] == c
            && raw[eol + 2 + |c|..eol + 2 + |c| + 2] == CRLF
  {
    SliceOf(pre, digits, CRLF + (c + CRLF + post));
    SliceOf(pre + digits + CRLF, c, CRLF + post);
    SliceOf(pre + digits + CRLF + c, CRLF, post);
    var raw := pre + (digits + CRLF + c + CRLF) + post;
    assert raw == pre + digits + (CRLF + (c + CRLF + post));
    assert raw == pre + digits + CRLF + c + (CRLF + post);
    assert raw == pre + digits + CRLF + c + CRLF + post;
  }

  lemma SliceOf(a: string, b: string, c: string)
    ensures (a + b + c)[|a|..|a| + |b|] == b
  {
  }

  /** One turn decodes one chunk and moves past it. */
  lemma OneChunk(pre: string, c: string, post: string, out: string)
    requires 0 < |c| && |pre + EncodeChunk(c) + post| < TWO64
    ensures Turn(pre + EncodeChunk(c) + post, Cursor(|pre|, out, false)) ==
            Cursor(|pre| + |EncodeChunk(c)|, out + c, false)
  {
    hide SizeOf, Print, FindSub, OccursAt;
    var digits := Print(|c|, 16);
    var raw := pre + EncodeChunk(c) + post;
    var eol := |pre| + |digits|;
    ChunkLayout(pre, digits, c, post);
    SizeLineEnds(pre, |c|, c + CRLF + post);
    SizeLineReads(|c|);
    ChunkTaken(raw, |pre|, eol, |c|, out);
  }

  lemma ChunkTaken(raw: string, pos: nat, eol: nat, n: nat, out: string)
    requires pos <= eol < |raw| < TWO64 && FindSub(raw, CRLF, pos) == eol
    requires SizeOf(raw[pos..eol]) == Some(n) && n > 0
    requires eol + 2 + n + 2 <= |raw| && raw[eol + 2 + n..eol + 2 + n + 2] == CRLF
    ensures Turn(raw, Cursor(pos, out, false)) == Cursor(eol + 2 + n + 2, out + raw[eol + 2..eol + 2 + n], false)
  {
    hide *;
    AnnouncedAt(raw, pos, eol, n);
    PastChunk(raw, eol + 2, n);
    TurnFits(raw, Cursor(pos, out, false), eol + 2, n);
  }

  lemma TurnFits(raw: string, c: Cursor, p: nat, n: nat)
    requires c.pos <= |raw| && !c.done && p + n <= |raw| < TWO64 && Announced(raw, c.pos) == Some((p, n))
    ensures Turn(raw, c) == Cursor(SkipCRLF(raw, p + n), c.out + Slice(raw, p, n), false)
  {
    hide Announced, SkipCRLF, Slice;
    SmallSum(p + n);
  }

  lemma AnnouncedAt(raw: string, pos: nat, eol: nat, n: nat)
    requires pos <= eol < |raw| && FindSub(raw, CRLF, pos) == eol
    requires SizeOf(raw[pos..eol]) == Some(n) && n > 0
    ensures Announced(raw, pos) == Some((eol + 2, n))
  {
    hide FindSub, SizeOf;
  }

  lemma PastChunk(raw: string, p: nat, n: nat)
    requires p + n + 2 <= |raw| && raw[p + n..p + n + 2] == CRLF
    ensures Slice(raw, p, n) == raw[p..p + n] && SkipCRLF(raw, p + n) == p + n + 2
  {
  }

  lemma SmallSum(n: nat)
    requires n < TWO64
    ensures n % TWO64 == n
  {
  }

  lemma LastChunk(pre: string, out: string)
    ensures Turn(pre + "0" + CRLF + CRLF, Cursor(|pre|, out, false)) == Cursor(|pre|, out, true)
  {
    hide SizeOf, FindSub, Print;
    var raw := pre + "0" + CRLF + CRLF;
    OneDigit();
    SizeLineEnds(pre, 0, CRLF);
    SizeLineReads(0);
    assert raw[|pre|..|pre| + 1] == "0";
    assert Announced(raw, |pre|) == None;
  }

  lemma {:induction false} DoneForGood(raw: string, c: Cursor, k: nat)
    requires c.pos <= |raw| && c.done
    ensures Turns(raw, c, k) == c
  {
    hide Turn;
    if k > 0 {
      DoneForGood(raw, c, k - 1);
      DoneStays(raw, c);
    }
  }

  lemma {:induction false} TurnsAfterOne(raw: string, c: Cursor, k: nat)
    requires c.pos <= |raw|
    ensures Turns(raw, c, k + 1) == Turns(raw, Turn(raw, c), k)
  {
    hide Turn;
    if k > 0 {
      TurnsAfterOne(raw, c, k - 1);
    } else {
      assert Turns(raw, c, 1) == Turn(raw, Turns(raw, c, 0));
    }
  }

  lemma {:induction false} DecodesFrom(pre: string, chunks: seq<string>, out: string, turns: nat)
    requires Sendable(chunks) && |pre + Encode(chunks)| < TWO64 && turns > |chunks|
    ensures var c := Turns(pre + Encode(chunks), Cursor(|pre|, out, false), turns);
            c.done && c.out == out + Concat(chunks)
    decreases chunks
  {
    hide Turn, Turns, EncodeChunk;
    var raw, start := pre + Encode(chunks), Cursor(|pre|, out, false);
    TurnsAfterOne(raw, start, turns - 1);
    if chunks == [] {
      assert raw == pre + "0" + CRLF + CRLF;
      LastChunk(pre, out);
      DoneForGood(raw, Turn(raw, start), turns - 1);
      assert out + "" == out;
    } else {
      var c := chunks[0];
      assert raw == pre + EncodeChunk(c) + Encode(chunks[1..]);
      OneChunk(pre, c, Encode(chunks[1..]), out);
      DecodesFrom(pre + EncodeChunk(c), chunks[1..], out + c, turns - 1);
      assert out + c + Concat(chunks[1..]) == out + Concat(chunks);
    }
  }

  /** The encoding of any chunks is decoded, one turn for each chunk and one for the last. */
  lemma DechunkUndoes(chunks: seq<string>, turns: nat)
    requires Sendable(chunks) && |Encode(chunks)| < TWO64 && turns > |chunks|
    ensures var c := Turns(Encode(chunks), START, turns);
            c.done && c.out == Concat(chunks)
  {
    hide Turns, Encode, Concat;
    DecodesFrom("", chunks, "", turns);
    assert "" + Encode(chunks) == Encode(chunks);
    assert "" + Concat(chunks) == Concat(chunks);
  }

  /** Both decoders recover the concatenation of the chunks, whatever bytes they hold. */
  lemma DecodersAgree(s: State, chunks: seq<string>, lim: Limits)
    requires s.phase == ChunkSize && s.line == "" && s.chunkRemaining == 0 && s.body == ""
    requires Sendable(chunks) && |Encode(chunks)| < TWO64
    requires lim.maxBody == 0 || |Concat(chunks)| <= lim.maxBody < TWO64
    ensures Turns(Encode(chunks), START, |chunks| + 1).done
    ensures Turns(Encode(chunks), START, |chunks| + 1).out == Concat(chunks)
    ensures Run(s, Encode(chunks), lim).phase == Complete
    ensures Run(s, Encode(chunks), lim).view == Concat(chunks)
    ensures Used(s, Encode(chunks), lim) == |Encode(chunks)|
  {
    hide Run, Used, Encode, Turns, Concat;
    DechunkUndoes(chunks, |chunks| + 1);
    ParserUndoes(s, chunks, lim);
    assert "" + Concat(chunks) == Concat(chunks);
  }
}
