// How the head of a request decides what follows it, and which heads are
// refused with what status, by the header lines alone.
module HttpFraming {
  import opened Common
  import opened Text
  import opened Numerals
  import opened Http
  import opened HttpParser
  import opened HttpMessage

  // ---------------------------------------------------------------------
  // Header values
  // ---------------------------------------------------------------------

  predicate Called(f: Field, name: string) { Lower(f.name) == Lower(name) }

  /** The values of the lines with that name, whatever its letter case, joined in order. */
  function Joined(fs: seq<Field>, name: string): Option<string> {
    if fs == [] then None
    else
      var before, last := Joined(fs[..|fs| - 1], name), fs[|fs| - 1];
      if !Called(last, name) then before
      else if before.None? then Some(last.value)
      else Some(before.value + ", " + last.value)
  }

  lemma {:induction false} AddAllSnoc(h: HeaderMap, fs: seq<Field>, f: Field)
    ensures AddAll(h, fs + [f]) == AddField(AddAll(h, fs), f.name, f.value)
    decreases fs
  {
    hide AddField;
    if fs == [] {
      assert (fs + [f])[1..] == [];
    } else {
      assert (fs + [f])[1..] == fs[1..] + [f];
      AddAllSnoc(AddField(h, fs[0].name, fs[0].value), fs[1..], f);
    }
  }

  lemma AddedLookup(h: HeaderMap, f: Field, name: string)
    ensures var before := Lookup(h, name);
            Lookup(AddField(h, f.name, f.value), name) ==
            if !Called(f, name) then before
            else if before.None? then Some(f.value)
            else Some(before.value + ", " + f.value)
  {
    hide Lower;
  }

  /** What the header map answers is what the lines say. */
  lemma {:induction false} LookupJoined(fs: seq<Field>, name: string)
    ensures Lookup(AddAll(map[], fs), name) == Joined(fs, name)
    decreases |fs|
  {
    hide Lower, AddField, Lookup;
    if fs == [] {
      EmptyLookup(name);
    } else {
      var init, last := fs[..|fs| - 1], fs[|fs| - 1];
      assert fs == init + [last];
      LookupJoined(init, name);
      AddAllSnoc(map[], init, last);
      AddedLookup(AddAll(map[], init), last, name);
    }
  }

  lemma EmptyLookup(name: string)
    ensures Lookup(AddAll(map[], []), name) == None
  {
  }

  // ---------------------------------------------------------------------
  // Lengths and codings
  // ---------------------------------------------------------------------

  /** A Content-Length value that announces `n` bytes. */
  ghost predicate Announces(value: string, n: nat) {
    exists p: Parts :: TextOf(p) == value && WellFormed(p, 10)
      && NumberOf(p.digits, 10) == n && n < TWO63 && (p.sign == "-" ==> n == 0)
  }

  /** A chunk size, negated modulo 2^64 after a minus sign. */
  ghost predicate AnnouncesChunk(value: string, n: nat) {
    exists p: Parts :: TextOf(p) == value && WellFormed(p, 16)
      && NumberOf(p.digits, 16) < TWO64
      && n == if p.sign == "-" then (TWO64 - NumberOf(p.digits, 16)) % TWO64 else NumberOf(p.digits, 16)
  }

  lemma LengthAnnounced(value: string, n: nat)
    ensures LengthOf(value) == Some(n) <==> Announces(value, n)
  {
    hide TextOf, NumberOf, Scan, StopsAtEnd;
    if LengthOf(value) == Some(n) {
      var p := OnlyNumerals(value, 10);
    }
    if Announces(value, n) {
      var p: Parts :| TextOf(p) == value && WellFormed(p, 10)
        && NumberOf(p.digits, 10) == n && n < TWO63 && (p.sign == "-" ==> n == 0);
      NumeralScanned(p, 10);
    }
  }

  lemma ChunkAnnounced(value: string, n: nat)
    ensures ChunkLengthOf(value) == Some(n) <==> AnnouncesChunk(value, n)
  {
    hide TextOf, NumberOf, Scan, StopsAtEnd;
    if ChunkLengthOf(value) == Some(n) {
      var p := OnlyNumerals(value, 16);
    }
    if AnnouncesChunk(value, n) {
      var p: Parts :| TextOf(p) == value && WellFormed(p, 16) && NumberOf(p.digits, 16) < TWO64
        && n == if p.sign == "-" then (TWO64 - NumberOf(p.digits, 16)) % TWO64 else NumberOf(p.digits, 16);
      NumeralScanned(p, 16);
    }
  }

  /** A Transfer-Encoding value that mentions chunked, in any letter case. */
  ghost predicate SaysChunked(value: string) { exists a, b :: Lower(value) == a + "chunked" + b }

  lemma ChunkedMentioned(value: string)
    ensures MentionsChunked(value) <==> SaysChunked(value)
  {
    hide Lower, FindSub;
    var low := Lower(value);
    var i := FindSub(low, "chunked", 0);
    if i < |low| {
      assert low == low[..i] + "chunked" + low[i + 7..];
    }
    if SaysChunked(value) {
      var a, b :| low == a + "chunked" + b;
      assert OccursAt(low, "chunked", |a|);
    }
  }

  // ---------------------------------------------------------------------
  // What a head leads to
  // ---------------------------------------------------------------------

  /** A request line and header lines that are read as they are meant. */
  predicate CleanHead(m: Message, lim: Limits) {
    && RealMethod(m.verb) && CleanTarget(m.target) && KnownVersion(m.version)
    && (forall i | 0 <= i < |m.fields| :: CleanField(m.fields[i]))
    && (lim.maxHeader == 0 || |Head(m)| <= lim.maxHeader)
  }

  /** The request is refused, for that reason and with that status. */
  predicate Refused(s: State, message: string, status: nat) { s.phase == Error && s.err == Diagnosis(message, status) }

  /** The blank line, by the values it finds. */
  lemma BlankLine(s: State, lim: Limits)
    requires !s.chunked && s.contentLength == 0 && s.body == ""
    ensures var t := EndHeaders(s, lim);
            var te, cl := Lookup(s.headers, "Transfer-Encoding"), Lookup(s.headers, "Content-Length");
            && (te.Some? && !SaysChunked(te.value) ==> Refused(t, "Unsupported Transfer-Encoding", 501))
            && (te.Some? && SaysChunked(te.value) ==>
                  if cl.Some? then Refused(t, "Both Content-Length and chunked", 400) else t.phase == ChunkSize)
            && (te.None? && cl.None? ==> t.phase == Complete && t.view == "")
            && (te.None? && cl.Some? ==>
                  && ((forall n: nat :: !Announces(cl.value, n)) ==> Refused(t, "Invalid Content-Length", 400))
                  && forall n: nat | Announces(cl.value, n) ::
                       if lim.maxBody != 0 && n > lim.maxBody then Refused(t, "Body too large", 413)
                       else if n == 0 then t.phase == Complete && t.view == ""
                       else t.phase == Body && t.contentLength == n)
  {
    hide Lookup, MentionsChunked, SaysChunked, LengthOf, Announces;
    var te, cl := Lookup(s.headers, "Transfer-Encoding"), Lookup(s.headers, "Content-Length");
    if te.Some? {
      ChunkedMentioned(te.value);
    }
    if cl.Some? {
      if LengthOf(cl.value).Some? {
        LengthAnnounced(cl.value, LengthOf(cl.value).value);
      }
      forall n: nat ensures LengthOf(cl.value) == Some(n) <==> Announces(cl.value, n) {
        LengthAnnounced(cl.value, n);
      }
    }
  }

  lemma HeadedFlags(m: Message)
    ensures var s := Headed(m); !s.chunked && s.contentLength == 0 && s.body == "" && s.headers == AddAll(map[], m.fields)
  {
    hide ParsedLine, AddAll, Head;
  }

  /**
   * What a head leads to, by its header lines.  Above all, a request with both a
   * length and chunks is refused: nobody can read it in another way than this
   * server does.
   */
  lemma HeadDecides(m: Message, lim: Limits)
    requires CleanHead(m, lim)
    ensures var t := Run(Fresh(), Head(m), lim);
            var te, cl := Joined(m.fields, "Transfer-Encoding"), Joined(m.fields, "Content-Length");
            && (te.Some? && !SaysChunked(te.value) ==> Refused(t, "Unsupported Transfer-Encoding", 501))
            && (te.Some? && SaysChunked(te.value) ==>
                  if cl.Some? then Refused(t, "Both Content-Length and chunked", 400) else t.phase == ChunkSize)
            && (te.None? && cl.None? ==> t.phase == Complete && t.view == "")
            && (te.None? && cl.Some? ==>
                  && ((forall n: nat :: !Announces(cl.value, n)) ==> Refused(t, "Invalid Content-Length", 400))
                  && forall n: nat | Announces(cl.value, n) ::
                       if lim.maxBody != 0 && n > lim.maxBody then Refused(t, "Body too large", 413)
                       else if n == 0 then t.phase == Complete && t.view == ""
                       else t.phase == Body && t.contentLength == n)
  {
    hide Run, Used, Head, Headed, EndHeaders, AddAll, Lookup, Joined, SaysChunked, Announces, CleanField;
    HeadRuns(m, lim);
    HeadedFlags(m);
    BlankLine(Headed(m).(headerBytes := |Head(m)|), lim);
    LookupJoined(m.fields, "Transfer-Encoding");
    LookupJoined(m.fields, "Content-Length");
  }

  /** A refusal is final, whatever follows. */
  lemma RefusedForGood(s: State, data: string, more: string, lim: Limits)
    ensures Run(s, data, lim).phase == Error ==> Run(s, data + more, lim) == Run(s, data, lim)
  {
    hide Run;
    RunAppend(s, data, more, lim);
    if Run(s, data, lim).phase == Error {
      RunTerminal(Run(s, data, lim), more, lim);
    }
  }
}
