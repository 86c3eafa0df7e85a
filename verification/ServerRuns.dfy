// What a connection answers over its whole life, against the conversation that
// the bytes alone determine: when the cuts between reads matter, and when not.
module ServerRuns {
  import opened Common
  import opened Text
  import opened Http
  import opened HttpParser
  import opened HttpMessage
  import opened ServerInput

  // ---------------------------------------------------------------------
  // The conversation the bytes determine
  // ---------------------------------------------------------------------

  /** The parser, the responses so far, and whether another request would be answered. */
  datatype Conversation = Conversation(parser: State, log: seq<Item>, open: bool)

  function Start(): Conversation { Conversation(Fresh(), [], true) }

  /** Reacts to a parser that has stopped. */
  function Respond(v: Conversation, t: State, srv: Server): Conversation {
    match t.phase
    case Error => Conversation(t, v.log + [Failure(t.err)], false)
    case Complete =>
      var req := RequestOf(t);
      var reply := srv.handle(req);
      Conversation(Fresh(), v.log + [Answer(req, reply)], !Closes(req, reply))
    case _ => v.(parser := t)
  }

  function ServeByte(v: Conversation, c: char, srv: Server): Conversation {
    if v.open then Respond(v, Step(v.parser, c, srv.limits), srv) else v
  }

  /** One byte at a time, up to the last response. */
  function Serve(v: Conversation, data: string, srv: Server): Conversation
    decreases data
  {
    if data == "" then v else Serve(ServeByte(v, data[0], srv), data[1..], srv)
  }

  lemma {:induction false} ServeAppend(v: Conversation, a: string, b: string, srv: Server)
    ensures Serve(v, a + b, srv) == Serve(Serve(v, a, srv), b, srv)
    decreases a
  {
    hide ServeByte;
    if a == "" {
      assert a + b == b;
    } else {
      assert (a + b)[1..] == a[1..] + b;
      ServeAppend(ServeByte(v, a[0], srv), a[1..], b, srv);
    }
  }

  lemma {:induction false} ServeClosed(v: Conversation, data: string, srv: Server)
    requires !v.open
    ensures Serve(v, data, srv) == v
    decreases data
  {
    hide Respond;
    if data != "" {
      ServeClosed(v, data[1..], srv);
    }
  }

  lemma ServeNothing(v: Conversation, srv: Server)
    ensures Serve(v, "", srv) == v
  {
  }

  /** One consume-and-react round of the loop is many bytes of the conversation. */
  lemma {:induction false} ServeRound(v: Conversation, data: string, srv: Server)
    requires v.open && !Terminal(v.parser)
    ensures Serve(v, data, srv) ==
            Serve(Respond(v, Run(v.parser, data, srv.limits), srv), data[Used(v.parser, data, srv.limits)..], srv)
    decreases data
  {
    hide Step, Closes;
    if data != "" {
      var t := Step(v.parser, data[0], srv.limits);
      if Terminal(t) {
        RunTerminal(t, data[1..], srv.limits);
        assert Used(v.parser, data, srv.limits) == 1;
      } else {
        var v1 := v.(parser := t);
        ServeRound(v1, data[1..], srv);
        var n := Used(t, data[1..], srv.limits);
        assert data[1..][n..] == data[n + 1..];
        assert Respond(v1, Run(t, data[1..], srv.limits), srv) == Respond(v, Run(t, data[1..], srv.limits), srv);
      }
    }
  }

  /** What one round adds: one response where the parser stopped, none elsewhere. */
  lemma RespondAdds(v: Conversation, t: State, srv: Server)
    ensures var w := Respond(v, t, srv);
            && (!Terminal(t) ==> w == v.(parser := t))
            && (Terminal(t) ==> |w.log| == |v.log| + 1)
            && (w.open ==> !Terminal(w.parser) || t.phase != Complete)
            && (t.phase == Complete ==> w.parser == Fresh())
            && (t.phase == Error ==> !w.open)
  {
    hide Closes;
  }

  lemma {:induction false} ServeGrows(v: Conversation, data: string, srv: Server)
    ensures |Serve(v, data, srv).log| >= |v.log|
    decreases data
  {
    hide Respond, Step;
    if data != "" {
      if v.open {
        RespondAdds(v, Step(v.parser, data[0], srv.limits), srv);
      }
      ServeGrows(ServeByte(v, data[0], srv), data[1..], srv);
    }
  }

  /** Bytes that neither complete a request nor break one only move the parser. */
  lemma ServeQuietly(v: Conversation, data: string, srv: Server)
    requires v.open && !Terminal(v.parser) && !Terminal(Run(v.parser, data, srv.limits))
    ensures Serve(v, data, srv) == v.(parser := Run(v.parser, data, srv.limits))
  {
    hide Run, Used, Serve, Respond;
    var t := Run(v.parser, data, srv.limits);
    ServeRound(v, data, srv);
    UsedEnds(v.parser, data, srv.limits);
    RespondAdds(v, t, srv);
    assert data[|data|..] == "";
    ServeNothing(v.(parser := t), srv);
  }

  // ---------------------------------------------------------------------
  // What every state keeps
  // ---------------------------------------------------------------------

  /** Two interim responses never follow each other: at most one for each request. */
  ghost predicate OneContinueEach(log: seq<Item>) {
    forall i | 0 < i < |log| :: log[i - 1] == Continue ==> log[i] != Continue
  }

  ghost predicate Interim(c: Conn) {
    OneContinueEach(c.log) && (c.log != [] && c.log[|c.log| - 1] == Continue ==> c.sent100)
  }

  /** Written and unwritten bytes are the queued texts in order. */
  predicate Accounted(srv: Server, c: Conn) { Texts(srv, c.log) == c.wire + c.out }

  /**
   * In HTTP, as long as another request would be answered, everything read has
   * been parsed; after that, something is unwritten.
   */
  predicate Coherent(c: Conn) {
    && c.parser.phase != Complete
    && (c.adopted ==> c.closeAfter)
    && (c.ended ==> c.closeAfter)
    && (!c.closed && !c.adopted ==>
          if c.closeAfter then c.out != "" else c.input == "" && !Terminal(c.parser))
  }

  ghost predicate Good(srv: Server, c: Conn) { Coherent(c) && Accounted(srv, c) && Interim(c) }

  lemma QueueGood(srv: Server, c: Conn, item: Item)
    requires Accounted(srv, c) && Interim(c)
    ensures var d := Queue(srv, c, item);
            && Accounted(srv, d)
            && (item != Continue || !c.sent100 ==> OneContinueEach(d.log))
            && d.log[|d.log| - 1] == item
            && Responses(d.log) == Responses(c.log) + if item == Continue then [] else [item]
  {
    hide ItemText;
    TextsSnoc(srv, c.log, item);
    ResponsesSnoc(c.log, item);
    assert c.wire + (c.out + ItemText(srv, item)) == c.wire + c.out + ItemText(srv, item);
  }

  lemma FeedGood(srv: Server, c: Conn)
    requires Accounted(srv, c) && Interim(c)
    ensures Accounted(srv, Feed(srv, c)) && Interim(Feed(srv, c))
  {
    hide Run, Used, Texts;
  }

  /** An interim response is none of the responses. */
  lemma OfferGood(srv: Server, c: Conn)
    requires Accounted(srv, c) && Interim(c)
    ensures var d := Offer(srv, c);
            && Accounted(srv, d) && Interim(d) && Responses(d.log) == Responses(c.log)
            && d.closed == c.closed && d.ended == c.ended && d.closeAfter == c.closeAfter && d.adopted == c.adopted
  {
    hide Texts, ItemText, Responses, OneContinueEach, HeaderOf, IEqual;
    QueueGood(srv, c, Continue);
  }

  lemma HandleGood(srv: Server, c: Conn)
    requires Accounted(srv, c) && Interim(c)
    ensures var req, d := RequestOf(c.parser), Handle(srv, c);
            && Accounted(srv, d) && Interim(d) && Responses(d.log) == Responses(c.log) + [Answer(req, srv.handle(req))]
            && d.closed == c.closed && d.ended == c.ended
            && d.closeAfter == (c.closeAfter || Closes(req, srv.handle(req))) && (d.adopted ==> d.closeAfter)
  {
    hide Texts, ItemText, Responses, WantsClose, OneContinueEach;
    QueueGood(srv, c, Answer(RequestOf(c.parser), srv.handle(RequestOf(c.parser))));
  }

  /** What one turn queues, and what it leaves. */
  lemma TurnAdds(srv: Server, c: Conn)
    requires Accounted(srv, c) && Interim(c)
    ensures var t, d := Run(c.parser, c.input, srv.limits), Turn(srv, c);
            && Accounted(srv, d) && Interim(d)
            && d.closed == c.closed && d.ended == c.ended
            && (t.phase == Error ==> Responses(d.log) == Responses(c.log) + [Failure(t.err)] && d.closeAfter && d.adopted == c.adopted)
            && (t.phase == Complete ==>
                  var req := RequestOf(t);
                  && Responses(d.log) == Responses(c.log) + [Answer(req, srv.handle(req))]
                  && d.closeAfter == (c.closeAfter || Closes(req, srv.handle(req)))
                  && (d.adopted ==> d.closeAfter))
            && (!Terminal(t) ==> Responses(d.log) == Responses(c.log) && d.closeAfter == c.closeAfter && d.adopted == c.adopted)
  {
    hide Run, Used, Texts, ItemText, Responses, Closes, OneContinueEach, Offer, Handle;
    FeedGood(srv, c);
    var f := Feed(srv, c);
    QueueGood(srv, f, Failure(f.parser.err));
    HandleGood(srv, f);
    OfferGood(srv, f);
  }

  // ---------------------------------------------------------------------
  // Processing what was read
  // ---------------------------------------------------------------------

  /** While another request would be answered, the loop serves the conversation to the end of what was read. */
  lemma {:induction false} ProcessServes(srv: Server, c: Conn, v: Conversation)
    requires Accounted(srv, c) && Interim(c)
    requires !c.closeAfter && !c.adopted && !Terminal(c.parser)
    requires v.open && v.parser == c.parser && v.log == Responses(c.log)
    ensures var d, w := Process(srv, c), Serve(v, c.input, srv);
            && Accounted(srv, d) && Interim(d) && d.closed == c.closed && d.ended == c.ended
            && w.log == Responses(d.log) && w.open == !d.closeAfter && (d.adopted ==> d.closeAfter)
            && d.parser.phase != Complete
            && (!d.closeAfter ==> w.parser == d.parser && d.input == "" && !Terminal(d.parser))
    decreases |c.input|
  {
    hide Run, Used, Serve, Responses, Accounted, Interim, Closes, Queue, Offer;
    var t := Run(c.parser, c.input, srv.limits);
    var d, rest := Turn(srv, c), c.input[Used(c.parser, c.input, srv.limits)..];
    TurnAdds(srv, c);
    TurnShortens(srv, c);
    TurnFields(srv, c);
    ServeRound(v, c.input, srv);
    UsedEnds(c.parser, c.input, srv.limits);
    var w := Respond(v, t, srv);
    RespondAdds(v, t, srv);
    if GoesOn(srv, c) {
      FreshRuns();
      ProcessServes(srv, d, w);
    } else if d.closeAfter {
      ServeClosed(w, rest, srv);
    } else {
      FreshRuns();
      assert rest == "";
      ServeNothing(w, srv);
    }
  }

  lemma FreshRuns()
    ensures !Terminal(Fresh())
  {
  }

  /** Once a response was the last, each further wake-up that finds bytes runs the loop once more. */
  lemma ProcessOnceMore(srv: Server, c: Conn)
    requires Accounted(srv, c) && Interim(c) && c.closeAfter && c.parser.phase != Complete
    ensures var t, d := Run(c.parser, c.input, srv.limits), Process(srv, c);
            && Accounted(srv, d) && Interim(d) && d.closeAfter && d.closed == c.closed && d.ended == c.ended
            && d.parser.phase != Complete
            && |Responses(d.log)| == |Responses(c.log)| + (if Terminal(t) then 1 else 0)
            && (!Terminal(t) ==> Responses(d.log) == Responses(c.log))
            && (t.phase == Error ==> Responses(d.log) == Responses(c.log) + [Failure(t.err)])
            && (t.phase == Complete ==> Responses(d.log) == Responses(c.log) + [Answer(RequestOf(t), srv.handle(RequestOf(t)))])
  {
    hide Run, Used, Responses, Accounted, Interim, Closes, Queue, Offer, Handle;
    TurnAdds(srv, c);
    TurnShortens(srv, c);
  }

  // ---------------------------------------------------------------------
  // Writing
  // ---------------------------------------------------------------------

  /** Writing loses and reorders nothing, and closes a connection only when it is drained or broken. */
  lemma {:induction false} FlushGood(srv: Server, c: Conn, io: seq<Io>)
    requires Accounted(srv, c)
    ensures var d := Flush(c, io);
            && Accounted(srv, d)
            && d == c.(wire := d.wire, out := d.out, closed := d.closed)
            && (c.closed ==> d.closed)
            && (!d.closed && d.closeAfter && !d.adopted ==> d.out != "")
            && (d.closed && !c.closed && Failed !in io ==> d.out == "" && d.closeAfter)
    decreases |io|
  {
    hide Texts;
    if c.out != "" && io != [] && io[0].Took? {
      var m := if io[0].n <= |c.out| then io[0].n else |c.out|;
      assert c.wire + c.out == (c.wire + c.out[..m]) + c.out[m..];
      FlushGood(srv, Written(c, io[0].n), io[1..]);
    }
  }

  // ---------------------------------------------------------------------
  // One event
  // ---------------------------------------------------------------------

  /** A socket delivers nothing after its end. */
  predicate Possible(c: Conn, e: Event) { e.Readable? && c.ended ==> e.chunk == "" && e.eof }

  /** What the event reads, as long as the connection is there and speaks HTTP. */
  function BytesOf(c: Conn, e: Event): string {
    if c.closed || c.adopted || !e.Readable? then "" else e.chunk
  }

  /** The first of the chunk's requests is the last one, or no second one is complete in it. */
  predicate AtMostOne(srv: Server, s: State, chunk: string) {
    var t := Run(s, chunk, srv.limits);
    t.phase == Complete ==>
      || Closes(RequestOf(t), srv.handle(RequestOf(t)))
      || !Terminal(Run(Fresh(), chunk[Used(s, chunk, srv.limits)..], srv.limits))
  }

  /**
   * Whether an event's bytes are answered as the conversation would.  They always
   * are while another request would be answered and more bytes may come.  Bytes
   * read after the last response was queued, while it is still being written,
   * must not complete or break a request.  Bytes that come with the peer's end
   * must not either when nothing is being written, and must hold at most one
   * request to be answered when something is.
   */
  predicate Faithful(srv: Server, c: Conn, e: Event) {
    e.Readable? && !c.closed && !c.adopted && e.chunk != "" ==>
      if c.closeAfter then !Terminal(Run(c.parser, c.input + e.chunk, srv.limits))
      else if !e.eof then true
      else if c.out == "" then !Terminal(Run(c.parser, e.chunk, srv.limits))
      else AtMostOne(srv, c.parser, e.chunk)
  }

  /** The responses are those of the conversation, and so will the next ones be. */
  predicate Agree(c: Conn, v: Conversation) {
    && Responses(c.log) == v.log
    && (!c.closed && !c.adopted && !c.closeAfter ==> v.open && v.parser == c.parser)
    && (!c.closed && !c.adopted && c.closeAfter && !c.ended ==> !v.open)
  }

  /** They are not, and never will be again. */
  predicate Differ(c: Conn, v: Conversation) {
    && Responses(c.log) != v.log
    && (c.closed || c.adopted || c.ended || (!v.open && |Responses(c.log)| > |v.log|))
  }

  lemma ArrivalGood(srv: Server, c: Conn, chunk: string)
    requires Good(srv, c)
    ensures Accounted(srv, c.(input := c.input + chunk)) && Interim(c.(input := c.input + chunk))
    ensures var d := c.(input := c.input + chunk, closeAfter := true, ended := true);
            Accounted(srv, d) && Interim(d)
  {
    hide Texts, OneContinueEach;
  }

  /** Bytes while another request would be answered. */
  lemma PromptRead(srv: Server, c: Conn, v: Conversation, chunk: string, io: seq<Io>)
    requires Good(srv, c) && Agree(c, v) && !c.closed && !c.adopted && !c.closeAfter
    ensures var d := Flush(Process(srv, c.(input := c.input + chunk)), io);
            Good(srv, d) && Agree(d, Serve(v, chunk, srv))
  {
    hide Process, Flush, Serve, Responses, Accounted, Interim;
    ArrivalGood(srv, c, chunk);
    var c1 := c.(input := c.input + chunk);
    assert c1.input == chunk;
    ProcessServes(srv, c1, v);
    FlushGood(srv, Process(srv, c1), io);
    SameLog(Process(srv, c1), Flush(Process(srv, c1), io));
  }

  lemma SameLog(c: Conn, d: Conn)
    requires d == c.(wire := d.wire, out := d.out, closed := d.closed)
    ensures Interim(c) ==> Interim(d)
    ensures Responses(c.log) == Responses(d.log)
  {
  }

  /** Bytes after the last response was queued. */
  lemma LateRead(srv: Server, c: Conn, chunk: string, eof: bool, io: seq<Io>)
    requires Good(srv, c) && !c.closed && c.closeAfter
    ensures var t := Run(c.parser, c.input + chunk, srv.limits);
            var d := Flush(Process(srv, c.(input := c.input + chunk, ended := c.ended || eof)), io);
            && Good(srv, d) && d.closeAfter && d.ended == (c.ended || eof)
            && |Responses(d.log)| == |Responses(c.log)| + (if Terminal(t) then 1 else 0)
            && (!Terminal(t) ==> Responses(d.log) == Responses(c.log))
            && (t.phase == Error ==> Responses(d.log) == Responses(c.log) + [Failure(t.err)])
            && (t.phase == Complete ==> Responses(d.log) == Responses(c.log) + [Answer(RequestOf(t), srv.handle(RequestOf(t)))])
  {
    hide Process, Flush, Responses, Accounted, Interim, Run;
    ArrivalGood(srv, c, chunk);
    var c1 := c.(input := c.input + chunk, ended := c.ended || eof);
    ProcessOnceMore(srv, c1);
    FlushGood(srv, Process(srv, c1), io);
    SameLog(Process(srv, c1), Flush(Process(srv, c1), io));
  }

  /** Bytes that come with the peer's end while something is being written. */
  lemma LastRead(srv: Server, c: Conn, v: Conversation, chunk: string, io: seq<Io>)
    requires Good(srv, c) && Agree(c, v) && !c.closed && !c.adopted && !c.closeAfter && c.out != ""
    ensures var d := Flush(Process(srv, c.(input := c.input + chunk, closeAfter := true, ended := true)), io);
            var w := Serve(v, chunk, srv);
            && Good(srv, d) && d.ended && d.closeAfter
            && (Responses(d.log) == w.log <==> AtMostOne(srv, c.parser, chunk))
  {
    hide Process, Flush, Responses, Accounted, Interim, Run, Used, Serve, Closes;
    ArrivalGood(srv, c, chunk);
    var c1 := c.(input := c.input + chunk, closeAfter := true, ended := true);
    assert c1.input == chunk;
    ProcessOnceMore(srv, c1);
    FlushGood(srv, Process(srv, c1), io);
    SameLog(Process(srv, c1), Flush(Process(srv, c1), io));
    OneRound(srv, v, chunk);
  }

  /** The conversation over one chunk: at most one response, or more than the first round gives. */
  lemma OneRound(srv: Server, v: Conversation, chunk: string)
    requires v.open && !Terminal(v.parser)
    ensures var t, w := Run(v.parser, chunk, srv.limits), Serve(v, chunk, srv);
            && (!Terminal(t) ==> w.log == v.log)
            && (t.phase == Error ==> w.log == v.log + [Failure(t.err)])
            && (t.phase == Complete ==>
                  var first := v.log + [Answer(RequestOf(t), srv.handle(RequestOf(t)))];
                  (w.log == first <==> AtMostOne(srv, v.parser, chunk)) && |w.log| >= |first|)
  {
    hide Run, Used, Serve;
    var t, rest := Run(v.parser, chunk, srv.limits), chunk[Used(v.parser, chunk, srv.limits)..];
    ServeRound(v, chunk, srv);
    var u := Respond(v, t, srv);
    RespondAdds(v, t, srv);
    if !Terminal(t) {
      ServeQuietly(v, chunk, srv);
    } else if !u.open {
      ServeClosed(u, rest, srv);
    } else {
      FreshRuns();
      SecondRound(srv, u, rest);
    }
  }

  lemma SecondRound(srv: Server, u: Conversation, rest: string)
    requires u.open && !Terminal(u.parser)
    ensures |Serve(u, rest, srv).log| >= |u.log|
    ensures Serve(u, rest, srv).log == u.log <==> !Terminal(Run(u.parser, rest, srv.limits))
  {
    hide Run, Used, Serve, Respond;
    var t := Run(u.parser, rest, srv.limits);
    ServeGrows(u, rest, srv);
    if Terminal(t) {
      ServeRound(u, rest, srv);
      RespondAdds(u, t, srv);
      ServeGrows(Respond(u, t, srv), rest[Used(u.parser, rest, srv.limits)..], srv);
    } else {
      ServeQuietly(u, rest, srv);
    }
  }

  lemma OpenedGood(srv: Server)
    ensures Good(srv, Opened()) && Agree(Opened(), Start())
  {
  }

  /** One event keeps the answers those of the conversation exactly when it is faithful. */
  lemma EventStep(srv: Server, c: Conn, v: Conversation, e: Event)
    requires Good(srv, c) && Possible(c, e) && Agree(c, v)
    ensures var d, w := Occur(srv, c, e), Serve(v, BytesOf(c, e), srv);
            && Good(srv, d)
            && (Faithful(srv, c, e) ==> Agree(d, w))
            && (!Faithful(srv, c, e) ==> Differ(d, w))
  {
    hide Process, Flush, Serve, Responses, Accounted, Interim, Run, AtMostOne;
    ServeNothing(v, srv);
    if !c.closed && !c.adopted {
      match e
      case Hangup =>
        assert c.(input := c.input + "", closed := true) == c.(closed := true);
        ClosedGood(srv, c, "");
      case Writable(io) =>
        FlushGood(srv, c, io);
        SameLog(c, Flush(c, io));
      case Readable(chunk, eof, io) =>
        ArrivalGood(srv, c, chunk);
        if eof && c.out == "" {
          DroppedAtEnd(srv, c, v, chunk);
        } else if chunk == "" {
          ArrivalGood(srv, c, "");
          assert c.input + "" == c.input;
        } else if c.closeAfter {
          LateRead(srv, c, chunk, eof, io);
          ServeClosed(v, chunk, srv);
        } else if eof {
          LastRead(srv, c, v, chunk, io);
        } else {
          PromptRead(srv, c, v, chunk, io);
        }
    }
  }

  /** Bytes that come with the peer's end while nothing is being written are dropped. */
  lemma DroppedAtEnd(srv: Server, c: Conn, v: Conversation, chunk: string)
    requires Good(srv, c) && Agree(c, v) && !c.closed && !c.adopted && c.out == ""
    ensures var d := c.(input := c.input + chunk, closed := true);
            && Good(srv, d)
            && (Serve(v, chunk, srv).log == v.log <==> !Terminal(Run(c.parser, chunk, srv.limits)))
            && !c.closeAfter
  {
    hide Serve, Responses, Accounted, Run;
    SecondRound(srv, v, chunk);
    ClosedGood(srv, c, chunk);
  }

  lemma ClosedGood(srv: Server, c: Conn, chunk: string)
    requires Good(srv, c)
    ensures Good(srv, c.(input := c.input + chunk, closed := true))
  {
    hide Texts, OneContinueEach;
  }

  /** Nothing brings different answers back in line. */
  lemma DifferencesStay(srv: Server, c: Conn, v: Conversation, e: Event)
    requires Good(srv, c) && Possible(c, e) && Differ(c, v)
    ensures var d, w := Occur(srv, c, e), Serve(v, BytesOf(c, e), srv);
            Good(srv, d) && Differ(d, w)
  {
    hide Process, Flush, Serve, Responses, Accounted, Interim, Run, AtMostOne;
    ServeNothing(v, srv);
    if !c.closed && !c.adopted {
      match e
      case Hangup =>
        assert c.(input := c.input + "", closed := true) == c.(closed := true);
        ClosedGood(srv, c, "");
      case Writable(io) =>
        FlushGood(srv, c, io);
        SameLog(c, Flush(c, io));
      case Readable(chunk, eof, io) =>
        ArrivalGood(srv, c, chunk);
        ClosedGood(srv, c, chunk);
        if !v.open {
          ServeClosed(v, chunk, srv);
        }
        if !(eof && c.out == "") {
          if chunk == "" {
            ArrivalGood(srv, c, "");
            assert c.input + "" == c.input;
          } else {
            LateDifference(srv, c, chunk, eof, io);
          }
        }
    }
  }

  lemma LateDifference(srv: Server, c: Conn, chunk: string, eof: bool, io: seq<Io>)
    requires Good(srv, c) && !c.closed && !c.adopted && chunk != "" && !(eof && c.out == "")
    ensures var d := Read(srv, c, chunk, eof, io);
            Good(srv, d) && |Responses(d.log)| >= |Responses(c.log)| && (eof || c.closeAfter ==> d.closeAfter)
  {
    hide Process, Flush, Responses, Accounted, Interim, Run, Serve;
    ArrivalGood(srv, c, chunk);
    var c1 := c.(input := c.input + chunk);
    if eof || c.closeAfter {
      var c2 := if eof then c1.(closeAfter := true, ended := true) else c1;
      ProcessOnceMore(srv, c2);
      FlushGood(srv, Process(srv, c2), io);
      SameLog(Process(srv, c2), Flush(Process(srv, c2), io));
    } else {
      var v := Conversation(c.parser, Responses(c.log), true);
      PromptRead(srv, c, v, chunk, io);
      ServeGrows(v, chunk, srv);
    }
  }

  // ---------------------------------------------------------------------
  // Runs
  // ---------------------------------------------------------------------

  lemma OccurInHttp(srv: Server, c: Conn, e: Event)
    requires c.parser.phase != Complete
    ensures Occur(srv, c, e).parser.phase != Complete
  {
    hide Turn, GoesOn, Settle, Written;
    if e.Readable? {
      var c1 := c.(input := c.input + e.chunk);
      var c2 := if e.eof then c1.(closeAfter := true, ended := true) else c1;
      ProcessInHttp(srv, c2);
      hide Process;
      FlushKeepsParser(Process(srv, c2), e.io);
    } else if e.Writable? {
      FlushKeepsParser(c, e.io);
    }
  }

  lemma {:induction false} ProcessInHttp(srv: Server, c: Conn)
    requires c.parser.phase != Complete
    ensures Process(srv, c).parser.phase != Complete
    decreases |c.input|
  {
    hide Turn, GoesOn;
    TurnShortens(srv, c);
    if GoesOn(srv, c) {
      ProcessInHttp(srv, Turn(srv, c));
    }
  }

  lemma {:induction false} FlushKeepsParser(c: Conn, io: seq<Io>)
    ensures Flush(c, io).parser == c.parser
    decreases |io|
  {
    if c.out != "" && io != [] && io[0].Took? {
      FlushKeepsParser(Written(c, io[0].n), io[1..]);
    }
  }

  function After(srv: Server, c: Conn, es: seq<Event>): (d: Conn)
    requires c.parser.phase != Complete
    ensures d.parser.phase != Complete
    decreases es
  {
    if es == [] then c
    else
      OccurInHttp(srv, c, es[0]);
      After(srv, Occur(srv, c, es[0]), es[1..])
  }

  predicate AllPossible(srv: Server, c: Conn, es: seq<Event>)
    requires c.parser.phase != Complete
    decreases es
  {
    OccurKept(srv, c, es);
    es != [] ==> Possible(c, es[0]) && AllPossible(srv, Occur(srv, c, es[0]), es[1..])
  }

  predicate AllFaithful(srv: Server, c: Conn, es: seq<Event>)
    requires c.parser.phase != Complete
    decreases es
  {
    OccurKept(srv, c, es);
    es != [] ==> Faithful(srv, c, es[0]) && AllFaithful(srv, Occur(srv, c, es[0]), es[1..])
  }

  /** All bytes read over a run. */
  function BytesRead(srv: Server, c: Conn, es: seq<Event>): string
    requires c.parser.phase != Complete
    decreases es
  {
    OccurKept(srv, c, es);
    if es == [] then "" else BytesOf(c, es[0]) + BytesRead(srv, Occur(srv, c, es[0]), es[1..])
  }

  lemma OccurKept(srv: Server, c: Conn, es: seq<Event>)
    requires c.parser.phase != Complete
    ensures es != [] ==> Occur(srv, c, es[0]).parser.phase != Complete
  {
    if es != [] {
      OccurInHttp(srv, c, es[0]);
    }
  }

  lemma {:induction false} RunDiffers(srv: Server, c: Conn, v: Conversation, es: seq<Event>)
    requires Good(srv, c) && AllPossible(srv, c, es) && Differ(c, v)
    ensures Differ(After(srv, c, es), Serve(v, BytesRead(srv, c, es), srv)) && Good(srv, After(srv, c, es))
    decreases es
  {
    hide Occur, Serve, Differ, Good, Possible, BytesOf;
    GoodInHttp(srv, c);
    if es == [] {
      ServeNothing(v, srv);
    } else {
      var e := es[0];
      DifferencesStay(srv, c, v, e);
      OccurKept(srv, c, es);
      RunDiffers(srv, Occur(srv, c, e), Serve(v, BytesOf(c, e), srv), es[1..]);
      ServeAppend(v, BytesOf(c, e), BytesRead(srv, Occur(srv, c, e), es[1..]), srv);
    }
  }

  lemma GoodInHttp(srv: Server, c: Conn)
    requires Good(srv, c)
    ensures c.parser.phase != Complete
  {
  }

  lemma {:induction false} RunAgrees(srv: Server, c: Conn, v: Conversation, es: seq<Event>)
    requires Good(srv, c) && AllPossible(srv, c, es) && Agree(c, v)
    ensures var d, w := After(srv, c, es), Serve(v, BytesRead(srv, c, es), srv);
            && Good(srv, d)
            && (AllFaithful(srv, c, es) ==> Agree(d, w))
            && (!AllFaithful(srv, c, es) ==> Differ(d, w))
    decreases es
  {
    hide Occur, Serve, Differ, Agree, Good, Possible, BytesOf, Faithful;
    GoodInHttp(srv, c);
    if es == [] {
      ServeNothing(v, srv);
    } else {
      var e := es[0];
      EventStep(srv, c, v, e);
      OccurKept(srv, c, es);
      var d, w := Occur(srv, c, e), Serve(v, BytesOf(c, e), srv);
      if Faithful(srv, c, e) {
        RunAgrees(srv, d, w, es[1..]);
      } else {
        RunDiffers(srv, d, w, es[1..]);
      }
      ServeAppend(v, BytesOf(c, e), BytesRead(srv, d, es[1..]), srv);
    }
  }

  lemma AgreeMeans(c: Conn, v: Conversation)
    ensures Agree(c, v) ==> Responses(c.log) == v.log
    ensures Differ(c, v) ==> Responses(c.log) != v.log
  {
    hide Responses;
  }

  /**
   * Over any life of a connection the responses are those that the bytes read
   * determine, however they were cut, exactly when every event was faithful.
   */
  lemma AnswersExactly(srv: Server, es: seq<Event>)
    requires AllPossible(srv, Opened(), es)
    ensures Responses(After(srv, Opened(), es).log) == Serve(Start(), BytesRead(srv, Opened(), es), srv).log
            <==> AllFaithful(srv, Opened(), es)
  {
    hide After, Serve, BytesRead, AllFaithful, AllPossible, Responses, Agree, Differ, Good;
    OpenedGood(srv);
    RunAgrees(srv, Opened(), Start(), es);
    AgreeMeans(After(srv, Opened(), es), Serve(Start(), BytesRead(srv, Opened(), es), srv));
  }

  /** Bytes are read only while another request would be answered, and the peer's end comes alone. */
  predicate Prompt(c: Conn, e: Event) {
    e.Readable? && e.chunk != "" ==> !c.closeAfter && !e.eof
  }

  predicate AllPrompt(srv: Server, c: Conn, es: seq<Event>)
    requires c.parser.phase != Complete
    decreases es
  {
    OccurKept(srv, c, es);
    es != [] ==> Prompt(c, es[0]) && AllPrompt(srv, Occur(srv, c, es[0]), es[1..])
  }

  lemma {:induction false} PromptIsFaithful(srv: Server, c: Conn, es: seq<Event>)
    requires c.parser.phase != Complete && AllPrompt(srv, c, es)
    ensures AllFaithful(srv, c, es)
    decreases es
  {
    hide Occur, Run, AtMostOne;
    OccurKept(srv, c, es);
    if es != [] {
      PromptIsFaithful(srv, Occur(srv, c, es[0]), es[1..]);
    }
  }

  /** So if the last response drains before more is read, cuts do not matter at all. */
  lemma CutsDoNotMatter(srv: Server, es: seq<Event>, fs: seq<Event>)
    requires AllPossible(srv, Opened(), es) && AllPrompt(srv, Opened(), es)
    requires AllPossible(srv, Opened(), fs) && AllPrompt(srv, Opened(), fs)
    requires BytesRead(srv, Opened(), es) == BytesRead(srv, Opened(), fs)
    ensures Responses(After(srv, Opened(), es).log) == Responses(After(srv, Opened(), fs).log)
  {
    hide After, Serve, BytesRead, AllFaithful, AllPossible, AllPrompt, Responses;
    PromptIsFaithful(srv, Opened(), es);
    PromptIsFaithful(srv, Opened(), fs);
    AnswersExactly(srv, es);
    AnswersExactly(srv, fs);
  }

  /**
   * In every state the bytes written and waiting are the queued texts in order,
   * at most one interim text before each response.
   */
  lemma EverythingAccounted(srv: Server, es: seq<Event>)
    requires AllPossible(srv, Opened(), es)
    ensures var c := After(srv, Opened(), es);
            && Texts(srv, c.log) == c.wire + c.out && OneContinueEach(c.log)
            && (!c.closed && !c.adopted && !c.closeAfter ==> c.input == "")
  {
    hide After, Serve, BytesRead, AllFaithful, AllPossible, Responses, Texts;
    OpenedGood(srv);
    RunAgrees(srv, Opened(), Start(), es);
  }

  /** A connection the server itself closes after a flush has written every response. */
  lemma ClosesDrained(srv: Server, c: Conn, io: seq<Io>)
    requires Good(srv, c) && !c.closed && Failed !in io
    ensures Flush(c, io).closed ==> Flush(c, io).wire == Texts(srv, c.log) && c.closeAfter
  {
    hide Flush, Texts;
    FlushGood(srv, c, io);
    var d := Flush(c, io);
    assert d.wire + "" == d.wire;
  }
}
