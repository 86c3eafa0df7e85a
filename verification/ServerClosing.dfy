// When a connection ends, and what an exchange puts on the wire, seen from
// outside: by the request's lines, the response's headers and the socket.
module ServerClosing {
  import opened Common
  import opened Text
  import opened Http
  import opened HttpParser
  import opened HttpMessage
  import opened HttpFraming
  import opened ServerInput
  import opened ServerRuns
  import opened ServerPipelines

  // ---------------------------------------------------------------------
  // Keeping alive or closing
  // ---------------------------------------------------------------------

  /** A Connection header with that word, in any letter case. */
  predicate Says(value: Option<string>, word: string) { value.Some? && Lower(value.value) == word }

  /** A connection between two requests, or before the first. */
  predicate Waiting(c: Conn) {
    && c.parser == Fresh() && c.input == "" && c.out == ""
    && !c.sent100 && !c.closeAfter && !c.adopted && !c.closed && !c.ended
  }

  lemma OpenedWaits()
    ensures Waiting(Opened()) && Opened().parser.phase != Complete
  {
  }

  lemma WaitingInHttp(c: Conn)
    requires Waiting(c)
    ensures c.parser.phase != Complete
  {
  }

  /** A flush on a socket that takes everything. */
  lemma AllWritten(c: Conn, room: nat)
    requires room >= |c.out|
    ensures Flush(c, [Took(room)]) == Settle(c.(wire := c.wire + c.out, out := ""))
  {
    hide Settle;
    if c.out == "" {
      FlushDone(c, [Took(room)]);
      assert c.wire + "" == c.wire;
    } else {
      FlushOnce(c, [Took(room)]);
      assert c.out[..|c.out|] == c.out && c.out[|c.out|..] == "";
      assert [Took(room)][1..] == [];
      FlushDone(Written(c, room), []);
    }
  }

  /** One request, read whole, on a socket that takes everything. */
  function Exchange(srv: Server, c: Conn, m: Message, room: nat): Conn
    requires Waiting(c)
  {
    WaitingInHttp(c);
    Occur(srv, c, Readable(MessageText(m), false, [Took(room)]))
  }

  lemma ExchangeIs(srv: Server, c: Conn, m: Message, room: nat)
    requires Waiting(c) && Sendable(srv, m) && room >= |srv.handle(Received(m)).text|
    ensures var reply, d := srv.handle(Received(m)), Exchange(srv, c, m, room);
            && d.wire == c.wire + reply.text && d.out == "" && d.log == c.log + [AnswerTo(srv, m)]
            && d.adopted == (reply.outcome == Adopted)
            && d.closed == (EndsHttp(srv, m) && reply.outcome != Adopted)
            && (!EndsHttp(srv, m) ==> Waiting(d))
  {
    hide Run, Fresh, MessageText, ParsedMessage, Process, Flush, Received, Closes, CleanMessage, MessageFits;
    var c1 := c.(input := c.input + MessageText(m));
    assert c1.input == MessageText(m);
    FreshRuns();
    NotEmpty(m);
    OneProcessed(srv, c1, m);
    ParsedIsReceived(m);
    var c2 := Process(srv, c1);
    var reply := srv.handle(Received(m));
    assert "" + reply.text == reply.text;
    AdoptedCloses(srv, m);
    assert c.wire + "" == c.wire;
    AllWritten(c2, room);
  }

  lemma AdoptedCloses(srv: Server, m: Message)
    ensures srv.handle(Received(m)).outcome == Adopted ==> EndsHttp(srv, m)
  {
    hide Received, WantsClose;
  }

  lemma ConnectionHeader(m: Message)
    ensures var own := Joined(m.fields, "Connection");
            HeaderOf(Received(m).headers, "Connection") == if own.None? then "" else own.value
  {
    hide ParsedLine, AddAll, Lookup, Joined;
    LookupJoined(m.fields, "Connection");
  }

  lemma LowerWords(v: string)
    ensures IEqual(v, "close") <==> Lower(v) == "close"
    ensures IEqual(v, "keep-alive") <==> Lower(v) == "keep-alive"
    ensures Lower(v) in {"close", "keep-alive"} ==> v != ""
  {
    assert Lower("close") == "close";
    assert Lower("keep-alive") == "keep-alive";
    assert |Lower(v)| == |v|;
  }

  lemma WishesRead(req: Request, reply: Reply, own: Option<string>)
    requires HeaderOf(req.headers, "Connection") == if own.None? then "" else own.value
    requires reply.outcome == Plain
    ensures var theirs := Lookup(reply.headers, "Connection");
            && (Says(own, "close") ==> Closes(req, reply))
            && (Says(own, "keep-alive") ==> !Closes(req, reply))
            && (!Says(own, "close") && !Says(own, "keep-alive") ==>
                  (Closes(req, reply) <==> Says(theirs, "close") || req.line.version == "HTTP/1.0"))
  {
    hide Lower, Lookup, IEqual;
    LowerWords(HeaderOf(req.headers, "Connection"));
    LowerWords(HeaderOf(reply.headers, "Connection"));
    LowerWords("");
  }

  /**
   * Whether an ordinary response ends the connection, once it is written: the
   * request's wish comes first, then the response's, and then the version: an
   * HTTP/1.0 client that asks for nothing gets its end, an HTTP/1.1 client does not.
   * A connection that is not closed is as it was before, and ready for more.
   */
  lemma ClosingDecided(srv: Server, c: Conn, m: Message, room: nat)
    requires Waiting(c) && Sendable(srv, m) && room >= |srv.handle(Received(m)).text|
    requires srv.handle(Received(m)).outcome == Plain
    ensures var d := Exchange(srv, c, m, room);
            var own, theirs := Joined(m.fields, "Connection"), Lookup(srv.handle(Received(m)).headers, "Connection");
            && (Says(own, "close") ==> d.closed)
            && (Says(own, "keep-alive") ==> !d.closed)
            && (!Says(own, "close") && !Says(own, "keep-alive") ==>
                  && (Says(theirs, "close") ==> d.closed)
                  && (!Says(theirs, "close") && m.version == "HTTP/1.0" ==> d.closed)
                  && (!Says(theirs, "close") && m.version == "HTTP/1.1" ==> !d.closed))
            && d.wire == c.wire + srv.handle(Received(m)).text
            && (!d.closed ==> Waiting(d))
  {
    hide Exchange, Sendable, Closes, Says, Lookup, Joined, AddAll, ParsedLine, Waiting;
    ExchangeIs(srv, c, m, room);
    ConnectionHeader(m);
    WishesRead(Received(m), srv.handle(Received(m)), Joined(m.fields, "Connection"));
    assert Received(m).line.version == m.version by { VersionKept(m); }
  }

  lemma VersionKept(m: Message)
    ensures Received(m).line.version == m.version
  {
    hide AddAll;
  }

  /** A refusal before routing ends the connection whatever anybody asked for; a stream protocol keeps it. */
  lemma OtherOutcomes(srv: Server, c: Conn, m: Message, room: nat)
    requires Waiting(c) && Sendable(srv, m) && room >= |srv.handle(Received(m)).text|
    ensures var outcome, d := srv.handle(Received(m)).outcome, Exchange(srv, c, m, room);
            && (outcome == Refused ==> d.closed && !d.adopted)
            && (outcome == Adopted ==> !d.closed && d.adopted)
            && d.wire == c.wire + srv.handle(Received(m)).text
  {
    hide Exchange, Sendable, Received, WantsClose, Waiting;
    ExchangeIs(srv, c, m, room);
  }

  /** A request that cannot be parsed is answered with its refusal, and then the connection is closed. */
  lemma BrokenAndClosed(srv: Server, c: Conn, data: string, room: nat)
    requires Waiting(c) && Run(Fresh(), data, srv.limits).phase == Error
    requires room >= |srv.explain(Run(Fresh(), data, srv.limits).err)|
    ensures c.parser.phase != Complete
    ensures var d := Occur(srv, c, Readable(data, false, [Took(room)]));
            && d.closed && d.out == "" && d.wire == c.wire + srv.explain(Run(Fresh(), data, srv.limits).err)
  {
    hide Run, Used, Closes, Offer, Flush;
    var t := Run(Fresh(), data, srv.limits);
    RunNothing(Fresh(), srv.limits);
    assert c.wire + "" == c.wire;
    var c1 := c.(input := c.input + data);
    assert c1.input == data;
    assert Process(srv, c1) == Turn(srv, c1);
    var c2 := Process(srv, c1);
    assert "" + srv.explain(t.err) == srv.explain(t.err);
    AllWritten(c2, room);
  }

  /** A peer that has sent its last byte still gets what is being written, and then the connection is closed. */
  lemma EndAfterDrain(srv: Server, c: Conn, io: seq<Io>, room: nat)
    requires c.parser.phase != Complete && !c.closed && !c.adopted && c.out != "" && room >= |c.out|
    ensures var c1 := Occur(srv, c, Readable("", true, io));
            && !c1.closed && c1.out == c.out && c1.wire == c.wire && c1.parser == c.parser
            && Occur(srv, c1, Writable([Took(room)])).closed
            && Occur(srv, c1, Writable([Took(room)])).wire == c.wire + c.out
  {
    hide Process;
    var c1 := Occur(srv, c, Readable("", true, io));
    AllWritten(c1, room);
  }

  /** A socket that breaks in the middle of a response closes the connection; what it took is on the wire. */
  lemma WriteFailureCloses(srv: Server, c: Conn, n: nat)
    requires c.parser.phase != Complete && !c.closed && !c.adopted && n < |c.out|
    ensures var d := Occur(srv, c, Writable([Took(n), Failed]));
            d.closed && d.wire == c.wire + c.out[..n]
  {
    hide Process;
    hide Flush;
    FlushOnce(c, [Took(n), Failed]);
    assert [Took(n), Failed][1..] == [Failed];
    FlushOnce(Written(c, n), [Failed]);
  }

  // ---------------------------------------------------------------------
  // Asking for the body
  // ---------------------------------------------------------------------

  const GO_ON: string := "HTTP/1.1 100 Continue\r\n\r\n"

  /** The head alone, of a request that waits to be told to send its body. */
  lemma BodyAskedFor(srv: Server, c: Conn, m: Message, room: nat)
    requires Waiting(c) && Sendable(srv, m) && m.body != "" && room >= |GO_ON|
    ensures c.parser.phase != Complete
    ensures var d := Occur(srv, c, Readable(Head(m), false, [Took(room)]));
            && d.wire == c.wire + (if Says(Joined(m.fields, "Expect"), "100-continue") then GO_ON else "")
            && d.out == "" && !d.closed
  {
    hide Occur, Joined, Says, Run, Head;
    HeadRead(srv, c, m, room);
  }

  lemma HeadRead(srv: Server, c: Conn, m: Message, room: nat)
    requires Waiting(c) && Sendable(srv, m) && m.body != "" && room >= |GO_ON|
    ensures c.parser.phase != Complete
    ensures var d := Occur(srv, c, Readable(Head(m), false, [Took(room)]));
            && d.wire == c.wire + (if Says(Joined(m.fields, "Expect"), "100-continue") then GO_ON else "")
            && d.out == "" && !d.closed && !d.adopted && !d.closeAfter && !d.ended
            && d.parser == Run(Fresh(), Head(m), srv.limits) && d.parser.phase == Body && d.input == ""
  {
    hide Run, Used, Head, Joined, Headed, Says, CleanField, Framed, Flush;
    assert c.wire + "" == c.wire;
    var c1 := c.(input := c.input + Head(m));
    assert c1.input == Head(m);
    HeadEndsInBody(srv, m);
    UsedEnds(Fresh(), Head(m), srv.limits);
    assert Head(m)[|Head(m)|..] == "";
    FreshRuns();
    var f := Feed(srv, c1);
    assert Process(srv, c1) == Turn(srv, c1) == Offer(srv, f);
    var c2 := Process(srv, c1);
    ExpectHeader(f.parser, m);
    assert "" + GO_ON == GO_ON;
    AllWritten(c2, room);
  }

  /** A parser that completes a request with the last byte read: it is handled, and the loop ends. */
  lemma LastByteProcessed(srv: Server, c: Conn, m: Message)
    requires c.parser.phase != Complete && Run(c.parser, c.input, srv.limits) == ParsedMessage(m)
    requires Used(c.parser, c.input, srv.limits) == |c.input|
    ensures Process(srv, c) == Handle(srv, c.(parser := ParsedMessage(m), input := ""))
  {
    hide Run, Used, Fresh, ParsedMessage, Handle;
    var c1 := c.(parser := ParsedMessage(m), input := "");
    ParsedIsReceived(m);
    assert c.input[|c.input|..] == "";
    assert Feed(srv, c) == c1;
    HandleKeeps(srv, c1);
  }

  lemma BodyCompletes(srv: Server, m: Message)
    requires Sendable(srv, m) && m.body != ""
    ensures var t := Run(Fresh(), Head(m), srv.limits);
            Run(t, m.body, srv.limits) == ParsedMessage(m) && Used(t, m.body, srv.limits) == |m.body|
  {
    hide Run, Used, Head, ParsedMessage, CleanMessage, MessageFits;
    MessageRuns(m, srv.limits);
    RunAppend(Fresh(), Head(m), m.body, srv.limits);
    UsedAppend(Fresh(), Head(m), m.body, srv.limits);
    HeadEndsInBody(srv, m);
  }

  /** Head and body in two reads, on a socket that takes everything. */
  function TwoPartExchange(srv: Server, c: Conn, m: Message, room: nat): Conn
    requires Waiting(c)
  {
    WaitingInHttp(c);
    var head := Readable(Head(m), false, [Took(room)]);
    OccurInHttp(srv, c, head);
    Occur(srv, Occur(srv, c, head), Readable(m.body, false, [Took(room)]))
  }

  /**
   * The interim response comes first, and then the answer; a connection that
   * goes on is as it was, and will offer the next request the same.
   */
  lemma AskedThenAnswered(srv: Server, c: Conn, m: Message, room: nat)
    requires Waiting(c) && Sendable(srv, m) && m.body != ""
    requires room >= |GO_ON| && room >= |srv.handle(Received(m)).text|
    ensures var reply, d := srv.handle(Received(m)), TwoPartExchange(srv, c, m, room);
            && d.wire == c.wire + (if Says(Joined(m.fields, "Expect"), "100-continue") then GO_ON else "") + reply.text
            && d.out == "" && d.adopted == (reply.outcome == Adopted)
            && d.closed == (EndsHttp(srv, m) && reply.outcome != Adopted)
            && (!EndsHttp(srv, m) ==> Waiting(d))
  {
    hide Run, Used, Fresh, Head, ParsedMessage, Process, Flush, Received, Closes, CleanMessage, MessageFits, Joined, Says;
    WaitingInHttp(c);
    var c0 := Occur(srv, c, Readable(Head(m), false, [Took(room)]));
    HeadRead(srv, c, m, room);
    FreshRuns();
    BodyCompletes(srv, m);
    var c1 := c0.(input := c0.input + m.body);
    assert c1.input == m.body;
    LastByteProcessed(srv, c1, m);
    ParsedIsReceived(m);
    var c2 := Process(srv, c1);
    var reply := srv.handle(Received(m));
    assert "" + reply.text == reply.text && c0.wire + "" == c0.wire;
    AdoptedCloses(srv, m);
    AllWritten(c2, room);
  }

  lemma HeadEndsInBody(srv: Server, m: Message)
    requires Sendable(srv, m) && m.body != ""
    ensures var t := Run(Fresh(), Head(m), srv.limits);
            t.phase == Body && t.headers == AddAll(map[], m.fields)
    ensures Head(m) != ""
  {
    hide Run, Used, Headed, EndHeaders, CleanField, AddAll, LineText, Render, Framed;
    HeadRuns(m, srv.limits);
    HeadedFlags(m);
    hide Head;
    EndOfHead(m, srv.limits);
  }

  lemma ExpectHeader(t: State, m: Message)
    requires t.headers == AddAll(map[], m.fields)
    ensures IEqual(HeaderOf(t.headers, "Expect"), "100-continue") <==> Says(Joined(m.fields, "Expect"), "100-continue")
  {
    hide AddAll, Joined, Lookup;
    LookupJoined(m.fields, "Expect");
    assert Lower("100-continue") == "100-continue";
    assert |Lower("")| == 0;
  }
}
