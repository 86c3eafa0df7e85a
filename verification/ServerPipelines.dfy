// Requests sent one after the other on a connection: which are answered, and
// the inputs on which the cuts between reads do matter.
module ServerPipelines {
  import opened Common
  import opened Text
  import opened Http
  import opened HttpParser
  import opened HttpMessage
  import opened ServerInput
  import opened ServerRuns

  // ---------------------------------------------------------------------
  // Pipelines
  // ---------------------------------------------------------------------

  function TextAll(ms: seq<Message>): string {
    if ms == [] then "" else MessageText(ms[0]) + TextAll(ms[1..])
  }

  /** What the handler should be given: repeated headers are joined. */
  function Received(m: Message): Request {
    Request(ParsedLine(m.verb, m.target, m.version), AddAll(map[], m.fields), m.body)
  }

  function AnswerTo(srv: Server, m: Message): Item { Answer(Received(m), srv.handle(Received(m))) }

  predicate EndsHttp(srv: Server, m: Message) { Closes(Received(m), srv.handle(Received(m))) }

  /** One answer for each request, up to the first that is the last. */
  function Answers(srv: Server, ms: seq<Message>): seq<Item> {
    if ms == [] then []
    else [AnswerTo(srv, ms[0])] + if EndsHttp(srv, ms[0]) then [] else Answers(srv, ms[1..])
  }

  predicate Sendable(srv: Server, m: Message) { CleanMessage(m) && MessageFits(m, srv.limits) }

  lemma ParsedIsReceived(m: Message)
    ensures ParsedMessage(m).phase == Complete && RequestOf(ParsedMessage(m)) == Received(m)
  {
    hide ParsedLine, AddAll, Head;
  }

  /** A request is answered with its own content, and the rest is served from a fresh parser. */
  lemma OneRequestServed(srv: Server, v: Conversation, m: Message, rest: string)
    requires v.open && v.parser == Fresh() && Sendable(srv, m)
    ensures Serve(v, MessageText(m) + rest, srv) ==
            Serve(Conversation(Fresh(), v.log + [AnswerTo(srv, m)], !EndsHttp(srv, m)), rest, srv)
  {
    hide Serve, MessageText, ParsedMessage, Fresh, Received, Closes, CleanMessage, MessageFits, Run, Used;
    var text, w := MessageText(m), Respond(v, ParsedMessage(m), srv);
    MessageRuns(m, srv.limits);
    ParsedIsReceived(m);
    FreshRuns();
    ServeRound(v, text, srv);
    assert text[|text|..] == "";
    ServeNothing(w, srv);
    ServeAppend(v, text, rest, srv);
  }

  /** Pipelined requests are answered one by one, each with its own content, up to the one that ends HTTP. */
  lemma {:induction false} PipelineServed(srv: Server, v: Conversation, ms: seq<Message>)
    requires v.open && v.parser == Fresh()
    requires forall m | m in ms :: Sendable(srv, m)
    ensures var w := Serve(v, TextAll(ms), srv);
            w.log == v.log + Answers(srv, ms) && w.parser == Fresh()
    decreases |ms|
  {
    hide Serve, MessageText, Sendable, AnswerTo, EndsHttp, Fresh;
    if ms == [] {
      ServeNothing(v, srv);
    } else {
      var a := AnswerTo(srv, ms[0]);
      var v1 := Conversation(Fresh(), v.log + [a], !EndsHttp(srv, ms[0]));
      OneRequestServed(srv, v, ms[0], TextAll(ms[1..]));
      if v1.open {
        PipelineServed(srv, v1, ms[1..]);
        assert v.log + ([a] + Answers(srv, ms[1..])) == v.log + [a] + Answers(srv, ms[1..]);
      } else {
        ServeClosed(v1, TextAll(ms[1..]), srv);
      }
    }
  }

  /** A connection whose life reads exactly the pipeline gives exactly these answers if and only if it reads faithfully. */
  lemma PipelineAnswered(srv: Server, ms: seq<Message>, es: seq<Event>)
    requires forall m | m in ms :: Sendable(srv, m)
    requires AllPossible(srv, Opened(), es) && BytesRead(srv, Opened(), es) == TextAll(ms)
    ensures Responses(After(srv, Opened(), es).log) == Answers(srv, ms) <==> AllFaithful(srv, Opened(), es)
  {
    hide *;
    StartFacts();
    PipelineServed(srv, Start(), ms);
    AnswersExactly(srv, es);
    assert [] + Answers(srv, ms) == Answers(srv, ms);
  }

  lemma StartFacts()
    ensures Start().open && Start().parser == Fresh() && Start().log == []
  {
  }

  /** All are answered as long as none but the last ends HTTP. */
  lemma {:induction false} AnswersAre(srv: Server, ms: seq<Message>)
    ensures |Answers(srv, ms)| <= |ms|
    ensures forall i | 0 <= i < |Answers(srv, ms)| :: Answers(srv, ms)[i] == AnswerTo(srv, ms[i])
    ensures |Answers(srv, ms)| == |ms| <==> forall i | 0 <= i < |ms| - 1 :: !EndsHttp(srv, ms[i])
    decreases |ms|
  {
    hide AnswerTo, EndsHttp;
    if ms != [] {
      var rest := ms[1..];
      AnswersAre(srv, rest);
      if forall i | 0 <= i < |rest| - 1 :: !EndsHttp(srv, rest[i]) {
        if |ms| > 1 && !EndsHttp(srv, ms[0]) {
          forall i | 0 <= i < |ms| - 1 ensures !EndsHttp(srv, ms[i]) {
            assert i > 0 ==> ms[i] == rest[i - 1];
          }
        }
      } else {
        var i :| 0 <= i < |rest| - 1 && EndsHttp(srv, rest[i]);
        assert ms[i + 1] == rest[i];
      }
    }
  }

  // ---------------------------------------------------------------------
  // Where the cuts matter
  // ---------------------------------------------------------------------

  /** One request buffered and nothing else: it is handled, and the loop ends. */
  lemma OneProcessed(srv: Server, c: Conn, m: Message)
    requires Sendable(srv, m) && c.parser == Fresh() && c.input == MessageText(m)
    ensures Process(srv, c) == Handle(srv, c.(parser := ParsedMessage(m), input := ""))
  {
    hide Run, Used, Fresh, MessageText, ParsedMessage, CleanMessage, MessageFits, Handle;
    var c1 := c.(parser := ParsedMessage(m), input := "");
    MessageRuns(m, srv.limits);
    ParsedIsReceived(m);
    FreshRuns();
    assert c.input[|MessageText(m)|..] == "";
    assert Feed(srv, c) == c1;
    HandleKeeps(srv, c1);
  }

  lemma HandleKeeps(srv: Server, c: Conn)
    ensures Handle(srv, c).input == c.input
  {
    hide Closes, Texts;
  }

  /** A read whose response the socket does not take at all. */
  lemma ReadAndStall(srv: Server, c: Conn, m: Message)
    requires Sendable(srv, m) && c.parser == Fresh() && c.input == "" && !c.closed && !c.adopted
    requires srv.handle(Received(m)).text != "" && srv.handle(Received(m)).outcome != Adopted
    ensures var d := Occur(srv, c, Readable(MessageText(m), false, [Blocked]));
            && d.parser == Fresh() && d.input == "" && d.out != "" && !d.closed && !d.adopted && d.ended == c.ended
            && d.closeAfter == (c.closeAfter || EndsHttp(srv, m)) && d.log == c.log + [AnswerTo(srv, m)]
  {
    hide Run, Fresh, MessageText, ParsedMessage, Process, Received, Closes, CleanMessage, MessageFits;
    var c1 := c.(input := c.input + MessageText(m));
    assert c1.input == MessageText(m);
    NotEmpty(m);
    OneProcessed(srv, c1, m);
    ParsedIsReceived(m);
  }

  lemma NotEmpty(m: Message)
    ensures MessageText(m) != ""
  {
    hide LineText, Render;
  }

  /** Two reads, the first of which leaves the connection in HTTP. */
  lemma TwoReads(srv: Server, e1: Event, e2: Event)
    requires e1.Readable? && e2.Readable? && !e1.eof && !e2.eof
    requires var c1 := Occur(srv, Opened(), e1); c1.parser.phase != Complete && !c1.closed && !c1.adopted && !c1.ended
    ensures AllPossible(srv, Opened(), [e1, e2])
    ensures BytesRead(srv, Opened(), [e1, e2]) == e1.chunk + e2.chunk
    ensures After(srv, Opened(), [e1, e2]) == Occur(srv, Occur(srv, Opened(), e1), e2)
  {
    hide Occur;
    var c1 := Occur(srv, Opened(), e1);
    assert [e1, e2][1..] == [e2];
    OneRead(srv, c1, e2);
  }

  lemma OneRead(srv: Server, c: Conn, e: Event)
    requires e.Readable? && !e.eof && c.parser.phase != Complete && !c.closed && !c.adopted && !c.ended
    ensures AllPossible(srv, c, [e])
    ensures BytesRead(srv, c, [e]) == e.chunk
    ensures After(srv, c, [e]) == Occur(srv, c, e)
  {
    hide Occur;
    OccurInHttp(srv, c, e);
    assert [e][1..] == [];
    var d := Occur(srv, c, e);
    assert After(srv, d, []) == d;
    assert BytesRead(srv, d, []) == "";
    assert AllPossible(srv, d, []);
    assert e.chunk + "" == e.chunk;
  }

  /** One read is answered as its bytes alone determine. */
  lemma AnsweredAtOnce(srv: Server, data: string, io: seq<Io>)
    ensures var e := Readable(data, false, io);
            && AllPossible(srv, Opened(), [e]) && BytesRead(srv, Opened(), [e]) == data
            && Responses(After(srv, Opened(), [e]).log) == Serve(Start(), data, srv).log
  {
    hide Occur, Serve, Responses, After;
    var e := Readable(data, false, io);
    OneRead(srv, Opened(), e);
    assert AllFaithful(srv, Opened(), [e]) by {
      OccurInHttp(srv, Opened(), e);
      assert [e][1..] == [];
      assert AllFaithful(srv, Occur(srv, Opened(), e), []);
    }
    AnswersExactly(srv, [e]);
  }

  lemma TwoAnswers(srv: Server, m1: Message, m2: Message)
    ensures Responses([] + [AnswerTo(srv, m1)] + [AnswerTo(srv, m2)]) == [AnswerTo(srv, m1), AnswerTo(srv, m2)]
    ensures TextAll([m1, m2]) == MessageText(m1) + MessageText(m2)
    ensures EndsHttp(srv, m1) ==> Answers(srv, [m1, m2]) == [AnswerTo(srv, m1)]
  {
    hide MessageText, Received, EndsHttp;
    var a, b := AnswerTo(srv, m1), AnswerTo(srv, m2);
    ResponsesSnoc([], a);
    ResponsesSnoc([] + [a], b);
    assert [m1, m2][1..] == [m2] && [m2][1..] == [];
    assert TextAll([m2]) == MessageText(m2) + "";
    assert MessageText(m2) + "" == MessageText(m2);
  }

  /**
   * A request that comes in a later read is answered although the one before it
   * asked for the connection to be closed, as long as that one's response is
   * still being written; in one read it would not be.
   */
  lemma LateRequestAnswered(srv: Server, m1: Message, m2: Message)
    requires Sendable(srv, m1) && Sendable(srv, m2) && EndsHttp(srv, m1)
    requires forall m | m in [m1, m2] :: srv.handle(Received(m)).text != "" && srv.handle(Received(m)).outcome != Adopted
    ensures var apart := [Readable(MessageText(m1), false, [Blocked]), Readable(MessageText(m2), false, [Blocked])];
            var atOnce := [Readable(MessageText(m1) + MessageText(m2), false, [Blocked])];
            && AllPossible(srv, Opened(), apart) && AllPossible(srv, Opened(), atOnce)
            && BytesRead(srv, Opened(), apart) == BytesRead(srv, Opened(), atOnce)
            && Responses(After(srv, Opened(), apart).log) == [AnswerTo(srv, m1), AnswerTo(srv, m2)]
            && Responses(After(srv, Opened(), atOnce).log) == [AnswerTo(srv, m1)]
  {
    hide *;
    var t1, t2 := MessageText(m1), MessageText(m2);
    var e1, e2 := Readable(t1, false, [Blocked]), Readable(t2, false, [Blocked]);
    assert m1 in [m1, m2] && m2 in [m1, m2];
    OpenedFacts();
    ReadAndStall(srv, Opened(), m1);
    FreshRuns();
    ReadAndStall(srv, Occur(srv, Opened(), e1), m2);
    TwoReads(srv, e1, e2);
    TwoAnswers(srv, m1, m2);
    AnsweredAtOnce(srv, t1 + t2, [Blocked]);
    StartFacts();
    PipelineServed(srv, Start(), [m1, m2]);
    assert [] + Answers(srv, [m1, m2]) == Answers(srv, [m1, m2]);
  }

  lemma OpenedFacts()
    ensures var c := Opened();
            c.parser == Fresh() && c.parser.phase != Complete && c.input == "" && c.out == "" && c.log == []
            && !c.closed && !c.adopted && !c.ended && !c.closeAfter
  {
  }

  const BIG: Message := Message(GET, "/big", "HTTP/1.1", [Field("Connection", "close")], "")
  const SMALL: Message := Message(GET, "/x", "HTTP/1.1", [], "")

  /** For instance these two, whatever the handler, unless it takes the connection over or answers nothing. */
  lemma LateRequestExample(srv: Server)
    requires srv.limits.maxHeader == 0 || srv.limits.maxHeader >= 64
    ensures Sendable(srv, BIG) && Sendable(srv, SMALL) && EndsHttp(srv, BIG)
    ensures MessageText(BIG) == "GET /big HTTP/1.1" + "\r\n" + "Connection: close\r\n" + "\r\n"
    ensures MessageText(SMALL) == "GET /x HTTP/1.1\r\n\r\n"
  {
    BigFacts();
    SmallFacts();
    CloseMeansClose(Received(BIG), srv.handle(Received(BIG)));
  }

  lemma BigFacts()
    ensures MessageText(BIG) == "GET /big HTTP/1.1" + "\r\n" + "Connection: close\r\n" + "\r\n"
    ensures CleanMessage(BIG) && |Head(BIG)| <= 64
    ensures HeaderOf(Received(BIG).headers, "Connection") == "close"
  {
    hide AddAll, Lower, Received, Lookup, CleanField, Head, Find, Print;
    CloseHeader();
    BigHead();
    ReceivedHeaders(BIG);
    assert Head(BIG) + "" == Head(BIG);
  }

  lemma BigHead()
    ensures Head(BIG) == "GET /big HTTP/1.1" + "\r\n" + "Connection: close\r\n" + "\r\n"
  {
    hide RenderField;
    assert BIG.fields[1..] == [];
    assert Render([]) == "";
    assert RenderField(BIG.fields[0]) == "Connection: close\r\n" by { BigField(); }
    assert LineText(GET, "/big", "HTTP/1.1") == "GET /big HTTP/1.1";
  }

  lemma BigField()
    ensures RenderField(BIG.fields[0]) == "Connection: close\r\n"
  {
  }

  lemma ReceivedHeaders(m: Message)
    ensures Received(m).headers == AddAll(map[], m.fields)
  {
    hide ParsedLine, AddAll;
  }

  /** The one header line "Connection: close". */
  lemma CloseHeader()
    ensures var h := AddAll(map[], BIG.fields);
            && HeaderOf(h, "Connection") == "close"
            && Lookup(h, "Transfer-Encoding").None? && Lookup(h, "Content-Length").None?
    ensures CleanField(BIG.fields[0])
  {
    hide Lower, CleanField;
    var f := Field("Connection", "close");
    assert BIG.fields[1..] == [];
    assert AddAll(AddField(map[], f.name, f.value), []) == AddField(map[], f.name, f.value);
    OtherNames();
    CloseIsClean();
  }

  lemma CloseIsClean()
    ensures CleanField(Field("Connection", "close"))
  {
  }

  lemma OtherNames()
    ensures Lower("Transfer-Encoding") != Lower("Connection") && Lower("Content-Length") != Lower("Connection")
  {
    assert Lower("Connection") == "connection";
    assert Lower("Transfer-Encoding") == "transfer-encoding";
    assert Lower("Content-Length") == "content-length";
  }

  lemma SmallFacts()
    ensures MessageText(SMALL) == "GET /x HTTP/1.1\r\n\r\n"
    ensures CleanMessage(SMALL) && |Head(SMALL)| <= 64
  {
    assert Render([]) == "";
  }

  lemma CloseMeansClose(req: Request, reply: Reply)
    requires HeaderOf(req.headers, "Connection") == "close"
    ensures Closes(req, reply)
  {
  }

  // ---- a broken request, and a request at the peer's end ----

  /** While the refusal of a broken request is still being written, every further read queues it again. */
  lemma RefusedAgain(srv: Server, c: Conn, chunk: string, io: seq<Io>)
    requires Good(srv, c) && c.parser.phase == Error && !c.closed && !c.adopted && c.closeAfter && chunk != ""
    ensures Responses(Occur(srv, c, Readable(chunk, false, io)).log) == Responses(c.log) + [Failure(c.parser.err)]
  {
    hide Process, Flush, Run, Good;
    RunTerminal(c.parser, c.input + chunk, srv.limits);
    var d := c.(input := c.input + chunk);
    assert d == c.(input := c.input + chunk, ended := c.ended || false);
    LateRead(srv, c, chunk, false, io);
  }

  lemma BrokenRead(srv: Server, data: string)
    requires Run(Fresh(), data, srv.limits).phase == Error && srv.explain(Run(Fresh(), data, srv.limits).err) != ""
    ensures var t, d := Run(Fresh(), data, srv.limits), Occur(srv, Opened(), Readable(data, false, [Blocked]));
            && d.parser == t && d.log == [Failure(t.err)]
            && d.closeAfter && !d.closed && !d.adopted && !d.ended
  {
    hide Run, Used, Closes;
    var t := Run(Fresh(), data, srv.limits);
    RunNothing(Fresh(), srv.limits);
    var c1 := Opened().(input := Opened().input + data);
    assert c1.input == data;
    assert Process(srv, c1) == Turn(srv, c1);
  }

  lemma BrokenServed(srv: Server, data: string, more: string)
    requires Run(Fresh(), data, srv.limits).phase == Error
    ensures Serve(Start(), data + more, srv).log == [Failure(Run(Fresh(), data, srv.limits).err)]
  {
    hide Run, Used, Serve;
    var t, w := Run(Fresh(), data, srv.limits), Respond(Start(), Run(Fresh(), data, srv.limits), srv);
    FreshRuns();
    ServeRound(Start(), data, srv);
    ServeClosed(w, data[Used(Fresh(), data, srv.limits)..], srv);
    ServeAppend(Start(), data, more, srv);
    ServeClosed(w, more, srv);
  }

  /** So a refusal is queued twice when bytes follow in a later read, and once when they do not. */
  lemma RefusedTwice(srv: Server, data: string, more: string)
    requires Run(Fresh(), data, srv.limits).phase == Error && more != ""
    requires srv.explain(Run(Fresh(), data, srv.limits).err) != ""
    ensures var refusal := Failure(Run(Fresh(), data, srv.limits).err);
            var apart := [Readable(data, false, [Blocked]), Readable(more, false, [Blocked])];
            var atOnce := [Readable(data + more, false, [Blocked])];
            && AllPossible(srv, Opened(), apart) && AllPossible(srv, Opened(), atOnce)
            && BytesRead(srv, Opened(), apart) == BytesRead(srv, Opened(), atOnce)
            && Responses(After(srv, Opened(), apart).log) == [refusal, refusal]
            && Responses(After(srv, Opened(), atOnce).log) == [refusal]
  {
    hide *;
    var refusal := Failure(Run(Fresh(), data, srv.limits).err);
    var e1, e2 := Readable(data, false, [Blocked]), Readable(more, false, [Blocked]);
    OpenedFacts();
    BrokenRead(srv, data);
    FirstReadGood(srv, e1);
    RefusedAgain(srv, Occur(srv, Opened(), e1), more, [Blocked]);
    OneRefusal(refusal);
    TwoReads(srv, e1, e2);
    AnsweredAtOnce(srv, data + more, [Blocked]);
    BrokenServed(srv, data, more);
  }

  lemma FirstReadGood(srv: Server, e: Event)
    requires e.Readable?
    ensures Good(srv, Occur(srv, Opened(), e))
  {
    hide Occur, Good, Faithful, Serve;
    OpenedGood(srv);
    OpenedFacts();
    EventStep(srv, Opened(), Start(), e);
  }

  lemma OneRefusal(refusal: Item)
    requires refusal.Failure?
    ensures Responses([refusal]) + [refusal] == [refusal, refusal]
  {
    ResponsesSnoc([], refusal);
    assert [] + [refusal] == [refusal];
  }

  /** A line without spaces is refused. */
  lemma RefusedExample(lim: Limits)
    requires lim.maxHeader == 0 || lim.maxHeader >= 2
    ensures Run(Fresh(), "?\n", lim).phase == Error
    ensures Run(Fresh(), "?\n", lim).err == Diagnosis("Malformed start-line", 400)
  {
    var s := Step(Fresh(), '?', lim);
    assert "?\n"[1..] == "\n" && "\n"[1..] == "";
    assert s == Fresh().(line := "?", headerBytes := 1);
    assert Find("?", ' ') == 1;
    assert Run(Step(s, '\n', lim), "", lim) == Step(s, '\n', lim);
  }

  /** A request that arrives together with the peer's end, with nothing being written, is dropped. */
  lemma DroppedExample(srv: Server, m: Message, io: seq<Io>)
    requires Sendable(srv, m)
    ensures var es := [Readable(MessageText(m), true, io)];
            && AllPossible(srv, Opened(), es) && BytesRead(srv, Opened(), es) == MessageText(m)
            && After(srv, Opened(), es).log == [] && After(srv, Opened(), es).closed
            && Serve(Start(), MessageText(m), srv).log == [AnswerTo(srv, m)]
  {
    hide MessageText, Serve, Process, Flush, Answers, CleanMessage, MessageFits;
    var e := Readable(MessageText(m), true, io);
    assert [e][1..] == [];
    assert After(srv, Occur(srv, Opened(), e), []) == Occur(srv, Opened(), e);
    assert BytesRead(srv, Occur(srv, Opened(), e), []) == "";
    assert MessageText(m) + "" == MessageText(m);
    OneServed(srv, m);
  }

  lemma OneServed(srv: Server, m: Message)
    requires Sendable(srv, m)
    ensures Serve(Start(), MessageText(m), srv).log == [AnswerTo(srv, m)]
  {
    hide *;
    StartFacts();
    OneRequestServed(srv, Start(), m, "");
    ServeNothing(Conversation(Fresh(), Start().log + [AnswerTo(srv, m)], !EndsHttp(srv, m)), srv);
    assert MessageText(m) + "" == MessageText(m);
    assert [] + [AnswerTo(srv, m)] == [AnswerTo(srv, m)];
  }
}
