// A worker's connection in its HTTP phase: reads are buffered and parsed,
// requests answered, responses flushed as the socket allows, and the connection
// closed once the last response has left.
module ServerInput {
  import opened Common
  import opened Text
  import opened Http
  import opened HttpParser
  import opened ByteBuffer

  /** What a handler is given. */
  datatype Request = Request(line: RequestLine, headers: HeaderMap, body: string)

  /** An ordinary response, a stream protocol taking over, or a refusal before routing. */
  datatype Outcome = Plain | Adopted | Refused

  /** What handling a request comes to: the serialised response and its headers. */
  datatype Reply = Reply(outcome: Outcome, text: string, headers: HeaderMap)

  /** The application, the text of error responses, and the parser's limits. */
  datatype Server = Server(handle: Request -> Reply, explain: Diagnosis -> string, limits: Limits)

  /** What the connection queues for output. */
  datatype Item =
    | Continue
    | Answer(request: Request, reply: Reply)
    | Failure(err: Diagnosis)

  function ItemText(srv: Server, item: Item): string {
    match item
    case Continue => "HTTP/1.1 100 Continue\r\n\r\n"
    case Answer(_, reply) => reply.text
    case Failure(err) => srv.explain(err)
  }

  function Texts(srv: Server, log: seq<Item>): string {
    if log == [] then "" else Texts(srv, log[..|log| - 1]) + ItemText(srv, log[|log| - 1])
  }

  /** The responses alone, without interim "100 Continue" lines. */
  function Responses(log: seq<Item>): seq<Item> {
    if log == [] then []
    else Responses(log[..|log| - 1]) + if log[|log| - 1] == Continue then [] else [log[|log| - 1]]
  }

  lemma TextsSnoc(srv: Server, log: seq<Item>, item: Item)
    ensures Texts(srv, log + [item]) == Texts(srv, log) + ItemText(srv, item)
  {
    assert (log + [item])[..|log|] == log;
  }

  lemma ResponsesSnoc(log: seq<Item>, item: Item)
    ensures Responses(log + [item]) == Responses(log) + if item == Continue then [] else [item]
  {
    assert (log + [item])[..|log|] == log;
  }

  function RequestOf(s: State): Request { Request(s.req, s.headers, s.body) }

  /** The header's value, empty when there is none. */
  function HeaderOf(h: HeaderMap, name: string): string {
    match Lookup(h, name)
    case None => ""
    case Some(value) => value
  }

  /** The request's wish comes first, then the response's, then the version's default. */
  function WantsClose(req: Request, headers: HeaderMap): bool {
    var wish := HeaderOf(req.headers, "Connection");
    if wish != "" && IEqual(wish, "close") then true
    else if wish != "" && IEqual(wish, "keep-alive") then false
    else
      var own := HeaderOf(headers, "Connection");
      (own != "" && IEqual(own, "close")) || req.line.version == "HTTP/1.0"
  }

  /** Whether a response is the last on its connection. */
  function Closes(req: Request, reply: Reply): bool {
    reply.outcome != Plain || WantsClose(req, reply.headers)
  }

  // ---------------------------------------------------------------------
  // The connection as a value
  // ---------------------------------------------------------------------

  datatype Conn = Conn(
    parser: State,
    input: string,       // read, not yet parsed
    log: seq<Item>,      // everything queued so far
    out: string,         // queued, not yet written
    wire: string,        // written
    sent100: bool,
    closeAfter: bool,
    adopted: bool,
    closed: bool,
    ended: bool)         // the peer has sent its last byte

  function Opened(): Conn { Conn(Fresh(), "", [], "", "", false, false, false, false, false) }

  function Queue(srv: Server, c: Conn, item: Item): Conn {
    c.(log := c.log + [item], out := c.out + ItemText(srv, item))
  }

  /** The parser takes what belongs to the current request. */
  function Feed(srv: Server, c: Conn): Conn {
    c.(parser := Run(c.parser, c.input, srv.limits), input := c.input[Used(c.parser, c.input, srv.limits)..])
  }

  function Offer(srv: Server, c: Conn): Conn {
    if !c.sent100 && (c.parser.phase == Body || c.parser.phase == ChunkSize) then
      (if IEqual(HeaderOf(c.parser.headers, "Expect"), "100-continue") then Queue(srv, c, Continue) else c).(sent100 := true)
    else c
  }

  function Handle(srv: Server, c: Conn): Conn {
    var req := RequestOf(c.parser);
    var reply := srv.handle(req);
    Queue(srv, c, Answer(req, reply)).(
      closeAfter := c.closeAfter || Closes(req, reply),
      adopted := reply.outcome == Adopted,
      parser := Fresh(),
      sent100 := false)
  }

  /** The reaction to where the parser stopped. */
  function React(srv: Server, c: Conn): Conn {
    match c.parser.phase
    case Error => Queue(srv, c, Failure(c.parser.err)).(closeAfter := true)
    case Complete => Handle(srv, c)
    case _ => Offer(srv, c)
  }

  function Turn(srv: Server, c: Conn): Conn { React(srv, Feed(srv, c)) }

  /** Whether the loop goes round again. */
  predicate GoesOn(srv: Server, c: Conn) {
    var d := Turn(srv, c);
    Feed(srv, c).parser.phase == Complete && !d.closeAfter && !d.adopted && d.input != ""
  }

  /** `process_input_`, without the flush at its end. */
  function Process(srv: Server, c: Conn): Conn
    requires c.parser.phase != Complete
    decreases |c.input|
  {
    TurnShortens(srv, c);
    if GoesOn(srv, c) then Process(srv, Turn(srv, c)) else Turn(srv, c)
  }

  lemma TurnShortens(srv: Server, c: Conn)
    requires c.parser.phase != Complete
    ensures Turn(srv, c).parser.phase != Complete
    ensures GoesOn(srv, c) ==> |Turn(srv, c).input| < |c.input|
  {
    hide Run, Used, Closes, Queue;
    TurnFields(srv, c);
    if Feed(srv, c).parser.phase == Complete {
      UsedSome(c.parser, c.input, srv.limits);
    }
  }

  lemma UsedSome(s: State, data: string, lim: Limits)
    requires !Terminal(s) && Terminal(Run(s, data, lim))
    ensures Used(s, data, lim) > 0
  {
  }

  lemma TurnFields(srv: Server, c: Conn)
    ensures Turn(srv, c).input == Feed(srv, c).input
    ensures Turn(srv, c).parser == if Feed(srv, c).parser.phase == Complete then Fresh() else Feed(srv, c).parser
    ensures c.parser.phase == Error ==> Feed(srv, c).parser == c.parser
  {
    hide Closes, Used, Run, Queue, Offer;
    if c.parser.phase == Error {
      RunTerminal(c.parser, c.input, srv.limits);
    }
    OfferKeeps(srv, Feed(srv, c));
    QueueKeeps(srv, Feed(srv, c));
  }

  lemma QueueKeeps(srv: Server, c: Conn)
    ensures forall item :: Queue(srv, c, item).parser == c.parser && Queue(srv, c, item).input == c.input
  {
    hide ItemText;
  }

  lemma OfferKeeps(srv: Server, c: Conn)
    ensures Offer(srv, c).parser == c.parser && Offer(srv, c).input == c.input
  {
    hide ItemText, HeaderOf, IEqual;
  }

  /** What the socket answers to a write. */
  datatype Io = Took(n: nat) | Blocked | Failed

  /** Everything is written: close if that was the last response. */
  function Settle(c: Conn): Conn {
    if c.adopted || !c.closeAfter then c else c.(closed := true)
  }

  /** The socket took `n` bytes, or all there were. */
  function Written(c: Conn, n: nat): Conn {
    var m := if n <= |c.out| then n else |c.out|;
    c.(wire := c.wire + c.out[..m], out := c.out[m..])
  }

  /** `flush_output_`; the socket blocks when it is asked more often than `io` says. */
  function Flush(c: Conn, io: seq<Io>): Conn
    decreases |io|
  {
    if c.out == "" then Settle(c)
    else if io == [] then c
    else
      match io[0]
      case Blocked => c
      case Failed => c.(closed := true)
      case Took(n) => Flush(Written(c, n), io[1..])
  }

  lemma FlushDone(c: Conn, io: seq<Io>)
    requires c.out == ""
    ensures Flush(c, io) == Settle(c)
  {
    hide Settle;
  }

  lemma FlushOnce(c: Conn, io: seq<Io>)
    requires c.out != ""
    ensures Flush(c, io) ==
            if io == [] || io[0] == Blocked then c
            else if io[0] == Failed then c.(closed := true)
            else Flush(Written(c, io[0].n), io[1..])
  {
    hide Settle, Written;
  }

  /** What the event loop reports; `eof` says that the peer's last byte has been read. */
  datatype Event =
    | Readable(chunk: string, eof: bool, io: seq<Io>)
    | Writable(io: seq<Io>)
    | Hangup

  /** The reads of one wake-up. */
  function Read(srv: Server, c: Conn, chunk: string, eof: bool, io: seq<Io>): Conn
    requires c.parser.phase != Complete
  {
    var c1 := c.(input := c.input + chunk);
    if eof && c.out == "" then c1.(closed := true)
    else
      var c2 := if eof then c1.(closeAfter := true, ended := true) else c1;
      if chunk == "" then c2 else Flush(Process(srv, c2), io)
  }

  /** One event; a closed connection has none, and an adopted one is no longer HTTP. */
  function Occur(srv: Server, c: Conn, e: Event): Conn
    requires c.parser.phase != Complete
  {
    if c.closed || c.adopted then c
    else
      match e
      case Readable(chunk, eof, io) => Read(srv, c, chunk, eof, io)
      case Writable(io) => if c.out != "" then Flush(c, io) else c
      case Hangup => c.(closed := true)
  }

  // ---------------------------------------------------------------------
  // The connection as an object
  // ---------------------------------------------------------------------

  class Connection {
    const server: Server
    const input: Buffer
    const parser: Parser
    var log: seq<Item>
    var out: string
    var outOff: nat
    var wire: string
    var sent100: bool
    var closeAfter: bool
    var adopted: bool
    var closed: bool
    var ended: bool

    ghost predicate Valid()
      reads this, input, parser
    {
      input.Valid() && parser.Lim() == server.limits && Shape(parser.Abs()) && outOff <= |out|
    }

    ghost function Abs(): Conn
      reads this, input, parser
      requires Valid()
    {
      Conn(parser.Abs(), input.Unread(), log, out[outOff..], wire, sent100, closeAfter, adopted, closed, ended)
    }

    constructor (server: Server)
      ensures this.server == server && fresh(input) && fresh(parser)
      ensures Valid() && Abs() == Opened()
    {
      this.server := server;
      input := new Buffer();
      parser := new Parser(server.limits.maxHeader, server.limits.maxBody);
      log, out, outOff, wire := [], "", 0, "";
      sent100, closeAfter, adopted, closed, ended := false, false, false, false, false;
      new;
      FreshShape();
    }

    method Enqueue(item: Item)
      requires Valid()
      modifies this`log, this`out
      ensures Valid() && Abs() == Queue(server, old(Abs()), item)
    {
      log := log + [item];
      assert (out + ItemText(server, item))[outOff..] == out[outOff..] + ItemText(server, item);
      out := out + ItemText(server, item);
    }

    /** Gives the parser what is buffered. */
    method FeedParser()
      requires Valid()
      modifies parser, input
      ensures Valid() && Abs() == Feed(server, old(Abs()))
    {
      hide Run, Used, Shape;
      var data := input.Unread();
      if data != "" {
        var used := parser.Consume(data);
        input.Consume(used);
      } else {
        RunNothing(parser.Abs(), server.limits);
      }
    }

    /** "Expect: 100-continue": tell the client to send the body, once per request. */
    method OfferContinue()
      requires Valid()
      modifies this`log, this`out, this`sent100
      ensures Valid() && Abs() == Offer(server, old(Abs()))
    {
      hide Shape;
      if !sent100 && (parser.phase == Body || parser.phase == ChunkSize) {
        var expected := HeaderOf(parser.headers, "Expect");
        if IEqual(expected, "100-continue") {
          Enqueue(Continue);
        }
        sent100 := true;
      }
    }

    /** Runs the handler on the parsed request and makes room for the next one. */
    method HandleRequest()
      requires Valid()
      modifies this`log, this`out, this`closeAfter, this`adopted, this`sent100, parser
      ensures Valid() && Abs() == Handle(server, old(Abs()))
    {
      hide Shape, WantsClose;
      var line, headers := parser.req, parser.headers;
      var body := parser.TakeBody();
      var request := Request(line, headers, body);
      var reply := server.handle(request);
      log := log + [Answer(request, reply)];
      assert (out + reply.text)[outOff..] == out[outOff..] + reply.text;
      out := out + reply.text;
      if Closes(request, reply) {
        closeAfter := true;
      }
      adopted := reply.outcome == Adopted;
      parser.Reset();
      FreshShape();
      sent100 := false;
    }

    /** One turn of the loop; whether it goes round again. */
    method ProcessOnce() returns (again: bool)
      requires Valid()
      modifies this`log, this`out, this`closeAfter, this`adopted, this`sent100, parser, input
      ensures Valid() && Abs() == Turn(server, old(Abs()))
      ensures again == GoesOn(server, old(Abs()))
    {
      hide Shape, Feed, Offer, Handle, Queue;
      FeedParser();
      var phase := parser.phase;
      if phase == Error {
        Enqueue(Failure(parser.err));
        closeAfter := true;
        return false;
      }
      if phase != Complete {
        OfferContinue();
        return false;
      }
      HandleRequest();
      again := !closeAfter && !adopted && input.Unread() != "";
    }

    /** Parses and answers until the buffered bytes run out, a response was the last, or HTTP ends here. */
    method ProcessInput()
      requires Valid() && parser.phase != Complete
      modifies this`log, this`out, this`closeAfter, this`adopted, this`sent100, parser, input
      ensures Valid() && Abs() == Process(server, old(Abs()))
    {
      hide Shape, Turn, GoesOn;
      var again := true;
      ghost var all := Process(server, Abs());
      while again
        invariant Valid()
        invariant again ==> parser.phase != Complete && Process(server, Abs()) == all
        invariant !again ==> Abs() == all
        decreases again, |input.Unread()|
      {
        TurnShortens(server, Abs());
        again := ProcessOnce();
      }
    }

    /** The socket took `n` bytes, or all there were. */
    method WriteSome(n: nat)
      requires Valid() && outOff < |out|
      modifies this`outOff, this`wire
      ensures Valid() && Abs() == Written(old(Abs()), n)
    {
      hide Shape;
      var m := if n <= |out| - outOff then n else |out| - outOff;
      assert out[outOff..][..m] == out[outOff..outOff + m];
      assert out[outOff..][m..] == out[outOff + m..];
      wire := wire + out[outOff..outOff + m];
      outOff := outOff + m;
    }

    /** Everything is written; an adopted connection is flushed by its stream protocol from here on. */
    method Finish()
      requires Valid() && outOff == |out|
      modifies this`out, this`outOff, this`closed
      ensures Valid() && Abs() == Settle(old(Abs()))
    {
      hide Shape;
      if outOff > 0 {
        out := "";
        outOff := 0;
      }
      if !adopted && closeAfter {
        closed := true;
      }
    }

    /** Writes what the socket takes. */
    method FlushOutput(io: seq<Io>)
      requires Valid()
      modifies this`out, this`outOff, this`wire, this`closed
      ensures Valid() && Abs() == Flush(old(Abs()), io)
    {
      hide Shape, Flush, Written, Settle;
      var i := 0;
      assert io[0..] == io;
      while outOff < |out|
        invariant Valid() && i <= |io|
        invariant Flush(Abs(), io[i..]) == Flush(old(Abs()), io)
        decreases |io| - i
      {
        FlushOnce(Abs(), io[i..]);
        if i == |io| || io[i] == Blocked { return; }
        if io[i] == Failed {
          closed := true;
          return;
        }
        assert io[i..][1..] == io[i + 1..];
        WriteSome(io[i].n);
        i := i + 1;
      }
      FlushDone(Abs(), io[i..]);
      Finish();
    }

    /** One wake-up for reading: all there is to read, and whether the peer has finished. */
    method OnReadable(chunk: string, eof: bool, io: seq<Io>)
      requires Valid() && parser.phase != Complete && !closed && !adopted
      modifies this, input, parser
      ensures Valid() && Abs() == Occur(server, old(Abs()), Readable(chunk, eof, io))
    {
      hide Shape, Process, Flush;
      input.Append(chunk);
      if eof {
        if outOff == |out| {
          closed := true;
          return;
        }
        closeAfter := true;
        ended := true;
      }
      if chunk != "" {
        ProcessInput();
        FlushOutput(io);
      }
    }

    method OnWritable(io: seq<Io>)
      requires Valid() && parser.phase != Complete && !closed && !adopted
      modifies this`out, this`outOff, this`wire, this`closed
      ensures Valid() && Abs() == Occur(server, old(Abs()), Writable(io))
    {
      hide Shape, Process;
      if outOff < |out| {
        FlushOutput(io);
      }
    }

    method OnHangup()
      requires Valid() && parser.phase != Complete && !closed && !adopted
      modifies this`closed
      ensures Valid() && Abs() == Occur(server, old(Abs()), Hangup)
    {
      hide Shape, Process;
      closed := true;
    }
  }

  lemma FreshShape()
    ensures Shape(Fresh())
  {
  }
}
