// A Pulse channel: inbound reassembly and the feed loop, outbound
// fragmentation, and the close handlers.
module PulseChannel {
  import opened Common
  import opened PulseFrame

  /** What the application sees.  Handlers are named by numbers. */
  datatype Event =
    | Text(data: Bytes)
    | Binary(data: Bytes)
    | Ping(data: Bytes)
    | Pong(data: Bytes)
    | Closed(handler: nat, code: nat, reason: Bytes)

  /** Which message handlers are set. */
  datatype Hooks = Hooks(text: bool, binary: bool, ping: bool, pong: bool)

  datatype Config = Config(maxMessage: nat, fragmentSize: nat, autoPong: bool, hooks: Hooks)

  const NO_STATUS: nat := 1005
  const ABNORMAL: nat := 1006

  /** The receiving half of a channel as a value. */
  datatype Receiver = Receiver(
    inbuf: Bytes,
    fragment: Bytes,
    fragmentOpcode: byte,
    pending: Bytes,
    closed: bool,
    closeRequested: bool,
    closeFired: bool,
    onClose: seq<nat>,
    events: seq<Event>)

  /** Why the feed loop stopped. */
  datatype Outcome = More | Closing | Failed

  // ---------------------------------------------------------------------
  // One frame
  // ---------------------------------------------------------------------

  function Emit(r: Receiver, e: Event): Receiver { r.(events := r.events + [e]) }

  /** A complete message goes to the handler of its kind, when there is one. */
  function EmitMessage(r: Receiver, opcode: byte, data: Bytes, cfg: Config): Receiver {
    if opcode == 1 && cfg.hooks.text then Emit(r, Text(data))
    else if opcode == 2 && cfg.hooks.binary then Emit(r, Binary(data))
    else r
  }

  function Enqueue(r: Receiver, bytes: Bytes): Receiver {
    if r.closed then r else r.(pending := r.pending + bytes)
  }

  function ClosePayload(code: nat, reason: Bytes): Bytes {
    [(code / 256 % 256) as byte, (code % 256) as byte] + reason
  }

  function SendCloseFrame(r: Receiver, code: nat, reason: Bytes): Receiver {
    if r.closed then r
    else Enqueue(r.(closeRequested := true), Encode(8, ClosePayload(code, reason), true))
  }

  function CloseEvents(handlers: seq<nat>, code: nat, reason: Bytes): seq<Event> {
    seq(|handlers|, i requires 0 <= i < |handlers| => Closed(handlers[i], code, reason))
  }

  /** Runs every registered close handler, the first time only. */
  function FireClose(r: Receiver, code: nat, reason: Bytes): Receiver {
    if r.closeFired then r
    else r.(closeFired := true, events := r.events + CloseEvents(r.onClose, code, reason))
  }

  function CloseCodeOf(payload: Bytes): nat {
    if |payload| >= 2 then payload[0] as nat * 256 + payload[1] as nat else NO_STATUS
  }

  function CloseReasonOf(payload: Bytes): Bytes {
    if |payload| >= 2 then payload[2..] else []
  }

  /** The effect of one decoded frame. */
  function Deliver(r: Receiver, opcode: byte, fin: bool, payload: Bytes, cfg: Config): (Receiver, Outcome) {
    if opcode == 0 then
      var whole := r.fragment + payload;
      if fin then (EmitMessage(r.(fragment := [], fragmentOpcode := 0), r.fragmentOpcode, whole, cfg), More)
      else (r.(fragment := whole), More)
    else if opcode == 1 || opcode == 2 then
      if fin then (EmitMessage(r, opcode, payload, cfg), More)
      else (r.(fragment := payload, fragmentOpcode := opcode), More)
    else if opcode == 8 then
      var code, reason := CloseCodeOf(payload), CloseReasonOf(payload);
      (FireClose(SendCloseFrame(r, code, reason), code, reason), Closing)
    else if opcode == 9 then
      var r1 := if cfg.hooks.ping then Emit(r, Ping(payload)) else r;
      (if cfg.autoPong then Enqueue(r1, Encode(10, payload, true)) else r1, More)
    else if opcode == 10 then
      (if cfg.hooks.pong then Emit(r, Pong(payload)) else r, More)
    else (r, Failed)
  }

  // ---------------------------------------------------------------------
  // The feed loop
  // ---------------------------------------------------------------------

  /** Decodes and delivers until bytes run out, a close frame, or an error. */
  function Drain(r: Receiver, cfg: Config): (Receiver, Outcome)
    decreases |r.inbuf|
  {
    match Decode(r.inbuf, cfg.maxMessage)
    case NeedMore => (r, More)
    case ProtocolError => (r.(closed := true), Failed)
    case Frame(opcode, fin, payload, consumed) =>
      var (r1, k) := Deliver(r.(inbuf := r.inbuf[consumed..]), opcode, fin, payload, cfg);
      DeliverKeepsInbuf(r.(inbuf := r.inbuf[consumed..]), opcode, fin, payload, cfg);
      if k == More then Drain(r1, cfg) else (r1, k)
  }

  lemma DeliverKeepsInbuf(r: Receiver, opcode: byte, fin: bool, payload: Bytes, cfg: Config)
    ensures Deliver(r, opcode, fin, payload, cfg).0.inbuf == r.inbuf
  {
  }

  /** `feed_bytes`: the new state, and why it returned. */
  function Feed(r: Receiver, data: Bytes, cfg: Config): (Receiver, Outcome) {
    if r.closed then (r, Failed) else Drain(r.(inbuf := r.inbuf + data), cfg)
  }

  // ---------------------------------------------------------------------
  // Cuts do not matter
  // ---------------------------------------------------------------------

  /** Delivering does not look at the bytes still buffered. */
  lemma DeliverIgnoresInbuf(r: Receiver, inbuf: Bytes, opcode: byte, fin: bool, payload: Bytes, cfg: Config)
    ensures var (a, k) := Deliver(r, opcode, fin, payload, cfg);
            Deliver(r.(inbuf := inbuf), opcode, fin, payload, cfg) == (a.(inbuf := inbuf), k)
  {
    if opcode == 8 {
      var code, reason := CloseCodeOf(payload), CloseReasonOf(payload);
      CloseIgnoresInbuf(r, inbuf, code, reason);
    } else {
      hide Encode, FireClose, SendCloseFrame, CloseCodeOf, CloseReasonOf;
    }
  }

  lemma CloseIgnoresInbuf(r: Receiver, inbuf: Bytes, code: nat, reason: Bytes)
    ensures FireClose(SendCloseFrame(r.(inbuf := inbuf), code, reason), code, reason) ==
            FireClose(SendCloseFrame(r, code, reason), code, reason).(inbuf := inbuf)
  {
    hide Encode, CloseEvents, ClosePayload;
  }

  /** Draining with more bytes buffered continues where draining without them stopped. */
  lemma {:induction false} DrainExtends(r: Receiver, more: Bytes, cfg: Config)
    ensures var (a, k) := Drain(r, cfg);
            Drain(r.(inbuf := r.inbuf + more), cfg) ==
            if k == More then Drain(a.(inbuf := a.inbuf + more), cfg)
            else (a.(inbuf := a.inbuf + more), k)
    decreases |r.inbuf|
  {
    hide Deliver, Decode;
    var d := Decode(r.inbuf, cfg.maxMessage);
    if !d.NeedMore? {
      DecodeStable(r.inbuf, more, cfg.maxMessage);
    }
    if d.Frame? {
      var rest := r.inbuf[d.consumed..];
      var r1 := r.(inbuf := rest);
      var (a, k) := Deliver(r1, d.opcode, d.fin, d.payload, cfg);
      DeliverIgnoresInbuf(r1, rest + more, d.opcode, d.fin, d.payload, cfg);
      DeliverKeepsInbuf(r1, d.opcode, d.fin, d.payload, cfg);
      assert (r.inbuf + more)[d.consumed..] == rest + more;
      if k == More {
        DrainExtends(a, more, cfg);
      }
    }
  }

  /** Nothing complete is left in the buffer. */
  predicate Settled(r: Receiver, cfg: Config) {
    !r.closed && Decode(r.inbuf, cfg.maxMessage).NeedMore?
  }

  lemma {:induction false} DrainSettles(r: Receiver, cfg: Config)
    requires !r.closed
    ensures var (a, k) := Drain(r, cfg); k == More ==> Settled(a, cfg)
    decreases |r.inbuf|
  {
    hide Decode, Encode, CloseEvents;
    var d := Decode(r.inbuf, cfg.maxMessage);
    if d.Frame? {
      var r1 := r.(inbuf := r.inbuf[d.consumed..]);
      var (a, k) := Deliver(r1, d.opcode, d.fin, d.payload, cfg);
      DeliverKeepsInbuf(r1, d.opcode, d.fin, d.payload, cfg);
      if k == More {
        DrainSettles(a, cfg);
      }
    }
  }

  /** Reads arriving one after the other, until one of them stops the loop. */
  function FeedAll(r: Receiver, cuts: seq<Bytes>, cfg: Config): (Receiver, Outcome)
    decreases cuts
  {
    if cuts == [] then (r, More)
    else
      var (a, k) := Feed(r, cuts[0], cfg);
      if k == More then FeedAll(a, cuts[1..], cfg) else (a, k)
  }

  function Join(cuts: seq<Bytes>): Bytes {
    if cuts == [] then [] else cuts[0] + Join(cuts[1..])
  }

  /**
   * However a stream is cut, the same events, replies, fragment and flags come
   * out, up to the first close frame or error; what is left in the buffer then
   * depends on the cuts, but nothing else does.
   */
  lemma {:induction false} CutsDoNotMatter(r: Receiver, cuts: seq<Bytes>, cfg: Config)
    requires Settled(r, cfg)
    ensures var (a, ka) := FeedAll(r, cuts, cfg);
            var (b, kb) := Feed(r, Join(cuts), cfg);
            && ka == kb
            && a.(inbuf := []) == b.(inbuf := [])
            && (ka == More ==> a == b)
    decreases cuts
  {
    hide Deliver, Decode;
    if cuts == [] {
      assert r.inbuf + [] == r.inbuf;
    } else {
      var first, rest := cuts[0], Join(cuts[1..]);
      var r1 := r.(inbuf := r.inbuf + first);
      DrainExtends(r1, rest, cfg);
      DrainSettles(r1, cfg);
      assert r.inbuf + Join(cuts) == r1.inbuf + rest;
      var (a, k) := Drain(r1, cfg);
      if k == More {
        CutsDoNotMatter(a, cuts[1..], cfg);
      }
    }
  }

  // ---------------------------------------------------------------------
  // Fragmentation
  // ---------------------------------------------------------------------

  /** A frame before encoding. */
  datatype Piece = Piece(opcode: byte, payload: Bytes, fin: bool)

  /** Continuation frames for the rest of a message. */
  function TailPieces(data: Bytes, size: nat): (ps: seq<Piece>)
    requires size > 0
    decreases |data|
  {
    if |data| <= size then [Piece(0, data, true)]
    else [Piece(0, data[..size], false)] + TailPieces(data[size..], size)
  }

  /** The frames of one message. */
  function Pieces(opcode: byte, data: Bytes, size: nat): (ps: seq<Piece>)
    requires size > 0
  {
    if |data| <= size then [Piece(opcode, data, true)]
    else [Piece(opcode, data[..size], false)] + TailPieces(data[size..], size)
  }

  function EncodeAll(ps: seq<Piece>): Bytes {
    if ps == [] then [] else Encode(ps[0].opcode, ps[0].payload, ps[0].fin) + EncodeAll(ps[1..])
  }

  /** A frame the receiver accepts: its payload is within the limit. */
  predicate Acceptable(p: Piece, max: nat) {
    p.opcode < 16 && |p.payload| < TWO63 && |p.payload| <= max
  }

  predicate AllAcceptable(ps: seq<Piece>, max: nat) {
    forall i | 0 <= i < |ps| :: Acceptable(ps[i], max)
  }

  function MaskPiece(p: Piece, key: Key): Bytes
    requires |p.payload| < TWO63
  {
    MaskedFrame(p.opcode, p.payload, p.fin, key)
  }

  /** The frames as a client puts them on the wire, each masked with its own key. */
  function MaskAll(ps: seq<Piece>, keys: seq<Key>): Bytes
    requires |ps| == |keys|
    requires forall i | 0 <= i < |ps| :: |ps[i].payload| < TWO63
  {
    if ps == [] then [] else MaskPiece(ps[0], keys[0]) + MaskAll(ps[1..], keys[1..])
  }

  lemma DrainOneFrame(r: Receiver, p: Piece, key: Key, rest: Bytes, cfg: Config)
    requires Acceptable(p, cfg.maxMessage)
    ensures var (a, k) := Deliver(r.(inbuf := rest), p.opcode, p.fin, p.payload, cfg);
            k == More ==> Drain(r.(inbuf := MaskPiece(p, key) + rest), cfg) == Drain(a, cfg)
  {
    hide Deliver, Decode, MaskedFrame;
    var frame := MaskPiece(p, key);
    DecodeUndoesMask(p.opcode, p.payload, p.fin, key, rest, cfg.maxMessage);
    assert (frame + rest)[|frame|..] == rest;
    var r0 := r.(inbuf := frame + rest);
    assert r0.(inbuf := rest) == r.(inbuf := rest);
  }

  /** Cutting a message into fragments keeps them acceptable. */
  lemma {:induction false} TailAcceptable(data: Bytes, size: nat, max: nat)
    requires 0 < size && |data| < TWO63 && (|data| <= max || size <= max)
    ensures AllAcceptable(TailPieces(data, size), max)
    decreases |data|
  {
    if |data| > size {
      TailAcceptable(data[size..], size, max);
    }
  }

  lemma PiecesAcceptable(opcode: byte, data: Bytes, size: nat, max: nat)
    requires 0 < size && |data| < TWO63 && (|data| <= max || size <= max) && opcode < 16
    ensures AllAcceptable(Pieces(opcode, data, size), max)
  {
    hide TailPieces;
    if |data| > size {
      TailAcceptable(data[size..], size, max);
    }
  }

  /** No message is half received. */
  predicate Idle(r: Receiver) { !r.closed && r.fragment == [] && r.fragmentOpcode == 0 }

  lemma {:induction false} TailDelivered(r: Receiver, data: Bytes, size: nat, keys: seq<Key>, rest: Bytes, cfg: Config)
    requires !r.closed && 0 < size && |data| < TWO63
    requires AllAcceptable(TailPieces(data, size), cfg.maxMessage) && |keys| == |TailPieces(data, size)|
    ensures Drain(r.(inbuf := MaskAll(TailPieces(data, size), keys) + rest), cfg) ==
            Drain(EmitMessage(r.(inbuf := rest, fragment := [], fragmentOpcode := 0),
                              r.fragmentOpcode, r.fragment + data, cfg), cfg)
    decreases |data|
  {
    hide Drain, MaskPiece;
    var ps := TailPieces(data, size);
    var more := MaskAll(ps[1..], keys[1..]) + rest;
    assert MaskAll(ps, keys) + rest == MaskPiece(ps[0], keys[0]) + more;
    DrainOneFrame(r, ps[0], keys[0], more, cfg);
    if |data| <= size {
      assert more == rest;
    } else {
      var tail := TailPieces(data[size..], size);
      assert ps[1..] == tail;
      assert forall i | 0 <= i < |tail| :: tail[i] == ps[i + 1];
      var r1 := r.(fragment := r.fragment + data[..size]);
      TailDelivered(r1, data[size..], size, keys[1..], rest, cfg);
      assert r1.fragment + data[size..] == r.fragment + data;
      assert r.(inbuf := more).(fragment := r.fragment + data[..size]) == r1.(inbuf := more);
    }
  }

  /**
   * One message, fragmented by the sender and masked frame by frame with any
   * keys, reaches the receiver's handler once and whole.
   */
  lemma MessageDelivered(r: Receiver, opcode: byte, data: Bytes, size: nat, keys: seq<Key>, rest: Bytes, cfg: Config)
    requires Idle(r) && (opcode == 1 || opcode == 2)
    requires 0 < size && |data| < TWO63 && (|data| <= cfg.maxMessage || size <= cfg.maxMessage)
    requires |keys| == |Pieces(opcode, data, size)|
    requires AllAcceptable(Pieces(opcode, data, size), cfg.maxMessage)
    ensures Drain(r.(inbuf := MaskAll(Pieces(opcode, data, size), keys) + rest), cfg) ==
            Drain(EmitMessage(r.(inbuf := rest), opcode, data, cfg), cfg)
  {
    hide Drain, MaskPiece, TailPieces;
    var ps := Pieces(opcode, data, size);
    var more := MaskAll(ps[1..], keys[1..]) + rest;
    assert MaskAll(ps, keys) + rest == MaskPiece(ps[0], keys[0]) + more;
    DrainOneFrame(r, ps[0], keys[0], more, cfg);
    if |data| <= size {
      assert more == rest;
    } else {
      var tail := TailPieces(data[size..], size);
      assert ps[1..] == tail;
      assert forall i | 0 <= i < |tail| :: tail[i] == ps[i + 1];
      var r1 := r.(fragment := data[..size], fragmentOpcode := opcode);
      TailDelivered(r1, data[size..], size, keys[1..], rest, cfg);
      assert data[..size] + data[size..] == data;
      assert r1.(inbuf := rest, fragment := [], fragmentOpcode := 0) == r.(inbuf := rest);
      assert r.(inbuf := more).(fragment := data[..size], fragmentOpcode := opcode) == r1.(inbuf := more);
    }
  }

  /** A whole message: text (1) or binary (2). */
  datatype Message = Message(opcode: byte, data: Bytes)

  predicate Deliverable(m: Message, size: nat, max: nat) {
    && (m.opcode == 1 || m.opcode == 2)
    && |m.data| < TWO63 && (|m.data| <= max || size <= max)
  }

  function MessagePieces(m: Message, size: nat): seq<Piece>
    requires size > 0
  {
    Pieces(m.opcode, m.data, size)
  }

  predicate KeysFor(ms: seq<Message>, keys: seq<seq<Key>>, size: nat)
    requires size > 0
  {
    |keys| == |ms| && forall i | 0 <= i < |ms| :: |keys[i]| == |MessagePieces(ms[i], size)|
  }

  /** A client's whole output: message after message, each with its own keys. */
  function MaskMessages(ms: seq<Message>, keys: seq<seq<Key>>, size: nat, max: nat): Bytes
    requires 0 < size && KeysFor(ms, keys, size)
    requires forall i | 0 <= i < |ms| :: Deliverable(ms[i], size, max)
  {
    if ms == [] then []
    else
      assert Deliverable(ms[0], size, max);
      PiecesAcceptable(ms[0].opcode, ms[0].data, size, max);
      var ps := MessagePieces(ms[0], size);
      assert forall i | 0 <= i < |ps| :: Acceptable(ps[i], max);
      assert KeysFor(ms[1..], keys[1..], size);
      MaskAll(ps, keys[0]) + MaskMessages(ms[1..], keys[1..], size, max)
  }

  function EmitAll(r: Receiver, ms: seq<Message>, cfg: Config): Receiver
    decreases ms
  {
    if ms == [] then r else EmitAll(EmitMessage(r, ms[0].opcode, ms[0].data, cfg), ms[1..], cfg)
  }

  lemma {:induction false} MessagesDelivered(r: Receiver, ms: seq<Message>, keys: seq<seq<Key>>, size: nat, cfg: Config)
    requires Idle(r) && 0 < size && KeysFor(ms, keys, size)
    requires forall i | 0 <= i < |ms| :: Deliverable(ms[i], size, cfg.maxMessage)
    ensures Drain(r.(inbuf := MaskMessages(ms, keys, size, cfg.maxMessage)), cfg) ==
            (EmitAll(r.(inbuf := []), ms, cfg), More)
    decreases ms
  {
    hide Pieces, MaskPiece, MaskAll;
    if ms != [] {
      hide Drain;
      var m := ms[0];
      PiecesAcceptable(m.opcode, m.data, size, cfg.maxMessage);
      assert KeysFor(ms[1..], keys[1..], size);
      var rest := MaskMessages(ms[1..], keys[1..], size, cfg.maxMessage);
      MessageDelivered(r, m.opcode, m.data, size, keys[0], rest, cfg);
      var r1 := EmitMessage(r, m.opcode, m.data, cfg);
      MessagesDelivered(r1, ms[1..], keys[1..], size, cfg);
    }
  }

  /**
   * The round trip: messages sent through the fragmenting sender, masked with
   * arbitrary keys and cut arbitrarily by the network, are delivered in order,
   * each exactly once and whole, and nothing else happens.
   */
  lemma RoundTrip(r: Receiver, ms: seq<Message>, keys: seq<seq<Key>>, cuts: seq<Bytes>, size: nat, cfg: Config)
    requires Idle(r) && r.inbuf == [] && 0 < size && KeysFor(ms, keys, size)
    requires forall i | 0 <= i < |ms| :: Deliverable(ms[i], size, cfg.maxMessage)
    requires Join(cuts) == MaskMessages(ms, keys, size, cfg.maxMessage)
    ensures FeedAll(r, cuts, cfg) == (EmitAll(r, ms, cfg), More)
  {
    hide Drain, Pieces, MaskMessages, FeedAll, EmitAll;
    CutsDoNotMatter(r, cuts, cfg);
    MessagesDelivered(r, ms, keys, size, cfg);
    assert [] + Join(cuts) == Join(cuts);
  }

  /** With the handlers set, what is delivered is the list of messages itself. */
  lemma {:induction false} EmitAllEvents(r: Receiver, ms: seq<Message>, cfg: Config)
    requires cfg.hooks.text && cfg.hooks.binary
    requires forall i | 0 <= i < |ms| :: ms[i].opcode == 1 || ms[i].opcode == 2
    ensures EmitAll(r, ms, cfg) ==
            r.(events := r.events + seq(|ms|, i requires 0 <= i < |ms| =>
              if ms[i].opcode == 1 then Text(ms[i].data) else Binary(ms[i].data)))
    decreases ms
  {
    if ms != [] {
      EmitAllEvents(EmitMessage(r, ms[0].opcode, ms[0].data, cfg), ms[1..], cfg);
    }
  }

  // ---------------------------------------------------------------------
  // Close handlers
  // ---------------------------------------------------------------------

  /** `release_pulse_`: the connection is gone. */
  function Release(r: Receiver): Receiver {
    FireClose(r.(closed := true, pending := []), ABNORMAL, [])
  }

  /** What can happen to a channel's close handlers over its life. */
  datatype Op = Register(handler: nat) | Read(data: Bytes) | Drop

  function Apply(r: Receiver, op: Op, cfg: Config): Receiver {
    match op
    case Register(h) => r.(onClose := r.onClose + [h])
    case Read(data) => Feed(r, data, cfg).0
    case Drop => Release(r)
  }

  function Life(r: Receiver, ops: seq<Op>, cfg: Config): Receiver
    decreases ops
  {
    if ops == [] then r else Life(Apply(r, ops[0], cfg), ops[1..], cfg)
  }

  /** The close handlers that ran, in order. */
  function Fired(events: seq<Event>): seq<nat> {
    if events == [] then []
    else Fired(events[..|events| - 1]) + match events[|events| - 1] { case Closed(h, _, _) => [h] case _ => [] }
  }

  lemma {:induction false} FiredAppend(a: seq<Event>, b: seq<Event>)
    ensures Fired(a + b) == Fired(a) + Fired(b)
  {
    if b == [] {
      assert a + b == a;
    } else {
      var b' := b[..|b| - 1];
      assert (a + b)[..|a + b| - 1] == a + b';
      FiredAppend(a, b');
    }
  }

  lemma {:induction false} FiredClose(handlers: seq<nat>, code: nat, reason: Bytes)
    ensures Fired(CloseEvents(handlers, code, reason)) == handlers
  {
    var es := CloseEvents(handlers, code, reason);
    if handlers != [] {
      var n := |handlers| - 1;
      assert es[..n] == CloseEvents(handlers[..n], code, reason);
      FiredClose(handlers[..n], code, reason);
    }
  }

  /** An operation runs no close handler, or runs all that are registered, for the first and last time. */
  ghost predicate FiresOnce(r: Receiver, a: Receiver) {
    if a.closeFired && !r.closeFired
    then a.onClose == r.onClose && Fired(a.events) == Fired(r.events) + r.onClose
    else a.closeFired == r.closeFired && Fired(a.events) == Fired(r.events)
  }

  lemma FireCloseFiresOnce(r: Receiver, code: nat, reason: Bytes)
    ensures FiresOnce(r, FireClose(r, code, reason))
  {
    hide CloseEvents, Fired;
    FiredAppend(r.events, CloseEvents(r.onClose, code, reason));
    FiredClose(r.onClose, code, reason);
  }

  lemma EmitFires(r: Receiver, e: Event)
    requires !e.Closed?
    ensures Fired(Emit(r, e).events) == Fired(r.events)
  {
    assert (r.events + [e])[..|r.events|] == r.events;
  }

  lemma EmitMessageFires(r: Receiver, opcode: byte, data: Bytes, cfg: Config)
    ensures Fired(EmitMessage(r, opcode, data, cfg).events) == Fired(r.events)
  {
    hide Fired;
    EmitFires(r, Text(data));
    EmitFires(r, Binary(data));
  }

  lemma DeliverFiresOnce(r: Receiver, opcode: byte, fin: bool, payload: Bytes, cfg: Config)
    ensures var (a, k) := Deliver(r, opcode, fin, payload, cfg);
            FiresOnce(r, a) && a.onClose == r.onClose && (a.closeFired != r.closeFired ==> k != More)
  {
    hide Fired, EmitMessage, FireClose, Emit, Encode;
    if opcode == 0 {
      EmitMessageKeeps(r.(fragment := [], fragmentOpcode := 0), r.fragmentOpcode, r.fragment + payload, cfg);
    } else if opcode == 1 || opcode == 2 {
      EmitMessageKeeps(r, opcode, payload, cfg);
    } else if opcode == 8 {
      var code, reason := CloseCodeOf(payload), CloseReasonOf(payload);
      FireCloseFiresOnce(SendCloseFrame(r, code, reason), code, reason);
      FireCloseKeeps(SendCloseFrame(r, code, reason), code, reason);
    } else if opcode == 9 {
      EmitKeeps(r, Ping(payload));
    } else if opcode == 10 {
      EmitKeeps(r, Pong(payload));
    }
  }

  lemma FireCloseKeeps(r: Receiver, code: nat, reason: Bytes)
    ensures FireClose(r, code, reason).onClose == r.onClose
  {
  }

  lemma EmitKeeps(r: Receiver, e: Event)
    requires !e.Closed?
    ensures var a := Emit(r, e);
            a.onClose == r.onClose && a.closeFired == r.closeFired && Fired(a.events) == Fired(r.events)
  {
    EmitFires(r, e);
  }

  lemma EmitMessageKeeps(r: Receiver, opcode: byte, data: Bytes, cfg: Config)
    ensures var a := EmitMessage(r, opcode, data, cfg);
            a.onClose == r.onClose && a.closeFired == r.closeFired && Fired(a.events) == Fired(r.events)
  {
    EmitMessageFires(r, opcode, data, cfg);
  }

  lemma {:induction false} DrainFiresOnce(r: Receiver, cfg: Config)
    ensures var a := Drain(r, cfg).0; FiresOnce(r, a) && a.onClose == r.onClose
    decreases |r.inbuf|
  {
    hide Deliver, Decode, Fired;
    var d := Decode(r.inbuf, cfg.maxMessage);
    if d.Frame? {
      var r1 := r.(inbuf := r.inbuf[d.consumed..]);
      DeliverFiresOnce(r1, d.opcode, d.fin, d.payload, cfg);
      DeliverKeepsInbuf(r1, d.opcode, d.fin, d.payload, cfg);
      var (a, k) := Deliver(r1, d.opcode, d.fin, d.payload, cfg);
      if k == More {
        DrainFiresOnce(a, cfg);
      }
    }
  }

  lemma ApplyFiresOnce(r: Receiver, op: Op, cfg: Config)
    ensures FiresOnce(r, Apply(r, op, cfg))
  {
    hide Drain, Fired, FireClose;
    match op
    case Register(_) =>
    case Read(data) => DrainFiresOnce(r.(inbuf := r.inbuf + data), cfg);
    case Drop => FireCloseFiresOnce(r.(closed := true, pending := []), ABNORMAL, []);
  }

  lemma {:induction false} FiredForGood(r: Receiver, ops: seq<Op>, cfg: Config)
    requires r.closeFired
    ensures Life(r, ops, cfg).closeFired && Fired(Life(r, ops, cfg).events) == Fired(r.events)
    decreases ops
  {
    hide Apply, Fired;
    if ops != [] {
      ApplyFiresOnce(r, ops[0], cfg);
      FiredForGood(Apply(r, ops[0], cfg), ops[1..], cfg);
    }
  }

  /** The handlers registered when the channel first closes, in registration order. */
  function RegisteredAtClose(r: Receiver, ops: seq<Op>, cfg: Config): seq<nat>
    decreases ops
  {
    if ops == [] || Apply(r, ops[0], cfg).closeFired then r.onClose
    else RegisteredAtClose(Apply(r, ops[0], cfg), ops[1..], cfg)
  }

  /**
   * Over any life that ends with the connection being dropped, the close
   * handlers that ran are exactly those registered when the channel first
   * closed, each once, in registration order.
   */
  lemma {:induction false} CloseHandlersRunOnce(r: Receiver, ops: seq<Op>, cfg: Config)
    requires !r.closeFired && Fired(r.events) == []
    ensures Fired(Life(r, ops + [Drop], cfg).events) == RegisteredAtClose(r, ops + [Drop], cfg)
    decreases ops
  {
    hide Fired, Drain, CloseEvents;
    var all := ops + [Drop];
    ApplyFiresOnce(r, all[0], cfg);
    var a := Apply(r, all[0], cfg);
    if a.closeFired {
      FiredForGood(a, all[1..], cfg);
    } else {
      assert ops != [];
      assert all[1..] == ops[1..] + [Drop];
      CloseHandlersRunOnce(a, ops[1..], cfg);
    }
  }

  // ---------------------------------------------------------------------
  // The channel object
  // ---------------------------------------------------------------------

  class Channel {
    const cfg: Config
    var inbuf: Bytes
    var fragment: Bytes
    var fragmentOpcode: byte
    var pending: Bytes
    var closed: bool
    var closeRequested: bool
    var closeFired: bool
    var onClose: seq<nat>
    var events: seq<Event>
    var outFragActive: bool
    var outFragFirst: bool
    var outFragOpcode: byte

    /** The receiving half. */
    function Rx(): Receiver
      reads this
    {
      Receiver(inbuf, fragment, fragmentOpcode, pending, closed, closeRequested, closeFired, onClose, events)
    }

    /** Appends to the outgoing bytes, unless the channel is closed. */
    method Enqueue(bytes: Bytes) returns (ok: bool)
      modifies this`pending
      ensures ok == !closed
      ensures pending == if ok then old(pending) + bytes else old(pending)
    {
      if closed { return false; }
      pending := pending + bytes;
      return true;
    }

    method SendClose(code: nat, reason: Bytes)
      requires |reason| < TWO63
      modifies this`pending, this`closeRequested
      ensures Rx() == SendCloseFrame(old(Rx()), code, reason)
    {
      hide Encode;
      var payload: Bytes := [(code / 256 % 256) as byte];
      payload := payload + [(code % 256) as byte];
      payload := payload + reason;
      assert payload == ClosePayload(code, reason);
      if closed { return; }
      closeRequested := true;
      var frame := EncodeFrame(8, payload, true);
      var _ := Enqueue(frame);
    }

    /** Runs the close handlers unless they ran before. */
    method RunCloseHandlers(code: nat, reason: Bytes)
      modifies this`closeFired, this`events
      ensures Rx() == FireClose(old(Rx()), code, reason)
    {
      if closeFired { return; }
      closeFired := true;
      var handlers := onClose;
      ghost var before := events;
      for i := 0 to |handlers|
        invariant events == before + CloseEvents(handlers, code, reason)[..i]
        invariant handlers == onClose == old(onClose) && closeFired
      {
        events := events + [Closed(handlers[i], code, reason)];
      }
      assert CloseEvents(handlers, code, reason)[..|handlers|] == CloseEvents(handlers, code, reason);
    }

    method OnMessage(opcode: byte, data: Bytes)
      modifies this`events
      ensures Rx() == EmitMessage(old(Rx()), opcode, data, cfg)
    {
      if opcode == 1 && cfg.hooks.text {
        events := events + [Text(data)];
      } else if opcode == 2 && cfg.hooks.binary {
        events := events + [Binary(data)];
      }
    }

    method OnFrame(opcode: byte, fin: bool, payload: Bytes) returns (k: Outcome)
      requires |payload| < TWO63
      modifies this`fragment, this`fragmentOpcode, this`pending, this`closeRequested, this`closeFired, this`events
      ensures (Rx(), k) == Deliver(old(Rx()), opcode, fin, payload, cfg)
    {
      hide Encode, EmitMessage, FireClose, SendCloseFrame;
      if opcode == 0 {
        fragment := fragment + payload;
        if !fin { return More; }
        var msg, base := fragment, fragmentOpcode;
        fragment := [];
        fragmentOpcode := 0;
        OnMessage(base, msg);
        return More;
      } else if opcode == 1 || opcode == 2 {
        if !fin {
          fragment := payload;
          fragmentOpcode := opcode;
          return More;
        }
        OnMessage(opcode, payload);
        return More;
      } else if opcode == 8 {
        var code, reason := NO_STATUS, [];
        if |payload| >= 2 {
          code := payload[0] as nat * 256 + payload[1] as nat;
          reason := payload[2..];
        }
        SendClose(code, reason);
        RunCloseHandlers(code, reason);
        return Closing;
      } else if opcode == 9 {
        if cfg.hooks.ping { events := events + [Ping(payload)]; }
        if cfg.autoPong {
          var frame := EncodeFrame(10, payload, true);
          var _ := Enqueue(frame);
        }
        return More;
      } else if opcode == 10 {
        if cfg.hooks.pong { events := events + [Pong(payload)]; }
        return More;
      }
      return Failed;
    }

    /** Takes one read's bytes; `false` tells the server to drop the connection. */
    method FeedBytes(data: Bytes) returns (ok: bool)
      modifies this
      ensures var (r, k) := Feed(old(Rx()), data, cfg); Rx() == r && ok == (k != Failed)
    {
      hide Deliver, Decode;
      if closed { return false; }
      inbuf := inbuf + data;
      ghost var start := Rx();
      while true
        invariant Drain(Rx(), cfg) == Drain(start, cfg)
        decreases |inbuf|
      {
        var f := DecodeFrame(inbuf, cfg.maxMessage);
        if f.ProtocolError? {
          closed := true;
          return false;
        }
        if f.NeedMore? { return true; }
        DecodedIsBelow(inbuf, cfg.maxMessage);
        inbuf := inbuf[f.consumed..];
        var k := OnFrame(f.opcode, f.fin, f.payload);
        if k == Closing { return true; }
        if k == Failed { return false; }
      }
    }

    /** The server lets go of the channel. */
    method ReleaseChannel()
      modifies this`closed, this`pending, this`closeFired, this`events
      ensures Rx() == Release(old(Rx()))
    {
      closed := true;
      pending := [];
      RunCloseHandlers(ABNORMAL, []);
    }

    method OnClose(handler: nat)
      modifies this`onClose
      ensures Rx() == Apply(old(Rx()), Register(handler), cfg)
    {
      onClose := onClose + [handler];
    }

    // ---- sending ----

    method BeginFragment(opcode: byte) returns (ok: bool)
      modifies this`outFragActive, this`outFragFirst, this`outFragOpcode
      ensures ok == !(closed || old(outFragActive))
      ensures ok ==> outFragActive && outFragFirst && outFragOpcode == opcode
      ensures !ok ==> unchanged(this)
    {
      if closed || outFragActive { return false; }
      outFragActive := true;
      outFragOpcode := opcode;
      outFragFirst := true;
      return true;
    }

    method WriteFragment(chunk: Bytes, fin: bool) returns (ok: bool)
      requires |chunk| < TWO63
      modifies this`outFragActive, this`outFragFirst, this`outFragOpcode, this`pending
      ensures ok == (old(outFragActive) && !closed)
      ensures pending == if ok
              then old(pending) + Encode(if old(outFragFirst) then old(outFragOpcode) else 0, chunk, fin)
              else old(pending)
      ensures old(outFragActive) ==> outFragActive == !fin && !outFragFirst
    {
      hide Encode;
      if !outFragActive { return false; }
      var base, first := outFragOpcode, outFragFirst;
      outFragFirst := false;
      if fin {
        outFragActive := false;
        outFragOpcode := 0;
      }
      var frame := EncodeFrame(if first then base else 0, chunk, fin);
      ok := Enqueue(frame);
    }

    /** `send_text` and `send_binary`: the whole message in one frame. */
    method Send(opcode: byte, data: Bytes) returns (ok: bool)
      requires |data| < TWO63
      modifies this`pending
      ensures ok == !closed
      ensures pending == if ok then old(pending) + Encode(opcode, data, true) else old(pending)
    {
      var frame := EncodeFrame(opcode, data, true);
      ok := Enqueue(frame);
    }

    /** `send_text_stream` and `send_binary_stream`. */
    method SendStream(opcode: byte, data: Bytes) returns (ok: bool)
      requires |data| < TWO63
      requires 0 < cfg.fragmentSize || data == [] || closed || outFragActive
      modifies this`outFragActive, this`outFragFirst, this`outFragOpcode, this`pending
      ensures ok == (!closed && (|data| <= cfg.fragmentSize || !old(outFragActive)))
      ensures ok && data == [] ==> pending == old(pending) + Encode(opcode, [], true)
      ensures ok && data != [] ==> pending == old(pending) + EncodeAll(Pieces(opcode, data, cfg.fragmentSize))
      ensures !ok ==> pending == old(pending)
      ensures outFragActive == old(outFragActive)
    {
      hide Encode, EncodeAll, Pieces, TailPieces, Rest;
      var chunk := cfg.fragmentSize;
      ghost var start := pending;
      if |data| <= chunk {
        ok := Send(opcode, data);
        if data != [] {
          OnePiece(opcode, data, chunk);
        }
        return;
      }
      ok := BeginFragment(opcode);
      if !ok { return; }
      var off: nat := 0;
      RestEnds(opcode, data, chunk);
      while off < |data|
        invariant off <= |data|
        invariant outFragActive == (off < |data|) && (outFragFirst <==> off == 0)
        invariant off == 0 ==> outFragOpcode == opcode
        invariant pending + Rest(opcode, data, off, chunk) == start + Rest(opcode, data, 0, chunk)
      {
        var take := Chunk(data, off, chunk);
        var fin := off + take >= |data|;
        NextPiece(opcode, data, off, chunk);
        var sent := WriteFragment(data[off..off + take], fin);
        off := off + take;
      }
    }
  }

  /** How much the next fragment takes. */
  function Chunk(data: Bytes, off: nat, size: nat): nat
    requires off <= |data|
  {
    if size < |data| - off then size else |data| - off
  }

  /** Where the sending loop stands after so many turns. */
  function OffsetAfter(data: Bytes, size: nat, turns: nat): (off: nat)
    ensures off <= |data|
  {
    if turns == 0 then 0
    else
      var off := OffsetAfter(data, size, turns - 1);
      off + Chunk(data, off, size)
  }

  lemma {:induction false} OffsetIs(data: Bytes, size: nat, turns: nat)
    ensures size == 0 ==> OffsetAfter(data, size, turns) == 0
    ensures size > 0 && turns <= |data| ==> turns <= OffsetAfter(data, size, turns)
  {
    if turns > 0 {
      OffsetIs(data, size, turns - 1);
    }
  }

  /** The loop comes to its end exactly when fragments have a size, or there is nothing to send. */
  lemma SendingEnds(data: Bytes, size: nat)
    ensures (exists turns: nat :: OffsetAfter(data, size, turns) == |data|) <==> size > 0 || data == []
  {
    if turns: nat :| OffsetAfter(data, size, turns) == |data| {
      OffsetIs(data, size, turns);
    }
    OffsetIs(data, size, |data|);
    assert OffsetAfter(data, size, |data|) <= |data|;
  }

  lemma OnePiece(opcode: byte, data: Bytes, size: nat)
    requires 0 < size && |data| <= size
    ensures EncodeAll(Pieces(opcode, data, size)) == Encode(opcode, data, true)
  {
    hide Encode;
    assert [Piece(opcode, data, true)][1..] == [];
  }

  /** What is still to be sent from `off` on. */
  function Rest(opcode: byte, data: Bytes, off: nat, size: nat): Bytes
    requires 0 < size
  {
    if off == 0 then EncodeAll(Pieces(opcode, data, size))
    else if off < |data| then EncodeAll(TailPieces(data[off..], size))
    else []
  }

  lemma RestEnds(opcode: byte, data: Bytes, size: nat)
    requires 0 < size < |data|
    ensures Rest(opcode, data, 0, size) == EncodeAll(Pieces(opcode, data, size))
    ensures Rest(opcode, data, |data|, size) == []
  {
    hide EncodeAll, Pieces;
  }

  /** The frame written at `off` is the next one, and the rest follows. */
  lemma NextPiece(opcode: byte, data: Bytes, off: nat, size: nat)
    requires 0 < size < |data| && off < |data|
    ensures var take := Chunk(data, off, size);
            Rest(opcode, data, off, size) ==
            Encode(if off == 0 then opcode else 0, data[off..off + take], take == |data| - off)
            + Rest(opcode, data, off + take, size)
  {
    hide Encode, EncodeAll;
    var n, take := |data| - off, Chunk(data, off, size);
    var p := Piece(if off == 0 then opcode else 0, data[off..off + take], take == n);
    assert data[off..][..take] == data[off..off + take];
    assert data[off..][take..] == data[off + take..];
    if take == n {
      assert data[off..off + take] == data[off..];
      EncodeFirst(p, []);
      assert [p] + [] == [p];
    } else {
      EncodeFirst(p, TailPieces(data[off + take..], size));
    }
  }

  lemma EncodeFirst(p: Piece, ps: seq<Piece>)
    ensures EncodeAll([p] + ps) == Encode(p.opcode, p.payload, p.fin) + EncodeAll(ps)
    ensures ps == [] ==> EncodeAll(ps) == []
  {
    hide Encode;
    assert ([p] + ps)[1..] == ps;
  }
}
