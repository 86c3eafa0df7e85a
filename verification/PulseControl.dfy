// What single frames do to a channel, from the bytes on the wire to the bytes
// queued and the handlers run; and the wire format by the examples of its standard.
module PulseControl {
  import opened Common
  import opened PulseFrame
  import opened PulseChannel

  /** An open channel with nothing half received in its buffer. */
  predicate Ready(r: Receiver) { !r.closed && r.inbuf == [] }

  lemma NothingDecoded(r: Receiver, cfg: Config)
    requires r.inbuf == []
    ensures Drain(r, cfg) == (r, More)
  {
  }

  /** One masked frame in one read is one delivery. */
  lemma FeedOne(r: Receiver, p: Piece, key: Key, cfg: Config)
    requires Ready(r) && Acceptable(p, cfg.maxMessage)
    ensures Feed(r, MaskPiece(p, key), cfg) == Deliver(r, p.opcode, p.fin, p.payload, cfg)
  {
    hide Deliver, Decode, MaskedFrame;
    var frame := MaskPiece(p, key);
    DecodeUndoesMask(p.opcode, p.payload, p.fin, key, [], cfg.maxMessage);
    assert frame + [] == frame == r.inbuf + frame;
    assert frame[|frame|..] == [];
    var r0 := r.(inbuf := frame);
    assert r0.(inbuf := []) == r;
    var (a, k) := Deliver(r, p.opcode, p.fin, p.payload, cfg);
    DeliverKeepsInbuf(r, p.opcode, p.fin, p.payload, cfg);
    NothingDecoded(a, cfg);
  }

  // ---------------------------------------------------------------------
  // Ping and pong
  // ---------------------------------------------------------------------

  /** A ping is answered with a pong of the same payload (section 5.5.3 of RFC 6455), when that is switched on. */
  lemma PingAnswered(r: Receiver, payload: Bytes, key: Key, cfg: Config)
    requires Ready(r) && |payload| < TWO63 && |payload| <= cfg.maxMessage
    ensures Feed(r, MaskedFrame(9, payload, true, key), cfg) ==
            (r.(pending := r.pending + (if cfg.autoPong then Encode(10, payload, true) else []),
                events := r.events + (if cfg.hooks.ping then [Ping(payload)] else [])), More)
  {
    hide Feed, Encode, MaskedFrame;
    FeedOne(r, Piece(9, payload, true), key, cfg);
    assert r.pending + [] == r.pending && r.events + [] == r.events;
  }

  lemma PongReported(r: Receiver, payload: Bytes, key: Key, cfg: Config)
    requires Ready(r) && |payload| < TWO63 && |payload| <= cfg.maxMessage
    ensures Feed(r, MaskedFrame(10, payload, true, key), cfg) ==
            (r.(events := r.events + (if cfg.hooks.pong then [Pong(payload)] else [])), More)
  {
    hide Feed, Encode, MaskedFrame;
    FeedOne(r, Piece(10, payload, true), key, cfg);
    assert r.events + [] == r.events;
  }

  // ---------------------------------------------------------------------
  // Closing
  // ---------------------------------------------------------------------

  /** The channel after its peer's close frame: the reply queued, the handlers run unless they ran before. */
  function Echoed(r: Receiver, payload: Bytes, code: nat, reason: Bytes): Receiver {
    r.(closeRequested := true, closeFired := true,
       pending := r.pending + Encode(8, payload, true),
       events := r.events + if r.closeFired then [] else
         seq(|r.onClose|, i requires 0 <= i < |r.onClose| => Closed(r.onClose[i], code, reason)))
  }

  lemma CodeBytes(hi: byte, lo: byte)
    ensures var code := hi as nat * 256 + lo as nat;
            (code / 256 % 256) as byte == hi && (code % 256) as byte == lo
  {
  }

  lemma CloseDelivered(r: Receiver, payload: Bytes, sent: Bytes, code: nat, reason: Bytes, cfg: Config)
    requires !r.closed && CloseCodeOf(payload) == code && CloseReasonOf(payload) == reason && ClosePayload(code, reason) == sent
    ensures Deliver(r, 8, true, payload, cfg) == (Echoed(r, sent, code, reason), Closing)
  {
    hide Encode, CloseCodeOf, CloseReasonOf, ClosePayload;
    assert r.events + [] == r.events;
    if !r.closeFired {
      assert Echoed(r, sent, code, reason).events == r.events + CloseEvents(r.onClose, code, reason);
    }
  }

  /** A close frame with a status is echoed byte for byte, and its status and reason are reported. */
  lemma CloseEchoed(r: Receiver, hi: byte, lo: byte, reason: Bytes, key: Key, cfg: Config)
    requires Ready(r) && |reason| + 2 < TWO63 && |reason| + 2 <= cfg.maxMessage
    ensures Feed(r, MaskedFrame(8, [hi, lo] + reason, true, key), cfg) ==
            (Echoed(r, [hi, lo] + reason, 256 * hi as nat + lo as nat, reason), Closing)
  {
    hide Feed, Encode, MaskedFrame, Deliver, Echoed;
    var payload := [hi, lo] + reason;
    FeedOne(r, Piece(8, payload, true), key, cfg);
    CodeBytes(hi, lo);
    assert payload[2..] == reason;
    CloseDelivered(r, payload, payload, 256 * hi as nat + lo as nat, reason, cfg);
  }

  /**
   * One without a status is reported as 1005, which also goes out on the wire:
   * section 7.4.1 of RFC 6455 reserves that number and forbids sending it.
   */
  lemma EmptyCloseEchoed(r: Receiver, payload: Bytes, key: Key, cfg: Config)
    requires Ready(r) && |payload| < 2 && |payload| <= cfg.maxMessage
    ensures Feed(r, MaskedFrame(8, payload, true, key), cfg) == (Echoed(r, [3, 237], 1005, []), Closing)
  {
    hide Feed, Encode, MaskedFrame, Deliver, Echoed;
    FeedOne(r, Piece(8, payload, true), key, cfg);
    assert ClosePayload(1005, []) == [3, 237];
    CloseDelivered(r, payload, [3, 237], 1005, [], cfg);
  }

  /** A connection that goes away without a close frame is reported as 1006. */
  lemma AbnormalReported(r: Receiver)
    ensures Release(r) ==
            r.(closed := true, pending := [], closeFired := true,
               events := r.events + if r.closeFired then [] else
                 seq(|r.onClose|, i requires 0 <= i < |r.onClose| => Closed(r.onClose[i], 1006, [])))
  {
    assert r.events + [] == r.events;
  }

  // ---------------------------------------------------------------------
  // Frames that end the connection
  // ---------------------------------------------------------------------

  /** The reserved opcodes. */
  lemma ReservedFails(r: Receiver, p: Piece, key: Key, cfg: Config)
    requires Ready(r) && Acceptable(p, cfg.maxMessage) && (3 <= p.opcode <= 7 || p.opcode >= 11)
    ensures Feed(r, MaskPiece(p, key), cfg) == (r, Failed)
  {
    hide Feed, MaskPiece;
    FeedOne(r, p, key, cfg);
  }

  lemma FeedError(r: Receiver, data: Bytes, cfg: Config)
    requires Ready(r) && Decode(data, cfg.maxMessage).ProtocolError?
    ensures Feed(r, data, cfg) == (r.(inbuf := data, closed := true), Failed)
  {
    assert r.inbuf + data == data;
  }

  /** After an error the channel is closed for good: further reads fail and change nothing. */
  lemma ErrorIsFinal(r: Receiver, data: Bytes, more: Bytes, cfg: Config)
    requires Ready(r) && Decode(data, cfg.maxMessage).ProtocolError?
    ensures var d := Feed(r, data, cfg).0; Feed(d, more, cfg) == (d, Failed)
  {
    hide Decode;
    FeedError(r, data, cfg);
  }

  /** A client must mask (section 5.1 of RFC 6455): a frame without a key closes the channel. */
  lemma UnmaskedFails(r: Receiver, opcode: byte, payload: Bytes, fin: bool, more: Bytes, cfg: Config)
    requires Ready(r) && |payload| < TWO64
    ensures Feed(r, Encode(opcode, payload, fin) + more, cfg) ==
            (r.(inbuf := Encode(opcode, payload, fin) + more, closed := true), Failed)
  {
    hide Feed, Encode, Number;
    EncodeShape(opcode, payload, fin);
    FeedError(r, Encode(opcode, payload, fin) + more, cfg);
  }

  /** So does a frame that announces more than the limit, at its header already. */
  lemma TooLongFails(r: Receiver, opcode: byte, payload: Bytes, fin: bool, key: Key, m: nat, cfg: Config)
    requires Ready(r) && cfg.maxMessage < |payload| < TWO64
    requires 1 + |LengthField(|payload|)| <= m <= |MaskedFrame(opcode, payload, fin, key)|
    ensures var data := MaskedFrame(opcode, payload, fin, key)[..m];
            Feed(r, data, cfg) == (r.(inbuf := data, closed := true), Failed)
  {
    hide Feed, MaskedFrame, LengthField, Number, ApplyMask;
    var data, field := MaskedFrame(opcode, payload, fin, key)[..m], LengthField(|payload|);
    MaskedShape(opcode, payload, fin, key);
    LengthFieldReads(|payload|);
    assert data[1] == field[0] + 128;
    assert ExtraLength(data[1]) == |field| - 1;
    assert data[2..1 + |field|] == field[1..];
    FeedError(r, data, cfg);
  }

  // ---------------------------------------------------------------------
  // The examples of section 5.7 of RFC 6455
  // ---------------------------------------------------------------------

  const HELLO: Bytes := [0x48, 0x65, 0x6c, 0x6c, 0x6f]

  lemma UnmaskedExamples()
    ensures Encode(1, HELLO, true) == [0x81, 0x05] + HELLO
    ensures Encode(1, HELLO[..3], false) == [0x01, 0x03, 0x48, 0x65, 0x6c]
    ensures Encode(0, HELLO[3..], true) == [0x80, 0x02, 0x6c, 0x6f]
    ensures Encode(9, HELLO, true) == [0x89, 0x05] + HELLO
  {
  }

  lemma LongExamples(medium: Bytes, long: Bytes)
    requires |medium| == 256 && |long| == 65536
    ensures Encode(2, medium, true) == [0x82, 0x7e, 0x01, 0x00] + medium
    ensures Encode(2, long, true) == [0x82, 0x7f, 0x00, 0x00, 0x00, 0x00, 0x00, 0x01, 0x00, 0x00] + long
  {
    hide BigEndian;
    TwoBytes(256);
    EightBytes();
  }

  lemma EightBytes()
    ensures BigEndian(65536, 8) == [0, 0, 0, 0, 0, 1, 0, 0]
  {
    assert BigEndian(256, 7) == [0, 0, 0, 0, 0, 1, 0] by {
      assert BigEndian(0, 5) == [0, 0, 0, 0, 0] by {
        assert BigEndian(0, 2) == [0, 0];
        assert BigEndian(0, 4) == [0, 0, 0, 0];
      }
      assert BigEndian(1, 6) == [0, 0, 0, 0, 0, 1];
    }
  }

  lemma XorH()
    ensures XorBits(0x48, 0x37, 8) == 0x7f
  {
    assert XorBits(0x1, 0x0, 2) == 0x1;
    assert XorBits(0x4, 0x3, 4) == 0x7;
    assert XorBits(0x12, 0xd, 6) == 0x1f;
  }

  lemma XorE()
    ensures XorBits(0x65, 0xfa, 8) == 0x9f
  {
    assert XorBits(0x1, 0x3, 2) == 0x2;
    assert XorBits(0x6, 0xf, 4) == 0x9;
    assert XorBits(0x19, 0x3e, 6) == 0x27;
  }

  lemma XorFirstL()
    ensures XorBits(0x6c, 0x21, 8) == 0x4d
  {
    assert XorBits(0x1, 0x0, 2) == 0x1;
    assert XorBits(0x6, 0x2, 4) == 0x4;
    assert XorBits(0x1b, 0x8, 6) == 0x13;
  }

  lemma XorSecondL()
    ensures XorBits(0x6c, 0x3d, 8) == 0x51
  {
    assert XorBits(0x1, 0x0, 2) == 0x1;
    assert XorBits(0x6, 0x3, 4) == 0x5;
    assert XorBits(0x1b, 0xf, 6) == 0x14;
  }

  lemma XorO()
    ensures XorBits(0x6f, 0x37, 8) == 0x58
  {
    assert XorBits(0x1, 0x0, 2) == 0x1;
    assert XorBits(0x6, 0x3, 4) == 0x5;
    assert XorBits(0x1b, 0xd, 6) == 0x16;
  }

  lemma HelloMasked()
    ensures Xor(0x48, 0x37) == 0x7f && Xor(0x65, 0xfa) == 0x9f && Xor(0x6c, 0x21) == 0x4d
    ensures Xor(0x6c, 0x3d) == 0x51 && Xor(0x6f, 0x37) == 0x58
  {
    hide XorBits;
    XorH();
    XorE();
    XorFirstL();
    XorSecondL();
    XorO();
  }

  /** A masked text frame, as a client sends it. */
  lemma MaskedExample(max: nat)
    requires max >= 5
    ensures var key: Key := [0x37, 0xfa, 0x21, 0x3d];
            && MaskedFrame(1, HELLO, true, key) == [0x81, 0x85, 0x37, 0xfa, 0x21, 0x3d, 0x7f, 0x9f, 0x4d, 0x51, 0x58]
            && Decode([0x81, 0x85, 0x37, 0xfa, 0x21, 0x3d, 0x7f, 0x9f, 0x4d, 0x51, 0x58], max) == Frame(1, true, HELLO, 11)
  {
    hide MaskedFrame, Decode, Xor;
    var key: Key := [0x37, 0xfa, 0x21, 0x3d];
    HelloMasked();
    MaskedShape(1, HELLO, true, key);
    assert ApplyMask(HELLO, key) == [0x7f, 0x9f, 0x4d, 0x51, 0x58];
    DecodeUndoesMask(1, HELLO, true, key, [], max);
    var frame := MaskedFrame(1, HELLO, true, key);
    assert frame + [] == frame;
  }
}
