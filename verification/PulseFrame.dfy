// Pulse framing (sections 5.2 and 5.3 of RFC 6455): the server's encoder, its
// decoder for masked client frames, and what relates them.
module PulseFrame {
  import opened Common

  type Bytes = seq<byte>

  // ---- numbers on the wire ----

  /** The low `k` bytes of `n`, most significant first. */
  function BigEndian(n: nat, k: nat): (bs: Bytes)
    ensures |bs| == k
  {
    if k == 0 then [] else BigEndian(n / 256, k - 1) + [(n % 256) as byte]
  }

  function Number(bs: Bytes): nat {
    if bs == [] then 0 else Number(bs[..|bs| - 1]) * 256 + bs[|bs| - 1] as nat
  }

  lemma {:induction false} NumberOfBigEndian(n: nat, k: nat)
    requires n < Pow256(k)
    ensures Number(BigEndian(n, k)) == n
  {
    if k > 0 {
      NumberOfBigEndian(n / 256, k - 1);
      assert BigEndian(n, k)[..k - 1] == BigEndian(n / 256, k - 1);
    }
  }

  /** The byte at position `j` is what shifting and masking selects. */
  lemma {:induction false} BigEndianAt(n: nat, k: nat, j: nat)
    requires j < k
    ensures BigEndian(n, k)[j] as nat == (n / Pow256(k - 1 - j)) % 256
  {
    if j < k - 1 {
      BigEndianAt(n / 256, k - 1, j);
      var p := Pow256(k - 2 - j);
      DivDiv(n, p);
    }
  }

  lemma DivDiv(n: nat, p: nat)
    requires p > 0
    ensures n / 256 / p == n / (256 * p)
  {
    var q := n / 256 / p;
    var r := n / 256 % p;
    assert n == 256 * (q * p + r) + n % 256;
    assert 256 * (q * p + r) == (256 * p) * q + 256 * r;
    assert n == (256 * p) * q + (256 * r + n % 256);
    assert 0 <= 256 * r + n % 256 < 256 * p;
    QuotientUnique(n, 256 * p, q, 256 * r + n % 256);
  }

  lemma QuotientUnique(n: nat, d: nat, q: nat, r: nat)
    requires d > 0 && n == d * q + r && r < d
    ensures n / d == q
  {
    var q1, r1 := n / d, n % d;
    assert n == d * q1 + r1;
    if q > q1 {
      TimesGap(d, q, q1);
    } else if q < q1 {
      TimesGap(d, q1, q);
    }
  }

  lemma {:induction false} TimesGap(d: nat, x: nat, y: nat)
    requires x > y
    ensures d * x >= d * y + d
    decreases x
  {
    assert d * x == d * (x - 1) + d;
    if x > y + 1 {
      TimesGap(d, x - 1, y);
    }
  }

  lemma {:induction false} NumberBelow(bs: Bytes)
    ensures Number(bs) < Pow256(|bs|)
  {
    if bs != [] {
      NumberBelow(bs[..|bs| - 1]);
    }
  }

  lemma PowersOf256()
    ensures Pow256(2) == 0x1_0000 && Pow256(8) == TWO64
  {
    assert Pow256(4) == 0x1_0000_0000;
  }

  // ---- masking ----

  type Key = k: Bytes | |k| == 4 witness [0, 0, 0, 0]

  /** The exclusive or of the low `k` bits. */
  function XorBits(a: nat, b: nat, k: nat): (r: nat) {
    if k == 0 then 0 else 2 * XorBits(a / 2, b / 2, k - 1) + (a + b) % 2
  }

  function Pow2(k: nat): nat {
    if k == 0 then 1 else 2 * Pow2(k - 1)
  }

  lemma HalfAndBit(r: nat, bit: nat)
    requires bit < 2
    ensures (2 * r + bit) / 2 == r && (2 * r + bit) % 2 == bit
  {
  }

  lemma Parity(r: nat, a: nat, b: nat)
    ensures (2 * r + (a + b) % 2 + b) % 2 == a % 2
  {
    var x, y := a % 2, b % 2;
    assert a == 2 * (a / 2) + x && b == 2 * (b / 2) + y;
  }

  lemma {:induction false} XorBitsTwice(a: nat, b: nat, k: nat)
    requires a < Pow2(k)
    ensures XorBits(a, b, k) < Pow2(k)
    ensures XorBits(XorBits(a, b, k), b, k) == a
  {
    if k > 0 {
      XorBitsTwice(a / 2, b / 2, k - 1);
      var r, bit := XorBits(a / 2, b / 2, k - 1), (a + b) % 2;
      HalfAndBit(r, bit);
      assert XorBits(2 * r + bit, b, k) == 2 * XorBits(r, b / 2, k - 1) + (2 * r + bit + b) % 2;
      Parity(r, a, b);
    }
  }

  lemma EightBits()
    ensures Pow2(8) == 256
  {
    assert Pow2(4) == 16;
  }

  function Xor(a: byte, b: byte): byte {
    EightBits();
    XorBitsTwice(a as nat, b as nat, 8);
    XorBits(a as nat, b as nat, 8) as byte
  }

  lemma XorTwice(a: byte, b: byte)
    ensures Xor(Xor(a, b), b) == a
  {
    EightBits();
    XorBitsTwice(a as nat, b as nat, 8);
  }

  function ApplyMask(bs: Bytes, key: Key): (r: Bytes)
    ensures |r| == |bs|
  {
    seq(|bs|, i requires 0 <= i < |bs| => Xor(bs[i], key[i % 4]))
  }

  lemma MaskTwice(bs: Bytes, key: Key)
    ensures ApplyMask(ApplyMask(bs, key), key) == bs
  {
    forall i | 0 <= i < |bs|
      ensures ApplyMask(ApplyMask(bs, key), key)[i] == bs[i]
    {
      XorTwice(bs[i], key[i % 4]);
    }
  }

  // ---------------------------------------------------------------------
  // Encoding
  // ---------------------------------------------------------------------

  /** The shortest of the three length forms. */
  function LengthField(n: nat): Bytes {
    if n < 126 then [n as byte]
    else if n <= 0xffff then [126] + BigEndian(n, 2)
    else [127] + BigEndian(n, 8)
  }

  function FirstByte(opcode: byte, fin: bool): byte {
    (if fin then 128 else 0) + opcode % 16
  }

  /** An unmasked (server to client) frame. */
  function Encode(opcode: byte, payload: Bytes, fin: bool): Bytes {
    [FirstByte(opcode, fin)] + LengthField(|payload|) + payload
  }

  method EncodeFrame(opcode: byte, payload: Bytes, fin: bool) returns (out: Bytes)
    requires |payload| < TWO64
    ensures out == Encode(opcode, payload, fin)
  {
    hide BigEndian;
    out := [(if fin then 128 else 0) + opcode % 16];
    var n := |payload|;
    if n < 126 {
      out := out + [n as byte];
    } else if n <= 0xffff {
      out := out + [126];
      out := out + [(n / 256 % 256) as byte];
      out := out + [(n % 256) as byte];
      TwoBytes(n);
    } else {
      out := out + [127];
      out := AppendBigEndian(out, n);
    }
    out := out + payload;
  }

  /** Eight bytes by shifting, most significant first. */
  method AppendBigEndian(start: Bytes, n: nat) returns (out: Bytes)
    ensures out == start + BigEndian(n, 8)
  {
    out := start;
    var i := 7;
    while i >= 0
      invariant -1 <= i <= 7
      invariant out == start + BigEndian(n, 8)[..7 - i]
    {
      hide BigEndian;
      BigEndianAt(n, 8, 7 - i);
      out := out + [((n / Pow256(i)) % 256) as byte];
      i := i - 1;
    }
    assert BigEndian(n, 8)[..8] == BigEndian(n, 8);
  }

  lemma TwoBytes(n: nat)
    ensures BigEndian(n, 2) == [(n / 256 % 256) as byte, (n % 256) as byte]
  {
    assert BigEndian(n / 256, 1) == [(n / 256 % 256) as byte];
  }

  // ---------------------------------------------------------------------
  // Decoding
  // ---------------------------------------------------------------------

  /** The three ways decoding a prefix can go. */
  datatype Decoded =
    | NeedMore
    | ProtocolError
    | Frame(opcode: byte, fin: bool, payload: Bytes, consumed: nat)

  /** How many bytes of extended length follow the second byte. */
  function ExtraLength(b1: byte): nat {
    if b1 % 128 == 126 then 2 else if b1 % 128 == 127 then 8 else 0
  }

  function PayloadLength(data: Bytes): nat
    requires |data| >= 2 && |data| >= 2 + ExtraLength(data[1])
  {
    var k := ExtraLength(data[1]);
    if k == 0 then (data[1] % 128) as nat else Number(data[2..2 + k])
  }

  function Decode(data: Bytes, max: nat): (r: Decoded)
    ensures r.Frame? ==> 0 < r.consumed <= |data| && |r.payload| <= max && r.opcode < 16
  {
    if |data| < 2 || |data| < 2 + ExtraLength(data[1]) then NeedMore
    else
      var k, len := ExtraLength(data[1]), PayloadLength(data);
      var off := 2 + k;
      if (k == 8 && len >= TWO63) || len > max || data[1] < 128 then ProtocolError
      else if |data| < off + 4 + len then NeedMore
      else
        Frame(data[0] % 16, data[0] >= 128,
              ApplyMask(data[off + 4..off + 4 + len], data[off..off + 4]), off + 4 + len)
  }

  /** No frame carries 2^63 bytes or more, whatever the configured limit. */
  lemma DecodedIsBelow(data: Bytes, max: nat)
    ensures Decode(data, max).Frame? ==> |Decode(data, max).payload| < TWO63
  {
    hide Number, ApplyMask;
    PowersOf256();
    if |data| >= 4 {
      NumberBelow(data[2..4]);
    }
  }

  /** The extended length of `k` bytes after the second byte, most significant first. */
  method ReadLength(data: Bytes, k: nat) returns (len: nat)
    requires 2 + k <= |data|
    ensures len == Number(data[2..2 + k])
  {
    len := 0;
    for i := 0 to k
      invariant len == Number(data[2..2 + i])
    {
      assert data[2..2 + i + 1][..i] == data[2..2 + i];
      len := len * 256 + data[2 + i] as nat;
    }
  }

  method Unmask(data: Bytes, off: nat, len: nat, mask: Bytes) returns (payload: Bytes)
    requires off + len <= |data| && |mask| == 4
    ensures payload == ApplyMask(data[off..off + len], mask)
  {
    hide Xor;
    payload := [];
    for i := 0 to len
      invariant |payload| == i
      invariant forall j | 0 <= j < i :: payload[j] == Xor(data[off + j], mask[j % 4])
    {
      payload := payload + [Xor(data[off + i], mask[i % 4])];
    }
    var masked := data[off..off + len];
    assert forall j | 0 <= j < len :: masked[j] == data[off + j];
    assert payload == ApplyMask(masked, mask);
  }

  lemma TwoByteNumber(a: byte, b: byte)
    ensures Number([a, b]) == a as nat * 256 + b as nat
  {
    assert [a, b][..1] == [a];
    assert Number([a]) == a as nat by {
      assert [a][..0] == [];
    }
  }

  method DecodeFrame(data: Bytes, max: nat) returns (f: Decoded)
    ensures f == Decode(data, max)
  {
    hide Number, ApplyMask;
    if |data| < 2 { return NeedMore; }
    var b0, b1 := data[0], data[1];
    var fin, opcode, masked := b0 >= 128, b0 % 16, b1 >= 128;
    var len: nat := (b1 % 128) as nat;
    var off := 2;
    if len == 126 {
      if |data| < 4 { return NeedMore; }
      len := data[2] as nat * 256 + data[3] as nat;
      off := 4;
      TwoByteNumber(data[2], data[3]);
      assert data[2..4] == [data[2], data[3]];
    } else if len == 127 {
      if |data| < 10 { return NeedMore; }
      len := ReadLength(data, 8);
      off := 10;
      if len >= TWO63 { return ProtocolError; }
    }
    assert len == PayloadLength(data) && off == 2 + ExtraLength(data[1]);
    hide PayloadLength, ExtraLength;
    if len > max { return ProtocolError; }
    if !masked { return ProtocolError; }
    if |data| < off + 4 + len { return NeedMore; }
    var mask := data[off..off + 4];
    off := off + 4;
    var payload := Unmask(data, off, len, mask);
    return Frame(opcode, fin, payload, off + len);
  }

  // ---------------------------------------------------------------------
  // What relates them
  // ---------------------------------------------------------------------

  /** Where an unmasked frame's payload starts. */
  function HeaderLength(frame: Bytes): nat
    requires |frame| >= 2
  {
    2 + ExtraLength(frame[1])
  }

  /** What a client does to a frame: set the mask bit, insert the key, mask the payload. */
  function Mask(frame: Bytes, key: Key): Bytes
    requires |frame| >= 2 && |frame| >= HeaderLength(frame) && frame[1] < 128
  {
    var off := HeaderLength(frame);
    [frame[0], frame[1] + 128] + frame[2..off] + key + ApplyMask(frame[off..], key)
  }

  lemma LengthFieldReads(n: nat)
    requires n < TWO64
    ensures var field := LengthField(n);
            && field[0] < 128
            && |field| == 1 + ExtraLength(field[0])
            && n == if |field| == 1 then field[0] as nat else Number(field[1..])
  {
    PowersOf256();
    if n >= 126 {
      NumberOfBigEndian(n, if n <= 0xffff then 2 else 8);
    }
  }

  lemma EncodeShape(opcode: byte, payload: Bytes, fin: bool)
    requires |payload| < TWO64
    ensures var frame := Encode(opcode, payload, fin);
            && |frame| >= 2 && |frame| >= HeaderLength(frame) && frame[1] < 128
            && frame[..HeaderLength(frame)] == [FirstByte(opcode, fin)] + LengthField(|payload|)
            && frame[HeaderLength(frame)..] == payload
  {
    LengthFieldReads(|payload|);
  }

  /** A client's copy of the frame the encoder makes. */
  function MaskedFrame(opcode: byte, payload: Bytes, fin: bool, key: Key): Bytes
    requires |payload| < TWO64
  {
    EncodeShape(opcode, payload, fin);
    Mask(Encode(opcode, payload, fin), key)
  }

  lemma MaskedShape(opcode: byte, payload: Bytes, fin: bool, key: Key)
    requires |payload| < TWO64
    ensures var frame, field := MaskedFrame(opcode, payload, fin, key), LengthField(|payload|);
            && field[0] < 128
            && frame == [FirstByte(opcode, fin), field[0] + 128] + field[1..] + key + ApplyMask(payload, key)
  {
    var frame, field := Encode(opcode, payload, fin), LengthField(|payload|);
    LengthFieldReads(|payload|);
    EncodeShape(opcode, payload, fin);
    assert frame[2..HeaderLength(frame)] == field[1..];
  }

  /** Decoding what a client sent gives back opcode, flag and payload, and stops at the frame's end. */
  lemma DecodeUndoesMask(opcode: byte, payload: Bytes, fin: bool, key: Key, rest: Bytes, max: nat)
    requires opcode < 16 && |payload| < TWO63 && |payload| <= max
    ensures var frame := MaskedFrame(opcode, payload, fin, key);
            Decode(frame + rest, max) == Frame(opcode, fin, payload, |frame|)
  {
    hide LengthField, MaskedFrame, ApplyMask, Number;
    var frame, field, n := MaskedFrame(opcode, payload, fin, key), LengthField(|payload|), |payload|;
    LengthFieldReads(n);
    MaskedShape(opcode, payload, fin, key);
    var data, k := frame + rest, |field| - 1;
    assert data[0] == FirstByte(opcode, fin) && data[1] == field[0] + 128;
    assert ExtraLength(data[1]) == k;
    assert data[2..2 + k] == field[1..];
    assert data[2 + k..6 + k] == key;
    assert data[6 + k..6 + k + n] == ApplyMask(payload, key);
    MaskTwice(payload, key);
  }

  /** More bytes never change a decision already made. */
  lemma DecodeStable(data: Bytes, more: Bytes, max: nat)
    requires !Decode(data, max).NeedMore?
    ensures Decode(data + more, max) == Decode(data, max)
  {
    hide ApplyMask, Number;
    var all, k := data + more, ExtraLength(data[1]);
    assert all[2..2 + k] == data[2..2 + k];
    if Decode(data, max).Frame? {
      var off, len := 2 + k, PayloadLength(data);
      assert all[off + 4..off + 4 + len] == data[off + 4..off + 4 + len];
      assert all[off..off + 4] == data[off..off + 4];
    }
  }

  /** A proper prefix of a client's frame is never mistaken for anything. */
  lemma PrefixNeedsMore(opcode: byte, payload: Bytes, fin: bool, key: Key, m: nat, max: nat)
    requires opcode < 16 && |payload| < TWO63 && |payload| <= max
    requires m < |MaskedFrame(opcode, payload, fin, key)|
    ensures Decode(MaskedFrame(opcode, payload, fin, key)[..m], max) == NeedMore
  {
    hide MaskedFrame;
    var frame := MaskedFrame(opcode, payload, fin, key);
    DecodeUndoesMask(opcode, payload, fin, key, [], max);
    assert frame + [] == frame == frame[..m] + frame[m..];
    if !Decode(frame[..m], max).NeedMore? {
      DecodeStable(frame[..m], frame[m..], max);
    }
  }
}
