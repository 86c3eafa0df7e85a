// SHA-256 (sections 4.1.2, 5.3.3 and 6.2.2 of FIPS 180-4): the streaming
// context computes the standard's digest, however the input is cut.
module Sha256 {
  import opened Common
  import opened MerkleDamgard
  import opened Words

  datatype Hash = Hash(a: bv32, b: bv32, c: bv32, d: bv32, e: bv32, f: bv32, g: bv32, h: bv32)

  const H0: Hash :=
    Hash(0x6a09e667, 0xbb67ae85, 0x3c6ef372, 0xa54ff53a, 0x510e527f, 0x9b05688c, 0x1f83d9ab, 0x5be0cd19)

  const TABLE: seq<bv32> :=
    [0x428a2f98, 0x71374491, 0xb5c0fbcf, 0xe9b5dba5, 0x3956c25b, 0x59f111f1, 0x923f82a4, 0xab1c5ed5]
    + [0xd807aa98, 0x12835b01, 0x243185be, 0x550c7dc3, 0x72be5d74, 0x80deb1fe, 0x9bdc06a7, 0xc19bf174]
    + [0xe49b69c1, 0xefbe4786, 0x0fc19dc6, 0x240ca1cc, 0x2de92c6f, 0x4a7484aa, 0x5cb0a9dc, 0x76f988da]
    + [0x983e5152, 0xa831c66d, 0xb00327c8, 0xbf597fc7, 0xc6e00bf3, 0xd5a79147, 0x06ca6351, 0x14292967]
    + [0x27b70a85, 0x2e1b2138, 0x4d2c6dfc, 0x53380d13, 0x650a7354, 0x766a0abb, 0x81c2c92e, 0x92722c85]
    + [0xa2bfe8a1, 0xa81a664b, 0xc24b8b70, 0xc76c51a3, 0xd192e819, 0xd6990624, 0xf40e3585, 0x106aa070]
    + [0x19a4c116, 0x1e376c08, 0x2748774c, 0x34b0bcb5, 0x391c0cb3, 0x4ed8aa4a, 0x5b9cca4f, 0x682e6ff3]
    + [0x748f82ee, 0x78a5636f, 0x84c87814, 0x8cc70208, 0x90befffa, 0xa4506ceb, 0xbef9a3f7, 0xc67178f2]

  lemma SixtyFourConstants()
    ensures |TABLE| == 64
  {
  }

  function K(t: nat): bv32
    requires t < 64
  {
    SixtyFourConstants();
    TABLE[t]
  }

  // ---- the standard's functions ----

  function Rotr(x: bv32, n: bv6): bv32
    requires 0 < n < 32
  {
    (x >> n) | (x << (32 - n))
  }

  function BigSigma0(x: bv32): bv32 { Rotr(x, 2) ^ Rotr(x, 13) ^ Rotr(x, 22) }
  function BigSigma1(x: bv32): bv32 { Rotr(x, 6) ^ Rotr(x, 11) ^ Rotr(x, 25) }
  function SmallSigma0(x: bv32): bv32 { Rotr(x, 7) ^ Rotr(x, 18) ^ (x >> 3) }
  function SmallSigma1(x: bv32): bv32 { Rotr(x, 17) ^ Rotr(x, 19) ^ (x >> 10) }

  /** The message schedule. */
  function W(block: Block, t: nat): bv32 {
    if t < 16 then Load(block, t)
    else Sum4(SmallSigma1(W(block, t - 2)), W(block, t - 7), SmallSigma0(W(block, t - 15)), W(block, t - 16))
  }

  function Round(r: Hash, k: bv32, w: bv32): Hash {
    var t1 := Plus(Plus(Plus(Plus(r.h, BigSigma1(r.e)), Ch(r.e, r.f, r.g)), k), w);
    var t2 := Plus(BigSigma0(r.a), Maj(r.a, r.b, r.c));
    Hash(Plus(t1, t2), r.a, r.b, r.c, Plus(r.d, t1), r.e, r.f, r.g)
  }

  /** The working variables after `t` rounds. */
  function Rounds(r: Hash, block: Block, t: nat): Hash
    requires t <= 64
  {
    if t == 0 then r else Round(Rounds(r, block, t - 1), K(t - 1), W(block, t - 1))
  }

  function Add(x: Hash, y: Hash): Hash {
    Hash(Plus(x.a, y.a), Plus(x.b, y.b), Plus(x.c, y.c), Plus(x.d, y.d),
         Plus(x.e, y.e), Plus(x.f, y.f), Plus(x.g, y.g), Plus(x.h, y.h))
  }

  function Compress(h: Hash, block: Block): Hash { Add(h, Rounds(h, block, 64)) }

  function Output(h: Hash): (out: Bytes)
    ensures |out| == 32
  {
    WordBytes(h.a) + WordBytes(h.b) + WordBytes(h.c) + WordBytes(h.d)
    + WordBytes(h.e) + WordBytes(h.f) + WordBytes(h.g) + WordBytes(h.h)
  }

  /** The digest of a message. */
  function Digest(m: Bytes): (out: Bytes)
    ensures |out| == 32
  {
    Output(Fold(Compress, H0, m + Padding(|m|)))
  }

  // ---- the code ----

  lemma FirstWords(block: Block, t: nat)
    requires t < 16
    ensures W(block, t) == Load(block, t)
  {
    hide Load, SmallSigma0, SmallSigma1, Sum4;
  }

  lemma NoRounds(r: Hash, block: Block)
    ensures Rounds(r, block, 0) == r
  {
    hide Plus, Round, W;
  }

  lemma OneRound(r: Hash, block: Block, t: nat)
    requires t < 64
    ensures Rounds(r, block, t + 1) == Round(Rounds(r, block, t), K(t), W(block, t))
  {
    hide Plus, Round, W, K;
  }

  lemma LaterWords(block: Block, t: nat)
    requires t >= 16
    ensures W(block, t) ==
            Sum4(SmallSigma1(W(block, t - 2)), W(block, t - 7), SmallSigma0(W(block, t - 15)), W(block, t - 16))
  {
    hide Sum4, SmallSigma0, SmallSigma1, Load;
  }

  /** The message schedule, in an array. */
  method Expand(p: Block) returns (w: array<bv32>)
    ensures w.Length == 64 && forall j | 0 <= j < 64 :: w[j] == W(p, j)
  {
    hide SmallSigma0, SmallSigma1, Load, W, Sum4;
    w := new bv32[64](_ => 0);
    for i := 0 to 16
      invariant forall j | 0 <= j < i :: w[j] == W(p, j)
    {
      FirstWords(p, i);
      w[i] := Load(p, i);
    }
    for i := 16 to 64
      invariant forall j | 0 <= j < i :: w[j] == W(p, j)
    {
      var s0 := SmallSigma0(w[i - 15]);
      var s1 := SmallSigma1(w[i - 2]);
      LaterWords(p, i);
      SumReversed(s1, w[i - 7], s0, w[i - 16]);
      w[i] := Sum4(w[i - 16], s0, w[i - 7], s1);
    }
  }

  /** One block, with the working variables in locals. */
  method Process(h: Hash, p: Block) returns (out: Hash)
    ensures out == Compress(h, p)
  {
    hide BigSigma0, BigSigma1, Ch, Maj, W, K, Rounds, Plus;
    var w := Expand(p);
    NoRounds(h, p);
    var a, b, c, d := h.a, h.b, h.c, h.d;
    var e, f, g, hh := h.e, h.f, h.g, h.h;
    for i := 0 to 64
      invariant forall j | 0 <= j < 64 :: w[j] == W(p, j)
      invariant Hash(a, b, c, d, e, f, g, hh) == Rounds(h, p, i)
    {
      OneRound(h, p, i);
      var t1 := Plus(Plus(Plus(Plus(hh, BigSigma1(e)), Ch(e, f, g)), K(i)), w[i]);
      var t2 := Plus(BigSigma0(a), Maj(a, b, c));
      hh, g, f, e := g, f, e, Plus(d, t1);
      d, c, b, a := c, b, a, Plus(t1, t2);
    }
    out := Hash(Plus(h.a, a), Plus(h.b, b), Plus(h.c, c), Plus(h.d, d),
                Plus(h.e, e), Plus(h.f, f), Plus(h.g, g), Plus(h.h, hh));
  }

  class Context {
    var h: Hash
    var total: nat
    const buf: array<bv8>
    var buflen: nat

    /** The bytes already compressed. */
    ghost var processed: Bytes

    ghost predicate Valid()
      reads this, buf
    {
      && buf.Length == 64 && buflen < 64
      && |processed| % 64 == 0
      && total == (|processed| + buflen) % TWO64
      && h == Fold(Compress, H0, processed)
    }

    /** All bytes given so far. */
    ghost function Message(): Bytes
      requires buf.Length == 64 && buflen <= 64
      reads this, buf
    {
      processed + buf[..buflen]
    }

    constructor ()
      ensures Valid() && Message() == [] && fresh(buf)
    {
      h := H0;
      total := 0;
      buf := new bv8[64](_ => 0);
      buflen := 0;
      processed := [];
    }

    /** Copies what fits into the block buffer. */
    method Fill(data: Bytes) returns (take: nat)
      requires buf.Length == 64 && buflen < 64
      modifies buf, this`buflen
      ensures take == if |data| < 64 - old(buflen) then |data| else 64 - old(buflen)
      ensures buflen == old(buflen) + take
      ensures buf[..buflen] == old(buf[..buflen]) + data[..take]
    {
      take := if |data| < 64 - buflen then |data| else 64 - buflen;
      for i := 0 to take
        invariant buflen == old(buflen) && buflen + take <= 64
        invariant buf[..buflen + i] == old(buf[..buflen]) + data[..i]
      {
        buf[buflen + i] := data[i];
      }
      buflen := buflen + take;
    }

    /** One turn of the update loop: fill, and compress a full buffer. */
    method Absorb(data: Bytes) returns (take: nat)
      requires buf.Length == 64 && buflen < 64 && |data| > 0
      requires |processed| % 64 == 0 && h == Fold(Compress, H0, processed)
      modifies buf, this`buflen, this`h, this`processed
      ensures 0 < take <= |data| && buflen < 64
      ensures |processed| % 64 == 0 && h == Fold(Compress, H0, processed)
      ensures Message() == old(Message()) + data[..take]
    {
      hide Compress, Fold;
      take := Fill(data);
      assert Message() == old(Message()) + data[..take];
      if buflen == 64 {
        assert buf[..buflen] == buf[..];
        FoldSnoc(Compress, H0, processed, buf[..]);
        h := Process(h, buf[..]);
        processed := processed + buf[..];
        buflen := 0;
        assert Message() == processed;
      }
    }

    method Update(data: Bytes)
      requires Valid()
      modifies this, buf
      ensures Valid() && Message() == old(Message()) + data
      ensures buf.Length == 64 && buflen == |Message()| % 64
    {
      hide Compress, Fold;
      ghost var m := Message();
      total := (total + |data|) % TWO64;
      var rest := data;
      assert m + rest == m + data;
      while |rest| > 0
        invariant buf.Length == 64 && buflen < 64
        invariant |processed| % 64 == 0 && h == Fold(Compress, H0, processed)
        invariant Message() + rest == m + data
        invariant total == |m + data| % TWO64
        decreases |rest|
      {
        ghost var before := Message();
        var take := Absorb(rest);
        assert before + rest == (before + rest[..take]) + rest[take..];
        rest := rest[take..];
      }
      assert Message() + [] == Message();
      Remainder(|processed|, buflen);
    }

    /** Zero bytes until eight bytes are left in the block. */
    method PadZeros(ghost m: Bytes)
      requires Valid() && Message() == m + [0x80]
      requires buf.Length == 64 && buflen < 64 && buflen == (|m| + 1) % 64
      modifies this, buf
      ensures Valid() && Message() == m + [0x80] + Zeros(ZeroCount(|m|))
    {
      hide Compress, Fold, Message, ZeroCount, Zeros, Valid;
      ghost var zeros: nat := 0;
      NoZeros(m + [0x80]);
      while buflen != 56
        invariant Valid() && buf.Length == 64 && buflen < 64
        invariant buflen == (|m| + 1 + zeros) % 64 && zeros <= ZeroCount(|m|)
        invariant Message() == m + [0x80] + Zeros(zeros)
        decreases (120 - buflen) % 64
      {
        OneMoreZero(|m|, zeros, buflen);
        Update([0]);
        ZerosSnoc(m + [0x80], zeros);
        zeros := zeros + 1;
        Lengths(m, zeros);
      }
      ZeroCountIsLeast(|m|, zeros);
    }

    lemma CountedBits(m: Bytes)
      requires Valid() && m == Message()
      ensures total * 8 % TWO64 == (8 * |m|) % TWO64
    {
      hide Compress, Fold;
      BitCount(|m|, total);
    }

    lemma AllProcessed()
      requires Valid() && |Message()| % 64 == 0
      ensures h == Fold(Compress, H0, Message())
    {
      hide Compress, Fold;
      Remainder(|processed|, buflen);
      assert |Message()| == |processed| + buflen;
      assert Message() == processed + [] == processed;
    }

    /** Pads, and returns the digest of everything given. */
    method Finish() returns (digest: Bytes)
      requires Valid()
      modifies this, buf
      ensures digest == Digest(old(Message()))
    {
      hide Compress, Fold, LengthBytes, Zeros, Output, ZeroCount, Message;
      ghost var m := Message();
      var bits := total * 8 % TWO64;
      CountedBits(m);
      Update([0x80]);
      PadZeros(m);
      var lenbuf := LengthField(bits);
      Update(lenbuf);
      assert Message() == m + Padding(|m|);
      PaddedLength(m);
      AllProcessed();
      digest := Output(h);
    }
  }

  method OneShot(data: Bytes) returns (digest: Bytes)
    ensures digest == Digest(data)
  {
    var ctx := new Context();
    ctx.Update(data);
    assert [] + data == data;
    digest := ctx.Finish();
  }

  /** The digest does not depend on how the message is cut into updates. */
  method HashCuts(cuts: seq<Bytes>) returns (digest: Bytes)
    ensures digest == Digest(Joined(cuts))
  {
    var ctx := new Context();
    for i := 0 to |cuts|
      invariant ctx.Valid() && ctx.Message() == Joined(cuts[..i]) && fresh(ctx) && fresh(ctx.buf)
    {
      assert cuts[..i + 1][..i] == cuts[..i];
      ctx.Update(cuts[i]);
    }
    assert cuts[..|cuts|] == cuts;
    digest := ctx.Finish();
  }
}
