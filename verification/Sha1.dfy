// SHA-1 (sections 4.1.1, 5.3.1 and 6.1.2 of FIPS 180-4): the streaming context
// computes the standard's digest, however the input is cut.
module Sha1 {
  import opened Common
  import opened MerkleDamgard
  import opened Words

  datatype Hash = Hash(a: bv32, b: bv32, c: bv32, d: bv32, e: bv32)

  const H0: Hash := Hash(0x67452301, 0xEFCDAB89, 0x98BADCFE, 0x10325476, 0xC3D2E1F0)

  // ---- the standard's functions ----

  function Rotl(x: bv32, n: bv6): bv32
    requires 0 < n < 32
  {
    (x << n) | (x >> (32 - n))
  }

  function F(t: nat, x: bv32, y: bv32, z: bv32): bv32 {
    if t < 20 then Ch(x, y, z)
    else if t < 40 then Parity(x, y, z)
    else if t < 60 then Maj(x, y, z)
    else Parity(x, y, z)
  }

  function K(t: nat): bv32 {
    if t < 20 then 0x5A827999 else if t < 40 then 0x6ED9EBA1 else if t < 60 then 0x8F1BBCDC else 0xCA62C1D6
  }

  function Mix(x: bv32, y: bv32, z: bv32, u: bv32): bv32 { Rotl(x ^ y ^ z ^ u, 1) }

  /** The message schedule. */
  function W(block: Block, t: nat): bv32 {
    if t < 16 then Load(block, t)
    else Mix(W(block, t - 3), W(block, t - 8), W(block, t - 14), W(block, t - 16))
  }

  function Round(r: Hash, t: nat, w: bv32): Hash {
    var sum := Plus(Plus(Plus(Plus(Rotl(r.a, 5), F(t, r.b, r.c, r.d)), r.e), K(t)), w);
    Hash(sum, r.a, Rotl(r.b, 30), r.c, r.d)
  }

  /** The working variables after `t` rounds. */
  function Rounds(r: Hash, block: Block, t: nat): Hash
    requires t <= 80
  {
    if t == 0 then r else Round(Rounds(r, block, t - 1), t - 1, W(block, t - 1))
  }

  function Add(x: Hash, y: Hash): Hash {
    Hash(Plus(x.a, y.a), Plus(x.b, y.b), Plus(x.c, y.c), Plus(x.d, y.d), Plus(x.e, y.e))
  }

  function Compress(h: Hash, block: Block): Hash { Add(h, Rounds(h, block, 80)) }

  function Output(h: Hash): (out: Bytes)
    ensures |out| == 20
  {
    WordBytes(h.a) + WordBytes(h.b) + WordBytes(h.c) + WordBytes(h.d) + WordBytes(h.e)
  }

  /** The digest of a message. */
  function Digest(m: Bytes): (out: Bytes)
    ensures |out| == 20
  {
    Output(Fold(Compress, H0, m + Padding(|m|)))
  }

  // ---- the code ----

  lemma FirstWords(block: Block, t: nat)
    requires t < 16
    ensures W(block, t) == Load(block, t)
  {
    hide Load, Mix;
  }

  lemma NoRounds(r: Hash, block: Block)
    ensures Rounds(r, block, 0) == r
  {
    hide Plus, Round, W;
  }

  lemma OneRound(r: Hash, block: Block, t: nat)
    requires t < 80
    ensures Rounds(r, block, t + 1) == Round(Rounds(r, block, t), t, W(block, t))
  {
    hide Plus, Round, W;
  }

  lemma LaterWords(block: Block, t: nat)
    requires t >= 16
    ensures W(block, t) == Mix(W(block, t - 3), W(block, t - 8), W(block, t - 14), W(block, t - 16))
  {
    hide Mix, Load;
  }

  /** The message schedule, in an array. */
  method Expand(p: Block) returns (w: array<bv32>)
    ensures w.Length == 80 && forall j | 0 <= j < 80 :: w[j] == W(p, j)
  {
    hide Mix, Load, W;
    w := new bv32[80](_ => 0);
    for i := 0 to 16
      invariant forall j | 0 <= j < i :: w[j] == W(p, j)
    {
      FirstWords(p, i);
      w[i] := Load(p, i);
    }
    for i := 16 to 80
      invariant forall j | 0 <= j < i :: w[j] == W(p, j)
    {
      LaterWords(p, i);
      w[i] := Mix(w[i - 3], w[i - 8], w[i - 14], w[i - 16]);
    }
  }

  /** The round's function and constant, as the code selects them. */
  method Select(i: nat, b: bv32, c: bv32, d: bv32) returns (f: bv32, k: bv32)
    ensures f == F(i, b, c, d) && k == K(i)
  {
    hide Ch, Maj, ChOr, MajOr, Parity;
    ChOrIsCh(b, c, d);
    MajOrIsMaj(b, c, d);
    if i < 20 {
      f := ChOr(b, c, d);
      k := 0x5A827999;
    } else if i < 40 {
      f := Parity(b, c, d);
      k := 0x6ED9EBA1;
    } else if i < 60 {
      f := MajOr(b, c, d);
      k := 0x8F1BBCDC;
    } else {
      f := Parity(b, c, d);
      k := 0xCA62C1D6;
    }
  }

  /** One block, with the working variables in locals. */
  method Process(h: Hash, p: Block) returns (out: Hash)
    ensures out == Compress(h, p)
  {
    hide Rotl, F, K, W, Rounds, Plus;
    var w := Expand(p);
    NoRounds(h, p);
    var a, b, c, d, e := h.a, h.b, h.c, h.d, h.e;
    for i := 0 to 80
      invariant forall j | 0 <= j < 80 :: w[j] == W(p, j)
      invariant Hash(a, b, c, d, e) == Rounds(h, p, i)
    {
      OneRound(h, p, i);
      var f, k := Select(i, b, c, d);
      var t := Plus(Plus(Plus(Plus(Rotl(a, 5), f), e), k), w[i]);
      e, d, c, b, a := d, c, Rotl(b, 30), a, t;
    }
    out := Hash(Plus(h.a, a), Plus(h.b, b), Plus(h.c, c), Plus(h.d, d), Plus(h.e, e));
  }

  class Context {
    var h: Hash
    var total: nat
    const buf: array<bv8>
    var buflen: nat

    /** The bytes already compressed. */
    ghost var processed: Bytes

    ghost predicate Valid()
      reads this, buf
    {
      && buf.Length == 64 && buflen < 64
      && |processed| % 64 == 0
      && total == (|processed| + buflen) % TWO64
      && h == Fold(Compress, H0, processed)
    }

    /** All bytes given so far. */
    ghost function Message(): Bytes
      requires buf.Length == 64 && buflen <= 64
      reads this, buf
    {
      processed + buf[..buflen]
    }

    constructor ()
      ensures Valid() && Message() == [] && fresh(buf)
    {
      h := H0;
      total := 0;
      buf := new bv8[64](_ => 0);
      buflen := 0;
      processed := [];
    }

    /** Copies what fits into the block buffer. */
    method Fill(data: Bytes) returns (take: nat)
      requires buf.Length == 64 && buflen < 64
      modifies buf, this`buflen
      ensures take == if |data| < 64 - old(buflen) then |data| else 64 - old(buflen)
      ensures buflen == old(buflen) + take
      ensures buf[..buflen] == old(buf[..buflen]) + data[..take]
    {
      take := if |data| < 64 - buflen then |data| else 64 - buflen;
      for i := 0 to take
        invariant buflen == old(buflen) && buflen + take <= 64
        invariant buf[..buflen + i] == old(buf[..buflen]) + data[..i]
      {
        buf[buflen + i] := data[i];
      }
      buflen := buflen + take;
    }

    /** One turn of the update loop: fill, and compress a full buffer. */
    method Absorb(data: Bytes) returns (take: nat)
      requires buf.Length == 64 && buflen < 64 && |data| > 0
      requires |processed| % 64 == 0 && h == Fold(Compress, H0, processed)
      modifies buf, this`buflen, this`h, this`processed
      ensures 0 < take <= |data| && buflen < 64
      ensures |processed| % 64 == 0 && h == Fold(Compress, H0, processed)
      ensures Message() == old(Message()) + data[..take]
    {
      hide Compress, Fold;
      take := Fill(data);
      assert Message() == old(Message()) + data[..take];
      if buflen == 64 {
        assert buf[..buflen] == buf[..];
        FoldSnoc(Compress, H0, processed, buf[..]);
        h := Process(h, buf[..]);
        processed := processed + buf[..];
        buflen := 0;
        assert Message() == processed;
      }
    }

    method Update(data: Bytes)
      requires Valid()
      modifies this, buf
      ensures Valid() && Message() == old(Message()) + data
      ensures buf.Length == 64 && buflen == |Message()| % 64
    {
      hide Compress, Fold;
      ghost var m := Message();
      total := (total + |data|) % TWO64;
      var rest := data;
      assert m + rest == m + data;
      while |rest| > 0
        invariant buf.Length == 64 && buflen < 64
        invariant |processed| % 64 == 0 && h == Fold(Compress, H0, processed)
        invariant Message() + rest == m + data
        invariant total == |m + data| % TWO64
        decreases |rest|
      {
        ghost var before := Message();
        var take := Absorb(rest);
        assert before + rest == (before + rest[..take]) + rest[take..];
        rest := rest[take..];
      }
      assert Message() + [] == Message();
      Remainder(|processed|, buflen);
    }

    /** Zero bytes until eight bytes are left in the block. */
    method PadZeros(ghost m: Bytes)
      requires Valid() && Message() == m + [0x80]
      requires buf.Length == 64 && buflen < 64 && buflen == (|m| + 1) % 64
      modifies this, buf
      ensures Valid() && Message() == m + [0x80] + Zeros(ZeroCount(|m|))
    {
      hide Compress, Fold, Message, ZeroCount, Zeros, Valid;
      ghost var zeros: nat := 0;
      NoZeros(m + [0x80]);
      while buflen != 56
        invariant Valid() && buf.Length == 64 && buflen < 64
        invariant buflen == (|m| + 1 + zeros) % 64 && zeros <= ZeroCount(|m|)
        invariant Message() == m + [0x80] + Zeros(zeros)
        decreases (120 - buflen) % 64
      {
        OneMoreZero(|m|, zeros, buflen);
        Update([0]);
        ZerosSnoc(m + [0x80], zeros);
        zeros := zeros + 1;
        Lengths(m, zeros);
      }
      ZeroCountIsLeast(|m|, zeros);
    }

    lemma CountedBits(m: Bytes)
      requires Valid() && m == Message()
      ensures total * 8 % TWO64 == (8 * |m|) % TWO64
    {
      hide Compress, Fold;
      BitCount(|m|, total);
    }

    lemma AllProcessed()
      requires Valid() && |Message()| % 64 == 0
      ensures h == Fold(Compress, H0, Message())
    {
      hide Compress, Fold;
      Remainder(|processed|, buflen);
      assert |Message()| == |processed| + buflen;
      assert Message() == processed + [] == processed;
    }

    /** Pads, and returns the digest of everything given. */
    method Finish() returns (digest: Bytes)
      requires Valid()
      modifies this, buf
      ensures digest == Digest(old(Message()))
    {
      hide Compress, Fold, LengthBytes, Zeros, Output, ZeroCount, Message;
      ghost var m := Message();
      var bits := total * 8 % TWO64;
      CountedBits(m);
      Update([0x80]);
      PadZeros(m);
      var lenbuf := LengthField(bits);
      Update(lenbuf);
      assert Message() == m + Padding(|m|);
      PaddedLength(m);
      AllProcessed();
      digest := Output(h);
    }
  }

  method OneShot(data: Bytes) returns (digest: Bytes)
    ensures digest == Digest(data)
  {
    var ctx := new Context();
    ctx.Update(data);
    assert [] + data == data;
    digest := ctx.Finish();
  }

  /** The digest does not depend on how the message is cut into updates. */
  method HashCuts(cuts: seq<Bytes>) returns (digest: Bytes)
    ensures digest == Digest(Joined(cuts))
  {
    var ctx := new Context();
    for i := 0 to |cuts|
      invariant ctx.Valid() && ctx.Message() == Joined(cuts[..i]) && fresh(ctx) && fresh(ctx.buf)
    {
      assert cuts[..i + 1][..i] == cuts[..i];
      ctx.Update(cuts[i]);
    }
    assert cuts[..|cuts|] == cuts;
    digest := ctx.Finish();
  }
}
