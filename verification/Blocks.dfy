// Blocks and words by their bytes: what a short message's last block looks like.
module Blocks {
  import opened Common
  import opened MerkleDamgard

  lemma LoadIs(b: Block, t: nat, b0: bv8, b1: bv8, b2: bv8, b3: bv8, w: bv32)
    requires t < 16 && b[4 * t] == b0 && b[4 * t + 1] == b1 && b[4 * t + 2] == b2 && b[4 * t + 3] == b3
    requires ((b0 as bv32) << 24) | ((b1 as bv32) << 16) | ((b2 as bv32) << 8) | (b3 as bv32) == w
    ensures Load(b, t) == w
  {
  }

  lemma ZerosAre(n: nat)
    ensures forall i | 0 <= i < n :: Zeros(n)[i] == 0
  {
  }

  lemma LargePowers(k: nat)
    requires 2 <= k < 8
    ensures Pow256(k) >= 0x1_0000
  {
  }

  lemma SmallQuotient(n: nat, p: nat)
    requires n < p
    ensures n / p == 0
  {
  }

  lemma LeadingZero(bits: nat, i: nat)
    requires bits < 0x1_0000 && i < 6
    ensures LengthByte(bits, i) == 0
  {
    hide Pow256;
    LargePowers(7 - i);
    SmallQuotient(bits, Pow256(7 - i));
  }

  lemma LastTwo(bits: nat, high: nat, low: nat)
    requires bits == high * 256 + low && high < 256 && low < 256
    ensures LengthByte(bits, 6) == high as bv8 && LengthByte(bits, 7) == low as bv8
  {
    hide Pow256, LengthByte;
    FirstPowers();
    Quotients(bits, high, low);
    ByteIs(bits, 6, 256, high);
    ByteIs(bits, 7, 1, low);
  }

  lemma Quotients(bits: nat, high: nat, low: nat)
    requires bits == high * 256 + low && high < 256 && low < 256
    ensures bits / 256 % 256 == high && bits / 1 % 256 == low
  {
  }

  lemma ByteIs(bits: nat, i: nat, p: nat, v: nat)
    requires i < 8 && Pow256(7 - i) == p && p > 0 && bits / p % 256 == v
    ensures LengthByte(bits, i) == v as bv8
  {
    hide Pow256;
  }

  lemma FirstPowers()
    ensures Pow256(0) == 1 && Pow256(1) == 256
  {
  }

  /** The bit count of a short message. */
  lemma SmallCount(bits: nat, high: nat, low: nat)
    requires bits == high * 256 + low && high < 256 && low < 256
    ensures forall i | 0 <= i < 6 :: LengthBytes(bits)[i] == 0
    ensures LengthBytes(bits)[6] == high as bv8 && LengthBytes(bits)[7] == low as bv8
  {
    hide LengthByte;
    forall i | 0 <= i < 6
      ensures LengthBytes(bits)[i] == 0
    {
      LeadingZero(bits, i);
    }
    LastTwo(bits, high, low);
  }

  /** A last block: some bytes, the bit 1, zeros, and the count. */
  lemma LastBlock(m: Bytes, n: nat, high: nat, low: nat) returns (b: Block)
    requires |m| < 56 && n % 64 == |m| && 8 * n == high * 256 + low && high < 256 && low < 256
    ensures b == m + Padding(n)
    ensures (forall i | 0 <= i < |m| :: b[i] == m[i]) && b[|m|] == 0x80
    ensures forall i | |m| < i < 62 :: b[i] == 0
    ensures b[62] == high as bv8 && b[63] == low as bv8
  {
    var zeros := ZeroCount(n);
    PaddingIs(n);
    ZerosNeeded(n, |m|);
    hide Padding, Zeros, LengthBytes, ZeroCount;
    ZerosAre(zeros);
    SmallCount(8 * n, high, low);
    var count := LengthBytes(8 * n);
    b := m + [0x80] + Zeros(zeros) + count;
    assert m + ([0x80] + Zeros(zeros) + count) == b;
    Layout(m, Zeros(zeros), count);
  }

  lemma ZerosNeeded(n: nat, r: nat)
    requires n % 64 == r && r < 56
    ensures ZeroCount(n) == 55 - r
  {
  }

  lemma Layout(m: Bytes, zeros: Bytes, count: Bytes)
    requires |m| + 1 + |zeros| == 56 && |count| == 8
    requires (forall i | 0 <= i < |zeros| :: zeros[i] == 0) && (forall i | 0 <= i < 6 :: count[i] == 0)
    ensures var b := m + [0x80] + zeros + count;
            && (forall i | 0 <= i < |m| :: b[i] == m[i]) && b[|m|] == 0x80
            && (forall i | |m| < i < 62 :: b[i] == 0) && b[62] == count[6] && b[63] == count[7]
  {
  }

  lemma PaddingIs(n: nat)
    requires n < 8192
    ensures Padding(n) == [0x80] + Zeros(ZeroCount(n)) + LengthBytes(8 * n)
  {
    hide ZeroCount, Zeros, LengthBytes;
  }

  lemma WordIs(x: bv32, b0: bv8, b1: bv8, b2: bv8, b3: bv8)
    requires ((b0 as bv32) << 24) | ((b1 as bv32) << 16) | ((b2 as bv32) << 8) | (b3 as bv32) == x
    ensures WordBytes(x) == [b0, b1, b2, b3]
  {
  }
}
