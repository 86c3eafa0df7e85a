// What SHA-1 and SHA-256 share (section 5.1.1 of FIPS 180-4): padding, and
// folding a compression function over 64-byte blocks.
module MerkleDamgard {
  import opened Common

  type Bytes = seq<bv8>
  type Block = b: Bytes | |b| == 64 witness seq(64, _ => 0)

  /** `f` applied to each block of `data` in turn; an incomplete last block is left out. */
  function Fold<T>(f: (T, Block) -> T, h: T, data: Bytes): T
    decreases |data|
  {
    if |data| < 64 then h else Fold(f, f(h, data[..64]), data[64..])
  }

  lemma {:induction false} FoldAppend<T>(f: (T, Block) -> T, h: T, a: Bytes, b: Bytes)
    requires |a| % 64 == 0
    ensures Fold(f, h, a + b) == Fold(f, Fold(f, h, a), b)
    decreases |a|
  {
    if |a| == 0 {
      assert a + b == b;
    } else {
      assert (a + b)[..64] == a[..64];
      assert (a + b)[64..] == a[64..] + b;
      FoldAppend(f, f(h, a[..64]), a[64..], b);
    }
  }

  /** One more complete block. */
  lemma FoldSnoc<T>(f: (T, Block) -> T, h: T, a: Bytes, block: Block)
    requires |a| % 64 == 0
    ensures Fold(f, h, a + block) == f(Fold(f, h, a), block)
  {
    FoldAppend(f, h, a, block);
    var t := Fold(f, h, a);
    assert block[..64] == block && block[64..] == [];
    assert Fold(f, t, block) == Fold(f, f(t, block[..64]), block[64..]);
  }

  // ---- padding ----

  /** Byte `i` of the 8-byte big-endian bit count. */
  function LengthByte(bits: nat, i: nat): bv8
    requires i < 8
  {
    ((bits / Pow256(7 - i)) % 256) as bv8
  }

  function LengthBytes(bits: nat): (bs: Bytes)
    ensures |bs| == 8
  {
    seq(8, i requires 0 <= i < 8 => LengthByte(bits, i))
  }

  method LengthField(bits: nat) returns (lenbuf: Bytes)
    ensures lenbuf == LengthBytes(bits)
  {
    hide LengthByte;
    lenbuf := [];
    for i := 0 to 8
      invariant |lenbuf| == i && forall j | 0 <= j < i :: lenbuf[j] == LengthByte(bits, j)
    {
      lenbuf := lenbuf + [LengthByte(bits, i)];
    }
  }

  /** How many zero bytes follow the 0x80 byte. */
  function ZeroCount(n: nat): (z: nat)
    ensures (n + 1 + z) % 64 == 56
  {
    (119 - n % 64) % 64
  }

  /** It is the least number that leaves room for exactly the bit count. */
  lemma ZeroCountIsLeast(n: nat, z: nat)
    requires (n + 1 + z) % 64 == 56
    ensures ZeroCount(n) <= z
  {
  }

  /** Short of the count there is room for another zero. */
  lemma OneMoreZero(n: nat, z: nat, len: nat)
    requires len == (n + 1 + z) % 64 && len != 56 && z <= ZeroCount(n)
    ensures z < ZeroCount(n)
    ensures (len + 1) % 64 == (n + 1 + (z + 1)) % 64
    ensures (120 - (len + 1) % 64) % 64 < (120 - len) % 64
  {
    var q, r := n / 64, n % 64;
    var s := r + 1 + z;
    Residue(q, s);
    Residue(q, s + 1);
    Wrapped(119 - r);
    Wrapped(s);
    Wrapped(s + 1);
    Wrapped(len + 1);
    Wrapped(120 - len);
    Wrapped(120 - (len + 1) % 64);
  }

  lemma Wrapped(x: nat)
    requires x < 128
    ensures x % 64 == if x < 64 then x else x - 64
  {
  }

  /** Multiples of 64 do not count modulo 64. */
  lemma Residue(q: nat, x: nat)
    ensures (64 * q + x) % 64 == x % 64
  {
    var k, r := x / 64, x % 64;
    assert 64 * q + x == 64 * (q + k) + r;
  }

  lemma Lengths(m: Bytes, z: nat)
    ensures |m + [0x80] + Zeros(z)| == |m| + 1 + z
  {
  }

  function Zeros(k: nat): (z: Bytes)
    ensures |z| == k
  {
    seq(k, _ => 0 as bv8)
  }

  lemma NoZeros(m: Bytes)
    ensures m + Zeros(0) == m
  {
  }

  lemma ZerosSnoc(m: Bytes, k: nat)
    ensures m + Zeros(k) + [0] == m + Zeros(k + 1)
  {
    assert Zeros(k) + [0] == Zeros(k + 1);
  }

  /** The padding of a message of `n` bytes; the bit count is taken modulo 2^64. */
  function Padding(n: nat): Bytes {
    [0x80] + Zeros(ZeroCount(n)) + LengthBytes((8 * n) % TWO64)
  }

  /** A padded message is a whole number of blocks. */
  lemma PaddedLength(m: Bytes)
    ensures |m + Padding(|m|)| % 64 == 0
  {
    var k := |m| + 1 + ZeroCount(|m|);
    assert |m + Padding(|m|)| == k + 8;
    hide ZeroCount;
    Residue(k / 64, 64);
  }

  lemma Remainder(whole: nat, rest: nat)
    requires whole % 64 == 0 && rest < 64
    ensures (whole + rest) % 64 == rest
  {
  }

  /** The byte count kept modulo 2^64 loses nothing the bit count would keep. */
  lemma BitCount(n: nat, total: nat)
    requires total == n % TWO64
    ensures total * 8 % TWO64 == (8 * n) % TWO64
  {
    var q := n / TWO64;
    assert 8 * n == total * 8 + TWO64 * (8 * q);
    ModPlusMultiple(total * 8, 8 * q);
  }

  lemma {:induction false} ModPlusMultiple(a: nat, k: nat)
    ensures (a + TWO64 * k) % TWO64 == a % TWO64
  {
    if k > 0 {
      ModPlusMultiple(a, k - 1);
      assert a + TWO64 * k == (a + TWO64 * (k - 1)) + TWO64;
    }
  }

  /** Below 2^61 bytes the bit count is exact, as the standard requires. */
  lemma BitCountExact(n: nat)
    requires n < 0x2000_0000_0000_0000
    ensures (8 * n) % TWO64 == 8 * n
  {
  }

  function Joined(cuts: seq<Bytes>): Bytes {
    if cuts == [] then [] else Joined(cuts[..|cuts| - 1]) + cuts[|cuts| - 1]
  }

  // ---- words ----

  /** Word `t` of a block, big-endian. */
  function Load(block: Block, t: nat): bv32
    requires t < 16
  {
    ((block[4 * t] as bv32) << 24) | ((block[4 * t + 1] as bv32) << 16)
    | ((block[4 * t + 2] as bv32) << 8) | (block[4 * t + 3] as bv32)
  }

  function WordBytes(x: bv32): (bs: Bytes)
    ensures |bs| == 4
  {
    [((x >> 24) & 0xFF) as bv8, ((x >> 16) & 0xFF) as bv8, ((x >> 8) & 0xFF) as bv8, (x & 0xFF) as bv8]
  }
}
