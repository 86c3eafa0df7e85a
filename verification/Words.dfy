// 32-bit words: the operations the hash functions are made of, and the few
// bit-level facts that make the code's formulas the standard's.
module Words {
  /** 32-bit addition. */
  function Plus(x: bv32, y: bv32): bv32 { x + y }

  function Ch(x: bv32, y: bv32, z: bv32): bv32 { (x & y) ^ (!x & z) }
  function Parity(x: bv32, y: bv32, z: bv32): bv32 { x ^ y ^ z }
  function Maj(x: bv32, y: bv32, z: bv32): bv32 { (x & y) ^ (x & z) ^ (y & z) }

  /** Ch and Maj with "or" in place of "exclusive or". */
  function ChOr(x: bv32, y: bv32, z: bv32): bv32 { (x & y) | (!x & z) }
  function MajOr(x: bv32, y: bv32, z: bv32): bv32 { (x & y) | (x & z) | (y & z) }

  lemma ChBits(x: bv32, y: bv32, z: bv32)
    ensures (x & y) | (!x & z) == (x & y) ^ (!x & z)
  {
  }

  lemma MajBits(x: bv32, y: bv32, z: bv32)
    ensures (x & y) | (x & z) | (y & z) == (x & y) ^ (x & z) ^ (y & z)
  {
  }

  lemma ChOrIsCh(x: bv32, y: bv32, z: bv32)
    ensures ChOr(x, y, z) == Ch(x, y, z)
  {
    ChBits(x, y, z);
  }

  lemma MajOrIsMaj(x: bv32, y: bv32, z: bv32)
    ensures MajOr(x, y, z) == Maj(x, y, z)
  {
    MajBits(x, y, z);
  }

  /** Four terms, added from the left. */
  function Sum4(a: bv32, b: bv32, c: bv32, d: bv32): bv32 { a + b + c + d }

  lemma SumBits(a: bv32, b: bv32, c: bv32, d: bv32)
    ensures d + c + b + a == a + b + c + d
  {
  }

  /** The order of the terms does not matter. */
  lemma SumReversed(a: bv32, b: bv32, c: bv32, d: bv32)
    ensures Sum4(d, c, b, a) == Sum4(a, b, c, d)
  {
    SumBits(a, b, c, d);
  }
}
