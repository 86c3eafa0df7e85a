// HMAC-SHA-256 (RFC 2104) over the streaming context.
module Hmac {
  import opened MerkleDamgard
  import Sha256

  /** The key as one block: hashed when it is too long, then filled up with zeros. */
  function KeyBlock(key: Bytes): (k: Block) {
    if |key| > 64 then Sha256.Digest(key) + Zeros(32) else key + Zeros(64 - |key|)
  }

  function Xored(block: Block, c: bv8): (r: Block)
    ensures forall i | 0 <= i < 64 :: r[i] == block[i] ^ c
  {
    seq(64, i requires 0 <= i < 64 => block[i] ^ c)
  }

  function Mac(key: Bytes, text: Bytes): Bytes {
    Sha256.Digest(Xored(KeyBlock(key), 0x5c) + Sha256.Digest(Xored(KeyBlock(key), 0x36) + text))
  }

  /** Builds a padded key block in place. */
  method FillBlock(bytes: Bytes) returns (kblock: array<bv8>)
    requires |bytes| <= 64
    ensures fresh(kblock) && kblock.Length == 64 && kblock[..] == bytes + Zeros(64 - |bytes|)
  {
    kblock := new bv8[64](_ => 0);
    for i := 0 to |bytes|
      invariant forall j | 0 <= j < 64 :: kblock[j] == if j < i then bytes[j] else 0
    {
      kblock[i] := bytes[i];
    }
  }

  method Masked(kblock: array<bv8>, c: bv8) returns (r: Bytes)
    requires kblock.Length == 64
    ensures r == Xored(kblock[..], c)
  {
    r := [];
    for i := 0 to 64
      invariant |r| == i && forall j | 0 <= j < i :: r[j] == kblock[j] ^ c
    {
      r := r + [kblock[i] ^ c];
    }
  }

  method HmacSha256(key: Bytes, data: Bytes) returns (mac: Bytes)
    ensures mac == Mac(key, data)
  {
    hide Sha256.Digest, Xored, Zeros;
    var short := key;
    if |key| > 64 {
      short := Sha256.OneShot(key);
    }
    var kblock := FillBlock(short);
    var inner := Masked(kblock, 0x36);
    inner := inner + data;
    var ih := Sha256.OneShot(inner);
    var outer := Masked(kblock, 0x5c);
    outer := outer + ih;
    mac := Sha256.OneShot(outer);
  }

  /** Keys are equivalent exactly as the construction says: long keys to their digest, short ones to their padding. */
  lemma KeyEquivalence(key: Bytes, text: Bytes)
    ensures |key| > 64 ==> Mac(key, text) == Mac(Sha256.Digest(key), text)
    ensures |key| < 64 ==> Mac(key, text) == Mac(key + [0], text)
  {
    hide Sha256.Digest;
    if |key| < 64 {
      assert key + Zeros(64 - |key|) == (key + [0]) + Zeros(63 - |key|);
    }
  }
}
