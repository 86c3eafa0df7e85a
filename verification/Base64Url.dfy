// Unpadded base64url (section 5 of RFC 4648) and the comparison that does not
// leave early.
module Base64Url {
  import opened Common

  type Bytes = seq<byte>

  // ---- the alphabet ----

  function Letter(v: nat): char
    requires v < 64
  {
    if v < 26 then 'A' + v as char
    else if v < 52 then 'a' + (v - 26) as char
    else if v < 62 then '0' + (v - 52) as char
    else if v == 62 then '-' else '_'
  }

  /** The value of a letter; None outside the alphabet. */
  function ValueOf(c: char): (r: Option<nat>)
    ensures r.Some? ==> r.value < 64 && Letter(r.value) == c
  {
    if 'A' <= c <= 'Z' then Some((c - 'A') as nat)
    else if 'a' <= c <= 'z' then Some((c - 'a') as nat + 26)
    else if '0' <= c <= '9' then Some((c - '0') as nat + 52)
    else if c == '-' then Some(62)
    else if c == '_' then Some(63)
    else None
  }

  lemma ValueOfLetter(v: nat)
    requires v < 64
    ensures ValueOf(Letter(v)) == Some(v)
  {
  }

  /** The URL and filename safe alphabet, table 2 of RFC 4648. */
  const ALPHABET: seq<string> := ["ABCDEFGHIJKLMNOP", "QRSTUVWXYZabcdef", "ghijklmnopqrstuv", "wxyz0123456789-_"]

  lemma LettersAre(v: nat)
    requires v < 64
    ensures |ALPHABET| == 4 && |ALPHABET[v / 16]| == 16 && Letter(v) == ALPHABET[v / 16][v % 16]
  {
    hide Letter;
    if v < 16 {
      FirstLetters(v);
    } else if v < 32 {
      SecondLetters(v);
    } else if v < 48 {
      ThirdLetters(v);
    } else {
      FourthLetters(v);
    }
  }

  lemma FirstLetters(v: nat)
    requires v < 16
    ensures Letter(v) == "ABCDEFGHIJKLMNOP"[v]
  {
  }

  lemma SecondLetters(v: nat)
    requires 16 <= v < 32
    ensures Letter(v) == "QRSTUVWXYZabcdef"[v - 16]
  {
  }

  lemma ThirdLetters(v: nat)
    requires 32 <= v < 48
    ensures Letter(v) == "ghijklmnopqrstuv"[v - 32]
  {
  }

  lemma FourthLetters(v: nat)
    requires 48 <= v < 64
    ensures Letter(v) == "wxyz0123456789-_"[v - 48]
  {
  }

  // ---- encoding ----

  type Sextet = v: nat | v < 64

  // Three bytes a, b, c as four groups of six bits, and back.

  function G1(a: byte): Sextet { a as nat / 4 }
  function G2(a: byte, b: byte): Sextet { a as nat % 4 * 16 + b as nat / 16 }
  function G3(b: byte, c: byte): Sextet { b as nat % 16 * 4 + c as nat / 64 }
  function G4(c: byte): Sextet { c as nat % 64 }

  function B1(p: nat, q: nat): byte
    requires p < 64 && q < 64
  {
    (p * 4 + q / 16) as byte
  }

  function B2(q: nat, r: nat): byte
    requires q < 64 && r < 64
  {
    (q % 16 * 16 + r / 4) as byte
  }

  function B3(r: nat, s: nat): byte
    requires r < 64 && s < 64
  {
    (r % 4 * 64 + s) as byte
  }

  lemma BytesOfGroups(a: byte, b: byte, c: byte)
    ensures B1(G1(a), G2(a, b)) == a && B2(G2(a, b), G3(b, c)) == b && B3(G3(b, c), G4(c)) == c
  {
  }

  lemma GroupsOfBytes(p: Sextet, q: Sextet, r: Sextet, s: Sextet)
    ensures G1(B1(p, q)) == p && G2(B1(p, q), B2(q, r)) == q && G3(B2(q, r), B3(r, s)) == r && G4(B3(r, s)) == s
  {
  }

  /** Six-bit groups, most significant first; the last is filled up with zero bits. */
  function Pack(x: Bytes): (vs: seq<Sextet>) {
    if |x| >= 3 then [G1(x[0]), G2(x[0], x[1]), G3(x[1], x[2]), G4(x[2])] + Pack(x[3..])
    else if |x| == 2 then [G1(x[0]), G2(x[0], x[1]), G3(x[1], 0)]
    else if |x| == 1 then [G1(x[0]), G2(x[0], 0)]
    else []
  }

  function Letters(vs: seq<Sextet>): (s: string)
    ensures |s| == |vs|
    ensures forall i | 0 <= i < |vs| :: s[i] == Letter(vs[i])
  {
    seq(|vs|, i requires 0 <= i < |vs| => Letter(vs[i]))
  }

  function Encode(x: Bytes): string { Letters(Pack(x)) }

  lemma LettersAppend(a: seq<Sextet>, b: seq<Sextet>)
    ensures Letters(a + b) == Letters(a) + Letters(b)
  {
  }

  /** The code shifts and masks a 24-bit number. */
  lemma Shifts(a: byte, b: byte, c: byte)
    ensures var v := a as nat * 65536 + b as nat * 256 + c as nat;
            && v / 262144 % 64 == G1(a) && v / 4096 % 64 == G2(a, b)
            && v / 64 % 64 == G3(b, c) && v % 64 == G4(c)
  {
    HighShifts(a as nat, b as nat, c as nat);
    LowShifts(a as nat, b as nat, c as nat);
  }

  // Division with remainder by the powers of two in the code.

  lemma By64(q: int, r: nat)
    requires r < 64
    ensures (q * 64 + r) / 64 == q && (q * 64 + r) % 64 == r
  {
  }

  lemma By4096(q: int, r: nat)
    requires r < 4096
    ensures (q * 4096 + r) / 4096 == q && (q * 4096 + r) % 4096 == r
  {
  }

  lemma By262144(q: int, r: nat)
    requires r < 262144
    ensures (q * 262144 + r) / 262144 == q
  {
  }

  lemma HighShifts(a: nat, b: nat, c: nat)
    requires a < 256 && b < 256 && c < 256
    ensures var v := a * 65536 + b * 256 + c;
            v / 262144 % 64 == a / 4 && v / 4096 % 64 == a % 4 * 16 + b / 16
  {
    var ah, al, bh, bl := a / 4, a % 4, b / 16, b % 16;
    HighSplit(ah, al, bh, bl, c);
    By262144(ah, al * 65536 + bh * 4096 + bl * 256 + c);
    By4096(ah * 64 + (al * 16 + bh), bl * 256 + c);
    By64(ah, al * 16 + bh);
    By64(0, ah);
  }

  lemma HighSplit(ah: nat, al: nat, bh: nat, bl: nat, c: nat)
    ensures var v := (ah * 4 + al) * 65536 + (bh * 16 + bl) * 256 + c;
            && v == ah * 262144 + (al * 65536 + bh * 4096 + bl * 256 + c)
            && v == (ah * 64 + (al * 16 + bh)) * 4096 + (bl * 256 + c)
  {
  }

  lemma LowShifts(a: nat, b: nat, c: nat)
    requires a < 256 && b < 256 && c < 256
    ensures var v := a * 65536 + b * 256 + c;
            v / 64 % 64 == b % 16 * 4 + c / 64 && v % 64 == c % 64
  {
    var bh, bl, ch, cl := b / 16, b % 16, c / 64, c % 64;
    LowSplit(a, bh, bl, ch, cl);
    By64((a * 16 + bh) * 64 + (bl * 4 + ch), cl);
    By64(a * 16 + bh, bl * 4 + ch);
  }

  lemma LowSplit(a: nat, bh: nat, bl: nat, ch: nat, cl: nat)
    ensures a * 65536 + (bh * 16 + bl) * 256 + (ch * 64 + cl) == ((a * 16 + bh) * 64 + (bl * 4 + ch)) * 64 + cl
  {
  }

  method EncodeUrl(data: Bytes) returns (out: string)
    ensures out == Encode(data)
  {
    hide Encode, Quad, Tail;
    out := "";
    var i: nat := 0;
    assert data[0..] == data;
    while i + 3 <= |data|
      invariant i <= |data|
      invariant out + Encode(data[i..]) == Encode(data)
    {
      WholeGroup(data, i);
      out := AppendQuad(out, data[i], data[i + 1], data[i + 2]);
      i := i + 3;
    }
    LastGroup(data, i);
    out := AppendTail(out, data, i);
  }

  /** The four letters of three bytes. */
  function Quad(a: byte, b: byte, c: byte): string {
    [Letter(G1(a)), Letter(G2(a, b)), Letter(G3(b, c)), Letter(G4(c))]
  }

  /** The letters of the one or two bytes left. */
  function Tail(data: Bytes, i: nat): string
    requires i <= |data| < i + 3
  {
    if |data| - i == 2 then [Letter(G1(data[i])), Letter(G2(data[i], data[i + 1])), Letter(G3(data[i + 1], 0))]
    else if |data| - i == 1 then [Letter(G1(data[i])), Letter(G2(data[i], 0))]
    else ""
  }

  method AppendQuad(out0: string, a: byte, b: byte, c: byte) returns (out: string)
    ensures out == out0 + Quad(a, b, c)
  {
    hide Letter, G1, G2, G3, G4;
    var v := a as nat * 65536 + b as nat * 256 + c as nat;
    Shifts(a, b, c);
    out := out0 + [Letter(v / 262144 % 64)];
    out := out + [Letter(v / 4096 % 64)];
    out := out + [Letter(v / 64 % 64)];
    out := out + [Letter(v % 64)];
  }

  method AppendTail(out0: string, data: Bytes, i: nat) returns (out: string)
    requires i <= |data| < i + 3
    ensures out == out0 + Tail(data, i)
  {
    hide Letter, G1, G2, G3, G4;
    out := out0;
    if |data| - i == 1 {
      var v := data[i] as nat * 65536;
      Shifts(data[i], 0, 0);
      out := out + [Letter(v / 262144 % 64)];
      out := out + [Letter(v / 4096 % 64)];
    } else if |data| - i == 2 {
      var v := data[i] as nat * 65536 + data[i + 1] as nat * 256;
      Shifts(data[i], data[i + 1], 0);
      out := out + [Letter(v / 262144 % 64)];
      out := out + [Letter(v / 4096 % 64)];
      out := out + [Letter(v / 64 % 64)];
    }
  }

  lemma WholeGroup(data: Bytes, i: nat)
    requires i + 3 <= |data|
    ensures Encode(data[i..]) == Quad(data[i], data[i + 1], data[i + 2]) + Encode(data[i + 3..])
  {
    hide Letter, G1, G2, G3, G4;
    assert data[i..][3..] == data[i + 3..];
    var vs := [G1(data[i]), G2(data[i], data[i + 1]), G3(data[i + 1], data[i + 2]), G4(data[i + 2])];
    LettersAppend(vs, Pack(data[i + 3..]));
    assert Letters(vs) == Quad(data[i], data[i + 1], data[i + 2]);
  }

  lemma LastGroup(data: Bytes, i: nat)
    requires i <= |data| < i + 3
    ensures Encode(data[i..]) == Tail(data, i)
  {
    hide Letter, G1, G2, G3, G4;
  }

  // ---- decoding ----

  /** The complete bytes in a stream of six-bit groups. */
  function Unpack(vs: seq<Sextet>): Bytes {
    if |vs| >= 4 then [B1(vs[0], vs[1]), B2(vs[1], vs[2]), B3(vs[2], vs[3])] + Unpack(vs[4..])
    else if |vs| == 3 then [B1(vs[0], vs[1]), B2(vs[1], vs[2])]
    else if |vs| == 2 then [B1(vs[0], vs[1])]
    else []
  }

  predicate AllLetters(s: string) {
    forall i | 0 <= i < |s| :: ValueOf(s[i]).Some?
  }

  function Values(s: string): (vs: seq<Sextet>)
    requires AllLetters(s)
    ensures |vs| == |s|
    ensures forall i | 0 <= i < |s| :: Some(vs[i]) == ValueOf(s[i])
  {
    seq(|s|, i requires 0 <= i < |s| => ValueOf(s[i]).value)
  }

  function Decode(s: string): Option<Bytes> {
    if |s| % 4 == 1 || !AllLetters(s) then None else Some(Unpack(Values(s)))
  }

  /** The byte the next group completes, given the group before it. */
  function NextByte(i: nat, prev: Sextet, v: Sextet): Bytes {
    if i % 4 == 1 then [B1(prev, v)]
    else if i % 4 == 2 then [B2(prev, v)]
    else if i % 4 == 3 then [B3(prev, v)]
    else []
  }

  lemma UnpackQuad(p: Sextet, q: Sextet, r: Sextet, s: Sextet, rest: seq<Sextet>)
    ensures Unpack([p, q, r, s] + rest) == [B1(p, q), B2(q, r), B3(r, s)] + Unpack(rest)
  {
    hide B1, B2, B3;
    assert ([p, q, r, s] + rest)[4..] == rest;
  }

  lemma {:induction false} UnpackSnoc(vs: seq<Sextet>, v: Sextet)
    ensures Unpack(vs + [v]) == Unpack(vs) + NextByte(|vs|, if vs == [] then 0 else vs[|vs| - 1], v)
  {
    hide B1, B2, B3;
    if |vs| >= 4 {
      hide Unpack, NextByte;
      UnpackQuad(vs[0], vs[1], vs[2], vs[3], vs[4..]);
      UnpackQuad(vs[0], vs[1], vs[2], vs[3], vs[4..] + [v]);
      assert [vs[0], vs[1], vs[2], vs[3]] + vs[4..] == vs;
      assert [vs[0], vs[1], vs[2], vs[3]] + (vs[4..] + [v]) == vs + [v];
      UnpackSnoc(vs[4..], v);
      NextByteAgain(|vs|, vs[|vs| - 1], v);
      assert |vs| > 4 ==> vs[4..][|vs| - 5] == vs[|vs| - 1];
    } else if |vs| == 3 {
      UnpackQuad(vs[0], vs[1], vs[2], v, []);
      assert [vs[0], vs[1], vs[2], v] + [] == vs + [v];
    }
  }

  lemma NextByteAgain(i: nat, prev: Sextet, v: Sextet)
    requires i >= 4
    ensures NextByte(i, prev, v) == NextByte(i - 4, if i == 4 then 0 else prev, v)
  {
    hide B1, B2, B3;
  }

  /** The accumulator's low bits are the bits not yet output, wrapped or not. */
  ghost predicate Pending(i: nat, prev: Sextet, acc: nat, bits: int) {
    match i % 4
    case 0 => bits == 0
    case 1 => bits == 6 && acc % 64 == prev
    case 2 => bits == 4 && acc % 16 == prev % 16
    case _ => bits == 2 && acc % 4 == prev % 4
  }

  /** What the wrapping accumulator holds after one more group. */
  function Shifted(acc: nat, v: Sextet): nat { (acc * 64 + v) % TWO32 }

  lemma ShiftedLow(acc: nat, v: Sextet)
    ensures Shifted(acc, v) % 4096 == acc % 64 * 64 + v
  {
    var high, low := acc / 64, acc % 64;
    var n := acc * 64 + v;
    var k := n / TWO32;
    assert n == high * 4096 + (low * 64 + v);
    assert n % TWO32 == (high - k * 1048576) * 4096 + (low * 64 + v);
    By4096(high - k * 1048576, low * 64 + v);
  }

  lemma OutputByte(i: nat, prev: Sextet, acc: nat, bits: int, v: Sextet)
    requires Pending(i, prev, acc, bits)
    ensures var a := Shifted(acc, v);
            && (i % 4 == 0 ==> Pending(i + 1, v, a, 6))
            && (i % 4 == 1 ==> a / 16 % 256 == B1(prev, v) as nat && Pending(i + 1, v, a, 4))
            && (i % 4 == 2 ==> a / 4 % 256 == B2(prev, v) as nat && Pending(i + 1, v, a, 2))
            && (i % 4 == 3 ==> a % 256 == B3(prev, v) as nat && Pending(i + 1, v, a, 0))
  {
    hide Shifted, B1, B2, B3;
    Output0(acc, v);
    if i % 4 == 1 {
      Output1(prev, acc, v);
    } else if i % 4 == 2 {
      Output2(prev, acc, v);
    } else if i % 4 == 3 {
      Output3(prev, acc, v);
    }
  }

  lemma Output0(acc: nat, v: Sextet)
    ensures Shifted(acc, v) % 64 == v
  {
    ShiftedLow(acc, v);
    hide Shifted;
    BitsBelow64(Shifted(acc, v) / 4096, acc % 64, v);
  }

  lemma Output1(prev: Sextet, acc: nat, v: Sextet)
    requires acc % 64 == prev
    ensures Shifted(acc, v) / 16 % 256 == B1(prev, v) as nat && Shifted(acc, v) % 16 == v % 16
  {
    ShiftedLow(acc, v);
    hide Shifted;
    BitsAbove16(Shifted(acc, v) / 4096, acc % 64, v);
  }

  lemma Output2(prev: Sextet, acc: nat, v: Sextet)
    requires acc % 16 == prev % 16
    ensures Shifted(acc, v) / 4 % 256 == B2(prev, v) as nat && Shifted(acc, v) % 4 == v % 4
  {
    ShiftedLow(acc, v);
    B2Value(prev, v);
    hide Shifted, B2;
    BitsAbove4(Shifted(acc, v) / 4096, acc % 64, v);
    LowSixteenth(acc);
  }

  lemma B2Value(q: nat, r: nat)
    requires q < 64 && r < 64
    ensures B2(q, r) as nat == q % 16 * 16 + r / 4
  {
  }

  lemma LowSixteenth(acc: nat)
    ensures acc % 64 % 16 == acc % 16
  {
    var q, h, l := acc / 64, acc % 64 / 16, acc % 64 % 16;
    By16(q * 4 + h, l);
    assert acc == (q * 4 + h) * 16 + l;
  }

  lemma By16(q: int, r: nat)
    requires r < 16
    ensures (q * 16 + r) % 16 == r
  {
  }

  lemma Output3(prev: Sextet, acc: nat, v: Sextet)
    requires acc % 4 == prev % 4
    ensures Shifted(acc, v) % 256 == B3(prev, v) as nat
  {
    ShiftedLow(acc, v);
    B3Value(prev, v);
    hide Shifted, B3;
    BitsBelow256(Shifted(acc, v) / 4096, acc % 64, v);
    LowQuarter(acc);
  }

  lemma B3Value(r: nat, s: nat)
    requires r < 64 && s < 64
    ensures B3(r, s) as nat == r % 4 * 64 + s
  {
  }

  lemma LowQuarter(acc: nat)
    ensures acc % 64 % 4 == acc % 4
  {
    var q, h, l := acc / 64, acc % 64 / 4, acc % 64 % 4;
    By4(q * 16 + h, l);
    assert acc == (q * 16 + h) * 4 + l;
  }

  lemma By4(q: int, r: nat)
    requires r < 4
    ensures (q * 4 + r) % 4 == r
  {
  }

  lemma By256(q: int, r: nat)
    requires r < 256
    ensures (q * 256 + r) % 256 == r
  {
  }

  lemma BitsBelow64(h: nat, low: nat, v: nat)
    requires v < 64
    ensures (h * 4096 + (low * 64 + v)) % 64 == v
  {
    By64(h * 64 + low, v);
  }

  lemma BitsAbove16(h: nat, low: nat, v: nat)
    requires low < 64 && v < 64
    ensures (h * 4096 + (low * 64 + v)) / 16 % 256 == low * 4 + v / 16
    ensures (h * 4096 + (low * 64 + v)) % 16 == v % 16
  {
    Parts16(h, low, v / 16, v % 16);
    By256(h, low * 4 + v / 16);
  }

  lemma Parts16(h: nat, low: nat, vh: nat, vl: nat)
    requires vl < 16
    ensures (h * 4096 + (low * 64 + (vh * 16 + vl))) / 16 == h * 256 + (low * 4 + vh)
    ensures (h * 4096 + (low * 64 + (vh * 16 + vl))) % 16 == vl
  {
  }

  lemma BitsAbove4(h: nat, low: nat, v: nat)
    requires low < 64 && v < 64
    ensures (h * 4096 + (low * 64 + v)) / 4 % 256 == low % 16 * 16 + v / 4
    ensures (h * 4096 + (low * 64 + v)) % 4 == v % 4
  {
    Parts4(h, low / 16, low % 16, v / 4, v % 4);
    By256(h * 4 + low / 16, low % 16 * 16 + v / 4);
  }

  lemma Parts4(h: nat, lh: nat, ll: nat, vh: nat, vl: nat)
    requires vl < 4
    ensures (h * 4096 + ((lh * 16 + ll) * 64 + (vh * 4 + vl))) / 4 == (h * 4 + lh) * 256 + (ll * 16 + vh)
    ensures (h * 4096 + ((lh * 16 + ll) * 64 + (vh * 4 + vl))) % 4 == vl
  {
  }

  lemma BitsBelow256(h: nat, low: nat, v: nat)
    requires low < 64 && v < 64
    ensures (h * 4096 + (low * 64 + v)) % 256 == low % 4 * 64 + v
  {
    Parts256(h, low / 4, low % 4, v);
    By256(h * 16 + low / 4, low % 4 * 64 + v);
  }

  lemma Parts256(h: nat, lh: nat, ll: nat, v: nat)
    ensures h * 4096 + ((lh * 4 + ll) * 64 + v) == (h * 16 + lh) * 256 + (ll * 64 + v)
  {
  }

  method DecodeUrl(s: string) returns (r: Option<Bytes>)
    ensures r == Decode(s)
  {
    hide Letter, Unpack, NextByte, Pending;
    if |s| % 4 == 1 { return None; }
    var out: Bytes := [];
    var acc, bits := 0, 0;
    ghost var vs: seq<Sextet> := [];
    Begin(acc);
    for i := 0 to |s|
      invariant |vs| == i && AllLetters(s[..i]) && Values(s[..i]) == vs
      invariant out == Unpack(vs)
      invariant Pending(i, if i == 0 then 0 else vs[i - 1], acc, bits)
    {
      var v := ValueOf(s[i]);
      if v.None? {
        assert !AllLetters(s);
        return None;
      }
      ghost var prev: Sextet := if i == 0 then 0 else vs[i - 1];
      acc, bits, out := Push(i, prev, acc, bits, v.value, out);
      UnpackSnoc(vs, v.value);
      vs := vs + [v.value];
      assert s[..i + 1] == s[..i] + [s[i]];
      assert Values(s[..i + 1]) == vs;
    }
    assert s[..|s|] == s;
    r := Some(out);
  }

  lemma Begin(acc: nat)
    ensures Unpack([]) == [] && Pending(0, 0, acc, 0)
  {
  }

  /** One turn of the loop: shift the group in, and out goes a byte when there is one. */
  method Push(ghost i: nat, ghost prev: Sextet, acc0: nat, bits0: int, v: Sextet, out0: Bytes)
    returns (acc: nat, bits: int, out: Bytes)
    requires Pending(i, prev, acc0, bits0)
    ensures Pending(i + 1, v, acc, bits)
    ensures out == out0 + NextByte(i, prev, v)
  {
    OutputByte(i, prev, acc0, bits0, v);
    acc := (acc0 * 64 + v) % TWO32;
    bits := bits0 + 6;
    out := out0;
    if bits >= 8 {
      bits := bits - 8;
      out := out + [(acc / (if bits == 4 then 16 else if bits == 2 then 4 else 1) % 256) as byte];
    }
  }

  // ---- round trips ----

  lemma {:induction false} UnpackPack(x: Bytes)
    ensures Unpack(Pack(x)) == x
    ensures |Pack(x)| % 4 != 1
  {
    hide B1, B2, B3, G1, G2, G3, G4;
    if |x| >= 3 {
      UnpackPack(x[3..]);
      BytesOfGroups(x[0], x[1], x[2]);
      assert Pack(x)[4..] == Pack(x[3..]);
    } else if |x| == 2 {
      BytesOfGroups(x[0], x[1], 0);
    } else if |x| == 1 {
      BytesOfGroups(x[0], 0, 0);
    }
  }

  /** Decoding an encoding gives the bytes back, for every byte string. */
  lemma DecodeEncode(x: Bytes)
    ensures Decode(Encode(x)) == Some(x)
  {
    hide Letter, Pack, Unpack, ValueOf;
    var vs, s := Pack(x), Encode(x);
    UnpackPack(x);
    forall i | 0 <= i < |s|
      ensures ValueOf(s[i]) == Some(vs[i])
    {
      ValueOfLetter(vs[i]);
    }
    assert Values(s) == vs;
  }

  /** The bits an encoder would have set to zero are zero. */
  predicate ZeroTail(vs: seq<Sextet>) {
    && (|vs| % 4 == 2 ==> vs[|vs| - 1] % 16 == 0)
    && (|vs| % 4 == 3 ==> vs[|vs| - 1] % 4 == 0)
  }

  lemma PackTriple(a: byte, b: byte, c: byte, rest: Bytes)
    ensures Pack([a, b, c] + rest) == [G1(a), G2(a, b), G3(b, c), G4(c)] + Pack(rest)
  {
    hide G1, G2, G3, G4;
    assert ([a, b, c] + rest)[3..] == rest;
  }

  lemma QuadBack(p: Sextet, q: Sextet, r: Sextet, s: Sextet, rest: seq<Sextet>)
    ensures Pack(Unpack([p, q, r, s] + rest)) == [p, q, r, s] + Pack(Unpack(rest))
  {
    hide *;
    var a, b, c := B1(p, q), B2(q, r), B3(r, s);
    UnpackQuad(p, q, r, s, rest);
    PackTriple(a, b, c, Unpack(rest));
    GroupsOfBytes(p, q, r, s);
  }

  lemma RestBack(vs: seq<Sextet>)
    requires |vs| < 4 && |vs| % 4 != 1
    ensures |Pack(Unpack(vs))| == |vs|
    ensures Pack(Unpack(vs)) == vs <==> ZeroTail(vs)
  {
    hide B1, B2, B3, G1, G2, G3, G4;
    if |vs| == 3 {
      LastOfThree(vs[0], vs[1], vs[2]);
    } else if |vs| == 2 {
      LastOfTwo(vs[0], vs[1]);
    }
  }

  lemma ZeroTailOfRest(vs: seq<Sextet>)
    requires |vs| >= 4
    ensures ZeroTail(vs) <==> ZeroTail(vs[4..])
  {
    assert |vs| > 4 ==> vs[4..][|vs| - 5] == vs[|vs| - 1];
  }

  lemma {:induction false} PackUnpack(vs: seq<Sextet>)
    requires |vs| % 4 != 1
    ensures |Pack(Unpack(vs))| == |vs|
    ensures Pack(Unpack(vs)) == vs <==> ZeroTail(vs)
  {
    hide Pack, Unpack, ZeroTail;
    if |vs| >= 4 {
      var rest := vs[4..];
      PackUnpack(rest);
      var quad := [vs[0], vs[1], vs[2], vs[3]];
      QuadBack(vs[0], vs[1], vs[2], vs[3], rest);
      ZeroTailOfRest(vs);
      assert vs == quad + rest;
      SameTail(quad, Pack(Unpack(rest)), rest);
    } else {
      RestBack(vs);
    }
  }

  lemma SameTail(a: seq<Sextet>, b: seq<Sextet>, c: seq<Sextet>)
    ensures a + b == a + c <==> b == c
  {
    if a + b == a + c {
      assert b == (a + b)[|a|..] == (a + c)[|a|..] == c;
    }
  }

  lemma LastOfThree(p: Sextet, q: Sextet, r: Sextet)
    ensures G1(B1(p, q)) == p && G2(B1(p, q), B2(q, r)) == q
    ensures G3(B2(q, r), 0) == r <==> r % 4 == 0
  {
  }

  lemma LastOfTwo(p: Sextet, q: Sextet)
    ensures G1(B1(p, q)) == p
    ensures G2(B1(p, q), 0) == q <==> q % 16 == 0
  {
  }

  /** Re-encoding what was decoded gives the text back exactly when its unused bits are zero. */
  lemma EncodeDecode(s: string)
    requires Decode(s).Some?
    ensures Encode(Decode(s).value) == s <==> ZeroTail(Values(s))
  {
    hide Letter, Pack, Unpack, ZeroTail;
    var vs, x := Values(s), Decode(s).value;
    PackUnpack(vs);
    if Encode(x) == s {
      forall i | 0 <= i < |vs|
        ensures Pack(x)[i] == vs[i]
      {
        ValueOfLetter(Pack(x)[i]);
        ValueOfLetter(vs[i]);
      }
      assert Pack(x) == vs;
    }
  }

  // ---- constant-time comparison ----

  lemma NoDifference(d: bv8, a: bv8, b: bv8)
    ensures d | (a ^ b) == 0 <==> d == 0 && a == b
  {
  }

  /** Looks at every byte, and answers whether the strings are equal. */
  method ConstantTimeEqual(a: seq<bv8>, b: seq<bv8>) returns (equal: bool)
    ensures equal <==> a == b
  {
    if |a| != |b| { return false; }
    var diff: bv8 := 0;
    for i := 0 to |a|
      invariant diff == 0 <==> a[..i] == b[..i]
    {
      NoDifference(diff, a[i], b[i]);
      assert a[..i + 1] == a[..i] + [a[i]] && b[..i + 1] == b[..i] + [b[i]];
      diff := diff | (a[i] ^ b[i]);
    }
    assert a[..|a|] == a && b[..|b|] == b;
    equal := diff == 0;
  }

  /** The test vectors of section 10 of RFC 4648, unpadded, and two letters only this alphabet has. */
  lemma EncodeExamples()
    ensures Encode([]) == "" && Encode([0x66]) == "Zg" && Encode([0x66, 0x6f]) == "Zm8"
    ensures Encode([0x66, 0x6f, 0x6f]) == "Zm9v" && Encode([0x66, 0x6f, 0x6f, 0x62]) == "Zm9vYg"
    ensures Encode([0xfb, 0xff]) == "-_8"
  {
    assert [0x66 as byte, 0x6f, 0x6f, 0x62][3..] == [0x62];
    assert [0x66 as byte, 0x6f, 0x6f][3..] == [];
  }

  predicate InAlphabet(c: char) { exists v: nat :: v < 64 && Letter(v) == c }

  /** A text is refused exactly when no text of its length is an encoding, or for a letter that no encoding has. */
  lemma RefusedExactly(s: string)
    ensures Decode(s) == None <==>
            (forall x: Bytes :: |Encode(x)| != |s|) || exists i :: 0 <= i < |s| && !InAlphabet(s[i])
  {
    hide Letter, Unpack;
    forall i | 0 <= i < |s|
      ensures ValueOf(s[i]).Some? <==> InAlphabet(s[i])
    {
      if InAlphabet(s[i]) {
        var v: nat :| v < 64 && Letter(v) == s[i];
        ValueOfLetter(v);
      }
    }
    forall x: Bytes
      ensures |Encode(x)| % 4 != 1
    {
      PackLength(x);
    }
    if |s| % 4 != 1 {
      var x := BytesFor(|s|);
      assert |Encode(x)| == |s|;
    }
  }

  lemma {:induction false} PackLength(x: Bytes)
    ensures |Pack(x)| == |x| / 3 * 4 + (if |x| % 3 == 0 then 0 else |x| % 3 + 1)
    decreases |x|
  {
    if |x| >= 3 {
      PackLength(x[3..]);
    }
  }

  lemma BytesFor(n: nat) returns (x: Bytes)
    requires n % 4 != 1
    ensures |Pack(x)| == n
  {
    var k: nat := n / 4 * 3 + if n % 4 == 0 then 0 else n % 4 - 1;
    x := seq(k, _ => 0 as byte);
    PackLength(x);
  }
}
