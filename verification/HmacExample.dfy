// The known answer of HMAC-SHA-256 in test case 2 of RFC 4231, worked out word
// by word and round by round: it fixes every constant, rotation and mask.
module HmacExample {
  import opened Common
  import opened MerkleDamgard
  import opened Blocks
  import opened Words
  import opened Sha256
  import opened Hmac

  /** "Jefe" and "what do ya want for nothing?". */
  const KEY: Bytes := [0x4a, 0x65, 0x66, 0x65]
  const TEXT: Bytes :=
    [0x77, 0x68, 0x61, 0x74, 0x20, 0x64, 0x6f, 0x20, 0x79, 0x61, 0x20, 0x77, 0x61, 0x6e]
    + [0x74, 0x20, 0x66, 0x6f, 0x72, 0x20, 0x6e, 0x6f, 0x74, 0x68, 0x69, 0x6e, 0x67, 0x3f]

  const ANSWER: Bytes :=
    [0x5b, 0xdc, 0xc1, 0x46, 0xbf, 0x60, 0x75, 0x4e, 0x6a, 0x04, 0x24, 0x26, 0x08, 0x95, 0x75, 0xc7]
    + [0x5a, 0x00, 0x3f, 0x08, 0x9d, 0x27, 0x39, 0x83, 0x9d, 0xec, 0x58, 0xb9, 0x64, 0xec, 0x38, 0x43]

  // ---- one step at a time ----

  /** Sixteen words of the message schedule from `t` on. */
  predicate WordsAt(block: Block, t: nat, ws: seq<bv32>) {
    && |ws| == 16
    && W(block, t) == ws[0] && W(block, t + 1) == ws[1] && W(block, t + 2) == ws[2] && W(block, t + 3) == ws[3]
    && W(block, t + 4) == ws[4] && W(block, t + 5) == ws[5] && W(block, t + 6) == ws[6] && W(block, t + 7) == ws[7]
    && W(block, t + 8) == ws[8] && W(block, t + 9) == ws[9] && W(block, t + 10) == ws[10] && W(block, t + 11) == ws[11]
    && W(block, t + 12) == ws[12] && W(block, t + 13) == ws[13] && W(block, t + 14) == ws[14] && W(block, t + 15) == ws[15]
  }

  /** One word of the schedule from the four it is made of. */
  lemma Word(block: Block, t: nat, a: bv32, b: bv32, c: bv32, d: bv32, w: bv32)
    requires t >= 16 && W(block, t - 2) == a && W(block, t - 7) == b && W(block, t - 15) == c && W(block, t - 16) == d
    requires Sum4(SmallSigma1(a), b, SmallSigma0(c), d) == w
    ensures W(block, t) == w
  {
    LaterWords(block, t);
  }

  /** One round: the two words it computes, and the six it passes on. */
  lemma Turn(start: Hash, block: Block, t: nat, a: bv32, b: bv32, c: bv32, d: bv32, e: bv32, f: bv32, g: bv32, h: bv32,
             k: bv32, w: bv32, a1: bv32, e1: bv32)
    requires t < 64 && Rounds(start, block, t) == Hash(a, b, c, d, e, f, g, h) && K(t) == k && W(block, t) == w
    requires Round(Hash(a, b, c, d, e, f, g, h), k, w) == Hash(a1, a, b, c, e1, e, f, g)
    ensures Rounds(start, block, t + 1) == Hash(a1, a, b, c, e1, e, f, g)
  {
    OneRound(start, block, t);
  }

  lemma Constants0()
    ensures K(0) == 0x428a2f98 && K(1) == 0x71374491 && K(2) == 0xb5c0fbcf && K(3) == 0xe9b5dba5
    ensures K(4) == 0x3956c25b && K(5) == 0x59f111f1 && K(6) == 0x923f82a4 && K(7) == 0xab1c5ed5
  {
  }

  lemma Constants8()
    ensures K(8) == 0xd807aa98 && K(9) == 0x12835b01 && K(10) == 0x243185be && K(11) == 0x550c7dc3
    ensures K(12) == 0x72be5d74 && K(13) == 0x80deb1fe && K(14) == 0x9bdc06a7 && K(15) == 0xc19bf174
  {
  }

  lemma Constants16()
    ensures K(16) == 0xe49b69c1 && K(17) == 0xefbe4786 && K(18) == 0x0fc19dc6 && K(19) == 0x240ca1cc
    ensures K(20) == 0x2de92c6f && K(21) == 0x4a7484aa && K(22) == 0x5cb0a9dc && K(23) == 0x76f988da
  {
  }

  lemma Constants24()
    ensures K(24) == 0x983e5152 && K(25) == 0xa831c66d && K(26) == 0xb00327c8 && K(27) == 0xbf597fc7
    ensures K(28) == 0xc6e00bf3 && K(29) == 0xd5a79147 && K(30) == 0x06ca6351 && K(31) == 0x14292967
  {
  }

  lemma Constants32()
    ensures K(32) == 0x27b70a85 && K(33) == 0x2e1b2138 && K(34) == 0x4d2c6dfc && K(35) == 0x53380d13
    ensures K(36) == 0x650a7354 && K(37) == 0x766a0abb && K(38) == 0x81c2c92e && K(39) == 0x92722c85
  {
  }

  lemma Constants40()
    ensures K(40) == 0xa2bfe8a1 && K(41) == 0xa81a664b && K(42) == 0xc24b8b70 && K(43) == 0xc76c51a3
    ensures K(44) == 0xd192e819 && K(45) == 0xd6990624 && K(46) == 0xf40e3585 && K(47) == 0x106aa070
  {
  }

  lemma Constants48()
    ensures K(48) == 0x19a4c116 && K(49) == 0x1e376c08 && K(50) == 0x2748774c && K(51) == 0x34b0bcb5
    ensures K(52) == 0x391c0cb3 && K(53) == 0x4ed8aa4a && K(54) == 0x5b9cca4f && K(55) == 0x682e6ff3
  {
  }

  lemma Constants56()
    ensures K(56) == 0x748f82ee && K(57) == 0x78a5636f && K(58) == 0x84c87814 && K(59) == 0x8cc70208
    ensures K(60) == 0x90befffa && K(61) == 0xa4506ceb && K(62) == 0xbef9a3f7 && K(63) == 0xc67178f2
  {
  }

  const AFTER_INNER_KEY: Hash :=
    Hash(0x655da7fa, 0xcc434b37, 0x5a1cd5cb, 0x0692ee0e, 0xa47a23d3, 0x4c3af449, 0xdba21ae2, 0x78c7500c)
  const INNER_DIGEST: Hash :=
    Hash(0xa2e48586, 0x3d27f9d8, 0x64ac8d80, 0x2432a1ed, 0x477d8c4c, 0x6f349d16, 0xd4e7e917, 0xc629cad7)
  const AFTER_OUTER_KEY: Hash :=
    Hash(0x0eafe3d5, 0x13412e6c, 0x6a6a2feb, 0x2d375acc, 0x51a4fd47, 0x6db095e8, 0x23bfa18a, 0x52f141d5)
  const RESULT: Hash :=
    Hash(0x5bdcc146, 0xbf60754e, 0x6a042426, 0x089575c7, 0x5a003f08, 0x9d273983, 0x9dec58b9, 0x64ec3843)

  // ---- the key under the inner mask ----

  const InnerKey0: seq<bv32> :=
    [0x7c535053, 0x36363636, 0x36363636, 0x36363636, 0x36363636, 0x36363636, 0x36363636, 0x36363636]
    + [0x36363636, 0x36363636, 0x36363636, 0x36363636, 0x36363636, 0x36363636, 0x36363636, 0x36363636]
  const InnerKey16: seq<bv32> :=
    [0x7780fe00, 0x3163e3e3, 0xb47168a2, 0xe11539f8, 0xecfba47f, 0x8f8ebd79, 0xfa1ec89e, 0x1e0e70f6]
    + [0x0c23673e, 0xc8311559, 0xddee66a1, 0xb28ed337, 0xac9fc9a9, 0xcb4db29d, 0x59369281, 0xe32830f3]
  const InnerKey32: seq<bv32> :=
    [0x136f5555, 0x377ff55a, 0x4aa3e0f1, 0x9d19ff47, 0x926e254f, 0x39c2254f, 0x2731f000, 0x2bd17abc]
    + [0xf96d6a27, 0x6686c278, 0x616aea0c, 0xb308442a, 0x5d1a34ff, 0xca7159c9, 0xd99ebf95, 0xe1a34c15]
  const InnerKey48: seq<bv32> :=
    [0x51dbd4be, 0x7c986d13, 0x71d1a48e, 0x39a42882, 0x53c21066, 0x1d686bfc, 0x7682d688, 0xc08ab048]
    + [0xf41238c8, 0x94e252cd, 0x485d2762, 0xe20b3ab9, 0x8e7ad67d, 0xda8d1cc5, 0xb0eeaf96, 0x8739d375]

  lemma InnerKeyWords16(b: Block)
    requires WordsAt(b, 0, InnerKey0)
    ensures WordsAt(b, 16, InnerKey16)
  {
    hide W;
    Word(b, 16, 0x36363636, 0x36363636, 0x36363636, 0x7c535053, 0x7780fe00);
    Word(b, 17, 0x36363636, 0x36363636, 0x36363636, 0x36363636, 0x3163e3e3);
    Word(b, 18, 0x7780fe00, 0x36363636, 0x36363636, 0x36363636, 0xb47168a2);
    Word(b, 19, 0x3163e3e3, 0x36363636, 0x36363636, 0x36363636, 0xe11539f8);
    Word(b, 20, 0xb47168a2, 0x36363636, 0x36363636, 0x36363636, 0xecfba47f);
    Word(b, 21, 0xe11539f8, 0x36363636, 0x36363636, 0x36363636, 0x8f8ebd79);
    Word(b, 22, 0xecfba47f, 0x36363636, 0x36363636, 0x36363636, 0xfa1ec89e);
    Word(b, 23, 0x8f8ebd79, 0x7780fe00, 0x36363636, 0x36363636, 0x1e0e70f6);
    Word(b, 24, 0xfa1ec89e, 0x3163e3e3, 0x36363636, 0x36363636, 0x0c23673e);
    Word(b, 25, 0x1e0e70f6, 0xb47168a2, 0x36363636, 0x36363636, 0xc8311559);
    Word(b, 26, 0x0c23673e, 0xe11539f8, 0x36363636, 0x36363636, 0xddee66a1);
    Word(b, 27, 0xc8311559, 0xecfba47f, 0x36363636, 0x36363636, 0xb28ed337);
    Word(b, 28, 0xddee66a1, 0x8f8ebd79, 0x36363636, 0x36363636, 0xac9fc9a9);
    Word(b, 29, 0xb28ed337, 0xfa1ec89e, 0x36363636, 0x36363636, 0xcb4db29d);
    Word(b, 30, 0xac9fc9a9, 0x1e0e70f6, 0x36363636, 0x36363636, 0x59369281);
    Word(b, 31, 0xcb4db29d, 0x0c23673e, 0x7780fe00, 0x36363636, 0xe32830f3);
  }

  lemma InnerKeyWords32(b: Block)
    requires WordsAt(b, 16, InnerKey16)
    ensures WordsAt(b, 32, InnerKey32)
  {
    hide W;
    Word(b, 32, 0x59369281, 0xc8311559, 0x3163e3e3, 0x7780fe00, 0x136f5555);
    Word(b, 33, 0xe32830f3, 0xddee66a1, 0xb47168a2, 0x3163e3e3, 0x377ff55a);
    Word(b, 34, 0x136f5555, 0xb28ed337, 0xe11539f8, 0xb47168a2, 0x4aa3e0f1);
    Word(b, 35, 0x377ff55a, 0xac9fc9a9, 0xecfba47f, 0xe11539f8, 0x9d19ff47);
    Word(b, 36, 0x4aa3e0f1, 0xcb4db29d, 0x8f8ebd79, 0xecfba47f, 0x926e254f);
    Word(b, 37, 0x9d19ff47, 0x59369281, 0xfa1ec89e, 0x8f8ebd79, 0x39c2254f);
    Word(b, 38, 0x926e254f, 0xe32830f3, 0x1e0e70f6, 0xfa1ec89e, 0x2731f000);
    Word(b, 39, 0x39c2254f, 0x136f5555, 0x0c23673e, 0x1e0e70f6, 0x2bd17abc);
    Word(b, 40, 0x2731f000, 0x377ff55a, 0xc8311559, 0x0c23673e, 0xf96d6a27);
    Word(b, 41, 0x2bd17abc, 0x4aa3e0f1, 0xddee66a1, 0xc8311559, 0x6686c278);
    Word(b, 42, 0xf96d6a27, 0x9d19ff47, 0xb28ed337, 0xddee66a1, 0x616aea0c);
    Word(b, 43, 0x6686c278, 0x926e254f, 0xac9fc9a9, 0xb28ed337, 0xb308442a);
    Word(b, 44, 0x616aea0c, 0x39c2254f, 0xcb4db29d, 0xac9fc9a9, 0x5d1a34ff);
    Word(b, 45, 0xb308442a, 0x2731f000, 0x59369281, 0xcb4db29d, 0xca7159c9);
    Word(b, 46, 0x5d1a34ff, 0x2bd17abc, 0xe32830f3, 0x59369281, 0xd99ebf95);
    Word(b, 47, 0xca7159c9, 0xf96d6a27, 0x136f5555, 0xe32830f3, 0xe1a34c15);
  }

  lemma InnerKeyWords48(b: Block)
    requires WordsAt(b, 32, InnerKey32)
    ensures WordsAt(b, 48, InnerKey48)
  {
    hide W;
    Word(b, 48, 0xd99ebf95, 0x6686c278, 0x377ff55a, 0x136f5555, 0x51dbd4be);
    Word(b, 49, 0xe1a34c15, 0x616aea0c, 0x4aa3e0f1, 0x377ff55a, 0x7c986d13);
    Word(b, 50, 0x51dbd4be, 0xb308442a, 0x9d19ff47, 0x4aa3e0f1, 0x71d1a48e);
    Word(b, 51, 0x7c986d13, 0x5d1a34ff, 0x926e254f, 0x9d19ff47, 0x39a42882);
    Word(b, 52, 0x71d1a48e, 0xca7159c9, 0x39c2254f, 0x926e254f, 0x53c21066);
    Word(b, 53, 0x39a42882, 0xd99ebf95, 0x2731f000, 0x39c2254f, 0x1d686bfc);
    Word(b, 54, 0x53c21066, 0xe1a34c15, 0x2bd17abc, 0x2731f000, 0x7682d688);
    Word(b, 55, 0x1d686bfc, 0x51dbd4be, 0xf96d6a27, 0x2bd17abc, 0xc08ab048);
    Word(b, 56, 0x7682d688, 0x7c986d13, 0x6686c278, 0xf96d6a27, 0xf41238c8);
    Word(b, 57, 0xc08ab048, 0x71d1a48e, 0x616aea0c, 0x6686c278, 0x94e252cd);
    Word(b, 58, 0xf41238c8, 0x39a42882, 0xb308442a, 0x616aea0c, 0x485d2762);
    Word(b, 59, 0x94e252cd, 0x53c21066, 0x5d1a34ff, 0xb308442a, 0xe20b3ab9);
    Word(b, 60, 0x485d2762, 0x1d686bfc, 0xca7159c9, 0x5d1a34ff, 0x8e7ad67d);
    Word(b, 61, 0xe20b3ab9, 0x7682d688, 0xd99ebf95, 0xca7159c9, 0xda8d1cc5);
    Word(b, 62, 0x8e7ad67d, 0xc08ab048, 0xe1a34c15, 0xd99ebf95, 0xb0eeaf96);
    Word(b, 63, 0xda8d1cc5, 0xf41238c8, 0x51dbd4be, 0xe1a34c15, 0x8739d375);
  }

  lemma InnerKeyRounds0(b: Block)
    requires WordsAt(b, 0, InnerKey0)
    requires Rounds(H0, b, 0) == Hash(0x6a09e667, 0xbb67ae85, 0x3c6ef372, 0xa54ff53a, 0x510e527f, 0x9b05688c, 0x1f83d9ab, 0x5be0cd19)
    ensures Rounds(H0, b, 8) == Hash(0x16fcd1de, 0x58778f6a, 0x34561afc, 0x53632755, 0x1f67d48a, 0xa6e3644b, 0x24389410, 0xd7477e59)
  {
    hide W, Rounds, K;
    Constants0();
    Turn(H0, b, 0, 0x6a09e667, 0xbb67ae85, 0x3c6ef372, 0xa54ff53a, 0x510e527f, 0x9b05688c, 0x1f83d9ab, 0x5be0cd19, 0x428a2f98, 0x7c535053, 0x785bd8a0, 0x151b32f5);
    Turn(H0, b, 1, 0x785bd8a0, 0x6a09e667, 0xbb67ae85, 0x3c6ef372, 0x151b32f5, 0x510e527f, 0x9b05688c, 0x1f83d9ab, 0x71374491, 0x36363636, 0x983307d2, 0xa5de5788);
    Turn(H0, b, 2, 0x983307d2, 0x785bd8a0, 0x6a09e667, 0xbb67ae85, 0xa5de5788, 0x151b32f5, 0x510e527f, 0x9b05688c, 0xb5c0fbcf, 0x36363636, 0xe561c53c, 0xd42662d3);
    Turn(H0, b, 3, 0xe561c53c, 0x983307d2, 0x785bd8a0, 0x6a09e667, 0xd42662d3, 0xa5de5788, 0x151b32f5, 0x510e527f, 0xe9b5dba5, 0x36363636, 0x8c549b2f, 0x663f1212);
    Turn(H0, b, 4, 0x8c549b2f, 0xe561c53c, 0x983307d2, 0x785bd8a0, 0x663f1212, 0xd42662d3, 0xa5de5788, 0x151b32f5, 0x3956c25b, 0x36363636, 0x53632755, 0xd7477e59);
    Turn(H0, b, 5, 0x53632755, 0x8c549b2f, 0xe561c53c, 0x983307d2, 0xd7477e59, 0x663f1212, 0xd42662d3, 0xa5de5788, 0x59f111f1, 0x36363636, 0x34561afc, 0x24389410);
    Turn(H0, b, 6, 0x34561afc, 0x53632755, 0x8c549b2f, 0xe561c53c, 0x24389410, 0xd7477e59, 0x663f1212, 0xd42662d3, 0x923f82a4, 0x36363636, 0x58778f6a, 0xa6e3644b);
    Turn(H0, b, 7, 0x58778f6a, 0x34561afc, 0x53632755, 0x8c549b2f, 0xa6e3644b, 0x24389410, 0xd7477e59, 0x663f1212, 0xab1c5ed5, 0x36363636, 0x16fcd1de, 0x1f67d48a);
  }

  lemma InnerKeyRounds8(b: Block)
    requires WordsAt(b, 0, InnerKey0)
    requires Rounds(H0, b, 8) == Hash(0x16fcd1de, 0x58778f6a, 0x34561afc, 0x53632755, 0x1f67d48a, 0xa6e3644b, 0x24389410, 0xd7477e59)
    ensures Rounds(H0, b, 16) == Hash(0xd8a297b3, 0x32f91b02, 0x0aae579f, 0x07f487ee, 0x40743133, 0x22d64e87, 0x4b6881fa, 0x426da4d5)
  {
    hide W, Rounds, K;
    Constants8();
    Turn(H0, b, 8, 0x16fcd1de, 0x58778f6a, 0x34561afc, 0x53632755, 0x1f67d48a, 0xa6e3644b, 0x24389410, 0xd7477e59, 0xd807aa98, 0x36363636, 0x235471b0, 0x6a38013d);
    Turn(H0, b, 9, 0x235471b0, 0x16fcd1de, 0x58778f6a, 0x34561afc, 0x6a38013d, 0x1f67d48a, 0xa6e3644b, 0x24389410, 0x12835b01, 0x36363636, 0xb0e25b7e, 0xfe30de3e);
    Turn(H0, b, 10, 0xb0e25b7e, 0x235471b0, 0x16fcd1de, 0x58778f6a, 0xfe30de3e, 0x6a38013d, 0x1f67d48a, 0xa6e3644b, 0x243185be, 0x36363636, 0xc29f7823, 0xe981ca81);
    Turn(H0, b, 11, 0xc29f7823, 0xb0e25b7e, 0x235471b0, 0x16fcd1de, 0xe981ca81, 0xfe30de3e, 0x6a38013d, 0x1f67d48a, 0x550c7dc3, 0x36363636, 0x1b918ad1, 0x435e9d84);
    Turn(H0, b, 12, 0x1b918ad1, 0xc29f7823, 0xb0e25b7e, 0x235471b0, 0x435e9d84, 0xe981ca81, 0xfe30de3e, 0x6a38013d, 0x72be5d74, 0x36363636, 0x07f487ee, 0x426da4d5);
    Turn(H0, b, 13, 0x07f487ee, 0x1b918ad1, 0xc29f7823, 0xb0e25b7e, 0x426da4d5, 0x435e9d84, 0xe981ca81, 0xfe30de3e, 0x80deb1fe, 0x36363636, 0x0aae579f, 0x4b6881fa);
    Turn(H0, b, 14, 0x0aae579f, 0x07f487ee, 0x1b918ad1, 0xc29f7823, 0x4b6881fa, 0x426da4d5, 0x435e9d84, 0xe981ca81, 0x9bdc06a7, 0x36363636, 0x32f91b02, 0x22d64e87);
    Turn(H0, b, 15, 0x32f91b02, 0x0aae579f, 0x07f487ee, 0x1b918ad1, 0x22d64e87, 0x4b6881fa, 0x426da4d5, 0x435e9d84, 0xc19bf174, 0x36363636, 0xd8a297b3, 0x40743133);
  }

  lemma InnerKeyRounds16(b: Block)
    requires WordsAt(b, 16, InnerKey16)
    requires Rounds(H0, b, 16) == Hash(0xd8a297b3, 0x32f91b02, 0x0aae579f, 0x07f487ee, 0x40743133, 0x22d64e87, 0x4b6881fa, 0x426da4d5)
    ensures Rounds(H0, b, 24) == Hash(0xad9d4643, 0x17e2b319, 0x062e40f6, 0xc5318371, 0x27cec047, 0x513641df, 0x7e976b52, 0x6414d5ba)
  {
    hide W, Rounds, K;
    Constants16();
    Turn(H0, b, 16, 0xd8a297b3, 0x32f91b02, 0x0aae579f, 0x07f487ee, 0x40743133, 0x22d64e87, 0x4b6881fa, 0x426da4d5, 0xe49b69c1, 0x7780fe00, 0x57ea9c70, 0x834c5d31);
    Turn(H0, b, 17, 0x57ea9c70, 0xd8a297b3, 0x32f91b02, 0x0aae579f, 0x834c5d31, 0x40743133, 0x22d64e87, 0x4b6881fa, 0xefbe4786, 0x3163e3e3, 0x0268f9a1, 0x5e22d8f7);
    Turn(H0, b, 18, 0x0268f9a1, 0x57ea9c70, 0xd8a297b3, 0x32f91b02, 0x5e22d8f7, 0x834c5d31, 0x40743133, 0x22d64e87, 0x0fc19dc6, 0xb47168a2, 0x3dbc498e, 0xef561db9);
    Turn(H0, b, 19, 0x3dbc498e, 0x0268f9a1, 0x57ea9c70, 0xd8a297b3, 0xef561db9, 0x5e22d8f7, 0x834c5d31, 0x40743133, 0x240ca1cc, 0xe11539f8, 0xd9507501, 0x67d16b9d);
    Turn(H0, b, 20, 0xd9507501, 0x3dbc498e, 0x0268f9a1, 0x57ea9c70, 0x67d16b9d, 0xef561db9, 0x5e22d8f7, 0x834c5d31, 0x2de92c6f, 0xecfba47f, 0xc5318371, 0x6414d5ba);
    Turn(H0, b, 21, 0xc5318371, 0xd9507501, 0x3dbc498e, 0x0268f9a1, 0x6414d5ba, 0x67d16b9d, 0xef561db9, 0x5e22d8f7, 0x4a7484aa, 0x8f8ebd79, 0x062e40f6, 0x7e976b52);
    Turn(H0, b, 22, 0x062e40f6, 0xc5318371, 0xd9507501, 0x3dbc498e, 0x7e976b52, 0x6414d5ba, 0x67d16b9d, 0xef561db9, 0x5cb0a9dc, 0xfa1ec89e, 0x17e2b319, 0x513641df);
    Turn(H0, b, 23, 0x17e2b319, 0x062e40f6, 0xc5318371, 0xd9507501, 0x513641df, 0x7e976b52, 0x6414d5ba, 0x67d16b9d, 0x76f988da, 0x1e0e70f6, 0xad9d4643, 0x27cec047);
  }

  lemma InnerKeyRounds24(b: Block)
    requires WordsAt(b, 16, InnerKey16)
    requires Rounds(H0, b, 24) == Hash(0xad9d4643, 0x17e2b319, 0x062e40f6, 0xc5318371, 0x27cec047, 0x513641df, 0x7e976b52, 0x6414d5ba)
    ensures Rounds(H0, b, 32) == Hash(0xeaa1ecb4, 0x078f5fb6, 0xf09b0708, 0xedf2ce47, 0xc6426440, 0x905c490a, 0x67e97303, 0xf09bbf76)
  {
    hide W, Rounds, K;
    Constants24();
    Turn(H0, b, 24, 0xad9d4643, 0x17e2b319, 0x062e40f6, 0xc5318371, 0x27cec047, 0x513641df, 0x7e976b52, 0x6414d5ba, 0x983e5152, 0x0c23673e, 0x08bb510a, 0x19db5e5c);
    Turn(H0, b, 25, 0x08bb510a, 0xad9d4643, 0x17e2b319, 0x062e40f6, 0x19db5e5c, 0x27cec047, 0x513641df, 0x7e976b52, 0xa831c66d, 0xc8311559, 0x7c2a0dc2, 0x8d6241f3);
    Turn(H0, b, 26, 0x7c2a0dc2, 0x08bb510a, 0xad9d4643, 0x17e2b319, 0x8d6241f3, 0x19db5e5c, 0x27cec047, 0x513641df, 0xb00327c8, 0xddee66a1, 0xd2451e37, 0x643e203e);
    Turn(H0, b, 27, 0xd2451e37, 0x7c2a0dc2, 0x08bb510a, 0xad9d4643, 0x643e203e, 0x8d6241f3, 0x19db5e5c, 0x27cec047, 0xbf597fc7, 0xb28ed337, 0x0268fa1b, 0x46841870);
    Turn(H0, b, 28, 0x0268fa1b, 0xd2451e37, 0x7c2a0dc2, 0x08bb510a, 0x46841870, 0x643e203e, 0x8d6241f3, 0x19db5e5c, 0xc6e00bf3, 0xac9fc9a9, 0xedf2ce47, 0xf09bbf76);
    Turn(H0, b, 29, 0xedf2ce47, 0x0268fa1b, 0xd2451e37, 0x7c2a0dc2, 0xf09bbf76, 0x46841870, 0x643e203e, 0x8d6241f3, 0xd5a79147, 0xcb4db29d, 0xf09b0708, 0x67e97303);
    Turn(H0, b, 30, 0xf09b0708, 0xedf2ce47, 0x0268fa1b, 0xd2451e37, 0x67e97303, 0xf09bbf76, 0x46841870, 0x643e203e, 0x06ca6351, 0x59369281, 0x078f5fb6, 0x905c490a);
    Turn(H0, b, 31, 0x078f5fb6, 0xf09b0708, 0xedf2ce47, 0x0268fa1b, 0x905c490a, 0x67e97303, 0xf09bbf76, 0x46841870, 0x14292967, 0xe32830f3, 0xeaa1ecb4, 0xc6426440);
  }

  lemma InnerKeyRounds32(b: Block)
    requires WordsAt(b, 32, InnerKey32)
    requires Rounds(H0, b, 32) == Hash(0xeaa1ecb4, 0x078f5fb6, 0xf09b0708, 0xedf2ce47, 0xc6426440, 0x905c490a, 0x67e97303, 0xf09bbf76)
    ensures Rounds(H0, b, 40) == Hash(0xa79b91d0, 0x3b14694f, 0x67625ada, 0x1d8a1947, 0xfb81d2f6, 0x8b47cae7, 0xa5cf1142, 0x52c2fa60)
  {
    hide W, Rounds, K;
    Constants32();
    Turn(H0, b, 32, 0xeaa1ecb4, 0x078f5fb6, 0xf09b0708, 0xedf2ce47, 0xc6426440, 0x905c490a, 0x67e97303, 0xf09bbf76, 0x27b70a85, 0x136f5555, 0x3328a14d, 0x65d22258);
    Turn(H0, b, 33, 0x3328a14d, 0xeaa1ecb4, 0x078f5fb6, 0xf09b0708, 0x65d22258, 0xc6426440, 0x905c490a, 0x67e97303, 0x2e1b2138, 0x377ff55a, 0x6d2e4564, 0x55f8d8de);
    Turn(H0, b, 34, 0x6d2e4564, 0x3328a14d, 0xeaa1ecb4, 0x078f5fb6, 0x55f8d8de, 0x65d22258, 0xc6426440, 0x905c490a, 0x4d2c6dfc, 0x4aa3e0f1, 0x83963ea4, 0x967f4f57);
    Turn(H0, b, 35, 0x83963ea4, 0x6d2e4564, 0x3328a14d, 0xeaa1ecb4, 0x967f4f57, 0x55f8d8de, 0x65d22258, 0xc6426440, 0x53380d13, 0x9d19ff47, 0x68029891, 0xa23b5ecb);
    Turn(H0, b, 36, 0x68029891, 0x83963ea4, 0x6d2e4564, 0x3328a14d, 0xa23b5ecb, 0x967f4f57, 0x55f8d8de, 0x65d22258, 0x650a7354, 0x926e254f, 0x1d8a1947, 0x52c2fa60);
    Turn(H0, b, 37, 0x1d8a1947, 0x68029891, 0x83963ea4, 0x6d2e4564, 0x52c2fa60, 0xa23b5ecb, 0x967f4f57, 0x55f8d8de, 0x766a0abb, 0x39c2254f, 0x67625ada, 0xa5cf1142);
    Turn(H0, b, 38, 0x67625ada, 0x1d8a1947, 0x68029891, 0x83963ea4, 0xa5cf1142, 0x52c2fa60, 0xa23b5ecb, 0x967f4f57, 0x81c2c92e, 0x2731f000, 0x3b14694f, 0x8b47cae7);
    Turn(H0, b, 39, 0x3b14694f, 0x67625ada, 0x1d8a1947, 0x68029891, 0x8b47cae7, 0xa5cf1142, 0x52c2fa60, 0xa23b5ecb, 0x92722c85, 0x2bd17abc, 0xa79b91d0, 0xfb81d2f6);
  }

  lemma InnerKeyRounds40(b: Block)
    requires WordsAt(b, 32, InnerKey32)
    requires Rounds(H0, b, 40) == Hash(0xa79b91d0, 0x3b14694f, 0x67625ada, 0x1d8a1947, 0xfb81d2f6, 0x8b47cae7, 0xa5cf1142, 0x52c2fa60)
    ensures Rounds(H0, b, 48) == Hash(0x750ed7b4, 0x6531bcdc, 0xb803f3e1, 0x5cd1d6ed, 0xe2cdce6a, 0xa1815b66, 0xa7e30631, 0x13126373)
  {
    hide W, Rounds, K;
    Constants40();
    Turn(H0, b, 40, 0xa79b91d0, 0x3b14694f, 0x67625ada, 0x1d8a1947, 0xfb81d2f6, 0x8b47cae7, 0xa5cf1142, 0x52c2fa60, 0xa2bfe8a1, 0xf96d6a27, 0xb44f112a, 0xe1a23661);
    Turn(H0, b, 41, 0xb44f112a, 0xa79b91d0, 0x3b14694f, 0x67625ada, 0xe1a23661, 0xfb81d2f6, 0x8b47cae7, 0xa5cf1142, 0xa81a664b, 0x6686c278, 0x09f97f87, 0xa239fc34);
    Turn(H0, b, 42, 0x09f97f87, 0xb44f112a, 0xa79b91d0, 0x3b14694f, 0xa239fc34, 0xe1a23661, 0xfb81d2f6, 0x8b47cae7, 0xc24b8b70, 0x616aea0c, 0x73144f72, 0x2c959b32);
    Turn(H0, b, 43, 0x73144f72, 0x09f97f87, 0xb44f112a, 0xa79b91d0, 0x2c959b32, 0xa239fc34, 0xe1a23661, 0xfb81d2f6, 0xc76c51a3, 0xb308442a, 0x232d24d1, 0xe30014cd);
    Turn(H0, b, 44, 0x232d24d1, 0x73144f72, 0x09f97f87, 0xb44f112a, 0xe30014cd, 0x2c959b32, 0xa239fc34, 0xe1a23661, 0xd192e819, 0x5d1a34ff, 0x5cd1d6ed, 0x13126373);
    Turn(H0, b, 45, 0x5cd1d6ed, 0x232d24d1, 0x73144f72, 0x09f97f87, 0x13126373, 0xe30014cd, 0x2c959b32, 0xa239fc34, 0xd6990624, 0xca7159c9, 0xb803f3e1, 0xa7e30631);
    Turn(H0, b, 46, 0xb803f3e1, 0x5cd1d6ed, 0x232d24d1, 0x73144f72, 0xa7e30631, 0x13126373, 0xe30014cd, 0x2c959b32, 0xf40e3585, 0xd99ebf95, 0x6531bcdc, 0xa1815b66);
    Turn(H0, b, 47, 0x6531bcdc, 0xb803f3e1, 0x5cd1d6ed, 0x232d24d1, 0xa1815b66, 0xa7e30631, 0x13126373, 0xe30014cd, 0x106aa070, 0xe1a34c15, 0x750ed7b4, 0xe2cdce6a);
  }

  lemma InnerKeyRounds48(b: Block)
    requires WordsAt(b, 48, InnerKey48)
    requires Rounds(H0, b, 48) == Hash(0x750ed7b4, 0x6531bcdc, 0xb803f3e1, 0x5cd1d6ed, 0xe2cdce6a, 0xa1815b66, 0xa7e30631, 0x13126373)
    ensures Rounds(H0, b, 56) == Hash(0xc5a25619, 0x80be9491, 0x3ac20327, 0xfc2f1aae, 0x4677efca, 0xc5fadb1d, 0x25c84e04, 0xa2ecbc67)
  {
    hide W, Rounds, K;
    Constants48();
    Turn(H0, b, 48, 0x750ed7b4, 0x6531bcdc, 0xb803f3e1, 0x5cd1d6ed, 0xe2cdce6a, 0xa1815b66, 0xa7e30631, 0x13126373, 0x19a4c116, 0x51dbd4be, 0x352963ee, 0x81387698);
    Turn(H0, b, 49, 0x352963ee, 0x750ed7b4, 0x6531bcdc, 0xb803f3e1, 0x81387698, 0xe2cdce6a, 0xa1815b66, 0xa7e30631, 0x1e376c08, 0x7c986d13, 0xbd49faae, 0xc86fad2f);
    Turn(H0, b, 50, 0xbd49faae, 0x352963ee, 0x750ed7b4, 0x6531bcdc, 0xc86fad2f, 0x81387698, 0xe2cdce6a, 0xa1815b66, 0x2748774c, 0x71d1a48e, 0x9d2923ec, 0x6f83bf09);
    Turn(H0, b, 51, 0x9d2923ec, 0xbd49faae, 0x352963ee, 0x750ed7b4, 0x6f83bf09, 0xc86fad2f, 0x81387698, 0xe2cdce6a, 0x34b0bcb5, 0x39a42882, 0x7875932a, 0x93b9f32a);
    Turn(H0, b, 52, 0x7875932a, 0x9d2923ec, 0xbd49faae, 0x352963ee, 0x93b9f32a, 0x6f83bf09, 0xc86fad2f, 0x81387698, 0x391c0cb3, 0x53c21066, 0xfc2f1aae, 0xa2ecbc67);
    Turn(H0, b, 53, 0xfc2f1aae, 0x7875932a, 0x9d2923ec, 0xbd49faae, 0xa2ecbc67, 0x93b9f32a, 0x6f83bf09, 0xc86fad2f, 0x4ed8aa4a, 0x1d686bfc, 0x3ac20327, 0x25c84e04);
    Turn(H0, b, 54, 0x3ac20327, 0xfc2f1aae, 0x7875932a, 0x9d2923ec, 0x25c84e04, 0xa2ecbc67, 0x93b9f32a, 0x6f83bf09, 0x5b9cca4f, 0x7682d688, 0x80be9491, 0xc5fadb1d);
    Turn(H0, b, 55, 0x80be9491, 0x3ac20327, 0xfc2f1aae, 0x7875932a, 0xc5fadb1d, 0x25c84e04, 0xa2ecbc67, 0x93b9f32a, 0x682e6ff3, 0xc08ab048, 0xc5a25619, 0x4677efca);
  }

  lemma InnerKeyRounds56(b: Block)
    requires WordsAt(b, 48, InnerKey48)
    requires Rounds(H0, b, 56) == Hash(0xc5a25619, 0x80be9491, 0x3ac20327, 0xfc2f1aae, 0x4677efca, 0xc5fadb1d, 0x25c84e04, 0xa2ecbc67)
    ensures Rounds(H0, b, 64) == Hash(0xfb53c193, 0x10db9cb2, 0x1dade259, 0x6142f8d4, 0x536bd154, 0xb1358bbd, 0xbc1e4137, 0x1ce682f3)
  {
    hide W, Rounds, K;
    Constants56();
    Turn(H0, b, 56, 0xc5a25619, 0x80be9491, 0x3ac20327, 0xfc2f1aae, 0x4677efca, 0xc5fadb1d, 0x25c84e04, 0xa2ecbc67, 0x748f82ee, 0xf41238c8, 0x26d12d1d, 0x595f5238);
    Turn(H0, b, 57, 0x26d12d1d, 0xc5a25619, 0x80be9491, 0x3ac20327, 0x595f5238, 0x4677efca, 0xc5fadb1d, 0x25c84e04, 0x78a5636f, 0x94e252cd, 0xecaa3749, 0x3cd11d02);
    Turn(H0, b, 58, 0xecaa3749, 0x26d12d1d, 0xc5a25619, 0x80be9491, 0x3cd11d02, 0x595f5238, 0x4677efca, 0xc5fadb1d, 0x84c87814, 0x485d2762, 0xfc2dd2ee, 0x2e916135);
    Turn(H0, b, 59, 0xfc2dd2ee, 0xecaa3749, 0x26d12d1d, 0xc5a25619, 0x2e916135, 0x3cd11d02, 0x595f5238, 0x4677efca, 0x8cc70208, 0xe20b3ab9, 0x79b8b244, 0xb37aa2eb);
    Turn(H0, b, 60, 0x79b8b244, 0xfc2dd2ee, 0xecaa3749, 0x26d12d1d, 0xb37aa2eb, 0x2e916135, 0x3cd11d02, 0x595f5238, 0x90befffa, 0x8e7ad67d, 0x6142f8d4, 0x1ce682f3);
    Turn(H0, b, 61, 0x6142f8d4, 0x79b8b244, 0xfc2dd2ee, 0xecaa3749, 0x1ce682f3, 0xb37aa2eb, 0x2e916135, 0x3cd11d02, 0xa4506ceb, 0xda8d1cc5, 0x1dade259, 0xbc1e4137);
    Turn(H0, b, 62, 0x1dade259, 0x6142f8d4, 0x79b8b244, 0xfc2dd2ee, 0xbc1e4137, 0x1ce682f3, 0xb37aa2eb, 0x2e916135, 0xbef9a3f7, 0xb0eeaf96, 0x10db9cb2, 0xb1358bbd);
    Turn(H0, b, 63, 0x10db9cb2, 0x1dade259, 0x6142f8d4, 0x79b8b244, 0xb1358bbd, 0xbc1e4137, 0x1ce682f3, 0xb37aa2eb, 0xc67178f2, 0x8739d375, 0xfb53c193, 0x536bd154);
  }

  lemma InnerKeyBlock(b: Block)
    requires WordsAt(b, 0, InnerKey0)
    ensures Compress(H0, b) == AFTER_INNER_KEY
  {
    hide W, Rounds, Round, WordsAt;
    NoRounds(H0, b);
    InnerKeyWords16(b);
    InnerKeyWords32(b);
    InnerKeyWords48(b);
    InnerKeyRounds0(b);
    InnerKeyRounds8(b);
    InnerKeyRounds16(b);
    InnerKeyRounds24(b);
    InnerKeyRounds32(b);
    InnerKeyRounds40(b);
    InnerKeyRounds48(b);
    InnerKeyRounds56(b);
  }

  // ---- the padded text ----

  const Text0: seq<bv32> :=
    [0x77686174, 0x20646f20, 0x79612077, 0x616e7420, 0x666f7220, 0x6e6f7468, 0x696e673f, 0x80000000]
    + [0x00000000, 0x00000000, 0x00000000, 0x00000000, 0x00000000, 0x00000000, 0x00000000, 0x000002e0]
  const Text16: seq<bv32> :=
    [0xd6ecae97, 0xcb53a736, 0x0df4d52e, 0x99470585, 0x56ac588f, 0xbaf46d24, 0x21b274b4, 0x120525d6]
    + [0x40189fa8, 0x444a1f39, 0xf57833ad, 0xa316f0ba, 0xda928743, 0xc8153509, 0xe63c58e9, 0x9b063401]
  const Text32: seq<bv32> :=
    [0x5fb8701b, 0x06610ac3, 0xc09ff909, 0x1a6d0e91, 0x67b9d8fd, 0xb9251d58, 0x7b42c482, 0x1e4fcbae]
    + [0x7f18d3ae, 0x6b3e02aa, 0x60acd3cc, 0x09230471, 0xcf103ae0, 0xff3e7122, 0xbc028b24, 0x31f8a0a0]
  const Text48: seq<bv32> :=
    [0xa4405ebd, 0xa126f06e, 0x5140b18d, 0x0f9727bc, 0x96dc649b, 0xa7105035, 0x1955553f, 0x4cbc81fd]
    + [0xf9992590, 0x2d78b115, 0x48b2660c, 0xc566eb38, 0xbc4719f4, 0xbd8f6578, 0xe71fceb9, 0x023dd359]

  lemma TextWords16(b: Block)
    requires WordsAt(b, 0, Text0)
    ensures WordsAt(b, 16, Text16)
  {
    hide W;
    Word(b, 16, 0x00000000, 0x00000000, 0x20646f20, 0x77686174, 0xd6ecae97);
    Word(b, 17, 0x000002e0, 0x00000000, 0x79612077, 0x20646f20, 0xcb53a736);
    Word(b, 18, 0xd6ecae97, 0x00000000, 0x616e7420, 0x79612077, 0x0df4d52e);
    Word(b, 19, 0xcb53a736, 0x00000000, 0x666f7220, 0x616e7420, 0x99470585);
    Word(b, 20, 0x0df4d52e, 0x00000000, 0x6e6f7468, 0x666f7220, 0x56ac588f);
    Word(b, 21, 0x99470585, 0x00000000, 0x696e673f, 0x6e6f7468, 0xbaf46d24);
    Word(b, 22, 0x56ac588f, 0x000002e0, 0x80000000, 0x696e673f, 0x21b274b4);
    Word(b, 23, 0xbaf46d24, 0xd6ecae97, 0x00000000, 0x80000000, 0x120525d6);
    Word(b, 24, 0x21b274b4, 0xcb53a736, 0x00000000, 0x00000000, 0x40189fa8);
    Word(b, 25, 0x120525d6, 0x0df4d52e, 0x00000000, 0x00000000, 0x444a1f39);
    Word(b, 26, 0x40189fa8, 0x99470585, 0x00000000, 0x00000000, 0xf57833ad);
    Word(b, 27, 0x444a1f39, 0x56ac588f, 0x00000000, 0x00000000, 0xa316f0ba);
    Word(b, 28, 0xf57833ad, 0xbaf46d24, 0x00000000, 0x00000000, 0xda928743);
    Word(b, 29, 0xa316f0ba, 0x21b274b4, 0x00000000, 0x00000000, 0xc8153509);
    Word(b, 30, 0xda928743, 0x120525d6, 0x000002e0, 0x00000000, 0xe63c58e9);
    Word(b, 31, 0xc8153509, 0x40189fa8, 0xd6ecae97, 0x000002e0, 0x9b063401);
  }

  lemma TextWords32(b: Block)
    requires WordsAt(b, 16, Text16)
    ensures WordsAt(b, 32, Text32)
  {
    hide W;
    Word(b, 32, 0xe63c58e9, 0x444a1f39, 0xcb53a736, 0xd6ecae97, 0x5fb8701b);
    Word(b, 33, 0x9b063401, 0xf57833ad, 0x0df4d52e, 0xcb53a736, 0x06610ac3);
    Word(b, 34, 0x5fb8701b, 0xa316f0ba, 0x99470585, 0x0df4d52e, 0xc09ff909);
    Word(b, 35, 0x06610ac3, 0xda928743, 0x56ac588f, 0x99470585, 0x1a6d0e91);
    Word(b, 36, 0xc09ff909, 0xc8153509, 0xbaf46d24, 0x56ac588f, 0x67b9d8fd);
    Word(b, 37, 0x1a6d0e91, 0xe63c58e9, 0x21b274b4, 0xbaf46d24, 0xb9251d58);
    Word(b, 38, 0x67b9d8fd, 0x9b063401, 0x120525d6, 0x21b274b4, 0x7b42c482);
    Word(b, 39, 0xb9251d58, 0x5fb8701b, 0x40189fa8, 0x120525d6, 0x1e4fcbae);
    Word(b, 40, 0x7b42c482, 0x06610ac3, 0x444a1f39, 0x40189fa8, 0x7f18d3ae);
    Word(b, 41, 0x1e4fcbae, 0xc09ff909, 0xf57833ad, 0x444a1f39, 0x6b3e02aa);
    Word(b, 42, 0x7f18d3ae, 0x1a6d0e91, 0xa316f0ba, 0xf57833ad, 0x60acd3cc);
    Word(b, 43, 0x6b3e02aa, 0x67b9d8fd, 0xda928743, 0xa316f0ba, 0x09230471);
    Word(b, 44, 0x60acd3cc, 0xb9251d58, 0xc8153509, 0xda928743, 0xcf103ae0);
    Word(b, 45, 0x09230471, 0x7b42c482, 0xe63c58e9, 0xc8153509, 0xff3e7122);
    Word(b, 46, 0xcf103ae0, 0x1e4fcbae, 0x9b063401, 0xe63c58e9, 0xbc028b24);
    Word(b, 47, 0xff3e7122, 0x7f18d3ae, 0x5fb8701b, 0x9b063401, 0x31f8a0a0);
  }

  lemma TextWords48(b: Block)
    requires WordsAt(b, 32, Text32)
    ensures WordsAt(b, 48, Text48)
  {
    hide W;
    Word(b, 48, 0xbc028b24, 0x6b3e02aa, 0x06610ac3, 0x5fb8701b, 0xa4405ebd);
    Word(b, 49, 0x31f8a0a0, 0x60acd3cc, 0xc09ff909, 0x06610ac3, 0xa126f06e);
    Word(b, 50, 0xa4405ebd, 0x09230471, 0x1a6d0e91, 0xc09ff909, 0x5140b18d);
    Word(b, 51, 0xa126f06e, 0xcf103ae0, 0x67b9d8fd, 0x1a6d0e91, 0x0f9727bc);
    Word(b, 52, 0x5140b18d, 0xff3e7122, 0xb9251d58, 0x67b9d8fd, 0x96dc649b);
    Word(b, 53, 0x0f9727bc, 0xbc028b24, 0x7b42c482, 0xb9251d58, 0xa7105035);
    Word(b, 54, 0x96dc649b, 0x31f8a0a0, 0x1e4fcbae, 0x7b42c482, 0x1955553f);
    Word(b, 55, 0xa7105035, 0xa4405ebd, 0x7f18d3ae, 0x1e4fcbae, 0x4cbc81fd);
    Word(b, 56, 0x1955553f, 0xa126f06e, 0x6b3e02aa, 0x7f18d3ae, 0xf9992590);
    Word(b, 57, 0x4cbc81fd, 0x5140b18d, 0x60acd3cc, 0x6b3e02aa, 0x2d78b115);
    Word(b, 58, 0xf9992590, 0x0f9727bc, 0x09230471, 0x60acd3cc, 0x48b2660c);
    Word(b, 59, 0x2d78b115, 0x96dc649b, 0xcf103ae0, 0x09230471, 0xc566eb38);
    Word(b, 60, 0x48b2660c, 0xa7105035, 0xff3e7122, 0xcf103ae0, 0xbc4719f4);
    Word(b, 61, 0xc566eb38, 0x1955553f, 0xbc028b24, 0xff3e7122, 0xbd8f6578);
    Word(b, 62, 0xbc4719f4, 0x4cbc81fd, 0x31f8a0a0, 0xbc028b24, 0xe71fceb9);
    Word(b, 63, 0xbd8f6578, 0xf9992590, 0xa4405ebd, 0x31f8a0a0, 0x023dd359);
  }

  lemma TextRounds0(b: Block)
    requires WordsAt(b, 0, Text0)
    requires Rounds(AFTER_INNER_KEY, b, 0) == Hash(0x655da7fa, 0xcc434b37, 0x5a1cd5cb, 0x0692ee0e, 0xa47a23d3, 0x4c3af449, 0xdba21ae2, 0x78c7500c)
    ensures Rounds(AFTER_INNER_KEY, b, 8) == Hash(0x54c22a6c, 0xd609bdc3, 0x567dcdf7, 0xf5d4dabb, 0x648372d6, 0x740ccf53, 0xbf0823c8, 0x36f39d1a)
  {
    hide W, Rounds, K;
    Constants0();
    Turn(AFTER_INNER_KEY, b, 0, 0x655da7fa, 0xcc434b37, 0x5a1cd5cb, 0x0692ee0e, 0xa47a23d3, 0x4c3af449, 0xdba21ae2, 0x78c7500c, 0x428a2f98, 0x77686174, 0xb8e21a13, 0xa2fb95a0);
    Turn(AFTER_INNER_KEY, b, 1, 0xb8e21a13, 0x655da7fa, 0xcc434b37, 0x5a1cd5cb, 0xa2fb95a0, 0xa47a23d3, 0x4c3af449, 0xdba21ae2, 0x71374491, 0x20646f20, 0x481dac7b, 0xff2a679c);
    Turn(AFTER_INNER_KEY, b, 2, 0x481dac7b, 0xb8e21a13, 0x655da7fa, 0xcc434b37, 0xff2a679c, 0xa2fb95a0, 0xa47a23d3, 0x4c3af449, 0xb5c0fbcf, 0x79612077, 0x62f20e4d, 0xff6ae436);
    Turn(AFTER_INNER_KEY, b, 3, 0x62f20e4d, 0x481dac7b, 0xb8e21a13, 0x655da7fa, 0xff6ae436, 0xff2a679c, 0xa2fb95a0, 0xa47a23d3, 0xe9b5dba5, 0x616e7420, 0x238af6c2, 0x3d07eed9);
    Turn(AFTER_INNER_KEY, b, 4, 0x238af6c2, 0x62f20e4d, 0x481dac7b, 0xb8e21a13, 0x3d07eed9, 0xff6ae436, 0xff2a679c, 0xa2fb95a0, 0x3956c25b, 0x666f7220, 0xf5d4dabb, 0x36f39d1a);
    Turn(AFTER_INNER_KEY, b, 5, 0xf5d4dabb, 0x238af6c2, 0x62f20e4d, 0x481dac7b, 0x36f39d1a, 0x3d07eed9, 0xff6ae436, 0xff2a679c, 0x59f111f1, 0x6e6f7468, 0x567dcdf7, 0xbf0823c8);
    Turn(AFTER_INNER_KEY, b, 6, 0x567dcdf7, 0xf5d4dabb, 0x238af6c2, 0x62f20e4d, 0xbf0823c8, 0x36f39d1a, 0x3d07eed9, 0xff6ae436, 0x923f82a4, 0x696e673f, 0xd609bdc3, 0x740ccf53);
    Turn(AFTER_INNER_KEY, b, 7, 0xd609bdc3, 0x567dcdf7, 0xf5d4dabb, 0x238af6c2, 0x740ccf53, 0xbf0823c8, 0x36f39d1a, 0x3d07eed9, 0xab1c5ed5, 0x80000000, 0x54c22a6c, 0x648372d6);
  }

  lemma TextRounds8(b: Block)
    requires WordsAt(b, 0, Text0)
    requires Rounds(AFTER_INNER_KEY, b, 8) == Hash(0x54c22a6c, 0xd609bdc3, 0x567dcdf7, 0xf5d4dabb, 0x648372d6, 0x740ccf53, 0xbf0823c8, 0x36f39d1a)
    ensures Rounds(AFTER_INNER_KEY, b, 16) == Hash(0xbf4e7f46, 0xd0e32bb8, 0xf5842695, 0x09eca57c, 0xda0d8141, 0x0000f140, 0x053ab6db, 0xb6e243b9)
  {
    hide W, Rounds, K;
    Constants8();
    Turn(AFTER_INNER_KEY, b, 8, 0x54c22a6c, 0xd609bdc3, 0x567dcdf7, 0xf5d4dabb, 0x648372d6, 0x740ccf53, 0xbf0823c8, 0x36f39d1a, 0xd807aa98, 0x00000000, 0xf630cd63, 0x46c05c5e);
    Turn(AFTER_INNER_KEY, b, 9, 0xf630cd63, 0x54c22a6c, 0xd609bdc3, 0x567dcdf7, 0x46c05c5e, 0x648372d6, 0x740ccf53, 0xbf0823c8, 0x12835b01, 0x00000000, 0x04bd02e2, 0x2f941670);
    Turn(AFTER_INNER_KEY, b, 10, 0x04bd02e2, 0xf630cd63, 0x54c22a6c, 0xd609bdc3, 0x2f941670, 0x46c05c5e, 0x648372d6, 0x740ccf53, 0x243185be, 0x00000000, 0x5a575c57, 0x797c2276);
    Turn(AFTER_INNER_KEY, b, 11, 0x5a575c57, 0x04bd02e2, 0xf630cd63, 0x54c22a6c, 0x797c2276, 0x2f941670, 0x46c05c5e, 0x648372d6, 0x550c7dc3, 0x00000000, 0xd1f3d86b, 0x67225dae);
    Turn(AFTER_INNER_KEY, b, 12, 0xd1f3d86b, 0x5a575c57, 0x04bd02e2, 0xf630cd63, 0x67225dae, 0x797c2276, 0x2f941670, 0x46c05c5e, 0x72be5d74, 0x00000000, 0x09eca57c, 0xb6e243b9);
    Turn(AFTER_INNER_KEY, b, 13, 0x09eca57c, 0xd1f3d86b, 0x5a575c57, 0x04bd02e2, 0xb6e243b9, 0x67225dae, 0x797c2276, 0x2f941670, 0x80deb1fe, 0x00000000, 0xf5842695, 0x053ab6db);
    Turn(AFTER_INNER_KEY, b, 14, 0xf5842695, 0x09eca57c, 0xd1f3d86b, 0x5a575c57, 0x053ab6db, 0xb6e243b9, 0x67225dae, 0x797c2276, 0x9bdc06a7, 0x00000000, 0xd0e32bb8, 0x0000f140);
    Turn(AFTER_INNER_KEY, b, 15, 0xd0e32bb8, 0xf5842695, 0x09eca57c, 0xd1f3d86b, 0x0000f140, 0x053ab6db, 0xb6e243b9, 0x67225dae, 0xc19bf174, 0x000002e0, 0xbf4e7f46, 0xda0d8141);
  }

  lemma TextRounds16(b: Block)
    requires WordsAt(b, 16, Text16)
    requires Rounds(AFTER_INNER_KEY, b, 16) == Hash(0xbf4e7f46, 0xd0e32bb8, 0xf5842695, 0x09eca57c, 0xda0d8141, 0x0000f140, 0x053ab6db, 0xb6e243b9)
    ensures Rounds(AFTER_INNER_KEY, b, 24) == Hash(0x5b9a284d, 0x79a0a5a9, 0xf06fcc32, 0xbf0b0bf2, 0x2f41410b, 0x47aee404, 0xb5b58232, 0x835ed8a5)
  {
    hide W, Rounds, K;
    Constants16();
    Turn(AFTER_INNER_KEY, b, 16, 0xbf4e7f46, 0xd0e32bb8, 0xf5842695, 0x09eca57c, 0xda0d8141, 0x0000f140, 0x053ab6db, 0xb6e243b9, 0xe49b69c1, 0xd6ecae97, 0x03129a36, 0xab1d90bf);
    Turn(AFTER_INNER_KEY, b, 17, 0x03129a36, 0xbf4e7f46, 0xd0e32bb8, 0xf5842695, 0xab1d90bf, 0xda0d8141, 0x0000f140, 0x053ab6db, 0xefbe4786, 0xcb53a736, 0x604a7248, 0xa76ff792);
    Turn(AFTER_INNER_KEY, b, 18, 0x604a7248, 0x03129a36, 0xbf4e7f46, 0xd0e32bb8, 0xa76ff792, 0xab1d90bf, 0xda0d8141, 0x0000f140, 0x0fc19dc6, 0x0df4d52e, 0xeedaca00, 0xf8dabc32);
    Turn(AFTER_INNER_KEY, b, 19, 0xeedaca00, 0x604a7248, 0x03129a36, 0xbf4e7f46, 0xf8dabc32, 0xa76ff792, 0xab1d90bf, 0xda0d8141, 0x240ca1cc, 0x99470585, 0xbe87e7f9, 0x1ae1c552);
    Turn(AFTER_INNER_KEY, b, 20, 0xbe87e7f9, 0xeedaca00, 0x604a7248, 0x03129a36, 0x1ae1c552, 0xf8dabc32, 0xa76ff792, 0xab1d90bf, 0x2de92c6f, 0x56ac588f, 0xbf0b0bf2, 0x835ed8a5);
    Turn(AFTER_INNER_KEY, b, 21, 0xbf0b0bf2, 0xbe87e7f9, 0xeedaca00, 0x604a7248, 0x835ed8a5, 0x1ae1c552, 0xf8dabc32, 0xa76ff792, 0x4a7484aa, 0xbaf46d24, 0xf06fcc32, 0xb5b58232);
    Turn(AFTER_INNER_KEY, b, 22, 0xf06fcc32, 0xbf0b0bf2, 0xbe87e7f9, 0xeedaca00, 0xb5b58232, 0x835ed8a5, 0x1ae1c552, 0xf8dabc32, 0x5cb0a9dc, 0x21b274b4, 0x79a0a5a9, 0x47aee404);
    Turn(AFTER_INNER_KEY, b, 23, 0x79a0a5a9, 0xf06fcc32, 0xbf0b0bf2, 0xbe87e7f9, 0x47aee404, 0xb5b58232, 0x835ed8a5, 0x1ae1c552, 0x76f988da, 0x120525d6, 0x5b9a284d, 0x2f41410b);
  }

  lemma TextRounds24(b: Block)
    requires WordsAt(b, 16, Text16)
    requires Rounds(AFTER_INNER_KEY, b, 24) == Hash(0x5b9a284d, 0x79a0a5a9, 0xf06fcc32, 0xbf0b0bf2, 0x2f41410b, 0x47aee404, 0xb5b58232, 0x835ed8a5)
    ensures Rounds(AFTER_INNER_KEY, b, 32) == Hash(0x3eebaf95, 0xa80d8d52, 0x578885a2, 0xfd6b63f2, 0x76edd9cf, 0x71d96c70, 0x9f3a120e, 0xb908e6ba)
  {
    hide W, Rounds, K;
    Constants24();
    Turn(AFTER_INNER_KEY, b, 24, 0x5b9a284d, 0x79a0a5a9, 0xf06fcc32, 0xbf0b0bf2, 0x2f41410b, 0x47aee404, 0xb5b58232, 0x835ed8a5, 0x983e5152, 0x40189fa8, 0x96bb045f, 0x5fee007c);
    Turn(AFTER_INNER_KEY, b, 25, 0x96bb045f, 0x5b9a284d, 0x79a0a5a9, 0xf06fcc32, 0x5fee007c, 0x2f41410b, 0x47aee404, 0xb5b58232, 0xa831c66d, 0x444a1f39, 0x4263f6b0, 0xabd69400);
    Turn(AFTER_INNER_KEY, b, 26, 0x4263f6b0, 0x96bb045f, 0x5b9a284d, 0x79a0a5a9, 0xabd69400, 0x5fee007c, 0x2f41410b, 0x47aee404, 0xb00327c8, 0xf57833ad, 0xe45cf572, 0xe0824704);
    Turn(AFTER_INNER_KEY, b, 27, 0xe45cf572, 0x4263f6b0, 0x96bb045f, 0x5b9a284d, 0xe0824704, 0xabd69400, 0x5fee007c, 0x2f41410b, 0xbf597fc7, 0xa316f0ba, 0x2baf19c4, 0x5f777975);
    Turn(AFTER_INNER_KEY, b, 28, 0x2baf19c4, 0xe45cf572, 0x4263f6b0, 0x96bb045f, 0x5f777975, 0xe0824704, 0xabd69400, 0x5fee007c, 0xc6e00bf3, 0xda928743, 0xfd6b63f2, 0xb908e6ba);
    Turn(AFTER_INNER_KEY, b, 29, 0xfd6b63f2, 0x2baf19c4, 0xe45cf572, 0x4263f6b0, 0xb908e6ba, 0x5f777975, 0xe0824704, 0xabd69400, 0xd5a79147, 0xc8153509, 0x578885a2, 0x9f3a120e);
    Turn(AFTER_INNER_KEY, b, 30, 0x578885a2, 0xfd6b63f2, 0x2baf19c4, 0xe45cf572, 0x9f3a120e, 0xb908e6ba, 0x5f777975, 0xe0824704, 0x06ca6351, 0xe63c58e9, 0xa80d8d52, 0x71d96c70);
    Turn(AFTER_INNER_KEY, b, 31, 0xa80d8d52, 0x578885a2, 0xfd6b63f2, 0x2baf19c4, 0x71d96c70, 0x9f3a120e, 0xb908e6ba, 0x5f777975, 0x14292967, 0x9b063401, 0x3eebaf95, 0x76edd9cf);
  }

  lemma TextRounds32(b: Block)
    requires WordsAt(b, 32, Text32)
    requires Rounds(AFTER_INNER_KEY, b, 32) == Hash(0x3eebaf95, 0xa80d8d52, 0x578885a2, 0xfd6b63f2, 0x76edd9cf, 0x71d96c70, 0x9f3a120e, 0xb908e6ba)
    ensures Rounds(AFTER_INNER_KEY, b, 40) == Hash(0x64336633, 0xc43e9334, 0x89b963f0, 0x44a5d2ff, 0x01eb08e5, 0x66ab4215, 0x04e91075, 0xdc9571de)
  {
    hide W, Rounds, K;
    Constants32();
    Turn(AFTER_INNER_KEY, b, 32, 0x3eebaf95, 0xa80d8d52, 0x578885a2, 0xfd6b63f2, 0x76edd9cf, 0x71d96c70, 0x9f3a120e, 0xb908e6ba, 0x27b70a85, 0x5fb8701b, 0x89640ed6, 0xaa989cf3);
    Turn(AFTER_INNER_KEY, b, 33, 0x89640ed6, 0x3eebaf95, 0xa80d8d52, 0x578885a2, 0xaa989cf3, 0x76edd9cf, 0x71d96c70, 0x9f3a120e, 0x2e1b2138, 0x06610ac3, 0x51552207, 0xbb9a0523);
    Turn(AFTER_INNER_KEY, b, 34, 0x51552207, 0x89640ed6, 0x3eebaf95, 0xa80d8d52, 0xbb9a0523, 0xaa989cf3, 0x76edd9cf, 0x71d96c70, 0x4d2c6dfc, 0xc09ff909, 0x008c48f1, 0xfe4cc83f);
    Turn(AFTER_INNER_KEY, b, 35, 0x008c48f1, 0x51552207, 0x89640ed6, 0x3eebaf95, 0xfe4cc83f, 0xbb9a0523, 0xaa989cf3, 0x76edd9cf, 0x53380d13, 0x1a6d0e91, 0xb55acccf, 0xbc799f31);
    Turn(AFTER_INNER_KEY, b, 36, 0xb55acccf, 0x008c48f1, 0x51552207, 0x89640ed6, 0xbc799f31, 0xfe4cc83f, 0xbb9a0523, 0xaa989cf3, 0x650a7354, 0x67b9d8fd, 0x44a5d2ff, 0xdc9571de);
    Turn(AFTER_INNER_KEY, b, 37, 0x44a5d2ff, 0xb55acccf, 0x008c48f1, 0x51552207, 0xdc9571de, 0xbc799f31, 0xfe4cc83f, 0xbb9a0523, 0x766a0abb, 0xb9251d58, 0x89b963f0, 0x04e91075);
    Turn(AFTER_INNER_KEY, b, 38, 0x89b963f0, 0x44a5d2ff, 0xb55acccf, 0x008c48f1, 0x04e91075, 0xdc9571de, 0xbc799f31, 0xfe4cc83f, 0x81c2c92e, 0x7b42c482, 0xc43e9334, 0x66ab4215);
    Turn(AFTER_INNER_KEY, b, 39, 0xc43e9334, 0x89b963f0, 0x44a5d2ff, 0xb55acccf, 0x66ab4215, 0x04e91075, 0xdc9571de, 0xbc799f31, 0x92722c85, 0x1e4fcbae, 0x64336633, 0x01eb08e5);
  }

  lemma TextRounds40(b: Block)
    requires WordsAt(b, 32, Text32)
    requires Rounds(AFTER_INNER_KEY, b, 40) == Hash(0x64336633, 0xc43e9334, 0x89b963f0, 0x44a5d2ff, 0x01eb08e5, 0x66ab4215, 0x04e91075, 0xdc9571de)
    ensures Rounds(AFTER_INNER_KEY, b, 48) == Hash(0x18eae95d, 0xc30b4900, 0xb5486ab0, 0x9f6132f2, 0x68e92552, 0x2580f283, 0x521dd93c, 0xb871c7e5)
  {
    hide W, Rounds, K;
    Constants40();
    Turn(AFTER_INNER_KEY, b, 40, 0x64336633, 0xc43e9334, 0x89b963f0, 0x44a5d2ff, 0x01eb08e5, 0x66ab4215, 0x04e91075, 0xdc9571de, 0xa2bfe8a1, 0x7f18d3ae, 0x6987babb, 0xc4e2f503);
    Turn(AFTER_INNER_KEY, b, 41, 0x6987babb, 0x64336633, 0xc43e9334, 0x89b963f0, 0xc4e2f503, 0x01eb08e5, 0x66ab4215, 0x04e91075, 0xa81a664b, 0x6b3e02aa, 0x8ec6134f, 0xa2f775d7);
    Turn(AFTER_INNER_KEY, b, 42, 0x8ec6134f, 0x6987babb, 0x64336633, 0xc43e9334, 0xa2f775d7, 0xc4e2f503, 0x01eb08e5, 0x66ab4215, 0xc24b8b70, 0x60acd3cc, 0x795b866f, 0x6f921a90);
    Turn(AFTER_INNER_KEY, b, 43, 0x795b866f, 0x8ec6134f, 0x6987babb, 0x64336633, 0x6f921a90, 0xa2f775d7, 0xc4e2f503, 0x01eb08e5, 0xc76c51a3, 0x09230471, 0x3d286fbb, 0xb45facdd);
    Turn(AFTER_INNER_KEY, b, 44, 0x3d286fbb, 0x795b866f, 0x8ec6134f, 0x6987babb, 0xb45facdd, 0x6f921a90, 0xa2f775d7, 0xc4e2f503, 0xd192e819, 0xcf103ae0, 0x9f6132f2, 0xb871c7e5);
    Turn(AFTER_INNER_KEY, b, 45, 0x9f6132f2, 0x3d286fbb, 0x795b866f, 0x8ec6134f, 0xb871c7e5, 0xb45facdd, 0x6f921a90, 0xa2f775d7, 0xd6990624, 0xff3e7122, 0xb5486ab0, 0x521dd93c);
    Turn(AFTER_INNER_KEY, b, 46, 0xb5486ab0, 0x9f6132f2, 0x3d286fbb, 0x795b866f, 0x521dd93c, 0xb871c7e5, 0xb45facdd, 0x6f921a90, 0xf40e3585, 0xbc028b24, 0xc30b4900, 0x2580f283);
    Turn(AFTER_INNER_KEY, b, 47, 0xc30b4900, 0xb5486ab0, 0x9f6132f2, 0x3d286fbb, 0x2580f283, 0x521dd93c, 0xb871c7e5, 0xb45facdd, 0x106aa070, 0x31f8a0a0, 0x18eae95d, 0x68e92552);
  }

  lemma TextRounds48(b: Block)
    requires WordsAt(b, 48, Text48)
    requires Rounds(AFTER_INNER_KEY, b, 48) == Hash(0x18eae95d, 0xc30b4900, 0xb5486ab0, 0x9f6132f2, 0x68e92552, 0x2580f283, 0x521dd93c, 0xb871c7e5)
    ensures Rounds(AFTER_INNER_KEY, b, 56) == Hash(0xe73f1bab, 0xf1b65c41, 0x71f4ebf0, 0x72ebf845, 0xdfe69826, 0x44832b00, 0xc7cca388, 0x7f423327)
  {
    hide W, Rounds, K;
    Constants48();
    Turn(AFTER_INNER_KEY, b, 48, 0x18eae95d, 0xc30b4900, 0xb5486ab0, 0x9f6132f2, 0x68e92552, 0x2580f283, 0x521dd93c, 0xb871c7e5, 0x19a4c116, 0xa4405ebd, 0x792962de, 0xdfc9235d);
    Turn(AFTER_INNER_KEY, b, 49, 0x792962de, 0x18eae95d, 0xc30b4900, 0xb5486ab0, 0xdfc9235d, 0x68e92552, 0x2580f283, 0x521dd93c, 0x1e376c08, 0xa126f06e, 0xf8f9ec3e, 0x27e4057a);
    Turn(AFTER_INNER_KEY, b, 50, 0xf8f9ec3e, 0x792962de, 0x18eae95d, 0xc30b4900, 0x27e4057a, 0xdfc9235d, 0x68e92552, 0x2580f283, 0x2748774c, 0x5140b18d, 0x55103dbb, 0x66b8573a);
    Turn(AFTER_INNER_KEY, b, 51, 0x55103dbb, 0xf8f9ec3e, 0x792962de, 0x18eae95d, 0x66b8573a, 0x27e4057a, 0xdfc9235d, 0x68e92552, 0x34b0bcb5, 0x0f9727bc, 0xb1b19220, 0xd8fac404);
    Turn(AFTER_INNER_KEY, b, 52, 0xb1b19220, 0x55103dbb, 0xf8f9ec3e, 0x792962de, 0xd8fac404, 0x66b8573a, 0x27e4057a, 0xdfc9235d, 0x391c0cb3, 0x96dc649b, 0x72ebf845, 0x7f423327);
    Turn(AFTER_INNER_KEY, b, 53, 0x72ebf845, 0xb1b19220, 0x55103dbb, 0xf8f9ec3e, 0x7f423327, 0xd8fac404, 0x66b8573a, 0x27e4057a, 0x4ed8aa4a, 0xa7105035, 0x71f4ebf0, 0xc7cca388);
    Turn(AFTER_INNER_KEY, b, 54, 0x71f4ebf0, 0x72ebf845, 0xb1b19220, 0x55103dbb, 0xc7cca388, 0x7f423327, 0xd8fac404, 0x66b8573a, 0x5b9cca4f, 0x1955553f, 0xf1b65c41, 0x44832b00);
    Turn(AFTER_INNER_KEY, b, 55, 0xf1b65c41, 0x71f4ebf0, 0x72ebf845, 0xb1b19220, 0x44832b00, 0xc7cca388, 0x7f423327, 0xd8fac404, 0x682e6ff3, 0x4cbc81fd, 0xe73f1bab, 0xdfe69826);
  }

  lemma TextRounds56(b: Block)
    requires WordsAt(b, 48, Text48)
    requires Rounds(AFTER_INNER_KEY, b, 56) == Hash(0xe73f1bab, 0xf1b65c41, 0x71f4ebf0, 0x72ebf845, 0xdfe69826, 0x44832b00, 0xc7cca388, 0x7f423327)
    ensures Rounds(AFTER_INNER_KEY, b, 64) == Hash(0x3d86dd8c, 0x70e4aea1, 0x0a8fb7b5, 0x1d9fb3df, 0xa3036879, 0x22f9a8cd, 0xf945ce35, 0x4d627acb)
  {
    hide W, Rounds, K;
    Constants56();
    Turn(AFTER_INNER_KEY, b, 56, 0xe73f1bab, 0xf1b65c41, 0x71f4ebf0, 0x72ebf845, 0xdfe69826, 0x44832b00, 0xc7cca388, 0x7f423327, 0x748f82ee, 0xf9992590, 0x69922978, 0x11c9754e);
    Turn(AFTER_INNER_KEY, b, 57, 0x69922978, 0xe73f1bab, 0xf1b65c41, 0x71f4ebf0, 0x11c9754e, 0xdfe69826, 0x44832b00, 0xc7cca388, 0x78a5636f, 0x2d78b115, 0x33a4ced7, 0xaae179f5);
    Turn(AFTER_INNER_KEY, b, 58, 0x33a4ced7, 0x69922978, 0xe73f1bab, 0xf1b65c41, 0xaae179f5, 0x11c9754e, 0xdfe69826, 0x44832b00, 0x84c87814, 0x48b2660c, 0x8d8a1bdb, 0xf21e79c4);
    Turn(AFTER_INNER_KEY, b, 59, 0x8d8a1bdb, 0x33a4ced7, 0x69922978, 0xe73f1bab, 0xf21e79c4, 0xaae179f5, 0x11c9754e, 0xdfe69826, 0x8cc70208, 0xc566eb38, 0x39946bf0, 0xe17ff730);
    Turn(AFTER_INNER_KEY, b, 60, 0x39946bf0, 0x8d8a1bdb, 0x33a4ced7, 0x69922978, 0xe17ff730, 0xf21e79c4, 0xaae179f5, 0x11c9754e, 0x90befffa, 0xbc4719f4, 0x1d9fb3df, 0x4d627acb);
    Turn(AFTER_INNER_KEY, b, 61, 0x1d9fb3df, 0x39946bf0, 0x8d8a1bdb, 0x33a4ced7, 0x4d627acb, 0xe17ff730, 0xf21e79c4, 0xaae179f5, 0xa4506ceb, 0xbd8f6578, 0x0a8fb7b5, 0xf945ce35);
    Turn(AFTER_INNER_KEY, b, 62, 0x0a8fb7b5, 0x1d9fb3df, 0x39946bf0, 0x8d8a1bdb, 0xf945ce35, 0x4d627acb, 0xe17ff730, 0xf21e79c4, 0xbef9a3f7, 0xe71fceb9, 0x70e4aea1, 0x22f9a8cd);
    Turn(AFTER_INNER_KEY, b, 63, 0x70e4aea1, 0x0a8fb7b5, 0x1d9fb3df, 0x39946bf0, 0x22f9a8cd, 0xf945ce35, 0x4d627acb, 0xe17ff730, 0xc67178f2, 0x023dd359, 0x3d86dd8c, 0xa3036879);
  }

  lemma TextBlock(b: Block)
    requires WordsAt(b, 0, Text0)
    ensures Compress(AFTER_INNER_KEY, b) == INNER_DIGEST
  {
    hide W, Rounds, Round, WordsAt;
    NoRounds(AFTER_INNER_KEY, b);
    TextWords16(b);
    TextWords32(b);
    TextWords48(b);
    TextRounds0(b);
    TextRounds8(b);
    TextRounds16(b);
    TextRounds24(b);
    TextRounds32(b);
    TextRounds40(b);
    TextRounds48(b);
    TextRounds56(b);
  }

  // ---- the key under the outer mask ----

  const OuterKey0: seq<bv32> :=
    [0x16393a39, 0x5c5c5c5c, 0x5c5c5c5c, 0x5c5c5c5c, 0x5c5c5c5c, 0x5c5c5c5c, 0x5c5c5c5c, 0x5c5c5c5c]
    + [0x5c5c5c5c, 0x5c5c5c5c, 0x5c5c5c5c, 0x5c5c5c5c, 0x5c5c5c5c, 0x5c5c5c5c, 0x5c5c5c5c, 0x5c5c5c5c]
  const OuterKey16: seq<bv32> :=
    [0xbc6c6d6b, 0x028f8f8e, 0x18148f7c, 0x93133fd1, 0x33346707, 0x55131c00, 0x1c4c8fc1, 0xaa8252d7]
    + [0xd92fce9a, 0x7bb09081, 0xb23c3c92, 0x8e036611, 0xef8b1cd6, 0xfcb68659, 0x98cd1c4a, 0xa514d1ce]
  const OuterKey32: seq<bv32> :=
    [0x655e9871, 0x80b14e30, 0xc3f7e470, 0x235e01a7, 0x0b79c2d8, 0x51112a82, 0xc947e091, 0x9d17222d]
    + [0x8fead71a, 0xf1240136, 0xf2403484, 0x911ae6e0, 0x6b8481a7, 0xb6c12283, 0xc47d12e8, 0x32b8fe41]
  const OuterKey48: seq<bv32> :=
    [0xa4366b12, 0xd4bab7a3, 0x18198b37, 0x5dc30ab5, 0xfb56e209, 0xbc47b487, 0x298fa38f, 0xff6df23c]
    + [0xfded1548, 0x6b3181fd, 0xe2eea69e, 0xe11be15d, 0x08859856, 0xfacb39cf, 0xfeb10bf2, 0xd790cd34]

  lemma OuterKeyWords16(b: Block)
    requires WordsAt(b, 0, OuterKey0)
    ensures WordsAt(b, 16, OuterKey16)
  {
    hide W;
    Word(b, 16, 0x5c5c5c5c, 0x5c5c5c5c, 0x5c5c5c5c, 0x16393a39, 0xbc6c6d6b);
    Word(b, 17, 0x5c5c5c5c, 0x5c5c5c5c, 0x5c5c5c5c, 0x5c5c5c5c, 0x028f8f8e);
    Word(b, 18, 0xbc6c6d6b, 0x5c5c5c5c, 0x5c5c5c5c, 0x5c5c5c5c, 0x18148f7c);
    Word(b, 19, 0x028f8f8e, 0x5c5c5c5c, 0x5c5c5c5c, 0x5c5c5c5c, 0x93133fd1);
    Word(b, 20, 0x18148f7c, 0x5c5c5c5c, 0x5c5c5c5c, 0x5c5c5c5c, 0x33346707);
    Word(b, 21, 0x93133fd1, 0x5c5c5c5c, 0x5c5c5c5c, 0x5c5c5c5c, 0x55131c00);
    Word(b, 22, 0x33346707, 0x5c5c5c5c, 0x5c5c5c5c, 0x5c5c5c5c, 0x1c4c8fc1);
    Word(b, 23, 0x55131c00, 0xbc6c6d6b, 0x5c5c5c5c, 0x5c5c5c5c, 0xaa8252d7);
    Word(b, 24, 0x1c4c8fc1, 0x028f8f8e, 0x5c5c5c5c, 0x5c5c5c5c, 0xd92fce9a);
    Word(b, 25, 0xaa8252d7, 0x18148f7c, 0x5c5c5c5c, 0x5c5c5c5c, 0x7bb09081);
    Word(b, 26, 0xd92fce9a, 0x93133fd1, 0x5c5c5c5c, 0x5c5c5c5c, 0xb23c3c92);
    Word(b, 27, 0x7bb09081, 0x33346707, 0x5c5c5c5c, 0x5c5c5c5c, 0x8e036611);
    Word(b, 28, 0xb23c3c92, 0x55131c00, 0x5c5c5c5c, 0x5c5c5c5c, 0xef8b1cd6);
    Word(b, 29, 0x8e036611, 0x1c4c8fc1, 0x5c5c5c5c, 0x5c5c5c5c, 0xfcb68659);
    Word(b, 30, 0xef8b1cd6, 0xaa8252d7, 0x5c5c5c5c, 0x5c5c5c5c, 0x98cd1c4a);
    Word(b, 31, 0xfcb68659, 0xd92fce9a, 0xbc6c6d6b, 0x5c5c5c5c, 0xa514d1ce);
  }

  lemma OuterKeyWords32(b: Block)
    requires WordsAt(b, 16, OuterKey16)
    ensures WordsAt(b, 32, OuterKey32)
  {
    hide W;
    Word(b, 32, 0x98cd1c4a, 0x7bb09081, 0x028f8f8e, 0xbc6c6d6b, 0x655e9871);
    Word(b, 33, 0xa514d1ce, 0xb23c3c92, 0x18148f7c, 0x028f8f8e, 0x80b14e30);
    Word(b, 34, 0x655e9871, 0x8e036611, 0x93133fd1, 0x18148f7c, 0xc3f7e470);
    Word(b, 35, 0x80b14e30, 0xef8b1cd6, 0x33346707, 0x93133fd1, 0x235e01a7);
    Word(b, 36, 0xc3f7e470, 0xfcb68659, 0x55131c00, 0x33346707, 0x0b79c2d8);
    Word(b, 37, 0x235e01a7, 0x98cd1c4a, 0x1c4c8fc1, 0x55131c00, 0x51112a82);
    Word(b, 38, 0x0b79c2d8, 0xa514d1ce, 0xaa8252d7, 0x1c4c8fc1, 0xc947e091);
    Word(b, 39, 0x51112a82, 0x655e9871, 0xd92fce9a, 0xaa8252d7, 0x9d17222d);
    Word(b, 40, 0xc947e091, 0x80b14e30, 0x7bb09081, 0xd92fce9a, 0x8fead71a);
    Word(b, 41, 0x9d17222d, 0xc3f7e470, 0xb23c3c92, 0x7bb09081, 0xf1240136);
    Word(b, 42, 0x8fead71a, 0x235e01a7, 0x8e036611, 0xb23c3c92, 0xf2403484);
    Word(b, 43, 0xf1240136, 0x0b79c2d8, 0xef8b1cd6, 0x8e036611, 0x911ae6e0);
    Word(b, 44, 0xf2403484, 0x51112a82, 0xfcb68659, 0xef8b1cd6, 0x6b8481a7);
    Word(b, 45, 0x911ae6e0, 0xc947e091, 0x98cd1c4a, 0xfcb68659, 0xb6c12283);
    Word(b, 46, 0x6b8481a7, 0x9d17222d, 0xa514d1ce, 0x98cd1c4a, 0xc47d12e8);
    Word(b, 47, 0xb6c12283, 0x8fead71a, 0x655e9871, 0xa514d1ce, 0x32b8fe41);
  }

  lemma OuterKeyWords48(b: Block)
    requires WordsAt(b, 32, OuterKey32)
    ensures WordsAt(b, 48, OuterKey48)
  {
    hide W;
    Word(b, 48, 0xc47d12e8, 0xf1240136, 0x80b14e30, 0x655e9871, 0xa4366b12);
    Word(b, 49, 0x32b8fe41, 0xf2403484, 0xc3f7e470, 0x80b14e30, 0xd4bab7a3);
    Word(b, 50, 0xa4366b12, 0x911ae6e0, 0x235e01a7, 0xc3f7e470, 0x18198b37);
    Word(b, 51, 0xd4bab7a3, 0x6b8481a7, 0x0b79c2d8, 0x235e01a7, 0x5dc30ab5);
    Word(b, 52, 0x18198b37, 0xb6c12283, 0x51112a82, 0x0b79c2d8, 0xfb56e209);
    Word(b, 53, 0x5dc30ab5, 0xc47d12e8, 0xc947e091, 0x51112a82, 0xbc47b487);
    Word(b, 54, 0xfb56e209, 0x32b8fe41, 0x9d17222d, 0xc947e091, 0x298fa38f);
    Word(b, 55, 0xbc47b487, 0xa4366b12, 0x8fead71a, 0x9d17222d, 0xff6df23c);
    Word(b, 56, 0x298fa38f, 0xd4bab7a3, 0xf1240136, 0x8fead71a, 0xfded1548);
    Word(b, 57, 0xff6df23c, 0x18198b37, 0xf2403484, 0xf1240136, 0x6b3181fd);
    Word(b, 58, 0xfded1548, 0x5dc30ab5, 0x911ae6e0, 0xf2403484, 0xe2eea69e);
    Word(b, 59, 0x6b3181fd, 0xfb56e209, 0x6b8481a7, 0x911ae6e0, 0xe11be15d);
    Word(b, 60, 0xe2eea69e, 0xbc47b487, 0xb6c12283, 0x6b8481a7, 0x08859856);
    Word(b, 61, 0xe11be15d, 0x298fa38f, 0xc47d12e8, 0xb6c12283, 0xfacb39cf);
    Word(b, 62, 0x08859856, 0xff6df23c, 0x32b8fe41, 0xc47d12e8, 0xfeb10bf2);
    Word(b, 63, 0xfacb39cf, 0xfded1548, 0xa4366b12, 0x32b8fe41, 0xd790cd34);
  }

  lemma OuterKeyRounds0(b: Block)
    requires WordsAt(b, 0, OuterKey0)
    requires Rounds(H0, b, 0) == Hash(0x6a09e667, 0xbb67ae85, 0x3c6ef372, 0xa54ff53a, 0x510e527f, 0x9b05688c, 0x1f83d9ab, 0x5be0cd19)
    ensures Rounds(H0, b, 8) == Hash(0x69435709, 0xe54a3493, 0xb1133397, 0xcb1304a6, 0x4facc1d6, 0xf3639443, 0x0f707dff, 0x98dc9837)
  {
    hide W, Rounds, K;
    Constants0();
    Turn(H0, b, 0, 0x6a09e667, 0xbb67ae85, 0x3c6ef372, 0xa54ff53a, 0x510e527f, 0x9b05688c, 0x1f83d9ab, 0x5be0cd19, 0x428a2f98, 0x16393a39, 0x1241c286, 0xaf011cdb);
    Turn(H0, b, 1, 0x1241c286, 0x6a09e667, 0xbb67ae85, 0x3c6ef372, 0xaf011cdb, 0x510e527f, 0x9b05688c, 0x1f83d9ab, 0x71374491, 0x5c5c5c5c, 0x455055eb, 0xafd267f0);
    Turn(H0, b, 2, 0x455055eb, 0x1241c286, 0x6a09e667, 0xbb67ae85, 0xafd267f0, 0xaf011cdb, 0x510e527f, 0x9b05688c, 0xb5c0fbcf, 0x5c5c5c5c, 0x03637aee, 0x3d2fcf9f);
    Turn(H0, b, 3, 0x03637aee, 0x455055eb, 0x1241c286, 0x6a09e667, 0x3d2fcf9f, 0xafd267f0, 0xaf011cdb, 0x510e527f, 0xe9b5dba5, 0x5c5c5c5c, 0x3c9c8844, 0xc9219e10);
    Turn(H0, b, 4, 0x3c9c8844, 0x03637aee, 0x455055eb, 0x1241c286, 0xc9219e10, 0x3d2fcf9f, 0xafd267f0, 0xaf011cdb, 0x3956c25b, 0x5c5c5c5c, 0xcb1304a6, 0x98dc9837);
    Turn(H0, b, 5, 0xcb1304a6, 0x3c9c8844, 0x03637aee, 0x455055eb, 0x98dc9837, 0xc9219e10, 0x3d2fcf9f, 0xafd267f0, 0x59f111f1, 0x5c5c5c5c, 0xb1133397, 0x0f707dff);
    Turn(H0, b, 6, 0xb1133397, 0xcb1304a6, 0x3c9c8844, 0x03637aee, 0x0f707dff, 0x98dc9837, 0xc9219e10, 0x3d2fcf9f, 0x923f82a4, 0x5c5c5c5c, 0xe54a3493, 0xf3639443);
    Turn(H0, b, 7, 0xe54a3493, 0xb1133397, 0xcb1304a6, 0x3c9c8844, 0xf3639443, 0x0f707dff, 0x98dc9837, 0xc9219e10, 0xab1c5ed5, 0x5c5c5c5c, 0x69435709, 0x4facc1d6);
  }

  lemma OuterKeyRounds8(b: Block)
    requires WordsAt(b, 0, OuterKey0)
    requires Rounds(H0, b, 8) == Hash(0x69435709, 0xe54a3493, 0xb1133397, 0xcb1304a6, 0x4facc1d6, 0xf3639443, 0x0f707dff, 0x98dc9837)
    ensures Rounds(H0, b, 16) == Hash(0xe7b8b56f, 0x5e3eeba7, 0xdf63a889, 0xa1a61c47, 0x85ada43a, 0x7a1a23a6, 0x1f4a0977, 0xc247b35e)
  {
    hide W, Rounds, K;
    Constants8();
    Turn(H0, b, 8, 0x69435709, 0xe54a3493, 0xb1133397, 0xcb1304a6, 0x4facc1d6, 0xf3639443, 0x0f707dff, 0x98dc9837, 0xd807aa98, 0x5c5c5c5c, 0x96d3fb5e, 0x915c0df4);
    Turn(H0, b, 9, 0x96d3fb5e, 0x69435709, 0xe54a3493, 0xb1133397, 0x915c0df4, 0x4facc1d6, 0xf3639443, 0x0f707dff, 0x12835b01, 0x5c5c5c5c, 0xba42125f, 0x55649cc8);
    Turn(H0, b, 10, 0xba42125f, 0x96d3fb5e, 0x69435709, 0xe54a3493, 0x55649cc8, 0x915c0df4, 0x4facc1d6, 0xf3639443, 0x243185be, 0x5c5c5c5c, 0xc8369aca, 0x7f195390);
    Turn(H0, b, 11, 0xc8369aca, 0xba42125f, 0x96d3fb5e, 0x69435709, 0x7f195390, 0x55649cc8, 0x915c0df4, 0x4facc1d6, 0x550c7dc3, 0x5c5c5c5c, 0xee376db8, 0xfef75e3d);
    Turn(H0, b, 12, 0xee376db8, 0xc8369aca, 0xba42125f, 0x96d3fb5e, 0xfef75e3d, 0x7f195390, 0x55649cc8, 0x915c0df4, 0x72be5d74, 0x5c5c5c5c, 0xa1a61c47, 0xc247b35e);
    Turn(H0, b, 13, 0xa1a61c47, 0xee376db8, 0xc8369aca, 0xba42125f, 0xc247b35e, 0xfef75e3d, 0x7f195390, 0x55649cc8, 0x80deb1fe, 0x5c5c5c5c, 0xdf63a889, 0x1f4a0977);
    Turn(H0, b, 14, 0xdf63a889, 0xa1a61c47, 0xee376db8, 0xc8369aca, 0x1f4a0977, 0xc247b35e, 0xfef75e3d, 0x7f195390, 0x9bdc06a7, 0x5c5c5c5c, 0x5e3eeba7, 0x7a1a23a6);
    Turn(H0, b, 15, 0x5e3eeba7, 0xdf63a889, 0xa1a61c47, 0xee376db8, 0x7a1a23a6, 0x1f4a0977, 0xc247b35e, 0xfef75e3d, 0xc19bf174, 0x5c5c5c5c, 0xe7b8b56f, 0x85ada43a);
  }

  lemma OuterKeyRounds16(b: Block)
    requires WordsAt(b, 16, OuterKey16)
    requires Rounds(H0, b, 16) == Hash(0xe7b8b56f, 0x5e3eeba7, 0xdf63a889, 0xa1a61c47, 0x85ada43a, 0x7a1a23a6, 0x1f4a0977, 0xc247b35e)
    ensures Rounds(H0, b, 24) == Hash(0x897a142a, 0xb3d8e080, 0x93238532, 0x0b37ef52, 0xe78fa9c2, 0xfba08193, 0xdde54c39, 0x194d0d3a)
  {
    hide W, Rounds, K;
    Constants16();
    Turn(H0, b, 16, 0xe7b8b56f, 0x5e3eeba7, 0xdf63a889, 0xa1a61c47, 0x85ada43a, 0x7a1a23a6, 0x1f4a0977, 0xc247b35e, 0xe49b69c1, 0xbc6c6d6b, 0xc8ad2b06, 0xdad3ee9e);
    Turn(H0, b, 17, 0xc8ad2b06, 0xe7b8b56f, 0x5e3eeba7, 0xdf63a889, 0xdad3ee9e, 0x85ada43a, 0x7a1a23a6, 0x1f4a0977, 0xefbe4786, 0x028f8f8e, 0xa0d6a020, 0x52cc88f8);
    Turn(H0, b, 18, 0xa0d6a020, 0xc8ad2b06, 0xe7b8b56f, 0x5e3eeba7, 0x52cc88f8, 0xdad3ee9e, 0x85ada43a, 0x7a1a23a6, 0x0fc19dc6, 0x18148f7c, 0x6643e281, 0x701600c4);
    Turn(H0, b, 19, 0x6643e281, 0xa0d6a020, 0xc8ad2b06, 0xe7b8b56f, 0x701600c4, 0x52cc88f8, 0xdad3ee9e, 0x85ada43a, 0x240ca1cc, 0x93133fd1, 0x3cbb1ed2, 0x019a631b);
    Turn(H0, b, 20, 0x3cbb1ed2, 0x6643e281, 0xa0d6a020, 0xc8ad2b06, 0x019a631b, 0x701600c4, 0x52cc88f8, 0xdad3ee9e, 0x2de92c6f, 0x33346707, 0x0b37ef52, 0x194d0d3a);
    Turn(H0, b, 21, 0x0b37ef52, 0x3cbb1ed2, 0x6643e281, 0xa0d6a020, 0x194d0d3a, 0x019a631b, 0x701600c4, 0x52cc88f8, 0x4a7484aa, 0x55131c00, 0x93238532, 0xdde54c39);
    Turn(H0, b, 22, 0x93238532, 0x0b37ef52, 0x3cbb1ed2, 0x6643e281, 0xdde54c39, 0x194d0d3a, 0x019a631b, 0x701600c4, 0x5cb0a9dc, 0x1c4c8fc1, 0xb3d8e080, 0xfba08193);
    Turn(H0, b, 23, 0xb3d8e080, 0x93238532, 0x0b37ef52, 0x3cbb1ed2, 0xfba08193, 0xdde54c39, 0x194d0d3a, 0x019a631b, 0x76f988da, 0xaa8252d7, 0x897a142a, 0xe78fa9c2);
  }

  lemma OuterKeyRounds24(b: Block)
    requires WordsAt(b, 16, OuterKey16)
    requires Rounds(H0, b, 24) == Hash(0x897a142a, 0xb3d8e080, 0x93238532, 0x0b37ef52, 0xe78fa9c2, 0xfba08193, 0xdde54c39, 0x194d0d3a)
    ensures Rounds(H0, b, 32) == Hash(0x223781a1, 0x466a3c05, 0x33c6b89d, 0x66159104, 0x28c05066, 0x34384529, 0xe1e1a8b5, 0xb7b33477)
  {
    hide W, Rounds, K;
    Constants24();
    Turn(H0, b, 24, 0x897a142a, 0xb3d8e080, 0x93238532, 0x0b37ef52, 0xe78fa9c2, 0xfba08193, 0xdde54c39, 0x194d0d3a, 0x983e5152, 0xd92fce9a, 0xf9870a23, 0x85ea1054);
    Turn(H0, b, 25, 0xf9870a23, 0x897a142a, 0xb3d8e080, 0x93238532, 0x85ea1054, 0xe78fa9c2, 0xfba08193, 0xdde54c39, 0xa831c66d, 0x7bb09081, 0x1c11e5a3, 0x4204e95d);
    Turn(H0, b, 26, 0x1c11e5a3, 0xf9870a23, 0x897a142a, 0xb3d8e080, 0x4204e95d, 0x85ea1054, 0xe78fa9c2, 0xfba08193, 0xb00327c8, 0xb23c3c92, 0xa6dcfe16, 0x1418c4dc);
    Turn(H0, b, 27, 0xa6dcfe16, 0x1c11e5a3, 0xf9870a23, 0x897a142a, 0x1418c4dc, 0x4204e95d, 0x85ea1054, 0xe78fa9c2, 0xbf597fc7, 0x8e036611, 0x86103013, 0x27fa0221);
    Turn(H0, b, 28, 0x86103013, 0xa6dcfe16, 0x1c11e5a3, 0xf9870a23, 0x27fa0221, 0x1418c4dc, 0x4204e95d, 0x85ea1054, 0xc6e00bf3, 0xef8b1cd6, 0x66159104, 0xb7b33477);
    Turn(H0, b, 29, 0x66159104, 0x86103013, 0xa6dcfe16, 0x1c11e5a3, 0xb7b33477, 0x27fa0221, 0x1418c4dc, 0x4204e95d, 0xd5a79147, 0xfcb68659, 0x33c6b89d, 0xe1e1a8b5);
    Turn(H0, b, 30, 0x33c6b89d, 0x66159104, 0x86103013, 0xa6dcfe16, 0xe1e1a8b5, 0xb7b33477, 0x27fa0221, 0x1418c4dc, 0x06ca6351, 0x98cd1c4a, 0x466a3c05, 0x34384529);
    Turn(H0, b, 31, 0x466a3c05, 0x33c6b89d, 0x66159104, 0x86103013, 0x34384529, 0xe1e1a8b5, 0xb7b33477, 0x27fa0221, 0x14292967, 0xa514d1ce, 0x223781a1, 0x28c05066);
  }

  lemma OuterKeyRounds32(b: Block)
    requires WordsAt(b, 32, OuterKey32)
    requires Rounds(H0, b, 32) == Hash(0x223781a1, 0x466a3c05, 0x33c6b89d, 0x66159104, 0x28c05066, 0x34384529, 0xe1e1a8b5, 0xb7b33477)
    ensures Rounds(H0, b, 40) == Hash(0x2085ac20, 0xe332a1f9, 0x297f2869, 0xfb686937, 0x5f583973, 0xaf7ba84f, 0x78316de1, 0x1931b9a7)
  {
    hide W, Rounds, K;
    Constants32();
    Turn(H0, b, 32, 0x223781a1, 0x466a3c05, 0x33c6b89d, 0x66159104, 0x28c05066, 0x34384529, 0xe1e1a8b5, 0xb7b33477, 0x27b70a85, 0x655e9871, 0xd822185e, 0x804e7b81);
    Turn(H0, b, 33, 0xd822185e, 0x223781a1, 0x466a3c05, 0x33c6b89d, 0x804e7b81, 0x28c05066, 0x34384529, 0xe1e1a8b5, 0x2e1b2138, 0x80b14e30, 0x54ecb192, 0x49f215c3);
    Turn(H0, b, 34, 0x54ecb192, 0xd822185e, 0x223781a1, 0x466a3c05, 0x49f215c3, 0x804e7b81, 0x28c05066, 0x34384529, 0x4d2c6dfc, 0xc3f7e470, 0xad7954cf, 0xf84d3cf0);
    Turn(H0, b, 35, 0xad7954cf, 0x54ecb192, 0xd822185e, 0x223781a1, 0xf84d3cf0, 0x49f215c3, 0x804e7b81, 0x28c05066, 0x53380d13, 0x235e01a7, 0xe7d10d33, 0x85307daa);
    Turn(H0, b, 36, 0xe7d10d33, 0xad7954cf, 0x54ecb192, 0xd822185e, 0x85307daa, 0xf84d3cf0, 0x49f215c3, 0x804e7b81, 0x650a7354, 0x0b79c2d8, 0xfb686937, 0x1931b9a7);
    Turn(H0, b, 37, 0xfb686937, 0xe7d10d33, 0xad7954cf, 0x54ecb192, 0x1931b9a7, 0x85307daa, 0xf84d3cf0, 0x49f215c3, 0x766a0abb, 0x51112a82, 0x297f2869, 0x78316de1);
    Turn(H0, b, 38, 0x297f2869, 0xfb686937, 0xe7d10d33, 0xad7954cf, 0x78316de1, 0x1931b9a7, 0x85307daa, 0xf84d3cf0, 0x81c2c92e, 0xc947e091, 0xe332a1f9, 0xaf7ba84f);
    Turn(H0, b, 39, 0xe332a1f9, 0x297f2869, 0xfb686937, 0xe7d10d33, 0xaf7ba84f, 0x78316de1, 0x1931b9a7, 0x85307daa, 0x92722c85, 0x9d17222d, 0x2085ac20, 0x5f583973);
  }

  lemma OuterKeyRounds40(b: Block)
    requires WordsAt(b, 32, OuterKey32)
    requires Rounds(H0, b, 40) == Hash(0x2085ac20, 0xe332a1f9, 0x297f2869, 0xfb686937, 0x5f583973, 0xaf7ba84f, 0x78316de1, 0x1931b9a7)
    ensures Rounds(H0, b, 48) == Hash(0x835aa22a, 0xe65638ea, 0x5009f43b, 0x5b5a8b27, 0x354edc49, 0xee6c6342, 0x466cefd5, 0x0fb4d10f)
  {
    hide W, Rounds, K;
    Constants40();
    Turn(H0, b, 40, 0x2085ac20, 0xe332a1f9, 0x297f2869, 0xfb686937, 0x5f583973, 0xaf7ba84f, 0x78316de1, 0x1931b9a7, 0xa2bfe8a1, 0x8fead71a, 0x6b28b082, 0xc5c881a9);
    Turn(H0, b, 41, 0x6b28b082, 0x2085ac20, 0xe332a1f9, 0x297f2869, 0xc5c881a9, 0x5f583973, 0xaf7ba84f, 0x78316de1, 0xa81a664b, 0xf1240136, 0x16966c26, 0x20d97726);
    Turn(H0, b, 42, 0x16966c26, 0x6b28b082, 0x2085ac20, 0xe332a1f9, 0x20d97726, 0xc5c881a9, 0x5f583973, 0xaf7ba84f, 0xc24b8b70, 0xf2403484, 0xb476c398, 0xb7ff018f);
    Turn(H0, b, 43, 0xb476c398, 0x16966c26, 0x6b28b082, 0x2085ac20, 0xb7ff018f, 0x20d97726, 0xc5c881a9, 0x5f583973, 0xc76c51a3, 0x911ae6e0, 0x2a70095c, 0x29e86379);
    Turn(H0, b, 44, 0x2a70095c, 0xb476c398, 0x16966c26, 0x6b28b082, 0x29e86379, 0xb7ff018f, 0x20d97726, 0xc5c881a9, 0xd192e819, 0x6b8481a7, 0x5b5a8b27, 0x0fb4d10f);
    Turn(H0, b, 45, 0x5b5a8b27, 0x2a70095c, 0xb476c398, 0x16966c26, 0x0fb4d10f, 0x29e86379, 0xb7ff018f, 0x20d97726, 0xd6990624, 0xb6c12283, 0x5009f43b, 0x466cefd5);
    Turn(H0, b, 46, 0x5009f43b, 0x5b5a8b27, 0x2a70095c, 0xb476c398, 0x466cefd5, 0x0fb4d10f, 0x29e86379, 0xb7ff018f, 0xf40e3585, 0xc47d12e8, 0xe65638ea, 0xee6c6342);
    Turn(H0, b, 47, 0xe65638ea, 0x5009f43b, 0x5b5a8b27, 0x2a70095c, 0xee6c6342, 0x466cefd5, 0x0fb4d10f, 0x29e86379, 0x106aa070, 0x32b8fe41, 0x835aa22a, 0x354edc49);
  }

  lemma OuterKeyRounds48(b: Block)
    requires WordsAt(b, 48, OuterKey48)
    requires Rounds(H0, b, 48) == Hash(0x835aa22a, 0xe65638ea, 0x5009f43b, 0x5b5a8b27, 0x354edc49, 0xee6c6342, 0x466cefd5, 0x0fb4d10f)
    ensures Rounds(H0, b, 56) == Hash(0x8a8b3fbf, 0xd3a780aa, 0xd2dbf54f, 0xf2457593, 0xa4a85ec7, 0x1946da48, 0xd532b445, 0xa9c7bd40)
  {
    hide W, Rounds, K;
    Constants48();
    Turn(H0, b, 48, 0x835aa22a, 0xe65638ea, 0x5009f43b, 0x5b5a8b27, 0x354edc49, 0xee6c6342, 0x466cefd5, 0x0fb4d10f, 0x19a4c116, 0xa4366b12, 0xdbfedfb7, 0x99f4a262);
    Turn(H0, b, 49, 0xdbfedfb7, 0x835aa22a, 0xe65638ea, 0x5009f43b, 0x99f4a262, 0x354edc49, 0xee6c6342, 0x466cefd5, 0x1e376c08, 0xd4bab7a3, 0xa0b0242f, 0x3d1ba64c);
    Turn(H0, b, 50, 0xa0b0242f, 0xdbfedfb7, 0x835aa22a, 0xe65638ea, 0x3d1ba64c, 0x99f4a262, 0x354edc49, 0xee6c6342, 0x2748774c, 0x18198b37, 0x4980a430, 0xa21a84e3);
    Turn(H0, b, 51, 0x4980a430, 0xa0b0242f, 0xdbfedfb7, 0x835aa22a, 0xa21a84e3, 0x3d1ba64c, 0x99f4a262, 0x354edc49, 0x34b0bcb5, 0x5dc30ab5, 0x1ca2eaeb, 0xa4da44af);
    Turn(H0, b, 52, 0x1ca2eaeb, 0x4980a430, 0xa0b0242f, 0xdbfedfb7, 0xa4da44af, 0xa21a84e3, 0x3d1ba64c, 0x99f4a262, 0x391c0cb3, 0xfb56e209, 0xf2457593, 0xa9c7bd40);
    Turn(H0, b, 53, 0xf2457593, 0x1ca2eaeb, 0x4980a430, 0xa0b0242f, 0xa9c7bd40, 0xa4da44af, 0xa21a84e3, 0x3d1ba64c, 0x4ed8aa4a, 0xbc47b487, 0xd2dbf54f, 0xd532b445);
    Turn(H0, b, 54, 0xd2dbf54f, 0xf2457593, 0x1ca2eaeb, 0x4980a430, 0xd532b445, 0xa9c7bd40, 0xa4da44af, 0xa21a84e3, 0x5b9cca4f, 0x298fa38f, 0xd3a780aa, 0x1946da48);
    Turn(H0, b, 55, 0xd3a780aa, 0xd2dbf54f, 0xf2457593, 0x1ca2eaeb, 0x1946da48, 0xd532b445, 0xa9c7bd40, 0xa4da44af, 0x682e6ff3, 0xff6df23c, 0x8a8b3fbf, 0xa4a85ec7);
  }

  lemma OuterKeyRounds56(b: Block)
    requires WordsAt(b, 48, OuterKey48)
    requires Rounds(H0, b, 56) == Hash(0x8a8b3fbf, 0xd3a780aa, 0xd2dbf54f, 0xf2457593, 0xa4a85ec7, 0x1946da48, 0xd532b445, 0xa9c7bd40)
    ensures Rounds(H0, b, 64) == Hash(0xa4a5fd6e, 0x57d97fe7, 0x2dfb3c79, 0x87e76592, 0x0096aac8, 0xd2ab2d5c, 0x043bc7df, 0xf71074bc)
  {
    hide W, Rounds, K;
    Constants56();
    Turn(H0, b, 56, 0x8a8b3fbf, 0xd3a780aa, 0xd2dbf54f, 0xf2457593, 0xa4a85ec7, 0x1946da48, 0xd532b445, 0xa9c7bd40, 0x748f82ee, 0xfded1548, 0x05ccc2a3, 0xf1e61ceb);
    Turn(H0, b, 57, 0x05ccc2a3, 0x8a8b3fbf, 0xd3a780aa, 0xd2dbf54f, 0xf1e61ceb, 0xa4a85ec7, 0x1946da48, 0xd532b445, 0x78a5636f, 0x6b3181fd, 0x8e535f40, 0xf63e3f0b);
    Turn(H0, b, 58, 0x8e535f40, 0x05ccc2a3, 0x8a8b3fbf, 0xd3a780aa, 0xf63e3f0b, 0xf1e61ceb, 0xa4a85ec7, 0x1946da48, 0x84c87814, 0xe2eea69e, 0x6717179f, 0x17059133);
    Turn(H0, b, 59, 0x6717179f, 0x8e535f40, 0x05ccc2a3, 0x8a8b3fbf, 0x17059133, 0xf63e3f0b, 0xf1e61ceb, 0xa4a85ec7, 0x8cc70208, 0xe11be15d, 0xb31fa7ba, 0xfcf30f33);
    Turn(H0, b, 60, 0xb31fa7ba, 0x6717179f, 0x8e535f40, 0x05ccc2a3, 0xfcf30f33, 0x17059133, 0xf63e3f0b, 0xf1e61ceb, 0x90befffa, 0x08859856, 0x87e76592, 0xf71074bc);
    Turn(H0, b, 61, 0x87e76592, 0xb31fa7ba, 0x6717179f, 0x8e535f40, 0xf71074bc, 0xfcf30f33, 0x17059133, 0xf63e3f0b, 0xa4506ceb, 0xfacb39cf, 0x2dfb3c79, 0x043bc7df);
    Turn(H0, b, 62, 0x2dfb3c79, 0x87e76592, 0xb31fa7ba, 0x6717179f, 0x043bc7df, 0xf71074bc, 0xfcf30f33, 0x17059133, 0xbef9a3f7, 0xfeb10bf2, 0x57d97fe7, 0xd2ab2d5c);
    Turn(H0, b, 63, 0x57d97fe7, 0x2dfb3c79, 0x87e76592, 0xb31fa7ba, 0xd2ab2d5c, 0x043bc7df, 0xf71074bc, 0xfcf30f33, 0xc67178f2, 0xd790cd34, 0xa4a5fd6e, 0x0096aac8);
  }

  lemma OuterKeyBlock(b: Block)
    requires WordsAt(b, 0, OuterKey0)
    ensures Compress(H0, b) == AFTER_OUTER_KEY
  {
    hide W, Rounds, Round, WordsAt;
    NoRounds(H0, b);
    OuterKeyWords16(b);
    OuterKeyWords32(b);
    OuterKeyWords48(b);
    OuterKeyRounds0(b);
    OuterKeyRounds8(b);
    OuterKeyRounds16(b);
    OuterKeyRounds24(b);
    OuterKeyRounds32(b);
    OuterKeyRounds40(b);
    OuterKeyRounds48(b);
    OuterKeyRounds56(b);
  }

  // ---- the padded inner digest ----

  const Inner0: seq<bv32> :=
    [0xa2e48586, 0x3d27f9d8, 0x64ac8d80, 0x2432a1ed, 0x477d8c4c, 0x6f349d16, 0xd4e7e917, 0xc629cad7]
    + [0x80000000, 0x00000000, 0x00000000, 0x00000000, 0x00000000, 0x00000000, 0x00000000, 0x00000300]
  const Inner16: seq<bv32> :=
    [0xec8d4507, 0x6e44cb58, 0xe57a2e78, 0x1481a913, 0xa0c51e3a, 0x20542d99, 0xc7d6bc99, 0x572ed109]
    + [0x7832fa16, 0x982a793e, 0x36d9a8b4, 0x1463b3c8, 0x01955976, 0x776eccea, 0x5f84771d, 0x7b31f508]
  const Inner32: seq<bv32> :=
    [0xc9f4aee0, 0xd055fb5c, 0x0b79d67f, 0x7fe06bb1, 0x27530bc7, 0x3cdd17eb, 0xd3a5276a, 0xe79ef353]
    + [0x70708e40, 0x503a442e, 0x8c04f280, 0x60a9ae13, 0x8edf61fe, 0x5a70bc6a, 0x06d8cf63, 0x2866cc9d]
  const Inner48: seq<bv32> :=
    [0x7608691a, 0xa7182225, 0x1dc70eca, 0x6c947dd1, 0x7c97dcae, 0x7b09005f, 0x19d1e2a0, 0xab60d9da]
    + [0xac37d412, 0x1236e096, 0x4a8a3d6d, 0xbe58c2f1, 0x53d27161, 0xe25a87a5, 0xb53d7e5f, 0x0828fce9]

  lemma InnerWords16(b: Block)
    requires WordsAt(b, 0, Inner0)
    ensures WordsAt(b, 16, Inner16)
  {
    hide W;
    Word(b, 16, 0x00000000, 0x00000000, 0x3d27f9d8, 0xa2e48586, 0xec8d4507);
    Word(b, 17, 0x00000300, 0x00000000, 0x64ac8d80, 0x3d27f9d8, 0x6e44cb58);
    Word(b, 18, 0xec8d4507, 0x00000000, 0x2432a1ed, 0x64ac8d80, 0xe57a2e78);
    Word(b, 19, 0x6e44cb58, 0x00000000, 0x477d8c4c, 0x2432a1ed, 0x1481a913);
    Word(b, 20, 0xe57a2e78, 0x00000000, 0x6f349d16, 0x477d8c4c, 0xa0c51e3a);
    Word(b, 21, 0x1481a913, 0x00000000, 0xd4e7e917, 0x6f349d16, 0x20542d99);
    Word(b, 22, 0xa0c51e3a, 0x00000300, 0xc629cad7, 0xd4e7e917, 0xc7d6bc99);
    Word(b, 23, 0x20542d99, 0xec8d4507, 0x80000000, 0xc629cad7, 0x572ed109);
    Word(b, 24, 0xc7d6bc99, 0x6e44cb58, 0x00000000, 0x80000000, 0x7832fa16);
    Word(b, 25, 0x572ed109, 0xe57a2e78, 0x00000000, 0x00000000, 0x982a793e);
    Word(b, 26, 0x7832fa16, 0x1481a913, 0x00000000, 0x00000000, 0x36d9a8b4);
    Word(b, 27, 0x982a793e, 0xa0c51e3a, 0x00000000, 0x00000000, 0x1463b3c8);
    Word(b, 28, 0x36d9a8b4, 0x20542d99, 0x00000000, 0x00000000, 0x01955976);
    Word(b, 29, 0x1463b3c8, 0xc7d6bc99, 0x00000000, 0x00000000, 0x776eccea);
    Word(b, 30, 0x01955976, 0x572ed109, 0x00000300, 0x00000000, 0x5f84771d);
    Word(b, 31, 0x776eccea, 0x7832fa16, 0xec8d4507, 0x00000300, 0x7b31f508);
  }

  lemma InnerWords32(b: Block)
    requires WordsAt(b, 16, Inner16)
    ensures WordsAt(b, 32, Inner32)
  {
    hide W;
    Word(b, 32, 0x5f84771d, 0x982a793e, 0x6e44cb58, 0xec8d4507, 0xc9f4aee0);
    Word(b, 33, 0x7b31f508, 0x36d9a8b4, 0xe57a2e78, 0x6e44cb58, 0xd055fb5c);
    Word(b, 34, 0xc9f4aee0, 0x1463b3c8, 0x1481a913, 0xe57a2e78, 0x0b79d67f);
    Word(b, 35, 0xd055fb5c, 0x01955976, 0xa0c51e3a, 0x1481a913, 0x7fe06bb1);
    Word(b, 36, 0x0b79d67f, 0x776eccea, 0x20542d99, 0xa0c51e3a, 0x27530bc7);
    Word(b, 37, 0x7fe06bb1, 0x5f84771d, 0xc7d6bc99, 0x20542d99, 0x3cdd17eb);
    Word(b, 38, 0x27530bc7, 0x7b31f508, 0x572ed109, 0xc7d6bc99, 0xd3a5276a);
    Word(b, 39, 0x3cdd17eb, 0xc9f4aee0, 0x7832fa16, 0x572ed109, 0xe79ef353);
    Word(b, 40, 0xd3a5276a, 0xd055fb5c, 0x982a793e, 0x7832fa16, 0x70708e40);
    Word(b, 41, 0xe79ef353, 0x0b79d67f, 0x36d9a8b4, 0x982a793e, 0x503a442e);
    Word(b, 42, 0x70708e40, 0x7fe06bb1, 0x1463b3c8, 0x36d9a8b4, 0x8c04f280);
    Word(b, 43, 0x503a442e, 0x27530bc7, 0x01955976, 0x1463b3c8, 0x60a9ae13);
    Word(b, 44, 0x8c04f280, 0x3cdd17eb, 0x776eccea, 0x01955976, 0x8edf61fe);
    Word(b, 45, 0x60a9ae13, 0xd3a5276a, 0x5f84771d, 0x776eccea, 0x5a70bc6a);
    Word(b, 46, 0x8edf61fe, 0xe79ef353, 0x7b31f508, 0x5f84771d, 0x06d8cf63);
    Word(b, 47, 0x5a70bc6a, 0x70708e40, 0xc9f4aee0, 0x7b31f508, 0x2866cc9d);
  }

  lemma InnerWords48(b: Block)
    requires WordsAt(b, 32, Inner32)
    ensures WordsAt(b, 48, Inner48)
  {
    hide W;
    Word(b, 48, 0x06d8cf63, 0x503a442e, 0xd055fb5c, 0xc9f4aee0, 0x7608691a);
    Word(b, 49, 0x2866cc9d, 0x8c04f280, 0x0b79d67f, 0xd055fb5c, 0xa7182225);
    Word(b, 50, 0x7608691a, 0x60a9ae13, 0x7fe06bb1, 0x0b79d67f, 0x1dc70eca);
    Word(b, 51, 0xa7182225, 0x8edf61fe, 0x27530bc7, 0x7fe06bb1, 0x6c947dd1);
    Word(b, 52, 0x1dc70eca, 0x5a70bc6a, 0x3cdd17eb, 0x27530bc7, 0x7c97dcae);
    Word(b, 53, 0x6c947dd1, 0x06d8cf63, 0xd3a5276a, 0x3cdd17eb, 0x7b09005f);
    Word(b, 54, 0x7c97dcae, 0x2866cc9d, 0xe79ef353, 0xd3a5276a, 0x19d1e2a0);
    Word(b, 55, 0x7b09005f, 0x7608691a, 0x70708e40, 0xe79ef353, 0xab60d9da);
    Word(b, 56, 0x19d1e2a0, 0xa7182225, 0x503a442e, 0x70708e40, 0xac37d412);
    Word(b, 57, 0xab60d9da, 0x1dc70eca, 0x8c04f280, 0x503a442e, 0x1236e096);
    Word(b, 58, 0xac37d412, 0x6c947dd1, 0x60a9ae13, 0x8c04f280, 0x4a8a3d6d);
    Word(b, 59, 0x1236e096, 0x7c97dcae, 0x8edf61fe, 0x60a9ae13, 0xbe58c2f1);
    Word(b, 60, 0x4a8a3d6d, 0x7b09005f, 0x5a70bc6a, 0x8edf61fe, 0x53d27161);
    Word(b, 61, 0xbe58c2f1, 0x19d1e2a0, 0x06d8cf63, 0x5a70bc6a, 0xe25a87a5);
    Word(b, 62, 0x53d27161, 0xab60d9da, 0x2866cc9d, 0x06d8cf63, 0xb53d7e5f);
    Word(b, 63, 0xe25a87a5, 0xac37d412, 0x7608691a, 0x2866cc9d, 0x0828fce9);
  }

  lemma InnerRounds0(b: Block)
    requires WordsAt(b, 0, Inner0)
    requires Rounds(AFTER_OUTER_KEY, b, 0) == Hash(0x0eafe3d5, 0x13412e6c, 0x6a6a2feb, 0x2d375acc, 0x51a4fd47, 0x6db095e8, 0x23bfa18a, 0x52f141d5)
    ensures Rounds(AFTER_OUTER_KEY, b, 8) == Hash(0x5d1582d4, 0x12acdcbb, 0xcb506feb, 0x13e61c3b, 0xf26e1dc0, 0x6939e327, 0x4790de5c, 0x2c0283b8)
  {
    hide W, Rounds, K;
    Constants0();
    Turn(AFTER_OUTER_KEY, b, 0, 0x0eafe3d5, 0x13412e6c, 0x6a6a2feb, 0x2d375acc, 0x51a4fd47, 0x6db095e8, 0x23bfa18a, 0x52f141d5, 0x428a2f98, 0xa2e48586, 0xf0e59b1a, 0x3124ec49);
    Turn(AFTER_OUTER_KEY, b, 1, 0xf0e59b1a, 0x0eafe3d5, 0x13412e6c, 0x6a6a2feb, 0x3124ec49, 0x51a4fd47, 0x6db095e8, 0x23bfa18a, 0x71374491, 0x3d27f9d8, 0x74d0a70d, 0xd9d2a173);
    Turn(AFTER_OUTER_KEY, b, 2, 0x74d0a70d, 0xf0e59b1a, 0x0eafe3d5, 0x13412e6c, 0xd9d2a173, 0x3124ec49, 0x51a4fd47, 0x6db095e8, 0xb5c0fbcf, 0x64ac8d80, 0x3e39426b, 0xb4d11325);
    Turn(AFTER_OUTER_KEY, b, 3, 0x3e39426b, 0x74d0a70d, 0xf0e59b1a, 0x0eafe3d5, 0xb4d11325, 0xd9d2a173, 0x3124ec49, 0x51a4fd47, 0xe9b5dba5, 0x2432a1ed, 0x3b3e45a9, 0x9b1e98cb);
    Turn(AFTER_OUTER_KEY, b, 4, 0x3b3e45a9, 0x3e39426b, 0x74d0a70d, 0xf0e59b1a, 0x9b1e98cb, 0xb4d11325, 0xd9d2a173, 0x3124ec49, 0x3956c25b, 0x477d8c4c, 0x13e61c3b, 0x2c0283b8);
    Turn(AFTER_OUTER_KEY, b, 5, 0x13e61c3b, 0x3b3e45a9, 0x3e39426b, 0x74d0a70d, 0x2c0283b8, 0x9b1e98cb, 0xb4d11325, 0xd9d2a173, 0x59f111f1, 0x6f349d16, 0xcb506feb, 0x4790de5c);
    Turn(AFTER_OUTER_KEY, b, 6, 0xcb506feb, 0x13e61c3b, 0x3b3e45a9, 0x3e39426b, 0x4790de5c, 0x2c0283b8, 0x9b1e98cb, 0xb4d11325, 0x923f82a4, 0xd4e7e917, 0x12acdcbb, 0x6939e327);
    Turn(AFTER_OUTER_KEY, b, 7, 0x12acdcbb, 0xcb506feb, 0x13e61c3b, 0x3b3e45a9, 0x6939e327, 0x4790de5c, 0x2c0283b8, 0x9b1e98cb, 0xab1c5ed5, 0xc629cad7, 0x5d1582d4, 0xf26e1dc0);
  }

  lemma InnerRounds8(b: Block)
    requires WordsAt(b, 0, Inner0)
    requires Rounds(AFTER_OUTER_KEY, b, 8) == Hash(0x5d1582d4, 0x12acdcbb, 0xcb506feb, 0x13e61c3b, 0xf26e1dc0, 0x6939e327, 0x4790de5c, 0x2c0283b8)
    ensures Rounds(AFTER_OUTER_KEY, b, 16) == Hash(0x524a1ef8, 0x8777eeed, 0x9af3cfc9, 0xb3f53c2a, 0x2e2fafb1, 0x6a605c43, 0x661ce7b3, 0xac6ca791)
  {
    hide W, Rounds, K;
    Constants8();
    Turn(AFTER_OUTER_KEY, b, 8, 0x5d1582d4, 0x12acdcbb, 0xcb506feb, 0x13e61c3b, 0xf26e1dc0, 0x6939e327, 0x4790de5c, 0x2c0283b8, 0xd807aa98, 0x80000000, 0x299dafa1, 0x8a822374);
    Turn(AFTER_OUTER_KEY, b, 9, 0x299dafa1, 0x5d1582d4, 0x12acdcbb, 0xcb506feb, 0x8a822374, 0xf26e1dc0, 0x6939e327, 0x4790de5c, 0x12835b01, 0x00000000, 0x96690f80, 0x064b4d17);
    Turn(AFTER_OUTER_KEY, b, 10, 0x96690f80, 0x299dafa1, 0x5d1582d4, 0x12acdcbb, 0x064b4d17, 0x8a822374, 0xf26e1dc0, 0x6939e327, 0x243185be, 0x00000000, 0x75af6d08, 0x6d9dc752);
    Turn(AFTER_OUTER_KEY, b, 11, 0x75af6d08, 0x96690f80, 0x299dafa1, 0x5d1582d4, 0x6d9dc752, 0x064b4d17, 0x8a822374, 0xf26e1dc0, 0x550c7dc3, 0x00000000, 0x38e7f5bb, 0x97b3f120);
    Turn(AFTER_OUTER_KEY, b, 12, 0x38e7f5bb, 0x75af6d08, 0x96690f80, 0x299dafa1, 0x97b3f120, 0x6d9dc752, 0x064b4d17, 0x8a822374, 0x72be5d74, 0x00000000, 0xb3f53c2a, 0xac6ca791);
    Turn(AFTER_OUTER_KEY, b, 13, 0xb3f53c2a, 0x38e7f5bb, 0x75af6d08, 0x96690f80, 0xac6ca791, 0x97b3f120, 0x6d9dc752, 0x064b4d17, 0x80deb1fe, 0x00000000, 0x9af3cfc9, 0x661ce7b3);
    Turn(AFTER_OUTER_KEY, b, 14, 0x9af3cfc9, 0xb3f53c2a, 0x38e7f5bb, 0x75af6d08, 0x661ce7b3, 0xac6ca791, 0x97b3f120, 0x6d9dc752, 0x9bdc06a7, 0x00000000, 0x8777eeed, 0x6a605c43);
    Turn(AFTER_OUTER_KEY, b, 15, 0x8777eeed, 0x9af3cfc9, 0xb3f53c2a, 0x38e7f5bb, 0x6a605c43, 0x661ce7b3, 0xac6ca791, 0x97b3f120, 0xc19bf174, 0x00000300, 0x524a1ef8, 0x2e2fafb1);
  }

  lemma InnerRounds16(b: Block)
    requires WordsAt(b, 16, Inner16)
    requires Rounds(AFTER_OUTER_KEY, b, 16) == Hash(0x524a1ef8, 0x8777eeed, 0x9af3cfc9, 0xb3f53c2a, 0x2e2fafb1, 0x6a605c43, 0x661ce7b3, 0xac6ca791)
    ensures Rounds(AFTER_OUTER_KEY, b, 24) == Hash(0xca1dd9eb, 0xe78abb5d, 0x513d0d3f, 0x28d0682e, 0xf34d277d, 0x8488c299, 0x9d044671, 0x4116203c)
  {
    hide W, Rounds, K;
    Constants16();
    Turn(AFTER_OUTER_KEY, b, 16, 0x524a1ef8, 0x8777eeed, 0x9af3cfc9, 0xb3f53c2a, 0x2e2fafb1, 0x6a605c43, 0x661ce7b3, 0xac6ca791, 0xe49b69c1, 0xec8d4507, 0x6ab009c8, 0xc1058262);
    Turn(AFTER_OUTER_KEY, b, 17, 0x6ab009c8, 0x524a1ef8, 0x8777eeed, 0x9af3cfc9, 0xc1058262, 0x2e2fafb1, 0x6a605c43, 0x661ce7b3, 0xefbe4786, 0x6e44cb58, 0x0b5d65cb, 0xcf16b054);
    Turn(AFTER_OUTER_KEY, b, 18, 0x0b5d65cb, 0x6ab009c8, 0x524a1ef8, 0x8777eeed, 0xcf16b054, 0xc1058262, 0x2e2fafb1, 0x6a605c43, 0x0fc19dc6, 0xe57a2e78, 0xf737884e, 0x9b3f39bf);
    Turn(AFTER_OUTER_KEY, b, 19, 0xf737884e, 0x0b5d65cb, 0x6ab009c8, 0x524a1ef8, 0x9b3f39bf, 0xcf16b054, 0xc1058262, 0x2e2fafb1, 0x240ca1cc, 0x1481a913, 0x14a85bed, 0xda2210a8);
    Turn(AFTER_OUTER_KEY, b, 20, 0x14a85bed, 0xf737884e, 0x0b5d65cb, 0x6ab009c8, 0xda2210a8, 0x9b3f39bf, 0xcf16b054, 0xc1058262, 0x2de92c6f, 0xa0c51e3a, 0x28d0682e, 0x4116203c);
    Turn(AFTER_OUTER_KEY, b, 21, 0x28d0682e, 0x14a85bed, 0xf737884e, 0x0b5d65cb, 0x4116203c, 0xda2210a8, 0x9b3f39bf, 0xcf16b054, 0x4a7484aa, 0x20542d99, 0x513d0d3f, 0x9d044671);
    Turn(AFTER_OUTER_KEY, b, 22, 0x513d0d3f, 0x28d0682e, 0x14a85bed, 0xf737884e, 0x9d044671, 0x4116203c, 0xda2210a8, 0x9b3f39bf, 0x5cb0a9dc, 0xc7d6bc99, 0xe78abb5d, 0x8488c299);
    Turn(AFTER_OUTER_KEY, b, 23, 0xe78abb5d, 0x513d0d3f, 0x28d0682e, 0x14a85bed, 0x8488c299, 0x9d044671, 0x4116203c, 0xda2210a8, 0x76f988da, 0x572ed109, 0xca1dd9eb, 0xf34d277d);
  }

  lemma InnerRounds24(b: Block)
    requires WordsAt(b, 16, Inner16)
    requires Rounds(AFTER_OUTER_KEY, b, 24) == Hash(0xca1dd9eb, 0xe78abb5d, 0x513d0d3f, 0x28d0682e, 0xf34d277d, 0x8488c299, 0x9d044671, 0x4116203c)
    ensures Rounds(AFTER_OUTER_KEY, b, 32) == Hash(0xf5637c6b, 0x6a101e8a, 0x88ff9220, 0x804e3e18, 0x36193288, 0xad346d31, 0x90550f47, 0x2b124b23)
  {
    hide W, Rounds, K;
    Constants24();
    Turn(AFTER_OUTER_KEY, b, 24, 0xca1dd9eb, 0xe78abb5d, 0x513d0d3f, 0x28d0682e, 0xf34d277d, 0x8488c299, 0x9d044671, 0x4116203c, 0x983e5152, 0x7832fa16, 0xaa4cb4b8, 0xc540f9ab);
    Turn(AFTER_OUTER_KEY, b, 25, 0xaa4cb4b8, 0xca1dd9eb, 0xe78abb5d, 0x513d0d3f, 0xc540f9ab, 0xf34d277d, 0x8488c299, 0x9d044671, 0xa831c66d, 0x982a793e, 0x80cb7f4b, 0x2a7734af);
    Turn(AFTER_OUTER_KEY, b, 26, 0x80cb7f4b, 0xaa4cb4b8, 0xca1dd9eb, 0xe78abb5d, 0x2a7734af, 0xc540f9ab, 0xf34d277d, 0x8488c299, 0xb00327c8, 0x36d9a8b4, 0x11668226, 0x370f480e);
    Turn(AFTER_OUTER_KEY, b, 27, 0x11668226, 0x80cb7f4b, 0xaa4cb4b8, 0xca1dd9eb, 0x370f480e, 0x2a7734af, 0xc540f9ab, 0xf34d277d, 0xbf597fc7, 0x1463b3c8, 0xf7c152af, 0x322ec278);
    Turn(AFTER_OUTER_KEY, b, 28, 0xf7c152af, 0x11668226, 0x80cb7f4b, 0xaa4cb4b8, 0x322ec278, 0x370f480e, 0x2a7734af, 0xc540f9ab, 0xc6e00bf3, 0x01955976, 0x804e3e18, 0x2b124b23);
    Turn(AFTER_OUTER_KEY, b, 29, 0x804e3e18, 0xf7c152af, 0x11668226, 0x80cb7f4b, 0x2b124b23, 0x322ec278, 0x370f480e, 0x2a7734af, 0xd5a79147, 0x776eccea, 0x88ff9220, 0x90550f47);
    Turn(AFTER_OUTER_KEY, b, 30, 0x88ff9220, 0x804e3e18, 0xf7c152af, 0x11668226, 0x90550f47, 0x2b124b23, 0x322ec278, 0x370f480e, 0x06ca6351, 0x5f84771d, 0x6a101e8a, 0xad346d31);
    Turn(AFTER_OUTER_KEY, b, 31, 0x6a101e8a, 0x88ff9220, 0x804e3e18, 0xf7c152af, 0xad346d31, 0x90550f47, 0x2b124b23, 0x322ec278, 0x14292967, 0x7b31f508, 0xf5637c6b, 0x36193288);
  }

  lemma InnerRounds32(b: Block)
    requires WordsAt(b, 32, Inner32)
    requires Rounds(AFTER_OUTER_KEY, b, 32) == Hash(0xf5637c6b, 0x6a101e8a, 0x88ff9220, 0x804e3e18, 0x36193288, 0xad346d31, 0x90550f47, 0x2b124b23)
    ensures Rounds(AFTER_OUTER_KEY, b, 40) == Hash(0x0939a676, 0x0d153365, 0x2e42d717, 0x3a8a934f, 0x0015e35d, 0x8e8430d5, 0xd54ff5d9, 0x6e0359bc)
  {
    hide W, Rounds, K;
    Constants32();
    Turn(AFTER_OUTER_KEY, b, 32, 0xf5637c6b, 0x6a101e8a, 0x88ff9220, 0x804e3e18, 0x36193288, 0xad346d31, 0x90550f47, 0x2b124b23, 0x27b70a85, 0xc9f4aee0, 0xbac40fc4, 0xbea853de);
    Turn(AFTER_OUTER_KEY, b, 33, 0xbac40fc4, 0xf5637c6b, 0x6a101e8a, 0x88ff9220, 0xbea853de, 0x36193288, 0xad346d31, 0x90550f47, 0x2e1b2138, 0xd055fb5c, 0x55d2eba2, 0xa3e697be);
    Turn(AFTER_OUTER_KEY, b, 34, 0x55d2eba2, 0xbac40fc4, 0xf5637c6b, 0x6a101e8a, 0xa3e697be, 0xbea853de, 0x36193288, 0xad346d31, 0x4d2c6dfc, 0x0b79d67f, 0x342f2c31, 0x24b43db1);
    Turn(AFTER_OUTER_KEY, b, 35, 0x342f2c31, 0x55d2eba2, 0xbac40fc4, 0xf5637c6b, 0x24b43db1, 0xa3e697be, 0xbea853de, 0x36193288, 0x53380d13, 0x7fe06bb1, 0xb17f8072, 0xe1ea1e98);
    Turn(AFTER_OUTER_KEY, b, 36, 0xb17f8072, 0x342f2c31, 0x55d2eba2, 0xbac40fc4, 0xe1ea1e98, 0x24b43db1, 0xa3e697be, 0xbea853de, 0x650a7354, 0x27530bc7, 0x3a8a934f, 0x6e0359bc);
    Turn(AFTER_OUTER_KEY, b, 37, 0x3a8a934f, 0xb17f8072, 0x342f2c31, 0x55d2eba2, 0x6e0359bc, 0xe1ea1e98, 0x24b43db1, 0xa3e697be, 0x766a0abb, 0x3cdd17eb, 0x2e42d717, 0xd54ff5d9);
    Turn(AFTER_OUTER_KEY, b, 38, 0x2e42d717, 0x3a8a934f, 0xb17f8072, 0x342f2c31, 0xd54ff5d9, 0x6e0359bc, 0xe1ea1e98, 0x24b43db1, 0x81c2c92e, 0xd3a5276a, 0x0d153365, 0x8e8430d5);
    Turn(AFTER_OUTER_KEY, b, 39, 0x0d153365, 0x2e42d717, 0x3a8a934f, 0xb17f8072, 0x8e8430d5, 0xd54ff5d9, 0x6e0359bc, 0xe1ea1e98, 0x92722c85, 0xe79ef353, 0x0939a676, 0x0015e35d);
  }

  lemma InnerRounds40(b: Block)
    requires WordsAt(b, 32, Inner32)
    requires Rounds(AFTER_OUTER_KEY, b, 40) == Hash(0x0939a676, 0x0d153365, 0x2e42d717, 0x3a8a934f, 0x0015e35d, 0x8e8430d5, 0xd54ff5d9, 0x6e0359bc)
    ensures Rounds(AFTER_OUTER_KEY, b, 48) == Hash(0x5ab28db9, 0xa4d05bd3, 0x0795c206, 0x31c61bbf, 0x4504e9e3, 0xc04b2c11, 0xb061e903, 0x9b30b56e)
  {
    hide W, Rounds, K;
    Constants40();
    Turn(AFTER_OUTER_KEY, b, 40, 0x0939a676, 0x0d153365, 0x2e42d717, 0x3a8a934f, 0x0015e35d, 0x8e8430d5, 0xd54ff5d9, 0x6e0359bc, 0xa2bfe8a1, 0x70708e40, 0xd04db10e, 0xa65e9472);
    Turn(AFTER_OUTER_KEY, b, 41, 0xd04db10e, 0x0939a676, 0x0d153365, 0x2e42d717, 0xa65e9472, 0x0015e35d, 0x8e8430d5, 0xd54ff5d9, 0xa81a664b, 0x503a442e, 0x558052cc, 0x7003a10e);
    Turn(AFTER_OUTER_KEY, b, 42, 0x558052cc, 0xd04db10e, 0x0939a676, 0x0d153365, 0x7003a10e, 0xa65e9472, 0x0015e35d, 0x8e8430d5, 0xc24b8b70, 0x8c04f280, 0xea1d3715, 0x23df2e45);
    Turn(AFTER_OUTER_KEY, b, 43, 0xea1d3715, 0x558052cc, 0xd04db10e, 0x0939a676, 0x23df2e45, 0x7003a10e, 0xa65e9472, 0x0015e35d, 0xc76c51a3, 0x60a9ae13, 0x86ed36a6, 0x09255f8c);
    Turn(AFTER_OUTER_KEY, b, 44, 0x86ed36a6, 0xea1d3715, 0x558052cc, 0xd04db10e, 0x09255f8c, 0x23df2e45, 0x7003a10e, 0xa65e9472, 0xd192e819, 0x8edf61fe, 0x31c61bbf, 0x9b30b56e);
    Turn(AFTER_OUTER_KEY, b, 45, 0x31c61bbf, 0x86ed36a6, 0xea1d3715, 0x558052cc, 0x9b30b56e, 0x09255f8c, 0x23df2e45, 0x7003a10e, 0xd6990624, 0x5a70bc6a, 0x0795c206, 0xb061e903);
    Turn(AFTER_OUTER_KEY, b, 46, 0x0795c206, 0x31c61bbf, 0x86ed36a6, 0xea1d3715, 0xb061e903, 0x9b30b56e, 0x09255f8c, 0x23df2e45, 0xf40e3585, 0x06d8cf63, 0xa4d05bd3, 0xc04b2c11);
    Turn(AFTER_OUTER_KEY, b, 47, 0xa4d05bd3, 0x0795c206, 0x31c61bbf, 0x86ed36a6, 0xc04b2c11, 0xb061e903, 0x9b30b56e, 0x09255f8c, 0x106aa070, 0x2866cc9d, 0x5ab28db9, 0x4504e9e3);
  }

  lemma InnerRounds48(b: Block)
    requires WordsAt(b, 48, Inner48)
    requires Rounds(AFTER_OUTER_KEY, b, 48) == Hash(0x5ab28db9, 0xa4d05bd3, 0x0795c206, 0x31c61bbf, 0x4504e9e3, 0xc04b2c11, 0xb061e903, 0x9b30b56e)
    ensures Rounds(AFTER_OUTER_KEY, b, 56) == Hash(0x13793033, 0x7e24f1f8, 0x7ffaa436, 0x1eb1f18c, 0xbf9e1c90, 0xfbf6b1b0, 0xee54ab78, 0xf954931b)
  {
    hide W, Rounds, K;
    Constants48();
    Turn(AFTER_OUTER_KEY, b, 48, 0x5ab28db9, 0xa4d05bd3, 0x0795c206, 0x31c61bbf, 0x4504e9e3, 0xc04b2c11, 0xb061e903, 0x9b30b56e, 0x19a4c116, 0x7608691a, 0x4628a95a, 0x800d65f6);
    Turn(AFTER_OUTER_KEY, b, 49, 0x4628a95a, 0x5ab28db9, 0xa4d05bd3, 0x0795c206, 0x800d65f6, 0x4504e9e3, 0xc04b2c11, 0xb061e903, 0x1e376c08, 0xa7182225, 0xd908ac74, 0x1ff07294);
    Turn(AFTER_OUTER_KEY, b, 50, 0xd908ac74, 0x4628a95a, 0x5ab28db9, 0xa4d05bd3, 0x1ff07294, 0x800d65f6, 0x4504e9e3, 0xc04b2c11, 0x2748774c, 0x1dc70eca, 0x11a2ef9d, 0xe4f56dbc);
    Turn(AFTER_OUTER_KEY, b, 51, 0x11a2ef9d, 0xd908ac74, 0x4628a95a, 0x5ab28db9, 0xe4f56dbc, 0x1ff07294, 0x800d65f6, 0x4504e9e3, 0x34b0bcb5, 0x6c947dd1, 0x2e630aba, 0x84aea861);
    Turn(AFTER_OUTER_KEY, b, 52, 0x2e630aba, 0x11a2ef9d, 0xd908ac74, 0x4628a95a, 0x84aea861, 0xe4f56dbc, 0x1ff07294, 0x800d65f6, 0x391c0cb3, 0x7c97dcae, 0x1eb1f18c, 0xf954931b);
    Turn(AFTER_OUTER_KEY, b, 53, 0x1eb1f18c, 0x2e630aba, 0x11a2ef9d, 0xd908ac74, 0xf954931b, 0x84aea861, 0xe4f56dbc, 0x1ff07294, 0x4ed8aa4a, 0x7b09005f, 0x7ffaa436, 0xee54ab78);
    Turn(AFTER_OUTER_KEY, b, 54, 0x7ffaa436, 0x1eb1f18c, 0x2e630aba, 0x11a2ef9d, 0xee54ab78, 0xf954931b, 0x84aea861, 0xe4f56dbc, 0x5b9cca4f, 0x19d1e2a0, 0x7e24f1f8, 0xfbf6b1b0);
    Turn(AFTER_OUTER_KEY, b, 55, 0x7e24f1f8, 0x7ffaa436, 0x1eb1f18c, 0x2e630aba, 0xfbf6b1b0, 0xee54ab78, 0xf954931b, 0x84aea861, 0x682e6ff3, 0xab60d9da, 0x13793033, 0xbf9e1c90);
  }

  lemma InnerRounds56(b: Block)
    requires WordsAt(b, 48, Inner48)
    requires Rounds(AFTER_OUTER_KEY, b, 56) == Hash(0x13793033, 0x7e24f1f8, 0x7ffaa436, 0x1eb1f18c, 0xbf9e1c90, 0xfbf6b1b0, 0xee54ab78, 0xf954931b)
    ensures Rounds(AFTER_OUTER_KEY, b, 64) == Hash(0x4d2cdd71, 0xac1f46e2, 0xff99f43b, 0xdb5e1afb, 0x085b41c1, 0x2f76a39b, 0x7a2cb72f, 0x11faf66e)
  {
    hide W, Rounds, K;
    Constants56();
    Turn(AFTER_OUTER_KEY, b, 56, 0x13793033, 0x7e24f1f8, 0x7ffaa436, 0x1eb1f18c, 0xbf9e1c90, 0xfbf6b1b0, 0xee54ab78, 0xf954931b, 0x748f82ee, 0xac37d412, 0x56d92dbb, 0x548c538d);
    Turn(AFTER_OUTER_KEY, b, 57, 0x56d92dbb, 0x13793033, 0x7e24f1f8, 0x7ffaa436, 0x548c538d, 0xbf9e1c90, 0xfbf6b1b0, 0xee54ab78, 0x78a5636f, 0x1236e096, 0x6f544952, 0xbbfbaad1);
    Turn(AFTER_OUTER_KEY, b, 58, 0x6f544952, 0x56d92dbb, 0x13793033, 0x7e24f1f8, 0xbbfbaad1, 0x548c538d, 0xbf9e1c90, 0xfbf6b1b0, 0x84c87814, 0x4a8a3d6d, 0x989fc133, 0x3f0868ad);
    Turn(AFTER_OUTER_KEY, b, 59, 0x989fc133, 0x6f544952, 0x56d92dbb, 0x13793033, 0x3f0868ad, 0xbbfbaad1, 0x548c538d, 0xbf9e1c90, 0x8cc70208, 0xbe58c2f1, 0x9b56f73d, 0xbf32e36d);
    Turn(AFTER_OUTER_KEY, b, 60, 0x9b56f73d, 0x989fc133, 0x6f544952, 0x56d92dbb, 0xbf32e36d, 0x3f0868ad, 0xbbfbaad1, 0x548c538d, 0x90befffa, 0x53d27161, 0xdb5e1afb, 0x11faf66e);
    Turn(AFTER_OUTER_KEY, b, 61, 0xdb5e1afb, 0x9b56f73d, 0x989fc133, 0x6f544952, 0x11faf66e, 0xbf32e36d, 0x3f0868ad, 0xbbfbaad1, 0xa4506ceb, 0xe25a87a5, 0xff99f43b, 0x7a2cb72f);
    Turn(AFTER_OUTER_KEY, b, 62, 0xff99f43b, 0xdb5e1afb, 0x9b56f73d, 0x989fc133, 0x7a2cb72f, 0x11faf66e, 0xbf32e36d, 0x3f0868ad, 0xbef9a3f7, 0xb53d7e5f, 0xac1f46e2, 0x2f76a39b);
    Turn(AFTER_OUTER_KEY, b, 63, 0xac1f46e2, 0xff99f43b, 0xdb5e1afb, 0x9b56f73d, 0x2f76a39b, 0x7a2cb72f, 0x11faf66e, 0xbf32e36d, 0xc67178f2, 0x0828fce9, 0x4d2cdd71, 0x085b41c1);
  }

  lemma InnerBlock(b: Block)
    requires WordsAt(b, 0, Inner0)
    ensures Compress(AFTER_OUTER_KEY, b) == RESULT
  {
    hide W, Rounds, Round, WordsAt;
    NoRounds(AFTER_OUTER_KEY, b);
    InnerWords16(b);
    InnerWords32(b);
    InnerWords48(b);
    InnerRounds0(b);
    InnerRounds8(b);
    InnerRounds16(b);
    InnerRounds24(b);
    InnerRounds32(b);
    InnerRounds40(b);
    InnerRounds48(b);
    InnerRounds56(b);
  }

  // ---- the bytes of the blocks ----

  lemma FirstSixteen(b: Block)
    ensures forall t | 0 <= t < 16 :: W(b, t) == Load(b, t)
  {
    hide Load, W;
    forall t | 0 <= t < 16 ensures W(b, t) == Load(b, t) {
      FirstWords(b, t);
    }
  }

  /** The key's block under a mask: four bytes of key, and the mask itself. */
  lemma KeyBytes(c: bv8)
    ensures var b := Xored(KeyBlock(KEY), c);
            && b[0] == 0x4a ^ c && b[1] == 0x65 ^ c && b[2] == 0x66 ^ c && b[3] == 0x65 ^ c
            && forall i | 4 <= i < 64 :: b[i] == c
  {
    hide Zeros;
    ZeroMasked(c);
    ZerosAre(60);
    assert KeyBlock(KEY) == KEY + Zeros(60);
  }

  lemma ZeroMasked(c: bv8)
    ensures 0 ^ c == c
  {
  }

  lemma InnerKeyLoaded()
    ensures WordsAt(Xored(KeyBlock(KEY), 0x36), 0, InnerKey0)
  {
    hide W, Load, Xored, KeyBlock;
    var b := Xored(KeyBlock(KEY), 0x36);
    KeyBytes(0x36);
    LoadIs(b, 0, 0x7c, 0x53, 0x50, 0x53, 0x7c535053);
    forall t | 1 <= t < 16
      ensures Load(b, t) == 0x36363636
    {
      LoadIs(b, t, 0x36, 0x36, 0x36, 0x36, 0x36363636);
    }
    FirstSixteen(b);
  }

  lemma OuterKeyLoaded()
    ensures WordsAt(Xored(KeyBlock(KEY), 0x5c), 0, OuterKey0)
  {
    hide W, Load, Xored, KeyBlock;
    var b := Xored(KeyBlock(KEY), 0x5c);
    KeyBytes(0x5c);
    LoadIs(b, 0, 0x16, 0x39, 0x3a, 0x39, 0x16393a39);
    forall t | 1 <= t < 16
      ensures Load(b, t) == 0x5c5c5c5c
    {
      LoadIs(b, t, 0x5c, 0x5c, 0x5c, 0x5c, 0x5c5c5c5c);
    }
    FirstSixteen(b);
  }

  lemma TextFront(b: Block)
    requires (forall i | 0 <= i < 28 :: b[i] == TEXT[i])
    ensures Load(b, 0) == 0x77686174 && Load(b, 1) == 0x20646f20 && Load(b, 2) == 0x79612077 && Load(b, 3) == 0x616e7420
  {
    hide Load;
    LoadIs(b, 0, 0x77, 0x68, 0x61, 0x74, 0x77686174);
    LoadIs(b, 1, 0x20, 0x64, 0x6f, 0x20, 0x20646f20);
    LoadIs(b, 2, 0x79, 0x61, 0x20, 0x77, 0x79612077);
    LoadIs(b, 3, 0x61, 0x6e, 0x74, 0x20, 0x616e7420);
  }

  lemma TextBack(b: Block)
    requires (forall i | 16 <= i < 28 :: b[i] == TEXT[i]) && b[28] == 0x80
    requires (forall i | 28 < i < 62 :: b[i] == 0) && b[62] == 0x02 && b[63] == 0xe0
    ensures Load(b, 4) == 0x666f7220 && Load(b, 5) == 0x6e6f7468 && Load(b, 6) == 0x696e673f && Load(b, 7) == 0x80000000
    ensures Load(b, 8) == 0x00000000 && Load(b, 9) == 0x00000000 && Load(b, 10) == 0x00000000 && Load(b, 11) == 0x00000000
    ensures Load(b, 12) == 0x00000000 && Load(b, 13) == 0x00000000 && Load(b, 14) == 0x00000000 && Load(b, 15) == 0x000002e0
  {
    hide Load;
    LoadIs(b, 4, 0x66, 0x6f, 0x72, 0x20, 0x666f7220);
    LoadIs(b, 5, 0x6e, 0x6f, 0x74, 0x68, 0x6e6f7468);
    LoadIs(b, 6, 0x69, 0x6e, 0x67, 0x3f, 0x696e673f);
    LoadIs(b, 7, 0x80, 0x00, 0x00, 0x00, 0x80000000);
    LoadIs(b, 8, 0x00, 0x00, 0x00, 0x00, 0x00000000);
    LoadIs(b, 9, 0x00, 0x00, 0x00, 0x00, 0x00000000);
    LoadIs(b, 10, 0x00, 0x00, 0x00, 0x00, 0x00000000);
    LoadIs(b, 11, 0x00, 0x00, 0x00, 0x00, 0x00000000);
    LoadIs(b, 12, 0x00, 0x00, 0x00, 0x00, 0x00000000);
    LoadIs(b, 13, 0x00, 0x00, 0x00, 0x00, 0x00000000);
    LoadIs(b, 14, 0x00, 0x00, 0x00, 0x00, 0x00000000);
    LoadIs(b, 15, 0x00, 0x00, 0x02, 0xe0, 0x000002e0);
  }

  lemma TextWords(b: Block)
    requires Load(b, 0) == 0x77686174 && Load(b, 1) == 0x20646f20 && Load(b, 2) == 0x79612077 && Load(b, 3) == 0x616e7420
    requires Load(b, 4) == 0x666f7220 && Load(b, 5) == 0x6e6f7468 && Load(b, 6) == 0x696e673f && Load(b, 7) == 0x80000000
    requires Load(b, 8) == 0x00000000 && Load(b, 9) == 0x00000000 && Load(b, 10) == 0x00000000 && Load(b, 11) == 0x00000000
    requires Load(b, 12) == 0x00000000 && Load(b, 13) == 0x00000000 && Load(b, 14) == 0x00000000 && Load(b, 15) == 0x000002e0
    ensures WordsAt(b, 0, Text0)
  {
    hide W, Load;
    FirstSixteen(b);
  }

  lemma TextLoaded() returns (b: Block)
    ensures b == TEXT + Padding(92) && WordsAt(b, 0, Text0)
  {
    hide W, Load, Padding, WordsAt;
    b := LastBlock(TEXT, 92, 2, 224);
    TextFront(b);
    TextBack(b);
    TextWords(b);
  }

  const INNER_BYTES: Bytes :=
    [0xa2, 0xe4, 0x85, 0x86, 0x3d, 0x27, 0xf9, 0xd8, 0x64, 0xac, 0x8d, 0x80, 0x24, 0x32, 0xa1, 0xed]
    + [0x47, 0x7d, 0x8c, 0x4c, 0x6f, 0x34, 0x9d, 0x16, 0xd4, 0xe7, 0xe9, 0x17, 0xc6, 0x29, 0xca, 0xd7]

  lemma InnerFront(b: Block)
    requires (forall i | 0 <= i < 32 :: b[i] == INNER_BYTES[i])
    ensures Load(b, 0) == 0xa2e48586 && Load(b, 1) == 0x3d27f9d8 && Load(b, 2) == 0x64ac8d80 && Load(b, 3) == 0x2432a1ed
    ensures Load(b, 4) == 0x477d8c4c && Load(b, 5) == 0x6f349d16 && Load(b, 6) == 0xd4e7e917 && Load(b, 7) == 0xc629cad7
  {
    hide Load;
    LoadIs(b, 0, 0xa2, 0xe4, 0x85, 0x86, 0xa2e48586);
    LoadIs(b, 1, 0x3d, 0x27, 0xf9, 0xd8, 0x3d27f9d8);
    LoadIs(b, 2, 0x64, 0xac, 0x8d, 0x80, 0x64ac8d80);
    LoadIs(b, 3, 0x24, 0x32, 0xa1, 0xed, 0x2432a1ed);
    LoadIs(b, 4, 0x47, 0x7d, 0x8c, 0x4c, 0x477d8c4c);
    LoadIs(b, 5, 0x6f, 0x34, 0x9d, 0x16, 0x6f349d16);
    LoadIs(b, 6, 0xd4, 0xe7, 0xe9, 0x17, 0xd4e7e917);
    LoadIs(b, 7, 0xc6, 0x29, 0xca, 0xd7, 0xc629cad7);
  }

  lemma InnerBack(b: Block)
    requires b[32] == 0x80
    requires (forall i | 32 < i < 62 :: b[i] == 0) && b[62] == 0x03 && b[63] == 0x00
    ensures Load(b, 8) == 0x80000000 && Load(b, 9) == 0x00000000 && Load(b, 10) == 0x00000000 && Load(b, 11) == 0x00000000
    ensures Load(b, 12) == 0x00000000 && Load(b, 13) == 0x00000000 && Load(b, 14) == 0x00000000 && Load(b, 15) == 0x00000300
  {
    hide Load;
    LoadIs(b, 8, 0x80, 0x00, 0x00, 0x00, 0x80000000);
    LoadIs(b, 9, 0x00, 0x00, 0x00, 0x00, 0x00000000);
    LoadIs(b, 10, 0x00, 0x00, 0x00, 0x00, 0x00000000);
    LoadIs(b, 11, 0x00, 0x00, 0x00, 0x00, 0x00000000);
    LoadIs(b, 12, 0x00, 0x00, 0x00, 0x00, 0x00000000);
    LoadIs(b, 13, 0x00, 0x00, 0x00, 0x00, 0x00000000);
    LoadIs(b, 14, 0x00, 0x00, 0x00, 0x00, 0x00000000);
    LoadIs(b, 15, 0x00, 0x00, 0x03, 0x00, 0x00000300);
  }

  lemma InnerWords(b: Block)
    requires Load(b, 0) == 0xa2e48586 && Load(b, 1) == 0x3d27f9d8 && Load(b, 2) == 0x64ac8d80 && Load(b, 3) == 0x2432a1ed
    requires Load(b, 4) == 0x477d8c4c && Load(b, 5) == 0x6f349d16 && Load(b, 6) == 0xd4e7e917 && Load(b, 7) == 0xc629cad7
    requires Load(b, 8) == 0x80000000 && Load(b, 9) == 0x00000000 && Load(b, 10) == 0x00000000 && Load(b, 11) == 0x00000000
    requires Load(b, 12) == 0x00000000 && Load(b, 13) == 0x00000000 && Load(b, 14) == 0x00000000 && Load(b, 15) == 0x00000300
    ensures WordsAt(b, 0, Inner0)
  {
    hide W, Load;
    FirstSixteen(b);
  }

  lemma InnerLoaded() returns (b: Block)
    ensures b == INNER_BYTES + Padding(96) && WordsAt(b, 0, Inner0)
  {
    hide W, Load, Padding, WordsAt;
    b := LastBlock(INNER_BYTES, 96, 3, 0);
    InnerFront(b);
    InnerBack(b);
    InnerWords(b);
  }

  // ---- the digests ----

  lemma InnerOutput()
    ensures Output(INNER_DIGEST) == INNER_BYTES
  {
    hide WordBytes;
    WordIs(0xa2e48586, 0xa2, 0xe4, 0x85, 0x86);
    WordIs(0x3d27f9d8, 0x3d, 0x27, 0xf9, 0xd8);
    WordIs(0x64ac8d80, 0x64, 0xac, 0x8d, 0x80);
    WordIs(0x2432a1ed, 0x24, 0x32, 0xa1, 0xed);
    WordIs(0x477d8c4c, 0x47, 0x7d, 0x8c, 0x4c);
    WordIs(0x6f349d16, 0x6f, 0x34, 0x9d, 0x16);
    WordIs(0xd4e7e917, 0xd4, 0xe7, 0xe9, 0x17);
    WordIs(0xc629cad7, 0xc6, 0x29, 0xca, 0xd7);
  }

  lemma ResultOutput()
    ensures Output(RESULT) == ANSWER
  {
    hide WordBytes;
    WordIs(0x5bdcc146, 0x5b, 0xdc, 0xc1, 0x46);
    WordIs(0xbf60754e, 0xbf, 0x60, 0x75, 0x4e);
    WordIs(0x6a042426, 0x6a, 0x04, 0x24, 0x26);
    WordIs(0x089575c7, 0x08, 0x95, 0x75, 0xc7);
    WordIs(0x5a003f08, 0x5a, 0x00, 0x3f, 0x08);
    WordIs(0x9d273983, 0x9d, 0x27, 0x39, 0x83);
    WordIs(0x9dec58b9, 0x9d, 0xec, 0x58, 0xb9);
    WordIs(0x64ec3843, 0x64, 0xec, 0x38, 0x43);
  }

  /** A message of one whole block and a last one. */
  lemma TwoBlocks(first: Block, m: Bytes, last: Block)
    requires last == m + Padding(64 + |m|)
    ensures Digest(first + m) == Output(Compress(Compress(H0, first), last))
  {
    hide Compress, Output, Padding, Fold;
    NothingFolded();
    assert [] + first == first;
    FoldSnoc(Compress, H0, [], first);
    FoldSnoc(Compress, H0, first, last);
    assert first + m + Padding(|first + m|) == first + last;
  }

  lemma NothingFolded()
    ensures Fold(Compress, H0, []) == H0
  {
    hide Compress;
  }

  /** What the test case says. */
  lemma KnownAnswer()
    ensures Mac(KEY, TEXT) == ANSWER
  {
    hide Digest, Compress, Xored, KeyBlock, Output, WordsAt, Padding;
    var inner, outer := Xored(KeyBlock(KEY), 0x36), Xored(KeyBlock(KEY), 0x5c);
    var text := TextLoaded();
    var digest := InnerLoaded();
    InnerKeyLoaded();
    OuterKeyLoaded();
    InnerKeyBlock(inner);
    TextBlock(text);
    OuterKeyBlock(outer);
    InnerBlock(digest);
    InnerOutput();
    ResultOutput();
    TwoBlocks(inner, TEXT, text);
    TwoBlocks(outer, INNER_BYTES, digest);
  }
}
