/** Section 2.2 of RFC 5794 written out, and its Appendix A.1, which fix what the code and its specification share. */
module AriaVectors {
  import opened Words
  import opened HexBlocks
  import opened Rotation
  import opened AesTables
  import opened AesField
  import opened AriaTables
  import opened AriaSpec
  import opened Aria

  // ----- the seventeen round keys -----------------------------------------------------------------------------

  lemma WideInjective(a: Quad, b: Quad)
    requires WideOf(a) == WideOf(b)
    ensures a == b
  {
    WideParts(a.w0, a.w1, a.w2, a.w3);
    WideParts(b.w0, b.w1, b.w2, b.w3);
    hide Wide;
  }

  lemma WideParts(a: bv32, b: bv32, c: bv32, d: bv32)
    ensures var x := Wide(a, b, c, d);
            && a == (x >> 96) as bv32 && b == ((x >> 64) & 0xFFFFFFFF) as bv32
            && c == ((x >> 32) & 0xFFFFFFFF) as bv32 && d == (x & 0xFFFFFFFF) as bv32
  {
  }

  lemma RoundKeyWords(k: Quad, w: seq<Quad>, i: nat, a: nat, b: nat, n: nat)
    requires |w| == 4 && i < 17 && IsRoundKey(k, w, i) && a == i % 4 && b == (i + 1) % 4 && n == AMOUNTS[i / 4]
    ensures k == XorQuad(RolQuad(w[b], n), w[a])
  {
    hide WideOf, Rotated, XorQuad, AMOUNTS, RolQuad;
    var r: Quad :| WideOf(r) == Rotated(WideOf(w[b]), n) && k == XorQuad(r, w[a]);
    Rotates(w[b], n);
    WideInjective(r, RolQuad(w[b], n));
  }

  /** A right rotation is the left rotation by the rest. */
  function RorQuad(q: Quad, n: nat): Quad
    requires n <= 128
  {
    RolQuad(q, 128 - n)
  }

  /** ek1 to ek8, section 2.2; RolQuad is the rotation of the 128-bit string (Aria.Rotates). */
  lemma FirstRoundKeys(k: seq<Quad>, w: seq<Quad>)
    requires |w| == 4 && |k| == 17 && forall i :: 0 <= i < 17 ==> IsRoundKey(k[i], w, i)
    ensures var (w0, w1, w2, w3) := (w[0], w[1], w[2], w[3]);
            && k[0] == XorQuad(RorQuad(w1, 19), w0)
            && k[1] == XorQuad(RorQuad(w2, 19), w1)
            && k[2] == XorQuad(RorQuad(w3, 19), w2)
            && k[3] == XorQuad(RorQuad(w0, 19), w3)
            && k[4] == XorQuad(RorQuad(w1, 31), w0)
            && k[5] == XorQuad(RorQuad(w2, 31), w1)
            && k[6] == XorQuad(RorQuad(w3, 31), w2)
            && k[7] == XorQuad(RorQuad(w0, 31), w3)
  {
    hide WideOf, Rotated, IsRoundKey, XorQuad, RolQuad;
    RoundKeyWords(k[0], w, 0, 0, 1, 109);
    RoundKeyWords(k[1], w, 1, 1, 2, 109);
    RoundKeyWords(k[2], w, 2, 2, 3, 109);
    RoundKeyWords(k[3], w, 3, 3, 0, 109);
    RoundKeyWords(k[4], w, 4, 0, 1, 97);
    RoundKeyWords(k[5], w, 5, 1, 2, 97);
    RoundKeyWords(k[6], w, 6, 2, 3, 97);
    RoundKeyWords(k[7], w, 7, 3, 0, 97);
  }

  /** ek9 to ek17. */
  lemma LastRoundKeys(k: seq<Quad>, w: seq<Quad>)
    requires |w| == 4 && |k| == 17 && forall i :: 0 <= i < 17 ==> IsRoundKey(k[i], w, i)
    ensures var (w0, w1, w2, w3) := (w[0], w[1], w[2], w[3]);
            && k[8] == XorQuad(RolQuad(w1, 61), w0)
            && k[9] == XorQuad(RolQuad(w2, 61), w1)
            && k[10] == XorQuad(RolQuad(w3, 61), w2)
            && k[11] == XorQuad(RolQuad(w0, 61), w3)
            && k[12] == XorQuad(RolQuad(w1, 31), w0)
            && k[13] == XorQuad(RolQuad(w2, 31), w1)
            && k[14] == XorQuad(RolQuad(w3, 31), w2)
            && k[15] == XorQuad(RolQuad(w0, 31), w3)
            && k[16] == XorQuad(RolQuad(w1, 19), w0)
  {
    hide WideOf, Rotated, IsRoundKey, XorQuad, RolQuad;
    RoundKeyWords(k[8], w, 8, 0, 1, 61);
    RoundKeyWords(k[9], w, 9, 1, 2, 61);
    RoundKeyWords(k[10], w, 10, 2, 3, 61);
    RoundKeyWords(k[11], w, 11, 3, 0, 61);
    RoundKeyWords(k[12], w, 12, 0, 1, 31);
    RoundKeyWords(k[13], w, 13, 1, 2, 31);
    RoundKeyWords(k[14], w, 14, 2, 3, 31);
    RoundKeyWords(k[15], w, 15, 3, 0, 31);
    RoundKeyWords(k[16], w, 16, 0, 1, 19);
  }

  /** CK1, CK2 and CK3 for each key size, section 2.2. */
  lemma ConstantOrder()
    ensures FirstConstant(16) == 0 && FirstConstant(24) == 1 && FirstConstant(32) == 2
    ensures C == [Quad(0x517CC1B7, 0x27220A94, 0xFE13ABE8, 0xFA9A6EE0),
                  Quad(0x6DB14ACC, 0x9E21C820, 0xFF28B1D5, 0xEF5DE2B0),
                  Quad(0xDB92371D, 0x2126E970, 0x03249775, 0x04E8C90E)]
  {
  }

  /** KL and KR, section 2.2: a key of less than 32 bytes is filled up with zeros. */
  lemma LeftBytes(key: seq<bv8>)
    requires |key| >= 16
    ensures StoreBlock(LeftHalf(key)) == key[..16]
  {
    hide Load32BE, Store32BE;
    WordAgain(key, 0);
    WordAgain(key, 4);
    WordAgain(key, 8);
    WordAgain(key, 12);
    assert key[..16] == key[0..4] + key[4..8] + key[8..12] + key[12..16];
  }

  lemma RightBytes(key: seq<bv8>)
    requires |key| == 32
    ensures StoreBlock(RightHalf(key)) == key[16..]
  {
    hide Load32BE, Store32BE;
    WordAgain(key, 16);
    WordAgain(key, 20);
    WordAgain(key, 24);
    WordAgain(key, 28);
    assert key[16..] == key[16..20] + key[20..24] + key[24..28] + key[28..32];
  }

  lemma RightHalfBytes(key: seq<bv8>)
    requires |key| == 24
    ensures StoreBlock(RightHalf(key)) == key[16..] + Store32BE(0) + Store32BE(0)
  {
    hide Load32BE, Store32BE;
    WordAgain(key, 16);
    WordAgain(key, 20);
    assert key[16..] == key[16..20] + key[20..24];
  }

  /** KL and KR, section 2.2: a key of less than 32 bytes is filled up with zeros. */
  lemma KeyHalves(key: seq<bv8>)
    requires |key| in {16, 24, 32}
    ensures StoreBlock(LeftHalf(key)) == key[..16]
    ensures |key| == 16 ==> RightHalf(key) == Quad(0, 0, 0, 0)
    ensures |key| == 24 ==> StoreBlock(RightHalf(key)) == key[16..] + Store32BE(0) + Store32BE(0)
    ensures |key| == 32 ==> StoreBlock(RightHalf(key)) == key[16..]
  {
    hide Load32BE, Store32BE, StoreBlock;
    LeftBytes(key);
    if |key| == 24 {
      RightHalfBytes(key);
    } else if |key| == 32 {
      RightBytes(key);
    }
  }

  // ----- evaluation, one step at a time ------------------------------------------------------------------

  /** y is the block t after the diffusion. */
  predicate Diffused(t: Block, y: Block) {
    && Sum7(t.x3, t.x4, t.x6, t.x8, t.x9, t.x13, t.x14) == y.x0
    && Sum7(t.x2, t.x5, t.x7, t.x8, t.x9, t.x12, t.x15) == y.x1
    && Sum7(t.x1, t.x4, t.x6, t.x10, t.x11, t.x12, t.x15) == y.x2
    && Sum7(t.x0, t.x5, t.x7, t.x10, t.x11, t.x13, t.x14) == y.x3
    && Sum7(t.x0, t.x2, t.x5, t.x8, t.x11, t.x14, t.x15) == y.x4
    && Sum7(t.x1, t.x3, t.x4, t.x9, t.x10, t.x14, t.x15) == y.x5
    && Sum7(t.x0, t.x2, t.x7, t.x9, t.x10, t.x12, t.x13) == y.x6
    && Sum7(t.x1, t.x3, t.x6, t.x8, t.x11, t.x12, t.x13) == y.x7
    && Sum7(t.x0, t.x1, t.x4, t.x7, t.x10, t.x13, t.x15) == y.x8
    && Sum7(t.x0, t.x1, t.x5, t.x6, t.x11, t.x12, t.x14) == y.x9
    && Sum7(t.x2, t.x3, t.x5, t.x6, t.x8, t.x13, t.x15) == y.x10
    && Sum7(t.x2, t.x3, t.x4, t.x7, t.x9, t.x12, t.x14) == y.x11
    && Sum7(t.x1, t.x2, t.x6, t.x7, t.x9, t.x11, t.x12) == y.x12
    && Sum7(t.x0, t.x3, t.x6, t.x7, t.x8, t.x10, t.x13) == y.x13
    && Sum7(t.x0, t.x3, t.x4, t.x5, t.x9, t.x11, t.x14) == y.x14
    && Sum7(t.x1, t.x2, t.x4, t.x5, t.x8, t.x10, t.x15) == y.x15
  }

  lemma DiffusedIs(t: Block, y: Block)
    requires Diffused(t, y)
    ensures A(t) == y
  {
    hide Sum7;
  }

  lemma QuadBack(q: Quad, b: Block)
    requires BlockOf(q) == b
    ensures q == QuadOf(b)
  {
    hide BlockOf, QuadOf;
    QuadOfBlock(q);
  }

  lemma BlockIs(b: Block, q: Quad)
    requires QuadOf(b) == q
    ensures BlockOf(q) == b
  {
    hide BlockOf, QuadOf;
    BlockOfQuad(b);
  }

  lemma WordTurned(w: seq<bv32>, amount: nat, n: nat, m: bv8, i: nat)
    requires |w| == 4 && amount / 32 == n < 4 && amount % 32 > 0 && 0 < m < 32 && ByteOfInt(amount % 32) == m && i < 4
    ensures RolWord(w, amount, i) == Shifted(w[(n + i) % 4], w[(n + i + 1) % 4], m)
  {
    hide Shifted, ByteOfInt;
  }

  /** The words of a quad rotated by 32 * n + m. */
  lemma Turned(q: Quad, amount: nat, n: nat, m: bv8)
    requires amount / 32 == n < 4 && amount % 32 > 0 && 0 < m < 32 && ByteOfInt(amount % 32) == m
    ensures var w := WordsOf(q);
            RolQuad(q, amount) == Quad(Shifted(w[n], w[(n + 1) % 4], m), Shifted(w[(n + 1) % 4], w[(n + 2) % 4], m),
                                       Shifted(w[(n + 2) % 4], w[(n + 3) % 4], m), Shifted(w[(n + 3) % 4], w[n], m))
  {
    hide Shifted, ByteOfInt, RolWord, WordsOf;
    var w := WordsOf(q);
    WordTurned(w, amount, n, m, 0);
    WordTurned(w, amount, n, m, 1);
    WordTurned(w, amount, n, m, 2);
    WordTurned(w, amount, n, m, 3);
    Around(n);
  }

  lemma Around(n: nat)
    requires n < 4
    ensures (n + 0) % 4 == n && (n + 3 + 1) % 4 == n && n + 1 + 1 == n + 2 && n + 2 + 1 == n + 3
  {
  }

  lemma Amounts()
    ensures ByteOfInt(13) == 13 && ByteOfInt(1) == 1 && ByteOfInt(29) == 29 && ByteOfInt(31) == 31
  {
  }

  /** Round r of the cipher, with x in front of the substitution, t behind it and y behind the diffusion. */
  lemma TakeRound(p: Block, keys: seq<Block>, r: nat, k: Block, s: Block, x: Block, t: Block, y: Block)
    requires 1 <= r <= |keys| && Rounds(p, keys, r - 1) == s && keys[r - 1] == k && XorBlock(s, k) == x
    requires if r % 2 == 1 then SL1(x) == t else SL2(x) == t
    requires A(t) == y
    ensures Rounds(p, keys, r) == y
  {
    hide SL1, SL2, A, XorBlock, Rounds;
    if r % 2 == 1 {
      OddRound(p, keys, r - 1);
    } else {
      EvenRound(p, keys, r - 1);
    }
  }

  // ----- Appendix A.1 ---------------------------------------------------------------------------------------

  lemma ValueStep1()
    ensures XorBlock(Block(0x00, 0x01, 0x02, 0x03, 0x04, 0x05, 0x06, 0x07, 0x08, 0x09, 0x0A, 0x0B, 0x0C, 0x0D, 0x0E,
          0x0F),
                     Block(0x51, 0x7C, 0xC1, 0xB7, 0x27, 0x22, 0x0A, 0x94, 0xFE, 0x13, 0xAB, 0xE8, 0xFA, 0x9A, 0x6E,
                           0xE0))
         == Block(0x51, 0x7D, 0xC3, 0xB4, 0x23, 0x27, 0x0C, 0x93, 0xF6, 0x1A, 0xA1, 0xE3, 0xF6, 0x97, 0x60, 0xEF)
    ensures SL1(Block(0x51, 0x7D, 0xC3, 0xB4, 0x23, 0x27, 0x0C, 0x93, 0xF6, 0x1A, 0xA1, 0xE3, 0xF6, 0x97, 0x60, 0xEF))
         == Block(0xD1, 0xB9, 0x33, 0x14, 0x26, 0x69, 0x81, 0x5C, 0x42, 0x2E, 0xF1, 0x94, 0x42, 0x65, 0x90, 0xD3)
  {
  }

  lemma ValueStep1Diffused()
    ensures A(Block(0xD1, 0xB9, 0x33, 0x14, 0x26, 0x69, 0x81, 0x5C, 0x42, 0x2E, 0xF1, 0x94, 0x42, 0x65, 0x90, 0xD3))
         == Block(0x2A, 0xFB, 0xEA, 0x74, 0x1E, 0x17, 0x46, 0xDD, 0x55, 0xC6, 0x3B, 0xA1, 0xAF, 0xCE, 0xA0, 0xA5)
  {
    hide A;
    DiffusedIs(Block(0xD1, 0xB9, 0x33, 0x14, 0x26, 0x69, 0x81, 0x5C, 0x42, 0x2E, 0xF1, 0x94, 0x42, 0x65, 0x90, 0xD3),
               Block(0x2A, 0xFB, 0xEA, 0x74, 0x1E, 0x17, 0x46, 0xDD, 0x55, 0xC6, 0x3B, 0xA1, 0xAF, 0xCE, 0xA0, 0xA5));
  }

  lemma Value1(w: seq<Quad>, kl: Quad, kr: Quad)
    requires AreIntermediate(w, kl, kr, 0)
    requires w[0] == Quad(0x00010203, 0x04050607, 0x08090A0B, 0x0C0D0E0F)
          && kr == Quad(0x00000000, 0x00000000, 0x00000000, 0x00000000)
    ensures w[1] == Quad(0x2AFBEA74, 0x1E1746DD, 0x55C63BA1, 0xAFCEA0A5)
  {
    ConstantOrder();
    ValueBytes1();
    hide BlockOf, QuadOf, SL1, SL2, A, XorBlock, C;
    ValueStep1();
    ValueStep1Diffused();
    QuadBack(w[1], Block(0x2A, 0xFB, 0xEA, 0x74, 0x1E, 0x17, 0x46, 0xDD, 0x55, 0xC6, 0x3B, 0xA1, 0xAF, 0xCE, 0xA0, 0xA5));
  }

  lemma ValueBytes1()
    ensures XorBlock(Block(0x2A, 0xFB, 0xEA, 0x74, 0x1E, 0x17, 0x46, 0xDD, 0x55, 0xC6, 0x3B, 0xA1, 0xAF, 0xCE, 0xA0,
          0xA5),
                     Block(0x00, 0x00, 0x00, 0x00, 0x00, 0x00, 0x00, 0x00, 0x00, 0x00, 0x00, 0x00, 0x00, 0x00, 0x00,
                           0x00))
         == Block(0x2A, 0xFB, 0xEA, 0x74, 0x1E, 0x17, 0x46, 0xDD, 0x55, 0xC6, 0x3B, 0xA1, 0xAF, 0xCE, 0xA0, 0xA5)
    ensures BlockOf(Quad(0x00010203, 0x04050607, 0x08090A0B, 0x0C0D0E0F))
          == Block(0x00, 0x01, 0x02, 0x03, 0x04, 0x05, 0x06, 0x07, 0x08, 0x09, 0x0A, 0x0B, 0x0C, 0x0D, 0x0E, 0x0F)
    ensures BlockOf(Quad(0x517CC1B7, 0x27220A94, 0xFE13ABE8, 0xFA9A6EE0))
          == Block(0x51, 0x7C, 0xC1, 0xB7, 0x27, 0x22, 0x0A, 0x94, 0xFE, 0x13, 0xAB, 0xE8, 0xFA, 0x9A, 0x6E, 0xE0)
    ensures BlockOf(Quad(0x00000000, 0x00000000, 0x00000000, 0x00000000))
          == Block(0x00, 0x00, 0x00, 0x00, 0x00, 0x00, 0x00, 0x00, 0x00, 0x00, 0x00, 0x00, 0x00, 0x00, 0x00, 0x00)
    ensures QuadOf(Block(0x2A, 0xFB, 0xEA, 0x74, 0x1E, 0x17, 0x46, 0xDD, 0x55, 0xC6, 0x3B, 0xA1, 0xAF, 0xCE, 0xA0,
          0xA5)) == Quad(0x2AFBEA74, 0x1E1746DD, 0x55C63BA1, 0xAFCEA0A5)
  {
    hide BlockOf;
    BlockIs(Block(0x00, 0x01, 0x02, 0x03, 0x04, 0x05, 0x06, 0x07, 0x08, 0x09, 0x0A, 0x0B, 0x0C, 0x0D, 0x0E, 0x0F),
          Quad(0x00010203, 0x04050607, 0x08090A0B, 0x0C0D0E0F));
    BlockIs(Block(0x51, 0x7C, 0xC1, 0xB7, 0x27, 0x22, 0x0A, 0x94, 0xFE, 0x13, 0xAB, 0xE8, 0xFA, 0x9A, 0x6E, 0xE0),
          Quad(0x517CC1B7, 0x27220A94, 0xFE13ABE8, 0xFA9A6EE0));
    BlockIs(Block(0x00, 0x00, 0x00, 0x00, 0x00, 0x00, 0x00, 0x00, 0x00, 0x00, 0x00, 0x00, 0x00, 0x00, 0x00, 0x00),
          Quad(0x00000000, 0x00000000, 0x00000000, 0x00000000));
  }

  lemma ValueStep2()
    ensures XorBlock(Block(0x2A, 0xFB, 0xEA, 0x74, 0x1E, 0x17, 0x46, 0xDD, 0x55, 0xC6, 0x3B, 0xA1, 0xAF, 0xCE, 0xA0,
          0xA5),
                     Block(0x6D, 0xB1, 0x4A, 0xCC, 0x9E, 0x21, 0xC8, 0x20, 0xFF, 0x28, 0xB1, 0xD5, 0xEF, 0x5D, 0xE2,
                           0xB0))
         == Block(0x47, 0x4A, 0xA0, 0xB8, 0x80, 0x36, 0x8E, 0xFD, 0xAA, 0xEE, 0x8A, 0x74, 0x40, 0x93, 0x42, 0x15)
    ensures SL2(Block(0x47, 0x4A, 0xA0, 0xB8, 0x80, 0x36, 0x8E, 0xFD, 0xAA, 0xEE, 0x8A, 0x74, 0x40, 0x93, 0x42, 0x15))
         == Block(0x16, 0x06, 0xE0, 0x70, 0x3A, 0x64, 0x19, 0xBA, 0x62, 0x3D, 0x7E, 0xC4, 0x72, 0x5C, 0x2C, 0x97)
  {
  }

  lemma ValueStep2Diffused()
    ensures A(Block(0x16, 0x06, 0xE0, 0x70, 0x3A, 0x64, 0x19, 0xBA, 0x62, 0x3D, 0x7E, 0xC4, 0x72, 0x5C, 0x2C, 0x97))
         == Block(0x7C, 0x84, 0x7A, 0x02, 0x8F, 0xB4, 0x21, 0xE7, 0x25, 0xF7, 0x44, 0x73, 0xCE, 0x85, 0xED, 0x33)
  {
    hide A;
    DiffusedIs(Block(0x16, 0x06, 0xE0, 0x70, 0x3A, 0x64, 0x19, 0xBA, 0x62, 0x3D, 0x7E, 0xC4, 0x72, 0x5C, 0x2C, 0x97),
               Block(0x7C, 0x84, 0x7A, 0x02, 0x8F, 0xB4, 0x21, 0xE7, 0x25, 0xF7, 0x44, 0x73, 0xCE, 0x85, 0xED, 0x33));
  }

  lemma Value2(w: seq<Quad>, kl: Quad, kr: Quad)
    requires AreIntermediate(w, kl, kr, 0)
    requires w[1] == Quad(0x2AFBEA74, 0x1E1746DD, 0x55C63BA1, 0xAFCEA0A5)
          && w[0] == Quad(0x00010203, 0x04050607, 0x08090A0B, 0x0C0D0E0F)
    ensures w[2] == Quad(0x7C857801, 0x8BB127E0, 0x2DFE4E78, 0xC288E33C)
  {
    ConstantOrder();
    ValueBytes2();
    hide BlockOf, QuadOf, SL1, SL2, A, XorBlock, C;
    ValueStep2();
    ValueStep2Diffused();
    QuadBack(w[2], Block(0x7C, 0x85, 0x78, 0x01, 0x8B, 0xB1, 0x27, 0xE0, 0x2D, 0xFE, 0x4E, 0x78, 0xC2, 0x88, 0xE3, 0x3C));
  }

  lemma ValueBytes2()
    ensures XorBlock(Block(0x7C, 0x84, 0x7A, 0x02, 0x8F, 0xB4, 0x21, 0xE7, 0x25, 0xF7, 0x44, 0x73, 0xCE, 0x85, 0xED,
          0x33),
                     Block(0x00, 0x01, 0x02, 0x03, 0x04, 0x05, 0x06, 0x07, 0x08, 0x09, 0x0A, 0x0B, 0x0C, 0x0D, 0x0E,
                           0x0F))
         == Block(0x7C, 0x85, 0x78, 0x01, 0x8B, 0xB1, 0x27, 0xE0, 0x2D, 0xFE, 0x4E, 0x78, 0xC2, 0x88, 0xE3, 0x3C)
    ensures BlockOf(Quad(0x2AFBEA74, 0x1E1746DD, 0x55C63BA1, 0xAFCEA0A5))
          == Block(0x2A, 0xFB, 0xEA, 0x74, 0x1E, 0x17, 0x46, 0xDD, 0x55, 0xC6, 0x3B, 0xA1, 0xAF, 0xCE, 0xA0, 0xA5)
    ensures BlockOf(Quad(0x6DB14ACC, 0x9E21C820, 0xFF28B1D5, 0xEF5DE2B0))
          == Block(0x6D, 0xB1, 0x4A, 0xCC, 0x9E, 0x21, 0xC8, 0x20, 0xFF, 0x28, 0xB1, 0xD5, 0xEF, 0x5D, 0xE2, 0xB0)
    ensures BlockOf(Quad(0x00010203, 0x04050607, 0x08090A0B, 0x0C0D0E0F))
          == Block(0x00, 0x01, 0x02, 0x03, 0x04, 0x05, 0x06, 0x07, 0x08, 0x09, 0x0A, 0x0B, 0x0C, 0x0D, 0x0E, 0x0F)
    ensures QuadOf(Block(0x7C, 0x85, 0x78, 0x01, 0x8B, 0xB1, 0x27, 0xE0, 0x2D, 0xFE, 0x4E, 0x78, 0xC2, 0x88, 0xE3,
          0x3C)) == Quad(0x7C857801, 0x8BB127E0, 0x2DFE4E78, 0xC288E33C)
  {
    hide BlockOf;
    BlockIs(Block(0x2A, 0xFB, 0xEA, 0x74, 0x1E, 0x17, 0x46, 0xDD, 0x55, 0xC6, 0x3B, 0xA1, 0xAF, 0xCE, 0xA0, 0xA5),
          Quad(0x2AFBEA74, 0x1E1746DD, 0x55C63BA1, 0xAFCEA0A5));
    BlockIs(Block(0x6D, 0xB1, 0x4A, 0xCC, 0x9E, 0x21, 0xC8, 0x20, 0xFF, 0x28, 0xB1, 0xD5, 0xEF, 0x5D, 0xE2, 0xB0),
          Quad(0x6DB14ACC, 0x9E21C820, 0xFF28B1D5, 0xEF5DE2B0));
    BlockIs(Block(0x00, 0x01, 0x02, 0x03, 0x04, 0x05, 0x06, 0x07, 0x08, 0x09, 0x0A, 0x0B, 0x0C, 0x0D, 0x0E, 0x0F),
          Quad(0x00010203, 0x04050607, 0x08090A0B, 0x0C0D0E0F));
  }

  lemma ValueStep3()
    ensures XorBlock(Block(0x7C, 0x85, 0x78, 0x01, 0x8B, 0xB1, 0x27, 0xE0, 0x2D, 0xFE, 0x4E, 0x78, 0xC2, 0x88, 0xE3,
          0x3C),
                     Block(0xDB, 0x92, 0x37, 0x1D, 0x21, 0x26, 0xE9, 0x70, 0x03, 0x24, 0x97, 0x75, 0x04, 0xE8, 0xC9,
                           0x0E))
         == Block(0xA7, 0x17, 0x4F, 0x1C, 0xAA, 0x97, 0xCE, 0x90, 0x2E, 0xDA, 0xD9, 0x0D, 0xC6, 0x60, 0x2A, 0x32)
    ensures SL1(Block(0xA7, 0x17, 0x4F, 0x1C, 0xAA, 0x97, 0xCE, 0x90, 0x2E, 0xDA, 0xD9, 0x0D, 0xC6, 0x60, 0x2A, 0x32))
         == Block(0x5C, 0x2B, 0x92, 0xD6, 0xAC, 0x65, 0xEC, 0xE0, 0x31, 0x80, 0xE5, 0x09, 0xB4, 0xFF, 0x95, 0x6C)
  {
  }

  lemma ValueStep3Diffused()
    ensures A(Block(0x5C, 0x2B, 0x92, 0xD6, 0xAC, 0x65, 0xEC, 0xE0, 0x31, 0x80, 0xE5, 0x09, 0xB4, 0xFF, 0x95, 0x6C))
         == Block(0x4D, 0x7E, 0x5F, 0x5F, 0x6A, 0xCD, 0x00, 0x62, 0x4D, 0xD6, 0x6F, 0xA9, 0x88, 0xAD, 0x5F, 0xC8)
  {
    hide A;
    DiffusedIs(Block(0x5C, 0x2B, 0x92, 0xD6, 0xAC, 0x65, 0xEC, 0xE0, 0x31, 0x80, 0xE5, 0x09, 0xB4, 0xFF, 0x95, 0x6C),
               Block(0x4D, 0x7E, 0x5F, 0x5F, 0x6A, 0xCD, 0x00, 0x62, 0x4D, 0xD6, 0x6F, 0xA9, 0x88, 0xAD, 0x5F, 0xC8));
  }

  lemma Value3(w: seq<Quad>, kl: Quad, kr: Quad)
    requires AreIntermediate(w, kl, kr, 0)
    requires w[2] == Quad(0x7C857801, 0x8BB127E0, 0x2DFE4E78, 0xC288E33C)
          && w[1] == Quad(0x2AFBEA74, 0x1E1746DD, 0x55C63BA1, 0xAFCEA0A5)
    ensures w[3] == Quad(0x6785B52B, 0x74DA46BF, 0x18105408, 0x2763FF6D)
  {
    ConstantOrder();
    ValueBytes3();
    hide BlockOf, QuadOf, SL1, SL2, A, XorBlock, C;
    ValueStep3();
    ValueStep3Diffused();
    QuadBack(w[3], Block(0x67, 0x85, 0xB5, 0x2B, 0x74, 0xDA, 0x46, 0xBF, 0x18, 0x10, 0x54, 0x08, 0x27, 0x63, 0xFF, 0x6D));
  }

  lemma ValueBytes3()
    ensures XorBlock(Block(0x4D, 0x7E, 0x5F, 0x5F, 0x6A, 0xCD, 0x00, 0x62, 0x4D, 0xD6, 0x6F, 0xA9, 0x88, 0xAD, 0x5F,
          0xC8),
                     Block(0x2A, 0xFB, 0xEA, 0x74, 0x1E, 0x17, 0x46, 0xDD, 0x55, 0xC6, 0x3B, 0xA1, 0xAF, 0xCE, 0xA0,
                           0xA5))
         == Block(0x67, 0x85, 0xB5, 0x2B, 0x74, 0xDA, 0x46, 0xBF, 0x18, 0x10, 0x54, 0x08, 0x27, 0x63, 0xFF, 0x6D)
    ensures BlockOf(Quad(0x7C857801, 0x8BB127E0, 0x2DFE4E78, 0xC288E33C))
          == Block(0x7C, 0x85, 0x78, 0x01, 0x8B, 0xB1, 0x27, 0xE0, 0x2D, 0xFE, 0x4E, 0x78, 0xC2, 0x88, 0xE3, 0x3C)
    ensures BlockOf(Quad(0xDB92371D, 0x2126E970, 0x03249775, 0x04E8C90E))
          == Block(0xDB, 0x92, 0x37, 0x1D, 0x21, 0x26, 0xE9, 0x70, 0x03, 0x24, 0x97, 0x75, 0x04, 0xE8, 0xC9, 0x0E)
    ensures BlockOf(Quad(0x2AFBEA74, 0x1E1746DD, 0x55C63BA1, 0xAFCEA0A5))
          == Block(0x2A, 0xFB, 0xEA, 0x74, 0x1E, 0x17, 0x46, 0xDD, 0x55, 0xC6, 0x3B, 0xA1, 0xAF, 0xCE, 0xA0, 0xA5)
    ensures QuadOf(Block(0x67, 0x85, 0xB5, 0x2B, 0x74, 0xDA, 0x46, 0xBF, 0x18, 0x10, 0x54, 0x08, 0x27, 0x63, 0xFF,
          0x6D)) == Quad(0x6785B52B, 0x74DA46BF, 0x18105408, 0x2763FF6D)
  {
    hide BlockOf;
    BlockIs(Block(0x7C, 0x85, 0x78, 0x01, 0x8B, 0xB1, 0x27, 0xE0, 0x2D, 0xFE, 0x4E, 0x78, 0xC2, 0x88, 0xE3, 0x3C),
          Quad(0x7C857801, 0x8BB127E0, 0x2DFE4E78, 0xC288E33C));
    BlockIs(Block(0xDB, 0x92, 0x37, 0x1D, 0x21, 0x26, 0xE9, 0x70, 0x03, 0x24, 0x97, 0x75, 0x04, 0xE8, 0xC9, 0x0E),
          Quad(0xDB92371D, 0x2126E970, 0x03249775, 0x04E8C90E));
    BlockIs(Block(0x2A, 0xFB, 0xEA, 0x74, 0x1E, 0x17, 0x46, 0xDD, 0x55, 0xC6, 0x3B, 0xA1, 0xAF, 0xCE, 0xA0, 0xA5),
          Quad(0x2AFBEA74, 0x1E1746DD, 0x55C63BA1, 0xAFCEA0A5));
  }

  lemma FirstValue(w: seq<Quad>, kl: Quad, kr: Quad)
    requires AreIntermediate(w, kl, kr, 0)
    ensures |w| == 4 && w[0] == kl
  {
    hide BlockOf, SL1, SL2, A, XorBlock, C;
  }

  /** The intermediate values of the example. */
  lemma IntermediateValues(w: seq<Quad>, kl: Quad, kr: Quad)
    requires AreIntermediate(w, kl, kr, 0)
    requires kl == Quad(0x00010203, 0x04050607, 0x08090A0B, 0x0C0D0E0F) && kr == Quad(0, 0, 0, 0)
    ensures w == [Quad(0x00010203, 0x04050607, 0x08090A0B, 0x0C0D0E0F),
                  Quad(0x2AFBEA74, 0x1E1746DD, 0x55C63BA1, 0xAFCEA0A5),
                  Quad(0x7C857801, 0x8BB127E0, 0x2DFE4E78, 0xC288E33C),
                  Quad(0x6785B52B, 0x74DA46BF, 0x18105408, 0x2763FF6D)]
  {
    hide AreIntermediate;
    FirstValue(w, kl, kr);
    Value1(w, kl, kr);
    Value2(w, kl, kr);
    Value3(w, kl, kr);
  }

  lemma Key1(k: seq<Quad>, w: seq<Quad>)
    requires |w| == 4 && |k| == 17 && forall i :: 0 <= i < 17 ==> IsRoundKey(k[i], w, i)
    requires w[0] == Quad(0x00010203, 0x04050607, 0x08090A0B, 0x0C0D0E0F)
    requires w[1] == Quad(0x2AFBEA74, 0x1E1746DD, 0x55C63BA1, 0xAFCEA0A5)
    requires w[2] == Quad(0x7C857801, 0x8BB127E0, 0x2DFE4E78, 0xC288E33C)
    requires w[3] == Quad(0x6785B52B, 0x74DA46BF, 0x18105408, 0x2763FF6D)
    ensures BlockOf(k[0]) == Block(0xD4, 0x15, 0xA7, 0x5C, 0x79, 0x4B, 0x85, 0xC5, 0xE0, 0xD2, 0xA0, 0xB3, 0xCB, 0x79,
          0x3B, 0xF6)
    ensures BlockOf(k[1]) == Block(0x36, 0x9C, 0x65, 0xE4, 0xB1, 0x17, 0x77, 0xAB, 0x71, 0x3A, 0x3E, 0x1E, 0x66, 0x01,
          0xB8, 0xF4)
  {
    Amounts();
    hide IsRoundKey, RolQuad, ByteOfInt, BlockOf;
    RoundKeyWords(k[0], w, 0, 0, 1, 109);
    RoundKeyWords(k[1], w, 1, 1, 2, 109);
    BlockIs(Block(0xD4, 0x15, 0xA7, 0x5C, 0x79, 0x4B, 0x85, 0xC5, 0xE0, 0xD2, 0xA0, 0xB3, 0xCB, 0x79, 0x3B, 0xF6),
          Quad(0xD415A75C, 0x794B85C5, 0xE0D2A0B3, 0xCB793BF6));
    BlockIs(Block(0x36, 0x9C, 0x65, 0xE4, 0xB1, 0x17, 0x77, 0xAB, 0x71, 0x3A, 0x3E, 0x1E, 0x66, 0x01, 0xB8, 0xF4),
          Quad(0x369C65E4, 0xB11777AB, 0x713A3E1E, 0x6601B8F4));
    Turned(Quad(0x2AFBEA74, 0x1E1746DD, 0x55C63BA1, 0xAFCEA0A5), 109, 3, 13);
    Turned(Quad(0x7C857801, 0x8BB127E0, 0x2DFE4E78, 0xC288E33C), 109, 3, 13);
  }

  lemma Key3(k: seq<Quad>, w: seq<Quad>)
    requires |w| == 4 && |k| == 17 && forall i :: 0 <= i < 17 ==> IsRoundKey(k[i], w, i)
    requires w[0] == Quad(0x00010203, 0x04050607, 0x08090A0B, 0x0C0D0E0F)
    requires w[1] == Quad(0x2AFBEA74, 0x1E1746DD, 0x55C63BA1, 0xAFCEA0A5)
    requires w[2] == Quad(0x7C857801, 0x8BB127E0, 0x2DFE4E78, 0xC288E33C)
    requires w[3] == Quad(0x6785B52B, 0x74DA46BF, 0x18105408, 0x2763FF6D)
    ensures BlockOf(k[2]) == Block(0x03, 0x68, 0xD4, 0xF1, 0x3D, 0x14, 0x49, 0x7B, 0x65, 0x29, 0xAD, 0x7A, 0xC8, 0x09,
          0xE7, 0xD0)
    ensures BlockOf(k[3]) == Block(0xC6, 0x44, 0x55, 0x2B, 0x54, 0x9A, 0x26, 0x3F, 0xB8, 0xD0, 0xB5, 0x09, 0x06, 0x22,
          0x9E, 0xEC)
  {
    Amounts();
    hide IsRoundKey, RolQuad, ByteOfInt, BlockOf;
    RoundKeyWords(k[2], w, 2, 2, 3, 109);
    RoundKeyWords(k[3], w, 3, 3, 0, 109);
    BlockIs(Block(0x03, 0x68, 0xD4, 0xF1, 0x3D, 0x14, 0x49, 0x7B, 0x65, 0x29, 0xAD, 0x7A, 0xC8, 0x09, 0xE7, 0xD0),
          Quad(0x0368D4F1, 0x3D14497B, 0x6529AD7A, 0xC809E7D0));
    BlockIs(Block(0xC6, 0x44, 0x55, 0x2B, 0x54, 0x9A, 0x26, 0x3F, 0xB8, 0xD0, 0xB5, 0x09, 0x06, 0x22, 0x9E, 0xEC),
          Quad(0xC644552B, 0x549A263F, 0xB8D0B509, 0x06229EEC));
    Turned(Quad(0x6785B52B, 0x74DA46BF, 0x18105408, 0x2763FF6D), 109, 3, 13);
    Turned(Quad(0x00010203, 0x04050607, 0x08090A0B, 0x0C0D0E0F), 109, 3, 13);
  }

  lemma Key5(k: seq<Quad>, w: seq<Quad>)
    requires |w| == 4 && |k| == 17 && forall i :: 0 <= i < 17 ==> IsRoundKey(k[i], w, i)
    requires w[0] == Quad(0x00010203, 0x04050607, 0x08090A0B, 0x0C0D0E0F)
    requires w[1] == Quad(0x2AFBEA74, 0x1E1746DD, 0x55C63BA1, 0xAFCEA0A5)
    requires w[2] == Quad(0x7C857801, 0x8BB127E0, 0x2DFE4E78, 0xC288E33C)
    requires w[3] == Quad(0x6785B52B, 0x74DA46BF, 0x18105408, 0x2763FF6D)
    ensures BlockOf(k[4]) == Block(0x5F, 0x9C, 0x43, 0x49, 0x51, 0xF2, 0xD2, 0xEF, 0x34, 0x27, 0x87, 0xB1, 0xA7, 0x81,
          0x79, 0x4C)
    ensures BlockOf(k[5]) == Block(0xAF, 0xEA, 0x2C, 0x0C, 0xE7, 0x1D, 0xB6, 0xDE, 0x42, 0xA4, 0x74, 0x61, 0xF4, 0x32,
          0x3C, 0x54)
  {
    Amounts();
    hide IsRoundKey, RolQuad, ByteOfInt, BlockOf;
    RoundKeyWords(k[4], w, 4, 0, 1, 97);
    RoundKeyWords(k[5], w, 5, 1, 2, 97);
    BlockIs(Block(0x5F, 0x9C, 0x43, 0x49, 0x51, 0xF2, 0xD2, 0xEF, 0x34, 0x27, 0x87, 0xB1, 0xA7, 0x81, 0x79, 0x4C),
          Quad(0x5F9C4349, 0x51F2D2EF, 0x342787B1, 0xA781794C));
    BlockIs(Block(0xAF, 0xEA, 0x2C, 0x0C, 0xE7, 0x1D, 0xB6, 0xDE, 0x42, 0xA4, 0x74, 0x61, 0xF4, 0x32, 0x3C, 0x54),
          Quad(0xAFEA2C0C, 0xE71DB6DE, 0x42A47461, 0xF4323C54));
    Turned(Quad(0x2AFBEA74, 0x1E1746DD, 0x55C63BA1, 0xAFCEA0A5), 97, 3, 1);
    Turned(Quad(0x7C857801, 0x8BB127E0, 0x2DFE4E78, 0xC288E33C), 97, 3, 1);
  }

  lemma Key7(k: seq<Quad>, w: seq<Quad>)
    requires |w| == 4 && |k| == 17 && forall i :: 0 <= i < 17 ==> IsRoundKey(k[i], w, i)
    requires w[0] == Quad(0x00010203, 0x04050607, 0x08090A0B, 0x0C0D0E0F)
    requires w[1] == Quad(0x2AFBEA74, 0x1E1746DD, 0x55C63BA1, 0xAFCEA0A5)
    requires w[2] == Quad(0x7C857801, 0x8BB127E0, 0x2DFE4E78, 0xC288E33C)
    requires w[3] == Quad(0x6785B52B, 0x74DA46BF, 0x18105408, 0x2763FF6D)
    ensures BlockOf(k[6]) == Block(0x32, 0x42, 0x86, 0xDB, 0x44, 0xBA, 0x4D, 0xB6, 0xC4, 0x4A, 0xC3, 0x06, 0xF2, 0xA8,
          0x4B, 0x2C)
    ensures BlockOf(k[7]) == Block(0x7F, 0x9F, 0xA9, 0x35, 0x74, 0xD8, 0x42, 0xB9, 0x10, 0x1A, 0x58, 0x06, 0x37, 0x71,
          0xEB, 0x7B)
  {
    Amounts();
    hide IsRoundKey, RolQuad, ByteOfInt, BlockOf;
    RoundKeyWords(k[6], w, 6, 2, 3, 97);
    RoundKeyWords(k[7], w, 7, 3, 0, 97);
    BlockIs(Block(0x32, 0x42, 0x86, 0xDB, 0x44, 0xBA, 0x4D, 0xB6, 0xC4, 0x4A, 0xC3, 0x06, 0xF2, 0xA8, 0x4B, 0x2C),
          Quad(0x324286DB, 0x44BA4DB6, 0xC44AC306, 0xF2A84B2C));
    BlockIs(Block(0x7F, 0x9F, 0xA9, 0x35, 0x74, 0xD8, 0x42, 0xB9, 0x10, 0x1A, 0x58, 0x06, 0x37, 0x71, 0xEB, 0x7B),
          Quad(0x7F9FA935, 0x74D842B9, 0x101A5806, 0x3771EB7B));
    Turned(Quad(0x6785B52B, 0x74DA46BF, 0x18105408, 0x2763FF6D), 97, 3, 1);
    Turned(Quad(0x00010203, 0x04050607, 0x08090A0B, 0x0C0D0E0F), 97, 3, 1);
  }

  lemma Key9(k: seq<Quad>, w: seq<Quad>)
    requires |w| == 4 && |k| == 17 && forall i :: 0 <= i < 17 ==> IsRoundKey(k[i], w, i)
    requires w[0] == Quad(0x00010203, 0x04050607, 0x08090A0B, 0x0C0D0E0F)
    requires w[1] == Quad(0x2AFBEA74, 0x1E1746DD, 0x55C63BA1, 0xAFCEA0A5)
    requires w[2] == Quad(0x7C857801, 0x8BB127E0, 0x2DFE4E78, 0xC288E33C)
    requires w[3] == Quad(0x6785B52B, 0x74DA46BF, 0x18105408, 0x2763FF6D)
    ensures BlockOf(k[8]) == Block(0xAA, 0xB9, 0xC5, 0x77, 0x31, 0xFC, 0xD2, 0x13, 0xAD, 0x56, 0x77, 0x45, 0x8F, 0xCF,
          0xE6, 0xD4)
    ensures BlockOf(k[9]) == Block(0x2F, 0x44, 0x23, 0xBB, 0x06, 0x46, 0x5A, 0xBA, 0xDA, 0x56, 0x94, 0xA1, 0x9E, 0xB8,
          0x84, 0x59)
  {
    Amounts();
    hide IsRoundKey, RolQuad, ByteOfInt, BlockOf;
    RoundKeyWords(k[8], w, 8, 0, 1, 61);
    RoundKeyWords(k[9], w, 9, 1, 2, 61);
    BlockIs(Block(0xAA, 0xB9, 0xC5, 0x77, 0x31, 0xFC, 0xD2, 0x13, 0xAD, 0x56, 0x77, 0x45, 0x8F, 0xCF, 0xE6, 0xD4),
          Quad(0xAAB9C577, 0x31FCD213, 0xAD567745, 0x8FCFE6D4));
    BlockIs(Block(0x2F, 0x44, 0x23, 0xBB, 0x06, 0x46, 0x5A, 0xBA, 0xDA, 0x56, 0x94, 0xA1, 0x9E, 0xB8, 0x84, 0x59),
          Quad(0x2F4423BB, 0x06465ABA, 0xDA5694A1, 0x9EB88459));
    Turned(Quad(0x2AFBEA74, 0x1E1746DD, 0x55C63BA1, 0xAFCEA0A5), 61, 1, 29);
    Turned(Quad(0x7C857801, 0x8BB127E0, 0x2DFE4E78, 0xC288E33C), 61, 1, 29);
  }

  lemma Key11(k: seq<Quad>, w: seq<Quad>)
    requires |w| == 4 && |k| == 17 && forall i :: 0 <= i < 17 ==> IsRoundKey(k[i], w, i)
    requires w[0] == Quad(0x00010203, 0x04050607, 0x08090A0B, 0x0C0D0E0F)
    requires w[1] == Quad(0x2AFBEA74, 0x1E1746DD, 0x55C63BA1, 0xAFCEA0A5)
    requires w[2] == Quad(0x7C857801, 0x8BB127E0, 0x2DFE4E78, 0xC288E33C)
    requires w[3] == Quad(0x6785B52B, 0x74DA46BF, 0x18105408, 0x2763FF6D)
    ensures BlockOf(k[10]) == Block(0x9F, 0x87, 0x72, 0x80, 0x8F, 0x5D, 0x58, 0x0D, 0x81, 0x0E, 0xF8, 0xDD, 0xAC, 0x13,
          0xAB, 0xEB)
    ensures BlockOf(k[11]) == Block(0x86, 0x84, 0x94, 0x6A, 0x15, 0x5B, 0xE7, 0x7E, 0xF8, 0x10, 0x74, 0x48, 0x47, 0xE3,
          0x5F, 0xAD)
  {
    Amounts();
    hide IsRoundKey, RolQuad, ByteOfInt, BlockOf;
    RoundKeyWords(k[10], w, 10, 2, 3, 61);
    RoundKeyWords(k[11], w, 11, 3, 0, 61);
    BlockIs(Block(0x9F, 0x87, 0x72, 0x80, 0x8F, 0x5D, 0x58, 0x0D, 0x81, 0x0E, 0xF8, 0xDD, 0xAC, 0x13, 0xAB, 0xEB),
          Quad(0x9F877280, 0x8F5D580D, 0x810EF8DD, 0xAC13ABEB));
    BlockIs(Block(0x86, 0x84, 0x94, 0x6A, 0x15, 0x5B, 0xE7, 0x7E, 0xF8, 0x10, 0x74, 0x48, 0x47, 0xE3, 0x5F, 0xAD),
          Quad(0x8684946A, 0x155BE77E, 0xF8107448, 0x47E35FAD));
    Turned(Quad(0x6785B52B, 0x74DA46BF, 0x18105408, 0x2763FF6D), 61, 1, 29);
    Turned(Quad(0x00010203, 0x04050607, 0x08090A0B, 0x0C0D0E0F), 61, 1, 29);
  }

  lemma Key13(k: seq<Quad>, w: seq<Quad>)
    requires |w| == 4 && |k| == 17 && forall i :: 0 <= i < 17 ==> IsRoundKey(k[i], w, i)
    requires w[0] == Quad(0x00010203, 0x04050607, 0x08090A0B, 0x0C0D0E0F)
    requires w[1] == Quad(0x2AFBEA74, 0x1E1746DD, 0x55C63BA1, 0xAFCEA0A5)
    requires w[2] == Quad(0x7C857801, 0x8BB127E0, 0x2DFE4E78, 0xC288E33C)
    requires w[3] == Quad(0x6785B52B, 0x74DA46BF, 0x18105408, 0x2763FF6D)
    ensures BlockOf(k[12]) == Block(0x0F, 0x0A, 0xA1, 0x6D, 0xAE, 0xE6, 0x1B, 0xD7, 0xDF, 0xEE, 0x5A, 0x59, 0x99, 0x70,
          0xFB, 0x35)
  {
    Amounts();
    hide IsRoundKey, RolQuad, ByteOfInt, BlockOf;
    RoundKeyWords(k[12], w, 12, 0, 1, 31);
    BlockIs(Block(0x0F, 0x0A, 0xA1, 0x6D, 0xAE, 0xE6, 0x1B, 0xD7, 0xDF, 0xEE, 0x5A, 0x59, 0x99, 0x70, 0xFB, 0x35),
          Quad(0x0F0AA16D, 0xAEE61BD7, 0xDFEE5A59, 0x9970FB35));
    Turned(Quad(0x2AFBEA74, 0x1E1746DD, 0x55C63BA1, 0xAFCEA0A5), 31, 0, 31);
  }

  lemma Step1()
    ensures XorBlock(Block(0x00, 0x11, 0x22, 0x33, 0x44, 0x55, 0x66, 0x77, 0x88, 0x99, 0xAA, 0xBB, 0xCC, 0xDD, 0xEE,
          0xFF),
                     Block(0xD4, 0x15, 0xA7, 0x5C, 0x79, 0x4B, 0x85, 0xC5, 0xE0, 0xD2, 0xA0, 0xB3, 0xCB, 0x79, 0x3B,
                           0xF6))
         == Block(0xD4, 0x04, 0x85, 0x6F, 0x3D, 0x1E, 0xE3, 0xB2, 0x68, 0x4B, 0x0A, 0x08, 0x07, 0xA4, 0xD5, 0x09)
    ensures SL1(Block(0xD4, 0x04, 0x85, 0x6F, 0x3D, 0x1E, 0xE3, 0xB2, 0x68, 0x4B, 0x0A, 0x08, 0x07, 0xA4, 0xD5, 0x09))
         == Block(0x48, 0x94, 0x67, 0xD9, 0x27, 0x59, 0x4D, 0xD5, 0x45, 0x95, 0xA3, 0x50, 0xC5, 0xA9, 0xB5, 0x39)
  {
  }

  lemma Step1Diffused()
    ensures A(Block(0x48, 0x94, 0x67, 0xD9, 0x27, 0x59, 0x4D, 0xD5, 0x45, 0x95, 0xA3, 0x50, 0xC5, 0xA9, 0xB5, 0x39))
         == Block(0x7F, 0xC7, 0xF1, 0x2B, 0xEF, 0xD0, 0xA0, 0x79, 0x1D, 0xE8, 0x7F, 0xA9, 0x6B, 0x46, 0x9F, 0x52)
  {
    hide A;
    DiffusedIs(Block(0x48, 0x94, 0x67, 0xD9, 0x27, 0x59, 0x4D, 0xD5, 0x45, 0x95, 0xA3, 0x50, 0xC5, 0xA9, 0xB5, 0x39),
               Block(0x7F, 0xC7, 0xF1, 0x2B, 0xEF, 0xD0, 0xA0, 0x79, 0x1D, 0xE8, 0x7F, 0xA9, 0x6B, 0x46, 0x9F, 0x52));
  }

  lemma Step2()
    ensures XorBlock(Block(0x7F, 0xC7, 0xF1, 0x2B, 0xEF, 0xD0, 0xA0, 0x79, 0x1D, 0xE8, 0x7F, 0xA9, 0x6B, 0x46, 0x9F,
          0x52),
                     Block(0x36, 0x9C, 0x65, 0xE4, 0xB1, 0x17, 0x77, 0xAB, 0x71, 0x3A, 0x3E, 0x1E, 0x66, 0x01, 0xB8,
                           0xF4))
         == Block(0x49, 0x5B, 0x94, 0xCF, 0x5E, 0xC7, 0xD7, 0xD2, 0x6C, 0xD2, 0x41, 0xB7, 0x0D, 0x47, 0x27, 0xA6)
    ensures SL2(Block(0x49, 0x5B, 0x94, 0xCF, 0x5E, 0xC7, 0xD7, 0xD2, 0x6C, 0xD2, 0x41, 0xB7, 0x0D, 0x47, 0x27, 0xA6))
         == Block(0xA4, 0xE2, 0x22, 0xDA, 0x9D, 0x5B, 0x0E, 0xA2, 0xB8, 0xC9, 0x83, 0x34, 0xF3, 0x58, 0xCC, 0xD4)
  {
  }

  lemma Step2Diffused()
    ensures A(Block(0xA4, 0xE2, 0x22, 0xDA, 0x9D, 0x5B, 0x0E, 0xA2, 0xB8, 0xC9, 0x83, 0x34, 0xF3, 0x58, 0xCC, 0xD4))
         == Block(0xAC, 0x8D, 0xE1, 0x7E, 0x49, 0xF7, 0xC5, 0x11, 0x76, 0x18, 0x99, 0x31, 0x62, 0xB1, 0x89, 0xE9)
  {
    hide A;
    DiffusedIs(Block(0xA4, 0xE2, 0x22, 0xDA, 0x9D, 0x5B, 0x0E, 0xA2, 0xB8, 0xC9, 0x83, 0x34, 0xF3, 0x58, 0xCC, 0xD4),
               Block(0xAC, 0x8D, 0xE1, 0x7E, 0x49, 0xF7, 0xC5, 0x11, 0x76, 0x18, 0x99, 0x31, 0x62, 0xB1, 0x89, 0xE9));
  }

  lemma Step3()
    ensures XorBlock(Block(0xAC, 0x8D, 0xE1, 0x7E, 0x49, 0xF7, 0xC5, 0x11, 0x76, 0x18, 0x99, 0x31, 0x62, 0xB1, 0x89,
          0xE9),
                     Block(0x03, 0x68, 0xD4, 0xF1, 0x3D, 0x14, 0x49, 0x7B, 0x65, 0x29, 0xAD, 0x7A, 0xC8, 0x09, 0xE7,
                           0xD0))
         == Block(0xAF, 0xE5, 0x35, 0x8F, 0x74, 0xE3, 0x8C, 0x6A, 0x13, 0x31, 0x34, 0x4B, 0xAA, 0xB8, 0x6E, 0x39)
    ensures SL1(Block(0xAF, 0xE5, 0x35, 0x8F, 0x74, 0xE3, 0x8C, 0x6A, 0x13, 0x31, 0x34, 0x4B, 0xAA, 0xB8, 0x6E, 0x39))
         == Block(0x79, 0x5A, 0xD9, 0x9A, 0x92, 0x33, 0xF0, 0x0A, 0x7D, 0x73, 0x28, 0xC3, 0xAC, 0x70, 0x45, 0xAA)
  {
  }

  lemma Step3Diffused()
    ensures A(Block(0x79, 0x5A, 0xD9, 0x9A, 0x92, 0x33, 0xF0, 0x0A, 0x7D, 0x73, 0x28, 0xC3, 0xAC, 0x70, 0x45, 0xAA))
         == Block(0xC3, 0xE8, 0xD5, 0x9E, 0xC2, 0xE6, 0x2D, 0x52, 0x49, 0xCA, 0x27, 0x41, 0x65, 0x3C, 0xB7, 0xDD)
  {
    hide A;
    DiffusedIs(Block(0x79, 0x5A, 0xD9, 0x9A, 0x92, 0x33, 0xF0, 0x0A, 0x7D, 0x73, 0x28, 0xC3, 0xAC, 0x70, 0x45, 0xAA),
               Block(0xC3, 0xE8, 0xD5, 0x9E, 0xC2, 0xE6, 0x2D, 0x52, 0x49, 0xCA, 0x27, 0x41, 0x65, 0x3C, 0xB7, 0xDD));
  }

  lemma Step4()
    ensures XorBlock(Block(0xC3, 0xE8, 0xD5, 0x9E, 0xC2, 0xE6, 0x2D, 0x52, 0x49, 0xCA, 0x27, 0x41, 0x65, 0x3C, 0xB7,
          0xDD),
                     Block(0xC6, 0x44, 0x55, 0x2B, 0x54, 0x9A, 0x26, 0x3F, 0xB8, 0xD0, 0xB5, 0x09, 0x06, 0x22, 0x9E,
                           0xEC))
         == Block(0x05, 0xAC, 0x80, 0xB5, 0x96, 0x7C, 0x0B, 0x6D, 0xF1, 0x1A, 0x92, 0x48, 0x63, 0x1E, 0x29, 0x31)
    ensures SL2(Block(0x05, 0xAC, 0x80, 0xB5, 0x96, 0x7C, 0x0B, 0x6D, 0xF1, 0x1A, 0x92, 0x48, 0x63, 0x1E, 0x29, 0x31))
         == Block(0x36, 0x44, 0xCD, 0xF2, 0x35, 0xEE, 0x2B, 0xCA, 0x2B, 0xFB, 0x4F, 0x8D, 0x00, 0xC4, 0xA5, 0x73)
  {
  }

  lemma Step4Diffused()
    ensures A(Block(0x36, 0x44, 0xCD, 0xF2, 0x35, 0xEE, 0x2B, 0xCA, 0x2B, 0xFB, 0x4F, 0x8D, 0x00, 0xC4, 0xA5, 0x73))
         == Block(0x5D, 0x4A, 0xEB, 0xB1, 0x65, 0xE1, 0x41, 0xFF, 0x75, 0x9F, 0x66, 0x9E, 0x1E, 0x85, 0xCC, 0x45)
  {
    hide A;
    DiffusedIs(Block(0x36, 0x44, 0xCD, 0xF2, 0x35, 0xEE, 0x2B, 0xCA, 0x2B, 0xFB, 0x4F, 0x8D, 0x00, 0xC4, 0xA5, 0x73),
               Block(0x5D, 0x4A, 0xEB, 0xB1, 0x65, 0xE1, 0x41, 0xFF, 0x75, 0x9F, 0x66, 0x9E, 0x1E, 0x85, 0xCC, 0x45));
  }

  lemma Step5()
    ensures XorBlock(Block(0x5D, 0x4A, 0xEB, 0xB1, 0x65, 0xE1, 0x41, 0xFF, 0x75, 0x9F, 0x66, 0x9E, 0x1E, 0x85, 0xCC,
          0x45),
                     Block(0x5F, 0x9C, 0x43, 0x49, 0x51, 0xF2, 0xD2, 0xEF, 0x34, 0x27, 0x87, 0xB1, 0xA7, 0x81, 0x79,
                           0x4C))
         == Block(0x02, 0xD6, 0xA8, 0xF8, 0x34, 0x13, 0x93, 0x10, 0x41, 0xB8, 0xE1, 0x2F, 0xB9, 0x04, 0xB5, 0x09)
    ensures SL1(Block(0x02, 0xD6, 0xA8, 0xF8, 0x34, 0x13, 0x93, 0x10, 0x41, 0xB8, 0xE1, 0x2F, 0xB9, 0x04, 0xB5, 0x09))
         == Block(0x77, 0x1C, 0x6F, 0xF7, 0x18, 0xCB, 0x22, 0x3E, 0x83, 0x70, 0xE0, 0x4D, 0x56, 0x94, 0xD2, 0x39)
  {
  }

  lemma Step5Diffused()
    ensures A(Block(0x77, 0x1C, 0x6F, 0xF7, 0x18, 0xCB, 0x22, 0x3E, 0x83, 0x70, 0xE0, 0x4D, 0x56, 0x94, 0xD2, 0x39))
         == Block(0x78, 0x06, 0xE4, 0x69, 0xF6, 0x88, 0x74, 0xC5, 0x00, 0x4B, 0x5F, 0x4A, 0x04, 0x6B, 0xBC, 0xFA)
  {
    hide A;
    DiffusedIs(Block(0x77, 0x1C, 0x6F, 0xF7, 0x18, 0xCB, 0x22, 0x3E, 0x83, 0x70, 0xE0, 0x4D, 0x56, 0x94, 0xD2, 0x39),
               Block(0x78, 0x06, 0xE4, 0x69, 0xF6, 0x88, 0x74, 0xC5, 0x00, 0x4B, 0x5F, 0x4A, 0x04, 0x6B, 0xBC, 0xFA));
  }

  lemma Step6()
    ensures XorBlock(Block(0x78, 0x06, 0xE4, 0x69, 0xF6, 0x88, 0x74, 0xC5, 0x00, 0x4B, 0x5F, 0x4A, 0x04, 0x6B, 0xBC,
          0xFA),
                     Block(0xAF, 0xEA, 0x2C, 0x0C, 0xE7, 0x1D, 0xB6, 0xDE, 0x42, 0xA4, 0x74, 0x61, 0xF4, 0x32, 0x3C,
                           0x54))
         == Block(0xD7, 0xEC, 0xC8, 0x65, 0x11, 0x95, 0xC2, 0x1B, 0x42, 0xEF, 0x2B, 0x2B, 0xF0, 0x59, 0x80, 0xAE)
    ensures SL2(Block(0xD7, 0xEC, 0xC8, 0x65, 0x11, 0x95, 0xC2, 0x1B, 0x42, 0xEF, 0x2B, 0x2B, 0xF0, 0x59, 0x80, 0xAE))
         == Block(0x0D, 0x80, 0xE8, 0x21, 0xE3, 0x4B, 0x25, 0x03, 0xF6, 0xD3, 0xF1, 0xAE, 0x17, 0x1E, 0xCD, 0x9D)
  {
  }

  lemma Step6Diffused()
    ensures A(Block(0x0D, 0x80, 0xE8, 0x21, 0xE3, 0x4B, 0x25, 0x03, 0xF6, 0xD3, 0xF1, 0xAE, 0x17, 0x1E, 0xCD, 0x9D))
         == Block(0x11, 0x0F, 0x93, 0xC9, 0xA6, 0x30, 0xCD, 0xD5, 0x1F, 0x97, 0xD2, 0x20, 0x24, 0x13, 0x34, 0x5A)
  {
    hide A;
    DiffusedIs(Block(0x0D, 0x80, 0xE8, 0x21, 0xE3, 0x4B, 0x25, 0x03, 0xF6, 0xD3, 0xF1, 0xAE, 0x17, 0x1E, 0xCD, 0x9D),
               Block(0x11, 0x0F, 0x93, 0xC9, 0xA6, 0x30, 0xCD, 0xD5, 0x1F, 0x97, 0xD2, 0x20, 0x24, 0x13, 0x34, 0x5A));
  }

  lemma Step7()
    ensures XorBlock(Block(0x11, 0x0F, 0x93, 0xC9, 0xA6, 0x30, 0xCD, 0xD5, 0x1F, 0x97, 0xD2, 0x20, 0x24, 0x13, 0x34,
          0x5A),
                     Block(0x32, 0x42, 0x86, 0xDB, 0x44, 0xBA, 0x4D, 0xB6, 0xC4, 0x4A, 0xC3, 0x06, 0xF2, 0xA8, 0x4B,
                           0x2C))
         == Block(0x23, 0x4D, 0x15, 0x12, 0xE2, 0x8A, 0x80, 0x63, 0xDB, 0xDD, 0x11, 0x26, 0xD6, 0xBB, 0x7F, 0x76)
    ensures SL1(Block(0x23, 0x4D, 0x15, 0x12, 0xE2, 0x8A, 0x80, 0x63, 0xDB, 0xDD, 0x11, 0x26, 0xD6, 0xBB, 0x7F, 0x76))
         == Block(0x26, 0x2F, 0x2F, 0x5E, 0x98, 0xF1, 0x3A, 0x2C, 0xB9, 0x44, 0xE3, 0x77, 0xF6, 0x8A, 0x6B, 0xAD)
  {
  }

  lemma Step7Diffused()
    ensures A(Block(0x26, 0x2F, 0x2F, 0x5E, 0x98, 0xF1, 0x3A, 0x2C, 0xB9, 0x44, 0xE3, 0x77, 0xF6, 0x8A, 0x6B, 0xAD))
         == Block(0xE0, 0x54, 0x42, 0x8E, 0xF0, 0x88, 0xFE, 0xF9, 0x79, 0x28, 0x24, 0x1C, 0xD3, 0xBE, 0x49, 0x9E)
  {
    hide A;
    DiffusedIs(Block(0x26, 0x2F, 0x2F, 0x5E, 0x98, 0xF1, 0x3A, 0x2C, 0xB9, 0x44, 0xE3, 0x77, 0xF6, 0x8A, 0x6B, 0xAD),
               Block(0xE0, 0x54, 0x42, 0x8E, 0xF0, 0x88, 0xFE, 0xF9, 0x79, 0x28, 0x24, 0x1C, 0xD3, 0xBE, 0x49, 0x9E));
  }

  lemma Step8()
    ensures XorBlock(Block(0xE0, 0x54, 0x42, 0x8E, 0xF0, 0x88, 0xFE, 0xF9, 0x79, 0x28, 0x24, 0x1C, 0xD3, 0xBE, 0x49,
          0x9E),
                     Block(0x7F, 0x9F, 0xA9, 0x35, 0x74, 0xD8, 0x42, 0xB9, 0x10, 0x1A, 0x58, 0x06, 0x37, 0x71, 0xEB,
                           0x7B))
         == Block(0x9F, 0xCB, 0xEB, 0xBB, 0x84, 0x50, 0xBC, 0x40, 0x69, 0x32, 0x7C, 0x1A, 0xE4, 0xCF, 0xA2, 0xE5)
    ensures SL2(Block(0x9F, 0xCB, 0xEB, 0xBB, 0x84, 0x50, 0xBC, 0x40, 0x69, 0x32, 0x7C, 0x1A, 0xE4, 0xCF, 0xA2, 0xE5))
         == Block(0x6E, 0x13, 0xE9, 0x8A, 0x4F, 0x8C, 0x65, 0x2D, 0xE4, 0x6C, 0x10, 0x2E, 0xAE, 0x45, 0x3A, 0x5A)
  {
  }

  lemma Step8Diffused()
    ensures A(Block(0x6E, 0x13, 0xE9, 0x8A, 0x4F, 0x8C, 0x65, 0x2D, 0xE4, 0x6C, 0x10, 0x2E, 0xAE, 0x45, 0x3A, 0x5A))
         == Block(0x57, 0x34, 0xF3, 0x8E, 0xA1, 0xCA, 0x3D, 0xDD, 0x10, 0x2E, 0x71, 0xF9, 0x5E, 0x1D, 0x5F, 0x97)
  {
    hide A;
    DiffusedIs(Block(0x6E, 0x13, 0xE9, 0x8A, 0x4F, 0x8C, 0x65, 0x2D, 0xE4, 0x6C, 0x10, 0x2E, 0xAE, 0x45, 0x3A, 0x5A),
               Block(0x57, 0x34, 0xF3, 0x8E, 0xA1, 0xCA, 0x3D, 0xDD, 0x10, 0x2E, 0x71, 0xF9, 0x5E, 0x1D, 0x5F, 0x97));
  }

  lemma Step9()
    ensures XorBlock(Block(0x57, 0x34, 0xF3, 0x8E, 0xA1, 0xCA, 0x3D, 0xDD, 0x10, 0x2E, 0x71, 0xF9, 0x5E, 0x1D, 0x5F,
          0x97),
                     Block(0xAA, 0xB9, 0xC5, 0x77, 0x31, 0xFC, 0xD2, 0x13, 0xAD, 0x56, 0x77, 0x45, 0x8F, 0xCF, 0xE6,
                           0xD4))
         == Block(0xFD, 0x8D, 0x36, 0xF9, 0x90, 0x36, 0xEF, 0xCE, 0xBD, 0x78, 0x06, 0xBC, 0xD1, 0xD2, 0xB9, 0x43)
    ensures SL1(Block(0xFD, 0x8D, 0x36, 0xF9, 0x90, 0x36, 0xEF, 0xCE, 0xBD, 0x78, 0x06, 0xBC, 0xD1, 0xD2, 0xB9, 0x43))
         == Block(0x54, 0x1F, 0x24, 0x4C, 0x60, 0x85, 0x61, 0x4E, 0x7A, 0x07, 0xA5, 0x18, 0x3E, 0xA2, 0xDB, 0xAF)
  {
  }

  lemma Step9Diffused()
    ensures A(Block(0x54, 0x1F, 0x24, 0x4C, 0x60, 0x85, 0x61, 0x4E, 0x7A, 0x07, 0xA5, 0x18, 0x3E, 0xA2, 0xDB, 0xAF))
         == Block(0x49, 0x03, 0x32, 0x5B, 0xE3, 0xE5, 0x00, 0xCC, 0xCD, 0x52, 0xFB, 0xA4, 0x35, 0x4A, 0x39, 0xAE)
  {
    hide A;
    DiffusedIs(Block(0x54, 0x1F, 0x24, 0x4C, 0x60, 0x85, 0x61, 0x4E, 0x7A, 0x07, 0xA5, 0x18, 0x3E, 0xA2, 0xDB, 0xAF),
               Block(0x49, 0x03, 0x32, 0x5B, 0xE3, 0xE5, 0x00, 0xCC, 0xCD, 0x52, 0xFB, 0xA4, 0x35, 0x4A, 0x39, 0xAE));
  }

  lemma Step10()
    ensures XorBlock(Block(0x49, 0x03, 0x32, 0x5B, 0xE3, 0xE5, 0x00, 0xCC, 0xCD, 0x52, 0xFB, 0xA4, 0x35, 0x4A, 0x39,
          0xAE),
                     Block(0x2F, 0x44, 0x23, 0xBB, 0x06, 0x46, 0x5A, 0xBA, 0xDA, 0x56, 0x94, 0xA1, 0x9E, 0xB8, 0x84,
                           0x59))
         == Block(0x66, 0x47, 0x11, 0xE0, 0xE5, 0xA3, 0x5A, 0x76, 0x17, 0x04, 0x6F, 0x05, 0xAB, 0xF2, 0xBD, 0xF7)
    ensures SL2(Block(0x66, 0x47, 0x11, 0xE0, 0xE5, 0xA3, 0x5A, 0x76, 0x17, 0x04, 0x6F, 0x05, 0xAB, 0xF2, 0xBD, 0xF7))
         == Block(0xD3, 0x58, 0x82, 0x90, 0x2A, 0xBA, 0xBE, 0x42, 0x87, 0x87, 0xA8, 0xC2, 0x0E, 0xB5, 0x7A, 0xF8)
  {
  }

  lemma Step10Diffused()
    ensures A(Block(0xD3, 0x58, 0x82, 0x90, 0x2A, 0xBA, 0xBE, 0x42, 0x87, 0x87, 0xA8, 0xC2, 0x0E, 0xB5, 0x7A, 0xF8))
         == Block(0xCB, 0x8C, 0x50, 0x8E, 0x2C, 0x4F, 0x87, 0x88, 0x06, 0x39, 0xDC, 0x89, 0x6D, 0x25, 0xEC, 0x9D)
  {
    hide A;
    DiffusedIs(Block(0xD3, 0x58, 0x82, 0x90, 0x2A, 0xBA, 0xBE, 0x42, 0x87, 0x87, 0xA8, 0xC2, 0x0E, 0xB5, 0x7A, 0xF8),
               Block(0xCB, 0x8C, 0x50, 0x8E, 0x2C, 0x4F, 0x87, 0x88, 0x06, 0x39, 0xDC, 0x89, 0x6D, 0x25, 0xEC, 0x9D));
  }

  lemma Step11()
    ensures XorBlock(Block(0xCB, 0x8C, 0x50, 0x8E, 0x2C, 0x4F, 0x87, 0x88, 0x06, 0x39, 0xDC, 0x89, 0x6D, 0x25, 0xEC,
          0x9D),
                     Block(0x9F, 0x87, 0x72, 0x80, 0x8F, 0x5D, 0x58, 0x0D, 0x81, 0x0E, 0xF8, 0xDD, 0xAC, 0x13, 0xAB,
                           0xEB))
         == Block(0x54, 0x0B, 0x22, 0x0E, 0xA3, 0x12, 0xDF, 0x85, 0x87, 0x37, 0x24, 0x54, 0xC1, 0x36, 0x47, 0x76)
    ensures SL1(Block(0x54, 0x0B, 0x22, 0x0E, 0xA3, 0x12, 0xDF, 0x85, 0x87, 0x37, 0x24, 0x54, 0xC1, 0x36, 0x47, 0x76))
         == Block(0x20, 0x46, 0x94, 0x62, 0x0A, 0x64, 0xEF, 0x36, 0x17, 0xE4, 0xA6, 0x02, 0x78, 0x85, 0x16, 0xAD)
  {
  }

  lemma Step11Diffused()
    ensures A(Block(0x20, 0x46, 0x94, 0x62, 0x0A, 0x64, 0xEF, 0x36, 0x17, 0xE4, 0xA6, 0x02, 0x78, 0x85, 0x16, 0xAD))
         == Block(0xE7, 0xE0, 0xD2, 0x45, 0x7E, 0xD7, 0x3D, 0x23, 0xD4, 0x81, 0x42, 0x40, 0x95, 0xAF, 0xDC, 0xA0)
  {
    hide A;
    DiffusedIs(Block(0x20, 0x46, 0x94, 0x62, 0x0A, 0x64, 0xEF, 0x36, 0x17, 0xE4, 0xA6, 0x02, 0x78, 0x85, 0x16, 0xAD),
               Block(0xE7, 0xE0, 0xD2, 0x45, 0x7E, 0xD7, 0x3D, 0x23, 0xD4, 0x81, 0x42, 0x40, 0x95, 0xAF, 0xDC, 0xA0));
  }

  lemma Step12()
    ensures XorBlock(Block(0xE7, 0xE0, 0xD2, 0x45, 0x7E, 0xD7, 0x3D, 0x23, 0xD4, 0x81, 0x42, 0x40, 0x95, 0xAF, 0xDC,
          0xA0),
                     Block(0x86, 0x84, 0x94, 0x6A, 0x15, 0x5B, 0xE7, 0x7E, 0xF8, 0x10, 0x74, 0x48, 0x47, 0xE3, 0x5F,
                           0xAD))
         == Block(0x61, 0x64, 0x46, 0x2F, 0x6B, 0x8C, 0xDA, 0x5D, 0x2C, 0x91, 0x36, 0x08, 0xD2, 0x4C, 0x83, 0x0D)
    ensures SL2(Block(0x61, 0x64, 0x46, 0x2F, 0x6B, 0x8C, 0xDA, 0x5D, 0x2C, 0x91, 0x36, 0x08, 0xD2, 0x4C, 0x83, 0x0D))
         == Block(0xD8, 0x12, 0x5A, 0xBB, 0x05, 0x82, 0x57, 0xA4, 0x42, 0x47, 0x05, 0x62, 0x7F, 0x35, 0xEC, 0x4D)
  {
  }

  /** The round keys of the example. */
  predicate ExampleKeys(keys: seq<Block>) {
    && |keys| == 13
    && keys[0] == Block(0xD4, 0x15, 0xA7, 0x5C, 0x79, 0x4B, 0x85, 0xC5, 0xE0, 0xD2, 0xA0, 0xB3, 0xCB, 0x79, 0x3B, 0xF6)
    && keys[1] == Block(0x36, 0x9C, 0x65, 0xE4, 0xB1, 0x17, 0x77, 0xAB, 0x71, 0x3A, 0x3E, 0x1E, 0x66, 0x01, 0xB8, 0xF4)
    && keys[2] == Block(0x03, 0x68, 0xD4, 0xF1, 0x3D, 0x14, 0x49, 0x7B, 0x65, 0x29, 0xAD, 0x7A, 0xC8, 0x09, 0xE7, 0xD0)
    && keys[3] == Block(0xC6, 0x44, 0x55, 0x2B, 0x54, 0x9A, 0x26, 0x3F, 0xB8, 0xD0, 0xB5, 0x09, 0x06, 0x22, 0x9E, 0xEC)
    && keys[4] == Block(0x5F, 0x9C, 0x43, 0x49, 0x51, 0xF2, 0xD2, 0xEF, 0x34, 0x27, 0x87, 0xB1, 0xA7, 0x81, 0x79, 0x4C)
    && keys[5] == Block(0xAF, 0xEA, 0x2C, 0x0C, 0xE7, 0x1D, 0xB6, 0xDE, 0x42, 0xA4, 0x74, 0x61, 0xF4, 0x32, 0x3C, 0x54)
    && keys[6] == Block(0x32, 0x42, 0x86, 0xDB, 0x44, 0xBA, 0x4D, 0xB6, 0xC4, 0x4A, 0xC3, 0x06, 0xF2, 0xA8, 0x4B, 0x2C)
    && keys[7] == Block(0x7F, 0x9F, 0xA9, 0x35, 0x74, 0xD8, 0x42, 0xB9, 0x10, 0x1A, 0x58, 0x06, 0x37, 0x71, 0xEB, 0x7B)
    && keys[8] == Block(0xAA, 0xB9, 0xC5, 0x77, 0x31, 0xFC, 0xD2, 0x13, 0xAD, 0x56, 0x77, 0x45, 0x8F, 0xCF, 0xE6, 0xD4)
    && keys[9] == Block(0x2F, 0x44, 0x23, 0xBB, 0x06, 0x46, 0x5A, 0xBA, 0xDA, 0x56, 0x94, 0xA1, 0x9E, 0xB8, 0x84, 0x59)
    && keys[10] == Block(0x9F, 0x87, 0x72, 0x80, 0x8F, 0x5D, 0x58, 0x0D, 0x81, 0x0E, 0xF8, 0xDD, 0xAC, 0x13, 0xAB, 0xEB)
    && keys[11] == Block(0x86, 0x84, 0x94, 0x6A, 0x15, 0x5B, 0xE7, 0x7E, 0xF8, 0x10, 0x74, 0x48, 0x47, 0xE3, 0x5F, 0xAD)
    && keys[12] == Block(0x0F, 0x0A, 0xA1, 0x6D, 0xAE, 0xE6, 0x1B, 0xD7, 0xDF, 0xEE, 0x5A, 0x59, 0x99, 0x70, 0xFB, 0x35)
  }

  lemma KeysOfExample(k: seq<Quad>, w: seq<Quad>)
    requires |k| == 17 && |w| == 4 && forall i :: 0 <= i < 17 ==> IsRoundKey(k[i], w, i)
    requires w[0] == Quad(0x00010203, 0x04050607, 0x08090A0B, 0x0C0D0E0F)
          && w[1] == Quad(0x2AFBEA74, 0x1E1746DD, 0x55C63BA1, 0xAFCEA0A5)
    requires w[2] == Quad(0x7C857801, 0x8BB127E0, 0x2DFE4E78, 0xC288E33C)
          && w[3] == Quad(0x6785B52B, 0x74DA46BF, 0x18105408, 0x2763FF6D)
    ensures ExampleKeys(Keys(k, 12))
  {
    hide IsRoundKey, BlockOf;
    Key1(k, w);
    Key3(k, w);
    Key5(k, w);
    Key7(k, w);
    Key9(k, w);
    Key11(k, w);
    Key13(k, w);
  }

  /** The example of a 128-bit key. */
  lemma AppendixA1(keys: seq<Block>)
    requires |keys| == 13 && ExampleKeys(keys)
    ensures Cipher(Block(0x00, 0x11, 0x22, 0x33, 0x44, 0x55, 0x66, 0x77, 0x88, 0x99, 0xAA, 0xBB, 0xCC, 0xDD, 0xEE,
          0xFF), keys)
         == Block(0xD7, 0x18, 0xFB, 0xD6, 0xAB, 0x64, 0x4C, 0x73, 0x9D, 0xA9, 0x5F, 0x3B, 0xE6, 0x45, 0x17, 0x78)
  {
    hide SL1, SL2, A, XorBlock, Rounds;
    var p := Block(0x00, 0x11, 0x22, 0x33, 0x44, 0x55, 0x66, 0x77, 0x88, 0x99, 0xAA, 0xBB, 0xCC, 0xDD, 0xEE, 0xFF);
    NoRounds(p, keys);
    Step1();
    Step1Diffused();
    TakeRound(p, keys, 1, Block(0xD4, 0x15, 0xA7, 0x5C, 0x79, 0x4B, 0x85, 0xC5, 0xE0, 0xD2, 0xA0, 0xB3, 0xCB, 0x79,
          0x3B, 0xF6),
              Block(0x00, 0x11, 0x22, 0x33, 0x44, 0x55, 0x66, 0x77, 0x88, 0x99, 0xAA, 0xBB, 0xCC, 0xDD, 0xEE, 0xFF),
              Block(0xD4, 0x04, 0x85, 0x6F, 0x3D, 0x1E, 0xE3, 0xB2, 0x68, 0x4B, 0x0A, 0x08, 0x07, 0xA4, 0xD5, 0x09),
              Block(0x48, 0x94, 0x67, 0xD9, 0x27, 0x59, 0x4D, 0xD5, 0x45, 0x95, 0xA3, 0x50, 0xC5, 0xA9, 0xB5, 0x39),
              Block(0x7F, 0xC7, 0xF1, 0x2B, 0xEF, 0xD0, 0xA0, 0x79, 0x1D, 0xE8, 0x7F, 0xA9, 0x6B, 0x46, 0x9F, 0x52));
    Step2();
    Step2Diffused();
    TakeRound(p, keys, 2, Block(0x36, 0x9C, 0x65, 0xE4, 0xB1, 0x17, 0x77, 0xAB, 0x71, 0x3A, 0x3E, 0x1E, 0x66, 0x01,
          0xB8, 0xF4),
              Block(0x7F, 0xC7, 0xF1, 0x2B, 0xEF, 0xD0, 0xA0, 0x79, 0x1D, 0xE8, 0x7F, 0xA9, 0x6B, 0x46, 0x9F, 0x52),
              Block(0x49, 0x5B, 0x94, 0xCF, 0x5E, 0xC7, 0xD7, 0xD2, 0x6C, 0xD2, 0x41, 0xB7, 0x0D, 0x47, 0x27, 0xA6),
              Block(0xA4, 0xE2, 0x22, 0xDA, 0x9D, 0x5B, 0x0E, 0xA2, 0xB8, 0xC9, 0x83, 0x34, 0xF3, 0x58, 0xCC, 0xD4),
              Block(0xAC, 0x8D, 0xE1, 0x7E, 0x49, 0xF7, 0xC5, 0x11, 0x76, 0x18, 0x99, 0x31, 0x62, 0xB1, 0x89, 0xE9));
    Step3();
    Step3Diffused();
    TakeRound(p, keys, 3, Block(0x03, 0x68, 0xD4, 0xF1, 0x3D, 0x14, 0x49, 0x7B, 0x65, 0x29, 0xAD, 0x7A, 0xC8, 0x09,
          0xE7, 0xD0),
              Block(0xAC, 0x8D, 0xE1, 0x7E, 0x49, 0xF7, 0xC5, 0x11, 0x76, 0x18, 0x99, 0x31, 0x62, 0xB1, 0x89, 0xE9),
              Block(0xAF, 0xE5, 0x35, 0x8F, 0x74, 0xE3, 0x8C, 0x6A, 0x13, 0x31, 0x34, 0x4B, 0xAA, 0xB8, 0x6E, 0x39),
              Block(0x79, 0x5A, 0xD9, 0x9A, 0x92, 0x33, 0xF0, 0x0A, 0x7D, 0x73, 0x28, 0xC3, 0xAC, 0x70, 0x45, 0xAA),
              Block(0xC3, 0xE8, 0xD5, 0x9E, 0xC2, 0xE6, 0x2D, 0x52, 0x49, 0xCA, 0x27, 0x41, 0x65, 0x3C, 0xB7, 0xDD));
    Step4();
    Step4Diffused();
    TakeRound(p, keys, 4, Block(0xC6, 0x44, 0x55, 0x2B, 0x54, 0x9A, 0x26, 0x3F, 0xB8, 0xD0, 0xB5, 0x09, 0x06, 0x22,
          0x9E, 0xEC),
              Block(0xC3, 0xE8, 0xD5, 0x9E, 0xC2, 0xE6, 0x2D, 0x52, 0x49, 0xCA, 0x27, 0x41, 0x65, 0x3C, 0xB7, 0xDD),
              Block(0x05, 0xAC, 0x80, 0xB5, 0x96, 0x7C, 0x0B, 0x6D, 0xF1, 0x1A, 0x92, 0x48, 0x63, 0x1E, 0x29, 0x31),
              Block(0x36, 0x44, 0xCD, 0xF2, 0x35, 0xEE, 0x2B, 0xCA, 0x2B, 0xFB, 0x4F, 0x8D, 0x00, 0xC4, 0xA5, 0x73),
              Block(0x5D, 0x4A, 0xEB, 0xB1, 0x65, 0xE1, 0x41, 0xFF, 0x75, 0x9F, 0x66, 0x9E, 0x1E, 0x85, 0xCC, 0x45));
    Step5();
    Step5Diffused();
    TakeRound(p, keys, 5, Block(0x5F, 0x9C, 0x43, 0x49, 0x51, 0xF2, 0xD2, 0xEF, 0x34, 0x27, 0x87, 0xB1, 0xA7, 0x81,
          0x79, 0x4C),
              Block(0x5D, 0x4A, 0xEB, 0xB1, 0x65, 0xE1, 0x41, 0xFF, 0x75, 0x9F, 0x66, 0x9E, 0x1E, 0x85, 0xCC, 0x45),
              Block(0x02, 0xD6, 0xA8, 0xF8, 0x34, 0x13, 0x93, 0x10, 0x41, 0xB8, 0xE1, 0x2F, 0xB9, 0x04, 0xB5, 0x09),
              Block(0x77, 0x1C, 0x6F, 0xF7, 0x18, 0xCB, 0x22, 0x3E, 0x83, 0x70, 0xE0, 0x4D, 0x56, 0x94, 0xD2, 0x39),
              Block(0x78, 0x06, 0xE4, 0x69, 0xF6, 0x88, 0x74, 0xC5, 0x00, 0x4B, 0x5F, 0x4A, 0x04, 0x6B, 0xBC, 0xFA));
    Step6();
    Step6Diffused();
    TakeRound(p, keys, 6, Block(0xAF, 0xEA, 0x2C, 0x0C, 0xE7, 0x1D, 0xB6, 0xDE, 0x42, 0xA4, 0x74, 0x61, 0xF4, 0x32,
          0x3C, 0x54),
              Block(0x78, 0x06, 0xE4, 0x69, 0xF6, 0x88, 0x74, 0xC5, 0x00, 0x4B, 0x5F, 0x4A, 0x04, 0x6B, 0xBC, 0xFA),
              Block(0xD7, 0xEC, 0xC8, 0x65, 0x11, 0x95, 0xC2, 0x1B, 0x42, 0xEF, 0x2B, 0x2B, 0xF0, 0x59, 0x80, 0xAE),
              Block(0x0D, 0x80, 0xE8, 0x21, 0xE3, 0x4B, 0x25, 0x03, 0xF6, 0xD3, 0xF1, 0xAE, 0x17, 0x1E, 0xCD, 0x9D),
              Block(0x11, 0x0F, 0x93, 0xC9, 0xA6, 0x30, 0xCD, 0xD5, 0x1F, 0x97, 0xD2, 0x20, 0x24, 0x13, 0x34, 0x5A));
    Step7();
    Step7Diffused();
    TakeRound(p, keys, 7, Block(0x32, 0x42, 0x86, 0xDB, 0x44, 0xBA, 0x4D, 0xB6, 0xC4, 0x4A, 0xC3, 0x06, 0xF2, 0xA8,
          0x4B, 0x2C),
              Block(0x11, 0x0F, 0x93, 0xC9, 0xA6, 0x30, 0xCD, 0xD5, 0x1F, 0x97, 0xD2, 0x20, 0x24, 0x13, 0x34, 0x5A),
              Block(0x23, 0x4D, 0x15, 0x12, 0xE2, 0x8A, 0x80, 0x63, 0xDB, 0xDD, 0x11, 0x26, 0xD6, 0xBB, 0x7F, 0x76),
              Block(0x26, 0x2F, 0x2F, 0x5E, 0x98, 0xF1, 0x3A, 0x2C, 0xB9, 0x44, 0xE3, 0x77, 0xF6, 0x8A, 0x6B, 0xAD),
              Block(0xE0, 0x54, 0x42, 0x8E, 0xF0, 0x88, 0xFE, 0xF9, 0x79, 0x28, 0x24, 0x1C, 0xD3, 0xBE, 0x49, 0x9E));
    Step8();
    Step8Diffused();
    TakeRound(p, keys, 8, Block(0x7F, 0x9F, 0xA9, 0x35, 0x74, 0xD8, 0x42, 0xB9, 0x10, 0x1A, 0x58, 0x06, 0x37, 0x71,
          0xEB, 0x7B),
              Block(0xE0, 0x54, 0x42, 0x8E, 0xF0, 0x88, 0xFE, 0xF9, 0x79, 0x28, 0x24, 0x1C, 0xD3, 0xBE, 0x49, 0x9E),
              Block(0x9F, 0xCB, 0xEB, 0xBB, 0x84, 0x50, 0xBC, 0x40, 0x69, 0x32, 0x7C, 0x1A, 0xE4, 0xCF, 0xA2, 0xE5),
              Block(0x6E, 0x13, 0xE9, 0x8A, 0x4F, 0x8C, 0x65, 0x2D, 0xE4, 0x6C, 0x10, 0x2E, 0xAE, 0x45, 0x3A, 0x5A),
              Block(0x57, 0x34, 0xF3, 0x8E, 0xA1, 0xCA, 0x3D, 0xDD, 0x10, 0x2E, 0x71, 0xF9, 0x5E, 0x1D, 0x5F, 0x97));
    Step9();
    Step9Diffused();
    TakeRound(p, keys, 9, Block(0xAA, 0xB9, 0xC5, 0x77, 0x31, 0xFC, 0xD2, 0x13, 0xAD, 0x56, 0x77, 0x45, 0x8F, 0xCF,
          0xE6, 0xD4),
              Block(0x57, 0x34, 0xF3, 0x8E, 0xA1, 0xCA, 0x3D, 0xDD, 0x10, 0x2E, 0x71, 0xF9, 0x5E, 0x1D, 0x5F, 0x97),
              Block(0xFD, 0x8D, 0x36, 0xF9, 0x90, 0x36, 0xEF, 0xCE, 0xBD, 0x78, 0x06, 0xBC, 0xD1, 0xD2, 0xB9, 0x43),
              Block(0x54, 0x1F, 0x24, 0x4C, 0x60, 0x85, 0x61, 0x4E, 0x7A, 0x07, 0xA5, 0x18, 0x3E, 0xA2, 0xDB, 0xAF),
              Block(0x49, 0x03, 0x32, 0x5B, 0xE3, 0xE5, 0x00, 0xCC, 0xCD, 0x52, 0xFB, 0xA4, 0x35, 0x4A, 0x39, 0xAE));
    Step10();
    Step10Diffused();
    TakeRound(p, keys, 10, Block(0x2F, 0x44, 0x23, 0xBB, 0x06, 0x46, 0x5A, 0xBA, 0xDA, 0x56, 0x94, 0xA1, 0x9E, 0xB8,
          0x84, 0x59),
              Block(0x49, 0x03, 0x32, 0x5B, 0xE3, 0xE5, 0x00, 0xCC, 0xCD, 0x52, 0xFB, 0xA4, 0x35, 0x4A, 0x39, 0xAE),
              Block(0x66, 0x47, 0x11, 0xE0, 0xE5, 0xA3, 0x5A, 0x76, 0x17, 0x04, 0x6F, 0x05, 0xAB, 0xF2, 0xBD, 0xF7),
              Block(0xD3, 0x58, 0x82, 0x90, 0x2A, 0xBA, 0xBE, 0x42, 0x87, 0x87, 0xA8, 0xC2, 0x0E, 0xB5, 0x7A, 0xF8),
              Block(0xCB, 0x8C, 0x50, 0x8E, 0x2C, 0x4F, 0x87, 0x88, 0x06, 0x39, 0xDC, 0x89, 0x6D, 0x25, 0xEC, 0x9D));
    Step11();
    Step11Diffused();
    TakeRound(p, keys, 11, Block(0x9F, 0x87, 0x72, 0x80, 0x8F, 0x5D, 0x58, 0x0D, 0x81, 0x0E, 0xF8, 0xDD, 0xAC, 0x13,
          0xAB, 0xEB),
              Block(0xCB, 0x8C, 0x50, 0x8E, 0x2C, 0x4F, 0x87, 0x88, 0x06, 0x39, 0xDC, 0x89, 0x6D, 0x25, 0xEC, 0x9D),
              Block(0x54, 0x0B, 0x22, 0x0E, 0xA3, 0x12, 0xDF, 0x85, 0x87, 0x37, 0x24, 0x54, 0xC1, 0x36, 0x47, 0x76),
              Block(0x20, 0x46, 0x94, 0x62, 0x0A, 0x64, 0xEF, 0x36, 0x17, 0xE4, 0xA6, 0x02, 0x78, 0x85, 0x16, 0xAD),
              Block(0xE7, 0xE0, 0xD2, 0x45, 0x7E, 0xD7, 0x3D, 0x23, 0xD4, 0x81, 0x42, 0x40, 0x95, 0xAF, 0xDC, 0xA0));
    Step12();
    LastKey();
  }

  lemma LastKey()
    ensures XorBlock(Block(0xD8, 0x12, 0x5A, 0xBB, 0x05, 0x82, 0x57, 0xA4, 0x42, 0x47, 0x05, 0x62, 0x7F, 0x35, 0xEC,
          0x4D),
                     Block(0x0F, 0x0A, 0xA1, 0x6D, 0xAE, 0xE6, 0x1B, 0xD7, 0xDF, 0xEE, 0x5A, 0x59, 0x99, 0x70, 0xFB,
                           0x35))
         == Block(0xD7, 0x18, 0xFB, 0xD6, 0xAB, 0x64, 0x4C, 0x73, 0x9D, 0xA9, 0x5F, 0x3B, 0xE6, 0x45, 0x17, 0x78)
  {
  }

  lemma NoRounds(p: Block, keys: seq<Block>)
    ensures Rounds(p, keys, 0) == p
  {
  }

  // ----- the example on a context ---------------------------------------------------------------------------

  lemma LoadExample()
    ensures LeftHalf(HexBytes(0x000102030405060708090A0B0C0D0E0F)) == Quad(0x00010203, 0x04050607, 0x08090A0B, 0x0C0D0E0F)
    ensures RightHalf(HexBytes(0x000102030405060708090A0B0C0D0E0F)) == Quad(0, 0, 0, 0)
    ensures BlockOf(LoadBlock(HexBytes(0x00112233445566778899AABBCCDDEEFF)))
         == Block(0x00, 0x11, 0x22, 0x33, 0x44, 0x55, 0x66, 0x77, 0x88, 0x99, 0xAA, 0xBB, 0xCC, 0xDD, 0xEE, 0xFF)
    ensures StoreBlock(QuadOf(Block(0xD7, 0x18, 0xFB, 0xD6, 0xAB, 0x64, 0x4C, 0x73, 0x9D, 0xA9, 0x5F, 0x3B, 0xE6, 0x45,
          0x17, 0x78)))
         == HexBytes(0xD718FBD6AB644C739DA95F3BE6451778)
  {
    hide BlockOf;
    BlockIs(Block(0x00, 0x11, 0x22, 0x33, 0x44, 0x55, 0x66, 0x77, 0x88, 0x99, 0xAA, 0xBB, 0xCC, 0xDD, 0xEE, 0xFF),
          LoadBlock(HexBytes(0x00112233445566778899AABBCCDDEEFF)));
  }

  /** ariaInit and ariaEncryptBlock on the example. */
  method EncryptAppendixA1() returns (output: seq<bv8>)
    ensures output == HexBytes(0xD718FBD6AB644C739DA95F3BE6451778)
  {
    hide *;
    var key := HexBytes(0x000102030405060708090A0B0C0D0E0F);
    var context := new AriaContext();
    var status, w := context.Init(key);
    output := context.EncryptBlock(HexBytes(0x00112233445566778899AABBCCDDEEFF));
    LoadExample();
    ConstantOrder();
    IntermediateValues(w, LeftHalf(key), RightHalf(key));
    KeysOfExample(context.ek[..], w);
    AppendixA1(Keys(context.ek[..], 12));
    CryptedIs(context.ek[..], 12, HexBytes(0x00112233445566778899AABBCCDDEEFF));
  }
}
