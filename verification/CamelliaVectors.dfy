/** Section 2.2 of RFC 3713 written out, and the values of its Appendix A,
      which fix what the code and its specification share. */
module CamelliaVectors {
  import opened Words
  import opened HexBlocks
  import opened Rotation
  import opened CamelliaTables
  import opened CamelliaSpec
  import opened Camellia

  // ----- the constants ------------------------------------------------------------------------------------

  function Number(h: Half): nat {
    0x1_0000_0000 * (h.w1 as nat) + h.w2 as nat
  }

  /** Sigma is the second to seventeenth hexadecimal place of the square root of p. */
  ghost predicate RootDigits(sigma: nat, p: nat) {
    exists root: nat :: IsRoot(root, p) && root % 0x1_0000_0000_0000_0000 == sigma
  }

  /** root is the square root of p * 16^34, rounded down. */
  predicate IsRoot(root: nat, p: nat) {
    root * root <= p * 0x100_0000_0000_0000_0000_0000_0000_0000_0000 < (root + 1) * (root + 1)
  }

  /** The constants come from the square roots of the first six primes. */
  lemma SigmasAreRoots()
    ensures RootDigits(Number(SIGMA[0]), 2) && RootDigits(Number(SIGMA[1]), 3) && RootDigits(Number(SIGMA[2]), 5)
    ensures RootDigits(Number(SIGMA[3]), 7) && RootDigits(Number(SIGMA[4]), 11) && RootDigits(Number(SIGMA[5]), 13)
  {
    assert IsRoot(0x16A09E667F3BCC908B, 2);
    assert IsRoot(0x1BB67AE8584CAA73B2, 3);
    assert IsRoot(0x23C6EF372FE94F82BE, 5);
    assert IsRoot(0x2A54FF53A5F1D36F1C, 7);
    assert IsRoot(0x3510E527FADE682D1D, 11);
    assert IsRoot(0x39B05688C2B3E6C1FD, 13);
  }

  // ----- section 2.2 ----------------------------------------------------------------------------------------

  function LeftOf(x: bv128): Half {
    Half((x >> 96) as bv32, ((x >> 64) & 0xFFFFFFFF) as bv32)
  }

  function RightOf(x: bv128): Half {
    Half(((x >> 32) & 0xFFFFFFFF) as bv32, (x & 0xFFFFFFFF) as bv32)
  }

  /** (p <<< n) >> 64 */
  function Left(p: Pair, n: nat): Half {
    LeftOf(Rotated(WideOf(p), n))
  }

  /** (p <<< n) & MASK64 */
  function Right(p: Pair, n: nat): Half {
    RightOf(Rotated(WideOf(p), n))
  }

  lemma HalvesOfWide(r: Pair)
    ensures LeftOf(WideOf(r)) == r.left && RightOf(WideOf(r)) == r.right
  {
  }

  lemma SubkeyValue(ks: seq<bv32>, nr: nat, k: seq<Pair>, j: nat)
    requires Scheduled(ks, nr, k) && j < KeyCount(nr)
    ensures Entry(nr, j).key < 4
    ensures var e := Entry(nr, j);
            Keys(ks, nr)[j] == if e.position == L then Left(k[e.key], e.shift) else Right(k[e.key], e.shift)
  {
    hide Entry, WideOf, Rotated, KeyCount, LeftOf, RightOf;
    EntryShape(nr, j);
    assert IsEntry(ks, nr, k, j);
    var e := Entry(nr, j);
    var r: Pair :| WideOf(r) == Rotated(WideOf(k[e.key]), e.shift)
          && Keys(ks, nr)[j] == if e.position == L then r.left else r.right;
    HalvesOfWide(r);
  }

  lemma LeftSubkey(ks: seq<bv32>, nr: nat, k: seq<Pair>, j: nat, key: nat, shift: nat)
    requires Scheduled(ks, nr, k) && j < KeyCount(nr) && key < 4 && Entry(nr, j) == Subkey(2 * j, key, shift, L)
    ensures Keys(ks, nr)[j] == Left(k[key], shift)
  {
    hide Scheduled, Keys, Left, Right, KeyCount, Entry;
    SubkeyValue(ks, nr, k, j);
  }

  lemma RightSubkey(ks: seq<bv32>, nr: nat, k: seq<Pair>, j: nat, key: nat, shift: nat)
    requires Scheduled(ks, nr, k) && j < KeyCount(nr) && key < 4 && Entry(nr, j) == Subkey(2 * j, key, shift, R)
    ensures Keys(ks, nr)[j] == Right(k[key], shift)
  {
    hide Scheduled, Keys, Left, Right, KeyCount, Entry;
    SubkeyValue(ks, nr, k, j);
  }

  /** The subkeys of a 128-bit key: kw1, kw2 and k1 to k6. */
  lemma Subkeys128From0(ks: seq<bv32>, k: seq<Pair>)
    requires Scheduled(ks, 18, k)
    ensures |Keys(ks, 18)| == 26
    ensures var (h, kl, kr, ka, kb) := (Keys(ks, 18), k[0], k[1], k[2], k[3]);
            && h[0] == Left(kl, 0) && h[1] == Right(kl, 0)
            && h[2] == Left(ka, 0) && h[3] == Right(ka, 0)
            && h[4] == Left(kl, 15) && h[5] == Right(kl, 15)
            && h[6] == Left(ka, 15) && h[7] == Right(ka, 15)
  {
    Counts();
    hide WideOf, Rotated, Left, Right, Scheduled, Keys, KeyCount;
    LeftSubkey(ks, 18, k, 0, KL, 0);
    RightSubkey(ks, 18, k, 1, KL, 0);
    LeftSubkey(ks, 18, k, 2, KA, 0);
    RightSubkey(ks, 18, k, 3, KA, 0);
    LeftSubkey(ks, 18, k, 4, KL, 15);
    RightSubkey(ks, 18, k, 5, KL, 15);
    LeftSubkey(ks, 18, k, 6, KA, 15);
    RightSubkey(ks, 18, k, 7, KA, 15);
  }

  /** ke1, ke2 and k7 to k12. */
  lemma Subkeys128From8(ks: seq<bv32>, k: seq<Pair>)
    requires Scheduled(ks, 18, k)
    ensures |Keys(ks, 18)| == 26
    ensures var (h, kl, kr, ka, kb) := (Keys(ks, 18), k[0], k[1], k[2], k[3]);
            && h[8] == Left(ka, 30) && h[9] == Right(ka, 30)
            && h[10] == Left(kl, 45) && h[11] == Right(kl, 45)
            && h[12] == Left(ka, 45) && h[13] == Right(kl, 60)
            && h[14] == Left(ka, 60) && h[15] == Right(ka, 60)
  {
    Counts();
    hide WideOf, Rotated, Left, Right, Scheduled, Keys, KeyCount;
    LeftSubkey(ks, 18, k, 8, KA, 30);
    RightSubkey(ks, 18, k, 9, KA, 30);
    LeftSubkey(ks, 18, k, 10, KL, 45);
    RightSubkey(ks, 18, k, 11, KL, 45);
    LeftSubkey(ks, 18, k, 12, KA, 45);
    RightSubkey(ks, 18, k, 13, KL, 60);
    LeftSubkey(ks, 18, k, 14, KA, 60);
    RightSubkey(ks, 18, k, 15, KA, 60);
  }

  /** ke3, ke4 and k13 to k16. */
  lemma Subkeys128From16(ks: seq<bv32>, k: seq<Pair>)
    requires Scheduled(ks, 18, k)
    ensures |Keys(ks, 18)| == 26
    ensures var (h, kl, kr, ka, kb) := (Keys(ks, 18), k[0], k[1], k[2], k[3]);
            && h[16] == Left(kl, 77) && h[17] == Right(kl, 77)
            && h[18] == Left(kl, 94) && h[19] == Right(kl, 94)
            && h[20] == Left(ka, 94) && h[21] == Right(ka, 94)
  {
    Counts();
    hide WideOf, Rotated, Left, Right, Scheduled, Keys, KeyCount;
    LeftSubkey(ks, 18, k, 16, KL, 77);
    RightSubkey(ks, 18, k, 17, KL, 77);
    LeftSubkey(ks, 18, k, 18, KL, 94);
    RightSubkey(ks, 18, k, 19, KL, 94);
    LeftSubkey(ks, 18, k, 20, KA, 94);
    RightSubkey(ks, 18, k, 21, KA, 94);
  }

  /** k17, k18, kw3 and kw4. */
  lemma Subkeys128From22(ks: seq<bv32>, k: seq<Pair>)
    requires Scheduled(ks, 18, k)
    ensures |Keys(ks, 18)| == 26
    ensures var (h, kl, kr, ka, kb) := (Keys(ks, 18), k[0], k[1], k[2], k[3]);
            && h[22] == Left(kl, 111) && h[23] == Right(kl, 111)
            && h[24] == Left(ka, 111) && h[25] == Right(ka, 111)
  {
    Counts();
    hide WideOf, Rotated, Left, Right, Scheduled, Keys, KeyCount;
    LeftSubkey(ks, 18, k, 22, KL, 111);
    RightSubkey(ks, 18, k, 23, KL, 111);
    LeftSubkey(ks, 18, k, 24, KA, 111);
    RightSubkey(ks, 18, k, 25, KA, 111);
  }

  /** The subkeys of a 192-bit or 256-bit key: kw1, kw2 and k1 to k6. */
  lemma Subkeys256From0(ks: seq<bv32>, k: seq<Pair>)
    requires Scheduled(ks, 24, k)
    ensures |Keys(ks, 24)| == 34
    ensures var (h, kl, kr, ka, kb) := (Keys(ks, 24), k[0], k[1], k[2], k[3]);
            && h[0] == Left(kl, 0) && h[1] == Right(kl, 0)
            && h[2] == Left(kb, 0) && h[3] == Right(kb, 0)
            && h[4] == Left(kr, 15) && h[5] == Right(kr, 15)
            && h[6] == Left(ka, 15) && h[7] == Right(ka, 15)
  {
    Counts();
    hide WideOf, Rotated, Left, Right, Scheduled, Keys, KeyCount;
    LeftSubkey(ks, 24, k, 0, KL, 0);
    RightSubkey(ks, 24, k, 1, KL, 0);
    LeftSubkey(ks, 24, k, 2, KB, 0);
    RightSubkey(ks, 24, k, 3, KB, 0);
    LeftSubkey(ks, 24, k, 4, KR, 15);
    RightSubkey(ks, 24, k, 5, KR, 15);
    LeftSubkey(ks, 24, k, 6, KA, 15);
    RightSubkey(ks, 24, k, 7, KA, 15);
  }

  /** ke1, ke2, k7 to k12, ke3 and ke4. */
  lemma Subkeys256From8(ks: seq<bv32>, k: seq<Pair>)
    requires Scheduled(ks, 24, k)
    ensures |Keys(ks, 24)| == 34
    ensures var (h, kl, kr, ka, kb) := (Keys(ks, 24), k[0], k[1], k[2], k[3]);
            && h[8] == Left(kr, 30) && h[9] == Right(kr, 30)
            && h[10] == Left(kb, 30) && h[11] == Right(kb, 30)
            && h[12] == Left(kl, 45) && h[13] == Right(kl, 45)
            && h[14] == Left(ka, 45) && h[15] == Right(ka, 45)
            && h[16] == Left(kl, 60) && h[17] == Right(kl, 60)
  {
    Counts();
    hide WideOf, Rotated, Left, Right, Scheduled, Keys, KeyCount;
    LeftSubkey(ks, 24, k, 8, KR, 30);
    RightSubkey(ks, 24, k, 9, KR, 30);
    LeftSubkey(ks, 24, k, 10, KB, 30);
    RightSubkey(ks, 24, k, 11, KB, 30);
    LeftSubkey(ks, 24, k, 12, KL, 45);
    RightSubkey(ks, 24, k, 13, KL, 45);
    LeftSubkey(ks, 24, k, 14, KA, 45);
    RightSubkey(ks, 24, k, 15, KA, 45);
    LeftSubkey(ks, 24, k, 16, KL, 60);
    RightSubkey(ks, 24, k, 17, KL, 60);
  }

  /** k13 to k18. */
  lemma Subkeys256From18(ks: seq<bv32>, k: seq<Pair>)
    requires Scheduled(ks, 24, k)
    ensures |Keys(ks, 24)| == 34
    ensures var (h, kl, kr, ka, kb) := (Keys(ks, 24), k[0], k[1], k[2], k[3]);
            && h[18] == Left(kr, 60) && h[19] == Right(kr, 60)
            && h[20] == Left(kb, 60) && h[21] == Right(kb, 60)
            && h[22] == Left(kl, 77) && h[23] == Right(kl, 77)
  {
    Counts();
    hide WideOf, Rotated, Left, Right, Scheduled, Keys, KeyCount;
    LeftSubkey(ks, 24, k, 18, KR, 60);
    RightSubkey(ks, 24, k, 19, KR, 60);
    LeftSubkey(ks, 24, k, 20, KB, 60);
    RightSubkey(ks, 24, k, 21, KB, 60);
    LeftSubkey(ks, 24, k, 22, KL, 77);
    RightSubkey(ks, 24, k, 23, KL, 77);
  }

  /** ke5, ke6 and k19 to k22. */
  lemma Subkeys256From24(ks: seq<bv32>, k: seq<Pair>)
    requires Scheduled(ks, 24, k)
    ensures |Keys(ks, 24)| == 34
    ensures var (h, kl, kr, ka, kb) := (Keys(ks, 24), k[0], k[1], k[2], k[3]);
            && h[24] == Left(ka, 77) && h[25] == Right(ka, 77)
            && h[26] == Left(kr, 94) && h[27] == Right(kr, 94)
            && h[28] == Left(ka, 94) && h[29] == Right(ka, 94)
  {
    Counts();
    hide WideOf, Rotated, Left, Right, Scheduled, Keys, KeyCount;
    LeftSubkey(ks, 24, k, 24, KA, 77);
    RightSubkey(ks, 24, k, 25, KA, 77);
    LeftSubkey(ks, 24, k, 26, KR, 94);
    RightSubkey(ks, 24, k, 27, KR, 94);
    LeftSubkey(ks, 24, k, 28, KA, 94);
    RightSubkey(ks, 24, k, 29, KA, 94);
  }

  /** k23, k24, kw3 and kw4. */
  lemma Subkeys256From30(ks: seq<bv32>, k: seq<Pair>)
    requires Scheduled(ks, 24, k)
    ensures |Keys(ks, 24)| == 34
    ensures var (h, kl, kr, ka, kb) := (Keys(ks, 24), k[0], k[1], k[2], k[3]);
            && h[30] == Left(kl, 111) && h[31] == Right(kl, 111)
            && h[32] == Left(kb, 111) && h[33] == Right(kb, 111)
  {
    Counts();
    hide WideOf, Rotated, Left, Right, Scheduled, Keys, KeyCount;
    LeftSubkey(ks, 24, k, 30, KL, 111);
    RightSubkey(ks, 24, k, 31, KL, 111);
    LeftSubkey(ks, 24, k, 32, KB, 111);
    RightSubkey(ks, 24, k, 33, KB, 111);
  }

  // ----- evaluation, one step at a time ------------------------------------------------------------------

  function Word64(x: bv64): Half {
    Half((x >> 32) as bv32, (x & 0xFFFFFFFF) as bv32)
  }

  function Both(a: bv64, b: bv64): Pair {
    Pair(Word64(a), Word64(b))
  }

  function Byte(t: bv64, shift: bv8): bv8
    requires shift < 64
  {
    ((t >> shift) & 0xFF) as bv8
  }

  /** The bytes of t are those of x after the S-boxes of F. */
  predicate Substituted(x: bv64, t: bv64) {
    && SBox1(Byte(x, 56)) == Byte(t, 56) && Rol8(SBox1(Byte(x, 48)), 1) == Byte(t, 48)
    && Rol8(SBox1(Byte(x, 40)), 7) == Byte(t, 40) && SBox1(Rol8(Byte(x, 32), 1)) == Byte(t, 32)
    && Rol8(SBox1(Byte(x, 24)), 1) == Byte(t, 24) && Rol8(SBox1(Byte(x, 16)), 7) == Byte(t, 16)
    && SBox1(Rol8(Byte(x, 8), 1)) == Byte(t, 8) && SBox1(Byte(x, 0)) == Byte(t, 0)
  }

  /** y is what P makes of the bytes of t. */
  predicate Permuted(t: bv64, y: bv64) {
    PHalf(Byte(t, 56), Byte(t, 48), Byte(t, 40), Byte(t, 32), Byte(t, 24), Byte(t, 16), Byte(t, 8), Byte(t, 0))
          == Half((y >> 32) as bv32, (y & 0xFFFFFFFF) as bv32)
  }

  lemma WordBytes(x: bv64)
    ensures ByteOf(Word64(x).w1, 3) == Byte(x, 56) && ByteOf(Word64(x).w1, 2) == Byte(x, 48)
    ensures ByteOf(Word64(x).w1, 1) == Byte(x, 40) && ByteOf(Word64(x).w1, 0) == Byte(x, 32)
    ensures ByteOf(Word64(x).w2, 3) == Byte(x, 24) && ByteOf(Word64(x).w2, 2) == Byte(x, 16)
    ensures ByteOf(Word64(x).w2, 1) == Byte(x, 8) && ByteOf(Word64(x).w2, 0) == Byte(x, 0)
  {
  }

  lemma XorWords(a: bv64, b: bv64)
    ensures XorHalf(Word64(a), Word64(b)) == Word64(a ^ b)
  {
  }

  lemma WordParts(y: bv64)
    ensures Word64(y) == Half((y >> 32) as bv32, (y & 0xFFFFFFFF) as bv32)
  {
  }

  lemma FIs(a: bv64, x: bv64, t: bv64, y: bv64)
    requires Substituted(x, t) && Permuted(t, y)
    ensures F(Word64(a), Word64(a ^ x)) == Word64(y)
  {
    WordBytes(x);
    XorBack(a, x);
    WordParts(y);
    hide SBox1, Word64, Byte, PHalf, Rol8;
    XorWords(a, a ^ x);
  }

  lemma XorBack(a: bv64, x: bv64)
    ensures a ^ (a ^ x) == x
  {
  }

  /** One round from (a, b), with x in front of the S-boxes, t behind them and y behind P. */
  lemma RoundIs(a: bv64, b: bv64, x: bv64, t: bv64, y: bv64)
    requires Substituted(x, t) && Permuted(t, y)
    ensures Round(Both(a, b), Word64(a ^ x)) == Both(b ^ y, a)
  {
    hide Substituted, Permuted, F, XorHalf, Word64;
    FIs(a, x, t, y);
    XorWords(b, y);
  }

  /** FL and its inverse between two rounds. */
  function Layered(p: Pair, k: Half, l: Half): Pair {
    Pair(FL(p.left, k), FLInv(p.right, l))
  }

  lemma SigmaWords()
    ensures |SIGMA| == 6
    ensures SIGMA[0] == Word64(0xA09E667F3BCC908B)
    ensures SIGMA[1] == Word64(0xB67AE8584CAA73B2)
    ensures SIGMA[2] == Word64(0xC6EF372FE94F82BE)
    ensures SIGMA[3] == Word64(0x54FF53A5F1D36F1C)
    ensures SIGMA[4] == Word64(0x10E527FADE682D1D)
    ensures SIGMA[5] == Word64(0xB05688C2B3E6C1FD)
  {
  }

  lemma KeyAIs(kl: Pair, kr: Pair)
    ensures |SIGMA| == 6
    ensures KeyA(kl, kr) ==
      Round(Round(XorPair(Round(Round(XorPair(kl, kr), SIGMA[0]), SIGMA[1]), kl), SIGMA[2]), SIGMA[3])
  {
    hide F, XorHalf, XorPair, Round, TwoSteps;
    TwoRounds(XorPair(kl, kr), SIGMA[0], SIGMA[1]);
    TwoRounds(XorPair(TwoSteps(XorPair(kl, kr), SIGMA[0], SIGMA[1]), kl), SIGMA[2], SIGMA[3]);
  }

  lemma KeyBIs(kl: Pair, kr: Pair)
    ensures |SIGMA| == 6
    ensures KeyB(kl, kr) == Round(Round(XorPair(KeyA(kl, kr), kr), SIGMA[4]), SIGMA[5])
  {
    hide F, XorHalf, XorPair, Round, TwoSteps, KeyA;
    TwoRounds(XorPair(KeyA(kl, kr), kr), SIGMA[4], SIGMA[5]);
  }

  lemma XorBoth(a: bv64, b: bv64, c: bv64, d: bv64)
    ensures XorPair(Both(a, b), Both(c, d)) == Both(a ^ c, b ^ d)
  {
    hide XorHalf, Word64;
    XorWords(a, c);
    XorWords(b, d);
  }

  lemma PairOf(a: bv64, b: bv64)
    ensures Pair(Word64(a), Word64(b)) == Both(a, b) && Both(a, b).left == Word64(a) && Both(a, b).right == Word64(b)
  {
    hide Word64;
  }

  /** Bytes of the key that KR is made of, section 2.2. */
  lemma RightKeyIs(key: seq<bv8>)
    requires |key| in {16, 24, 32}
    ensures |key| == 16 ==> RightKey(key) == Pair(Half(0, 0), Half(0, 0))
    ensures |key| == 24 ==> XorHalf(RightKey(key).left, RightKey(key).right) == Half(0xFFFFFFFF, 0xFFFFFFFF)
    ensures |key| >= 24 ==> Store32BE(RightKey(key).left.w1) + Store32BE(RightKey(key).left.w2) == key[16..24]
    ensures |key| == 32 ==> Store32BE(RightKey(key).right.w1) + Store32BE(RightKey(key).right.w2) == key[24..32]
  {
    hide Load32BE, Store32BE, XorW;
    if |key| >= 24 {
      WordAgain(key, 16);
      WordAgain(key, 20);
      XorWithNot(RightKey(key).left.w1);
      XorWithNot(RightKey(key).left.w2);
    }
    if |key| == 32 {
      WordAgain(key, 24);
      WordAgain(key, 28);
    }
  }

  lemma XorWithNot(w: bv32)
    ensures XorW(w, !w) == 0xFFFFFFFF
  {
  }

  /** The words of a pair turned left by 32 * q + m. */
  lemma Turned(p: Pair, n: nat, q: nat, m: bv8)
    requires n / 32 == q < 4 && n % 32 > 0 && 0 < m < 32 && ByteOfInt(n % 32) == m
    ensures var w := WordsOf(p);
            && Left(p, n) == Half(Shifted(w[q], w[(q + 1) % 4], m), Shifted(w[(q + 1) % 4], w[(q + 2) % 4], m))
            && Right(p, n) == Half(Shifted(w[(q + 2) % 4], w[(q + 3) % 4], m), Shifted(w[(q + 3) % 4], w[q], m))
  {
    hide WideOf, Rotated, LeftOf, RightOf, Shifted, WordsOf, ByteOfInt;
    HalvesRotate(p, n);
    HalvesOfWide(Halves(p, n));
  }

  lemma NotTurned(p: Pair)
    ensures Left(p, 0) == p.left && Right(p, 0) == p.right
  {
    hide WideOf, LeftOf, RightOf;
    HalvesOfWide(p);
  }

  lemma Amounts()
    ensures ByteOfInt(13) == 13 && ByteOfInt(15) == 15 && ByteOfInt(28) == 28 && ByteOfInt(30) == 30
  {
  }

  lemma FirstWhitening(p: Pair, keys: seq<Half>, nr: nat)
    requires |keys| == KeyCount(nr) && nr >= 1
    ensures KeyCount(nr) >= 2 && Rounds(p, keys, nr, 0) == XorPair(p, Pair(keys[0], keys[1]))
  {
    hide XorHalf;
  }

  lemma LastWhitening(p: Pair, keys: seq<Half>, nr: nat)
    requires |keys| == KeyCount(nr) && nr >= 1
    ensures var (t, n) := (Rounds(p, keys, nr, nr), KeyCount(nr));
            n >= 2 && Encrypted(p, keys, nr) == XorPair(Pair(t.right, t.left), Pair(keys[n - 2], keys[n - 1]))
  {
    hide XorHalf, Rounds;
  }

  lemma TakeRound(p: Pair, keys: seq<Half>, nr: nat, r: nat, a: bv64, b: bv64, x: bv64, t: bv64, y: bv64)
    requires 1 <= r <= nr && |keys| == KeyCount(nr) && KeyIndex(r) < |keys| && keys[KeyIndex(r)] == Word64(a ^ x)
    requires Layer(Rounds(p, keys, nr, r - 1), keys, nr, r - 1) == Both(a, b)
    requires Substituted(x, t) && Permuted(t, y)
    ensures Rounds(p, keys, nr, r) == Both(b ^ y, a)
  {
    hide Round, KeyIndex, KeyCount, Layer, Both, Substituted, Permuted, Word64;
    RoundIs(a, b, x, t, y);
  }

  lemma NoLayer(m: Pair, keys: seq<Half>, nr: nat, r: nat)
    requires r <= nr && |keys| == KeyCount(nr) && !LayerAfter(r, nr)
    ensures Layer(m, keys, nr, r) == m
  {
    hide FL, FLInv;
  }

  lemma TakeLayer(m: Pair, keys: seq<Half>, nr: nat, r: nat, k: Half, l: Half)
    requires r <= nr && |keys| == KeyCount(nr) && LayerAfter(r, nr)
    requires KeyIndex(r) + 2 < |keys| && keys[KeyIndex(r) + 1] == k && keys[KeyIndex(r) + 2] == l
    ensures Layer(m, keys, nr, r) == Layered(m, k, l)
  {
    hide FL, FLInv, KeyIndex, KeyCount, LayerAfter;
  }

  // ----- Appendix A: a key of 192 bits -----------------------------------------------------------------------

  lemma KeyAExample()
    ensures KeyA(Both(0x0123456789ABCDEF, 0xFEDCBA9876543210), Both(0x0011223344556677, 0xFFEEDDCCBBAA9988))
          == Both(0x0766A2135C44E288, 0xCF62016A06BABED3)
  {
    SigmaWords();
    hide Word64, Both, KeyA, Round, XorPair, SIGMA;
    KeyAIs(Both(0x0123456789ABCDEF, 0xFEDCBA9876543210), Both(0x0011223344556677, 0xFFEEDDCCBBAA9988));
    XorBoth(0x0123456789ABCDEF, 0xFEDCBA9876543210, 0x0011223344556677, 0xFFEEDDCCBBAA9988);
    RoundIs(0x01326754CDFEAB98, 0x01326754CDFEAB98, 0xA1AC012BF6323B13, 0x5C3B4176869C7A93, 0x1E7EAF6C1215BE4A);
    RoundIs(0x1F4CC838DFEB15D2, 0x01326754CDFEAB98, 0xA936206093416660, 0x67BA43E990862F14, 0x709F9C296052A8B7);
    XorBoth(0x71ADFB7DADAC032F, 0x1F4CC838DFEB15D2, 0x0123456789ABCDEF, 0xFEDCBA9876543210);
    RoundIs(0x708EBE1A2407CEC0, 0xE19072A0A9BF27C2, 0xB6618935CD484C7E, 0xC6B0AD9CFB3A8A69, 0x2EF273CAAF059911);
    RoundIs(0xCF62016A06BABED3, 0x708EBE1A2407CEC0, 0x9B9D52CFF769D1CF, 0xDA7EE59483870259, 0x77E81C0978432C48);
  }

  lemma KeyBExample()
    ensures KeyB(Both(0x0123456789ABCDEF, 0xFEDCBA9876543210), Both(0x0011223344556677, 0xFFEEDDCCBBAA9988))
          == Both(0x8F3AFAC1CC974396, 0xC098A0B7E38B4DF2)
  {
    SigmaWords();
    KeyAExample();
    hide Word64, Both, KeyA, KeyB, Round, XorPair, SIGMA;
    KeyBIs(Both(0x0123456789ABCDEF, 0xFEDCBA9876543210), Both(0x0011223344556677, 0xFFEEDDCCBBAA9988));
    XorBoth(0x0766A2135C44E288, 0xCF62016A06BABED3, 0x0011223344556677, 0xFFEEDDCCBBAA9988);
    RoundIs(0x07778020181184FF, 0x308CDCA6BD10275B, 0x1792A7DAC679A9E2, 0x210099377904C2B9, 0xF0147C115E9B6AA9);
    RoundIs(0xC098A0B7E38B4DF2, 0x07778020181184FF, 0x70CE2875506D8C0F, 0xFE691F2ABF0C0E41, 0x884D7AE1D486C769);
  }

  lemma TurnedKLExample0()
    ensures Left(Both(0x0123456789ABCDEF, 0xFEDCBA9876543210), 0) == Word64(0x0123456789ABCDEF)
          && Right(Both(0x0123456789ABCDEF, 0xFEDCBA9876543210), 0) == Word64(0xFEDCBA9876543210)
    ensures Left(Both(0x0123456789ABCDEF, 0xFEDCBA9876543210), 45) == Word64(0x79BDFFDB97530ECA)
          && Right(Both(0x0123456789ABCDEF, 0xFEDCBA9876543210), 45) == Word64(0x8642002468ACF135)
  {
    Amounts();
    hide Left, Right, ByteOfInt;
    NotTurned(Both(0x0123456789ABCDEF, 0xFEDCBA9876543210));
    Turned(Both(0x0123456789ABCDEF, 0xFEDCBA9876543210), 45, 1, 13);
  }

  lemma TurnedKLExample60()
    ensures Left(Both(0x0123456789ABCDEF, 0xFEDCBA9876543210), 60) == Word64(0xFFEDCBA987654321)
          && Right(Both(0x0123456789ABCDEF, 0xFEDCBA9876543210), 60) == Word64(0x00123456789ABCDE)
    ensures Left(Both(0x0123456789ABCDEF, 0xFEDCBA9876543210), 77) == Word64(0x97530ECA86420024)
          && Right(Both(0x0123456789ABCDEF, 0xFEDCBA9876543210), 77) == Word64(0x68ACF13579BDFFDB)
  {
    Amounts();
    hide Left, Right, ByteOfInt;
    Turned(Both(0x0123456789ABCDEF, 0xFEDCBA9876543210), 60, 1, 28);
    Turned(Both(0x0123456789ABCDEF, 0xFEDCBA9876543210), 77, 2, 13);
  }

  lemma TurnedKLExample111()
    ensures Left(Both(0x0123456789ABCDEF, 0xFEDCBA9876543210), 111) == Word64(0x19080091A2B3C4D5)
          && Right(Both(0x0123456789ABCDEF, 0xFEDCBA9876543210), 111) == Word64(0xE6F7FF6E5D4C3B2A)
  {
    Amounts();
    hide Left, Right, ByteOfInt;
    Turned(Both(0x0123456789ABCDEF, 0xFEDCBA9876543210), 111, 3, 15);
  }

  lemma TurnedKRExample15()
    ensures Left(Both(0x0011223344556677, 0xFFEEDDCCBBAA9988), 15) == Word64(0x9119A22AB33BFFF7)
          && Right(Both(0x0011223344556677, 0xFFEEDDCCBBAA9988), 15) == Word64(0x6EE65DD54CC40008)
    ensures Left(Both(0x0011223344556677, 0xFFEEDDCCBBAA9988), 30) == Word64(0xD115599DFFFBB773)
          && Right(Both(0x0011223344556677, 0xFFEEDDCCBBAA9988), 30) == Word64(0x2EEAA6620004488C)
  {
    Amounts();
    hide Left, Right, ByteOfInt;
    Turned(Both(0x0011223344556677, 0xFFEEDDCCBBAA9988), 15, 0, 15);
    Turned(Both(0x0011223344556677, 0xFFEEDDCCBBAA9988), 30, 0, 30);
  }

  lemma TurnedKRExample60()
    ensures Left(Both(0x0011223344556677, 0xFFEEDDCCBBAA9988), 60) == Word64(0x7FFEEDDCCBBAA998)
          && Right(Both(0x0011223344556677, 0xFFEEDDCCBBAA9988), 60) == Word64(0x8001122334455667)
    ensures Left(Both(0x0011223344556677, 0xFFEEDDCCBBAA9988), 94) == Word64(0x2EEAA6620004488C)
          && Right(Both(0x0011223344556677, 0xFFEEDDCCBBAA9988), 94) == Word64(0xD115599DFFFBB773)
  {
    Amounts();
    hide Left, Right, ByteOfInt;
    Turned(Both(0x0011223344556677, 0xFFEEDDCCBBAA9988), 60, 1, 28);
    Turned(Both(0x0011223344556677, 0xFFEEDDCCBBAA9988), 94, 2, 30);
  }

  lemma TurnedKAExample15()
    ensures Left(Both(0x0766A2135C44E288, 0xCF62016A06BABED3), 15) == Word64(0x5109AE22714467B1)
          && Right(Both(0x0766A2135C44E288, 0xCF62016A06BABED3), 15) == Word64(0x00B5035D5F6983B3)
    ensures Left(Both(0x0766A2135C44E288, 0xCF62016A06BABED3), 45) == Word64(0x9C5119EC402D40D7)
          && Right(Both(0x0766A2135C44E288, 0xCF62016A06BABED3), 45) == Word64(0x57DA60ECD4426B88)
  {
    Amounts();
    hide Left, Right, ByteOfInt;
    Turned(Both(0x0766A2135C44E288, 0xCF62016A06BABED3), 15, 0, 15);
    Turned(Both(0x0766A2135C44E288, 0xCF62016A06BABED3), 45, 1, 13);
  }

  lemma TurnedKAExample77()
    ensures Left(Both(0x0766A2135C44E288, 0xCF62016A06BABED3), 77) == Word64(0x402D40D757DA60EC)
          && Right(Both(0x0766A2135C44E288, 0xCF62016A06BABED3), 77) == Word64(0xD4426B889C5119EC)
    ensures Left(Both(0x0766A2135C44E288, 0xCF62016A06BABED3), 94) == Word64(0x81AEAFB4C1D9A884)
          && Right(Both(0x0766A2135C44E288, 0xCF62016A06BABED3), 94) == Word64(0xD71138A233D8805A)
  {
    Amounts();
    hide Left, Right, ByteOfInt;
    Turned(Both(0x0766A2135C44E288, 0xCF62016A06BABED3), 77, 2, 13);
    Turned(Both(0x0766A2135C44E288, 0xCF62016A06BABED3), 94, 2, 30);
  }

  lemma TurnedKBExample0()
    ensures Left(Both(0x8F3AFAC1CC974396, 0xC098A0B7E38B4DF2), 0) == Word64(0x8F3AFAC1CC974396)
          && Right(Both(0x8F3AFAC1CC974396, 0xC098A0B7E38B4DF2), 0) == Word64(0xC098A0B7E38B4DF2)
    ensures Left(Both(0x8F3AFAC1CC974396, 0xC098A0B7E38B4DF2), 30) == Word64(0x7325D0E5B026282D)
          && Right(Both(0x8F3AFAC1CC974396, 0xC098A0B7E38B4DF2), 30) == Word64(0xF8E2D37CA3CEBEB0)
  {
    Amounts();
    hide Left, Right, ByteOfInt;
    NotTurned(Both(0x8F3AFAC1CC974396, 0xC098A0B7E38B4DF2));
    Turned(Both(0x8F3AFAC1CC974396, 0xC098A0B7E38B4DF2), 30, 0, 30);
  }

  lemma TurnedKBExample60()
    ensures Left(Both(0x8F3AFAC1CC974396, 0xC098A0B7E38B4DF2), 60) == Word64(0x6C098A0B7E38B4DF)
          && Right(Both(0x8F3AFAC1CC974396, 0xC098A0B7E38B4DF2), 60) == Word64(0x28F3AFAC1CC97439)
    ensures Left(Both(0x8F3AFAC1CC974396, 0xC098A0B7E38B4DF2), 111) == Word64(0xA6F9479D7D60E64B)
          && Right(Both(0x8F3AFAC1CC974396, 0xC098A0B7E38B4DF2), 111) == Word64(0xA1CB604C505BF1C5)
  {
    Amounts();
    hide Left, Right, ByteOfInt;
    Turned(Both(0x8F3AFAC1CC974396, 0xC098A0B7E38B4DF2), 60, 1, 28);
    Turned(Both(0x8F3AFAC1CC974396, 0xC098A0B7E38B4DF2), 111, 3, 15);
  }

  /** The first 18 subkeys of the example. */
  predicate FirstKeys(h: seq<Half>) {
    && |h| == 34
    && h[0] == Word64(0x0123456789ABCDEF) && h[1] == Word64(0xFEDCBA9876543210)
    && h[2] == Word64(0x8F3AFAC1CC974396) && h[3] == Word64(0xC098A0B7E38B4DF2)
    && h[4] == Word64(0x9119A22AB33BFFF7) && h[5] == Word64(0x6EE65DD54CC40008)
    && h[6] == Word64(0x5109AE22714467B1) && h[7] == Word64(0x00B5035D5F6983B3)
    && h[8] == Word64(0xD115599DFFFBB773) && h[9] == Word64(0x2EEAA6620004488C)
    && h[10] == Word64(0x7325D0E5B026282D) && h[11] == Word64(0xF8E2D37CA3CEBEB0)
    && h[12] == Word64(0x79BDFFDB97530ECA) && h[13] == Word64(0x8642002468ACF135)
    && h[14] == Word64(0x9C5119EC402D40D7) && h[15] == Word64(0x57DA60ECD4426B88)
    && h[16] == Word64(0xFFEDCBA987654321) && h[17] == Word64(0x00123456789ABCDE)
  }

  /** The others. */
  predicate LastKeys(h: seq<Half>) {
    && |h| == 34
    && h[18] == Word64(0x7FFEEDDCCBBAA998) && h[19] == Word64(0x8001122334455667)
    && h[20] == Word64(0x6C098A0B7E38B4DF) && h[21] == Word64(0x28F3AFAC1CC97439)
    && h[22] == Word64(0x97530ECA86420024) && h[23] == Word64(0x68ACF13579BDFFDB)
    && h[24] == Word64(0x402D40D757DA60EC) && h[25] == Word64(0xD4426B889C5119EC)
    && h[26] == Word64(0x2EEAA6620004488C) && h[27] == Word64(0xD115599DFFFBB773)
    && h[28] == Word64(0x81AEAFB4C1D9A884) && h[29] == Word64(0xD71138A233D8805A)
    && h[30] == Word64(0x19080091A2B3C4D5) && h[31] == Word64(0xE6F7FF6E5D4C3B2A)
    && h[32] == Word64(0xA6F9479D7D60E64B) && h[33] == Word64(0xA1CB604C505BF1C5)
  }

  lemma FirstSubkeysExample(ks: seq<bv32>)
    requires Scheduled(ks, 24, [Both(0x0123456789ABCDEF, 0xFEDCBA9876543210), Both(0x0011223344556677,
          0xFFEEDDCCBBAA9988),
                            Both(0x0766A2135C44E288, 0xCF62016A06BABED3), Both(0x8F3AFAC1CC974396, 0xC098A0B7E38B4DF2)])
    ensures FirstKeys(Keys(ks, 24))
  {
    hide Scheduled, Keys, Both, Word64, Left, Right, KeyCount;
    var k := [Both(0x0123456789ABCDEF, 0xFEDCBA9876543210), Both(0x0011223344556677, 0xFFEEDDCCBBAA9988),
              Both(0x0766A2135C44E288, 0xCF62016A06BABED3), Both(0x8F3AFAC1CC974396, 0xC098A0B7E38B4DF2)];
    Subkeys256From0(ks, k);
    Subkeys256From8(ks, k);
    TurnedKLExample0();
    TurnedKLExample60();
    TurnedKRExample15();
    TurnedKAExample15();
    TurnedKBExample0();
  }

  lemma LastSubkeysExample(ks: seq<bv32>)
    requires Scheduled(ks, 24, [Both(0x0123456789ABCDEF, 0xFEDCBA9876543210), Both(0x0011223344556677,
          0xFFEEDDCCBBAA9988),
                            Both(0x0766A2135C44E288, 0xCF62016A06BABED3), Both(0x8F3AFAC1CC974396, 0xC098A0B7E38B4DF2)])
    ensures LastKeys(Keys(ks, 24))
  {
    hide Scheduled, Keys, Both, Word64, Left, Right, KeyCount;
    var k := [Both(0x0123456789ABCDEF, 0xFEDCBA9876543210), Both(0x0011223344556677, 0xFFEEDDCCBBAA9988),
              Both(0x0766A2135C44E288, 0xCF62016A06BABED3), Both(0x8F3AFAC1CC974396, 0xC098A0B7E38B4DF2)];
    Subkeys256From18(ks, k);
    Subkeys256From24(ks, k);
    Subkeys256From30(ks, k);
    TurnedKLExample60();
    TurnedKLExample111();
    TurnedKRExample60();
    TurnedKAExample77();
    TurnedKBExample60();
  }

  lemma RoundsExample2(keys: seq<Half>)
    requires |keys| == KeyCount(24) && FirstKeys(keys) && LastKeys(keys)
    ensures Layer(Rounds(Both(0x0123456789ABCDEF, 0xFEDCBA9876543210), keys, 24, 2), keys, 24, 2)
         == Both(0xA58DAE703D80E85D, 0x835276CE9C2B6D7E)
  {
    Counts();
    hide Word64, Both, Round, Layer, Rounds, XorPair, XorHalf, KeyCount, WideOf;
    var p := Both(0x0123456789ABCDEF, 0xFEDCBA9876543210);
    FirstWhitening(p, keys, 24);
    PairOf(0x0123456789ABCDEF, 0xFEDCBA9876543210);
    XorBoth(0x0123456789ABCDEF, 0xFEDCBA9876543210, 0x0123456789ABCDEF, 0xFEDCBA9876543210);
    NoLayer(Rounds(p, keys, 24, 0), keys, 24, 0);
    TakeRound(p, keys, 24, 1, 0x0000000000000000, 0x0000000000000000, 0x8F3AFAC1CC974396, 0xD2B4D67D5EED6275,
          0x835276CE9C2B6D7E);
    NoLayer(Rounds(p, keys, 24, 1), keys, 24, 1);
    TakeRound(p, keys, 24, 2, 0x835276CE9C2B6D7E, 0x0000000000000000, 0x43CAD6797FA0208C, 0x66F3B8D3A0C38BE0,
          0xA58DAE703D80E85D);
    NoLayer(Rounds(p, keys, 24, 2), keys, 24, 2);
  }

  lemma RoundsExample4(keys: seq<Half>)
    requires |keys| == KeyCount(24) && FirstKeys(keys) && LastKeys(keys)
    ensures Layer(Rounds(Both(0x0123456789ABCDEF, 0xFEDCBA9876543210), keys, 24, 4), keys, 24, 4)
         == Both(0xA60D83C77961A24E, 0xB33D0A52562C4B05)
  {
    Counts();
    hide Word64, Both, Round, Layer, Rounds, XorPair, XorHalf, KeyCount, WideOf;
    var p := Both(0x0123456789ABCDEF, 0xFEDCBA9876543210);
    RoundsExample2(keys);
    TakeRound(p, keys, 24, 3, 0xA58DAE703D80E85D, 0x835276CE9C2B6D7E, 0x34940C5A8EBB17AA, 0xD54775C8C8A50BF6,
          0x306F7C9CCA07267B);
    NoLayer(Rounds(p, keys, 24, 3), keys, 24, 3);
    TakeRound(p, keys, 24, 4, 0xB33D0A52562C4B05, 0xA58DAE703D80E85D, 0xDDDB57871AE84B0D, 0xA28482419E1B750C,
          0x03802DB744E14A13);
    NoLayer(Rounds(p, keys, 24, 4), keys, 24, 4);
  }

  lemma RoundsExample6(keys: seq<Half>)
    requires |keys| == KeyCount(24) && FirstKeys(keys) && LastKeys(keys)
    ensures Layer(Rounds(Both(0x0123456789ABCDEF, 0xFEDCBA9876543210), keys, 24, 6), keys, 24, 6)
         == Both(0xC4E45D0498808301, 0xD6801117036BBDDF)
  {
    Counts();
    hide Word64, Both, Round, Layer, Rounds, XorPair, XorHalf, KeyCount, WideOf;
    var p := Both(0x0123456789ABCDEF, 0xFEDCBA9876543210);
    RoundsExample4(keys);
    TakeRound(p, keys, 24, 5, 0xA60D83C77961A24E, 0xB33D0A52562C4B05, 0xF7042DE50825C5FF, 0xC167E2B6C9F5959E,
          0x6BD2E69A5847F6DE);
    NoLayer(Rounds(p, keys, 24, 5), keys, 24, 5);
    TakeRound(p, keys, 24, 6, 0xD8EFECC80E6BBDDB, 0xA60D83C77961A24E, 0xD85AEF9551023E68, 0xD453525F98166032,
          0x9D1269B0C3CBB165);
    TakeLayer(Rounds(p, keys, 24, 6), keys, 24, 6, Word64(0xD115599DFFFBB773), Word64(0x2EEAA6620004488C));
    LayerExample6();
  }

  lemma LayerExample6()
    ensures Layered(Both(0x3B1FEA77BAAA132B, 0xD8EFECC80E6BBDDB), Word64(0xD115599DFFFBB773), Word64(0x2EEAA6620004488C))
         == Both(0xC4E45D0498808301, 0xD6801117036BBDDF)
  {
  }

  lemma RoundsExample8(keys: seq<Half>)
    requires |keys| == KeyCount(24) && FirstKeys(keys) && LastKeys(keys)
    ensures Layer(Rounds(Both(0x0123456789ABCDEF, 0xFEDCBA9876543210), keys, 24, 8), keys, 24, 8)
         == Both(0x51C7175C38C3A7E2, 0x8DE24DA7D941A459)
  {
    Counts();
    hide Word64, Both, Round, Layer, Rounds, XorPair, XorHalf, KeyCount, WideOf;
    var p := Both(0x0123456789ABCDEF, 0xFEDCBA9876543210);
    RoundsExample6(keys);
    TakeRound(p, keys, 24, 7, 0xC4E45D0498808301, 0xD6801117036BBDDF, 0xB7C18DE128A6AB2C, 0x3BF2FF8C7C48055E,
          0x5B625CB0DA2A1986);
    NoLayer(Rounds(p, keys, 24, 7), keys, 24, 7);
    TakeRound(p, keys, 24, 8, 0x8DE24DA7D941A459, 0xC4E45D0498808301, 0x75009EDB7A8F1AE9, 0xB5E0EE3BD169D549,
          0x95234A58A04324E3);
    NoLayer(Rounds(p, keys, 24, 8), keys, 24, 8);
  }

  lemma RoundsExample10(keys: seq<Half>)
    requires |keys| == KeyCount(24) && FirstKeys(keys) && LastKeys(keys)
    ensures Layer(Rounds(Both(0x0123456789ABCDEF, 0xFEDCBA9876543210), keys, 24, 10), keys, 24, 10)
         == Both(0x07DA9B5A2F3F25D1, 0x1D754A23C2B20D29)
  {
    Counts();
    hide Word64, Both, Round, Layer, Rounds, XorPair, XorHalf, KeyCount, WideOf;
    var p := Both(0x0123456789ABCDEF, 0xFEDCBA9876543210);
    RoundsExample8(keys);
    TakeRound(p, keys, 24, 9, 0x51C7175C38C3A7E2, 0x8DE24DA7D941A459, 0x287AE887AF90A928, 0x3ED11B41C508C23E,
          0x909707841BF3A970);
    NoLayer(Rounds(p, keys, 24, 9), keys, 24, 9);
    TakeRound(p, keys, 24, 10, 0x1D754A23C2B20D29, 0x51C7175C38C3A7E2, 0x9B374A07AA1EFC1C, 0xDA7A95AEED49E31D,
          0x561D8C0617FC8233);
    NoLayer(Rounds(p, keys, 24, 10), keys, 24, 10);
  }

  lemma RoundsExample12(keys: seq<Half>)
    requires |keys| == KeyCount(24) && FirstKeys(keys) && LastKeys(keys)
    ensures Layer(Rounds(Both(0x0123456789ABCDEF, 0xFEDCBA9876543210), keys, 24, 12), keys, 24, 12)
         == Both(0xBA7A61C6F7790E54, 0xFC5F26B7BF903CCF)
  {
    Counts();
    hide Word64, Both, Round, Layer, Rounds, XorPair, XorHalf, KeyCount, WideOf;
    var p := Both(0x0123456789ABCDEF, 0xFEDCBA9876543210);
    RoundsExample10(keys);
    TakeRound(p, keys, 24, 11, 0x07DA9B5A2F3F25D1, 0x1D754A23C2B20D29, 0x9B8B82B66F126506, 0xDA2B501844B5F9C0,
          0x1E94906B7D0679CA);
    NoLayer(Rounds(p, keys, 24, 11), keys, 24, 11);
    TakeRound(p, keys, 24, 12, 0x03E1DA48BFB474E3, 0x07DA9B5A2F3F25D1, 0x543BBAA46BF61F6B, 0x34ADB7122CA16C16,
          0x4ADDB5E9424C3EC7);
    TakeLayer(Rounds(p, keys, 24, 12), keys, 24, 12, Word64(0xFFEDCBA987654321), Word64(0x00123456789ABCDE));
    LayerExample12();
  }

  lemma LayerExample12()
    ensures Layered(Both(0x4D072EB36D731B16, 0x03E1DA48BFB474E3), Word64(0xFFEDCBA987654321), Word64(0x00123456789ABCDE))
         == Both(0xBA7A61C6F7790E54, 0xFC5F26B7BF903CCF)
  {
  }

  lemma RoundsExample14(keys: seq<Half>)
    requires |keys| == KeyCount(24) && FirstKeys(keys) && LastKeys(keys)
    ensures Layer(Rounds(Both(0x0123456789ABCDEF, 0xFEDCBA9876543210), keys, 24, 14), keys, 24, 14)
         == Both(0x3B8ECBC594F3AA0A, 0xC7B3B02C62B75209)
  {
    Counts();
    hide Word64, Both, Round, Layer, Rounds, XorPair, XorHalf, KeyCount, WideOf;
    var p := Both(0x0123456789ABCDEF, 0xFEDCBA9876543210);
    RoundsExample12(keys);
    TakeRound(p, keys, 24, 13, 0xBA7A61C6F7790E54, 0xFC5F26B7BF903CCF, 0xC5848C1A3CC3A7CC, 0x6E4370D5A246992F,
          0x3BEC969BDD276EC6);
    NoLayer(Rounds(p, keys, 24, 13), keys, 24, 13);
    TakeRound(p, keys, 24, 14, 0xC7B3B02C62B75209, 0xBA7A61C6F7790E54, 0x47B2A20F56F2046E, 0x2DB1C192ECE9E4F2,
          0x81F4AA03638AA45E);
    NoLayer(Rounds(p, keys, 24, 14), keys, 24, 14);
  }

  lemma RoundsExample16(keys: seq<Half>)
    requires |keys| == KeyCount(24) && FirstKeys(keys) && LastKeys(keys)
    ensures Layer(Rounds(Both(0x0123456789ABCDEF, 0xFEDCBA9876543210), keys, 24, 16), keys, 24, 16)
         == Both(0xDAF8D53DF8FE52D2, 0x37E555E4045DA26D)
  {
    Counts();
    hide Word64, Both, Round, Layer, Rounds, XorPair, XorHalf, KeyCount, WideOf;
    var p := Both(0x0123456789ABCDEF, 0xFEDCBA9876543210);
    RoundsExample14(keys);
    TakeRound(p, keys, 24, 15, 0x3B8ECBC594F3AA0A, 0xC7B3B02C62B75209, 0x578741CEEACB1ED5, 0x052F863F545B5146,
          0xF056E5C866EAF064);
    NoLayer(Rounds(p, keys, 24, 15), keys, 24, 15);
    TakeRound(p, keys, 24, 16, 0x37E555E4045DA26D, 0x3B8ECBC594F3AA0A, 0x1F16FA481894D654, 0xBD4BD610DBD17F34,
          0xE1761EF86C0DF8D8);
    NoLayer(Rounds(p, keys, 24, 16), keys, 24, 16);
  }

  lemma RoundsExample18(keys: seq<Half>)
    requires |keys| == KeyCount(24) && FirstKeys(keys) && LastKeys(keys)
    ensures Layer(Rounds(Both(0x0123456789ABCDEF, 0xFEDCBA9876543210), keys, 24, 18), keys, 24, 18)
         == Both(0x45652BBD5CC02D30, 0xD99C05FEF5C73CFF)
  {
    Counts();
    hide Word64, Both, Round, Layer, Rounds, XorPair, XorHalf, KeyCount, WideOf;
    var p := Both(0x0123456789ABCDEF, 0xFEDCBA9876543210);
    RoundsExample16(keys);
    TakeRound(p, keys, 24, 17, 0xDAF8D53DF8FE52D2, 0x37E555E4045DA26D, 0x4DABDBF77EBC52F6, 0xB1E721A4D289CD43,
          0x33AE6FF4519A9D83);
    NoLayer(Rounds(p, keys, 24, 17), keys, 24, 17);
    TakeRound(p, keys, 24, 18, 0x044B3A1055C73FEE, 0xDAF8D53DF8FE52D2, 0x6CE7CB252C7AC035, 0x53145B2BBC74D047,
          0xC047937CA464FF60);
    TakeLayer(Rounds(p, keys, 24, 18), keys, 24, 18, Word64(0x402D40D757DA60EC), Word64(0xD4426B889C5119EC));
    LayerExample18();
  }

  lemma LayerExample18()
    ensures Layered(Both(0x1ABF46415C9AADB2, 0x044B3A1055C73FEE), Word64(0x402D40D757DA60EC), Word64(0xD4426B889C5119EC))
         == Both(0x45652BBD5CC02D30, 0xD99C05FEF5C73CFF)
  {
  }

  lemma RoundsExample20(keys: seq<Half>)
    requires |keys| == KeyCount(24) && FirstKeys(keys) && LastKeys(keys)
    ensures Layer(Rounds(Both(0x0123456789ABCDEF, 0xFEDCBA9876543210), keys, 24, 20), keys, 24, 20)
         == Both(0xC7C79991C67EBC09, 0x3B48361F63D49252)
  {
    Counts();
    hide Word64, Both, Round, Layer, Rounds, XorPair, XorHalf, KeyCount, WideOf;
    var p := Both(0x0123456789ABCDEF, 0xFEDCBA9876543210);
    RoundsExample18(keys);
    TakeRound(p, keys, 24, 19, 0x45652BBD5CC02D30, 0xD99C05FEF5C73CFF, 0x6B8F8DDF5CC465BC, 0x16A5FF2EA3CFF913,
          0xE2D433E19613AEAD);
    NoLayer(Rounds(p, keys, 24, 19), keys, 24, 19);
    TakeRound(p, keys, 24, 20, 0x3B48361F63D49252, 0x45652BBD5CC02D30, 0xEA5D6F829C2F2521, 0x2A2E1127120D2BB8,
          0x82A2B22C9ABE9139);
    NoLayer(Rounds(p, keys, 24, 20), keys, 24, 20);
  }

  lemma RoundsExample22(keys: seq<Half>)
    requires |keys| == KeyCount(24) && FirstKeys(keys) && LastKeys(keys)
    ensures Layer(Rounds(Both(0x0123456789ABCDEF, 0xFEDCBA9876543210), keys, 24, 22), keys, 24, 22)
         == Both(0x8B2A7650CAE1C2FB, 0x56C79BE8956EBAA5)
  {
    Counts();
    hide Word64, Both, Round, Layer, Rounds, XorPair, XorHalf, KeyCount, WideOf;
    var p := Both(0x0123456789ABCDEF, 0xFEDCBA9876543210);
    RoundsExample20(keys);
    TakeRound(p, keys, 24, 21, 0xC7C79991C67EBC09, 0x3B48361F63D49252, 0x4669362507A7148D, 0xB01EAE2BCB993EFF,
          0x6D8FADF7F6BA28F7);
    NoLayer(Rounds(p, keys, 24, 21), keys, 24, 21);
    TakeRound(p, keys, 24, 22, 0x56C79BE8956EBAA5, 0xC7C79991C67EBC09, 0x81D6A34AA6B63AFF, 0xD0E201A32163C39E,
          0x4CEDEFC10C9F7EF2);
    NoLayer(Rounds(p, keys, 24, 22), keys, 24, 22);
  }

  lemma RoundsExample24(keys: seq<Half>)
    requires |keys| == KeyCount(24) && FirstKeys(keys) && LastKeys(keys)
    ensures Layer(Rounds(Both(0x0123456789ABCDEF, 0xFEDCBA9876543210), keys, 24, 24), keys, 24, 24)
         == Both(0xEF2EAEAB87C0F87C, 0x1260739CCE8970B3)
  {
    Counts();
    hide Word64, Both, Round, Layer, Rounds, XorPair, XorHalf, KeyCount, WideOf;
    var p := Both(0x0123456789ABCDEF, 0xFEDCBA9876543210);
    RoundsExample22(keys);
    TakeRound(p, keys, 24, 23, 0x8B2A7650CAE1C2FB, 0x56C79BE8956EBAA5, 0x922276C16852062E, 0x005F3D7D64E5EA0B,
          0x44A7E8745BE7CA16);
    NoLayer(Rounds(p, keys, 24, 23), keys, 24, 23);
    TakeRound(p, keys, 24, 24, 0x1260739CCE8970B3, 0x8B2A7650CAE1C2FB, 0xF4978CF293C54B99, 0xBBB770EE90377503,
          0x6404D8FB4D213A87);
    NoLayer(Rounds(p, keys, 24, 24), keys, 24, 24);
  }

  /** The example of a 192-bit key. */
  lemma AppendixA(ks: seq<bv32>)
    requires Scheduled(ks, 24, [Both(0x0123456789ABCDEF, 0xFEDCBA9876543210), Both(0x0011223344556677,
          0xFFEEDDCCBBAA9988),
                            Both(0x0766A2135C44E288, 0xCF62016A06BABED3), Both(0x8F3AFAC1CC974396, 0xC098A0B7E38B4DF2)])
    ensures |Keys(ks, 24)| == KeyCount(24)
    ensures Encrypted(Both(0x0123456789ABCDEF, 0xFEDCBA9876543210), Keys(ks, 24), 24)
         == Both(0xB4993401B3E996F8, 0x4EE5CEE7D79B09B9)
  {
    Counts();
    hide Word64, Both, Layer, Rounds, XorPair, XorHalf, WideOf, IsEntry;
    hide FirstKeys, LastKeys;
    var p, keys := Both(0x0123456789ABCDEF, 0xFEDCBA9876543210), Keys(ks, 24);
    FirstSubkeysExample(ks);
    LastSubkeysExample(ks);
    LastTwo(keys);
    RoundsExample24(keys);
    NoLayer(Rounds(p, keys, 24, 24), keys, 24, 24);
    LastWhitening(p, keys, 24);
    PairOf(0xA6F9479D7D60E64B, 0xA1CB604C505BF1C5);
    PairOf(0xEF2EAEAB87C0F87C, 0x1260739CCE8970B3);
    PairOf(0x1260739CCE8970B3, 0xEF2EAEAB87C0F87C);
    XorBoth(0x1260739CCE8970B3, 0xEF2EAEAB87C0F87C, 0xA6F9479D7D60E64B, 0xA1CB604C505BF1C5);
  }

  lemma LastTwo(h: seq<Half>)
    requires |h| == 34 && FirstKeys(h) && LastKeys(h)
    ensures h[32] == Word64(0xA6F9479D7D60E64B) && h[33] == Word64(0xA1CB604C505BF1C5)
  {
    hide Word64;
  }

  // ----- the example on a context ---------------------------------------------------------------------------

  lemma WordsOfKey()
    ensures var key := HexBytes(0x0123456789ABCDEFFEDCBA9876543210) + HexBytes(0x00112233445566770000000000000000)[..8];
            LeftKey(key) == Both(0x0123456789ABCDEF, 0xFEDCBA9876543210)
                  && RightKey(key) == Both(0x0011223344556677, 0xFFEEDDCCBBAA9988)
  {
  }

  lemma LoadHex()
    ensures LoadBlock(HexBytes(0x0123456789ABCDEFFEDCBA9876543210)) == Both(0x0123456789ABCDEF, 0xFEDCBA9876543210)
    ensures StoreBlock(Both(0xB4993401B3E996F8, 0x4EE5CEE7D79B09B9)) == HexBytes(0xB4993401B3E996F84EE5CEE7D79B09B9)
  {
  }

  lemma FourKeys()
    ensures KeysOf(HexBytes(0x0123456789ABCDEFFEDCBA9876543210) + HexBytes(0x00112233445566770000000000000000)[..8])
         == [Both(0x0123456789ABCDEF, 0xFEDCBA9876543210), Both(0x0011223344556677, 0xFFEEDDCCBBAA9988),
            Both(0x0766A2135C44E288, 0xCF62016A06BABED3), Both(0x8F3AFAC1CC974396, 0xC098A0B7E38B4DF2)]
  {
    hide HexBytes, LeftKey, RightKey, KeyA, KeyB, Both;
    WordsOfKey();
    KeyAExample();
    KeyBExample();
  }

  /** camelliaInit and camelliaEncryptBlock on the example. */
  method EncryptAppendixA() returns (output: seq<bv8>)
    ensures output == HexBytes(0xB4993401B3E996F84EE5CEE7D79B09B9)
  {
    hide HexBytes, KeysOf, Scheduled, Encrypted, LoadBlock, StoreBlock, Both, Keys;
    var key := HexBytes(0x0123456789ABCDEFFEDCBA9876543210) + HexBytes(0x00112233445566770000000000000000)[..8];
    var context := new CamelliaContext();
    var status := context.Init(key);
    output := context.EncryptBlock(HexBytes(0x0123456789ABCDEFFEDCBA9876543210));
    FourKeys();
    LoadHex();
    AppendixA(context.ks[..]);
  }
}
