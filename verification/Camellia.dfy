/** camellia.c: the round macros, the table-driven subkeys and the two block functions. */
module Camellia {
  import opened CamelliaSpec
  import opened CamelliaTables
  import opened Rotation
  import opened Words

  // ----- the F-function in words -----------------------------------------------------------------------

  function X8(a: bv8, b: bv8): bv8 {
    a ^ b
  }

  lemma XorRol8(a: bv8, b: bv8, c: bv8, d: bv8, e: bv8, f: bv8, g: bv8, h: bv8)
    ensures XorW(Load32BE(a, b, c, d), Rol32(Load32BE(e, f, g, h), 8))
         == Load32BE(X8(a, f), X8(b, g), X8(c, h), X8(d, e))
  {
  }

  lemma XorRol16(a: bv8, b: bv8, c: bv8, d: bv8, e: bv8, f: bv8, g: bv8, h: bv8)
    ensures XorW(Load32BE(a, b, c, d), Rol32(Load32BE(e, f, g, h), 16))
         == Load32BE(X8(a, g), X8(b, h), X8(c, e), X8(d, f))
  {
  }

  lemma XorRol24(a: bv8, b: bv8, c: bv8, d: bv8, e: bv8, f: bv8, g: bv8, h: bv8)
    ensures XorW(Load32BE(a, b, c, d), Rol32(Load32BE(e, f, g, h), 24))
         == Load32BE(X8(a, h), X8(b, e), X8(c, f), X8(d, g))
  {
  }

  lemma Y1(t1: bv8, t2: bv8, t3: bv8, t4: bv8, t5: bv8, t6: bv8, t7: bv8, t8: bv8)
    ensures X8(X8(t5, X8(t3, t8)), X8(X8(t4, t5), X8(t7, X8(t1, t6))))
         == t1 ^ t3 ^ t4 ^ t6 ^ t7 ^ t8
  {
  }

  lemma Y2(t1: bv8, t2: bv8, t3: bv8, t4: bv8, t5: bv8, t6: bv8, t7: bv8, t8: bv8)
    ensures X8(X8(t6, X8(t4, t5)), X8(X8(t1, t6), X8(t8, X8(t2, t7))))
         == t1 ^ t2 ^ t4 ^ t5 ^ t7 ^ t8
  {
  }

  lemma Y3(t1: bv8, t2: bv8, t3: bv8, t4: bv8, t5: bv8, t6: bv8, t7: bv8, t8: bv8)
    ensures X8(X8(t7, X8(t1, t6)), X8(X8(t2, t7), X8(t5, X8(t3, t8))))
         == t1 ^ t2 ^ t3 ^ t5 ^ t6 ^ t8
  {
  }

  lemma Y4(t1: bv8, t2: bv8, t3: bv8, t4: bv8, t5: bv8, t6: bv8, t7: bv8, t8: bv8)
    ensures X8(X8(t8, X8(t2, t7)), X8(X8(t3, t8), X8(t6, X8(t4, t5))))
         == t2 ^ t3 ^ t4 ^ t5 ^ t6 ^ t7
  {
  }

  lemma Y5(t1: bv8, t2: bv8, t3: bv8, t4: bv8, t5: bv8, t6: bv8, t7: bv8, t8: bv8)
    ensures X8(X8(t1, t6), X8(t8, X8(t2, t7))) == t1 ^ t2 ^ t6 ^ t7 ^ t8
  {
  }

  lemma Y6(t1: bv8, t2: bv8, t3: bv8, t4: bv8, t5: bv8, t6: bv8, t7: bv8, t8: bv8)
    ensures X8(X8(t2, t7), X8(t5, X8(t3, t8))) == t2 ^ t3 ^ t5 ^ t7 ^ t8
  {
  }

  lemma Y7(t1: bv8, t2: bv8, t3: bv8, t4: bv8, t5: bv8, t6: bv8, t7: bv8, t8: bv8)
    ensures X8(X8(t3, t8), X8(t6, X8(t4, t5))) == t3 ^ t4 ^ t5 ^ t6 ^ t8
  {
  }

  lemma Y8(t1: bv8, t2: bv8, t3: bv8, t4: bv8, t5: bv8, t6: bv8, t7: bv8, t8: bv8)
    ensures X8(X8(t4, t5), X8(t7, X8(t1, t6))) == t1 ^ t4 ^ t5 ^ t6 ^ t7
  {
  }

  /** The four rotate-and-XOR steps of the P macro; its two words come out in exchanged order. */
  function PWords(zl: bv32, zr: bv32): Half {
    var l1 := XorW(zl, Rol32(zr, 8));
    var r1 := XorW(zr, Rol32(l1, 16));
    var l2 := XorW(l1, Rol32(r1, 24));
    var r2 := XorW(r1, Rol32(l2, 24));
    Half(r2, l2)
  }

  /** They are the P-function of the standard. */
  lemma PWordsAreP(t1: bv8, t2: bv8, t3: bv8, t4: bv8, t5: bv8, t6: bv8, t7: bv8, t8: bv8)
    ensures PWords(Load32BE(t1, t2, t3, t4), Load32BE(t5, t6, t7, t8)) == PHalf(t1, t2, t3, t4, t5, t6, t7, t8)
  {
    hide XorW, Rol32, Load32BE, X8;
    XorRol8(t1, t2, t3, t4, t5, t6, t7, t8);
    var a1, a2, a3, a4 := X8(t1, t6), X8(t2, t7), X8(t3, t8), X8(t4, t5);
    XorRol16(t5, t6, t7, t8, a1, a2, a3, a4);
    var b1, b2, b3, b4 := X8(t5, a3), X8(t6, a4), X8(t7, a1), X8(t8, a2);
    XorRol24(a1, a2, a3, a4, b1, b2, b3, b4);
    XorRol24(b1, b2, b3, b4, X8(a1, b4), X8(a2, b1), X8(a3, b2), X8(a4, b3));
    Y1(t1, t2, t3, t4, t5, t6, t7, t8);
    Y2(t1, t2, t3, t4, t5, t6, t7, t8);
    Y3(t1, t2, t3, t4, t5, t6, t7, t8);
    Y4(t1, t2, t3, t4, t5, t6, t7, t8);
    Y5(t1, t2, t3, t4, t5, t6, t7, t8);
    Y6(t1, t2, t3, t4, t5, t6, t7, t8);
    Y7(t1, t2, t3, t4, t5, t6, t7, t8);
    Y8(t1, t2, t3, t4, t5, t6, t7, t8);
  }

  /** The S macro. */
  function SLeft(z: bv32): bv32 {
    Load32BE(SBox1(ByteOf(z, 3)), SBox2(ByteOf(z, 2)), SBox3(ByteOf(z, 1)), SBox4(ByteOf(z, 0)))
  }

  function SRight(z: bv32): bv32 {
    Load32BE(SBox2(ByteOf(z, 3)), SBox3(ByteOf(z, 2)), SBox4(ByteOf(z, 1)), SBox1(ByteOf(z, 0)))
  }

  /** The S and P macros together are the F-function. */
  lemma MacrosAreF(input: Half, k: Half)
    ensures PWords(SLeft(XorW(input.w1, k.w1)), SRight(XorW(input.w2, k.w2))) == F(input, k)
  {
    hide XorW, PWords, PHalf, Load32BE, ByteOf, SBox1, SBox2, SBox3, SBox4, Rol8;
    var x := XorHalf(input, k);
    SBox2Rotates(ByteOf(x.w1, 2));
    SBox3Rotates(ByteOf(x.w1, 1));
    SBox4Rotates(ByteOf(x.w1, 0));
    SBox2Rotates(ByteOf(x.w2, 3));
    SBox3Rotates(ByteOf(x.w2, 2));
    SBox4Rotates(ByteOf(x.w2, 1));
    PWordsAreP(SBox1(ByteOf(x.w1, 3)), SBox2(ByteOf(x.w1, 2)), SBox3(ByteOf(x.w1, 1)), SBox4(ByteOf(x.w1, 0)),
               SBox2(ByteOf(x.w2, 3)), SBox3(ByteOf(x.w2, 2)), SBox4(ByteOf(x.w2, 1)), SBox1(ByteOf(x.w2, 0)));
  }

  /** The ROUND macro. */
  method ApplyRound(left1: bv32, left2: bv32, right1: bv32, right2: bv32, k1: bv32, k2: bv32)
    returns (l1: bv32, l2: bv32, r1: bv32, r2: bv32)
    ensures Pair(Half(l1, l2), Half(r1, r2))
         == Round(Pair(Half(left1, left2), Half(right1, right2)), Half(k1, k2))
  {
    MacrosAreF(Half(left1, left2), Half(k1, k2));
    hide F, XorW, PWords, SLeft, SRight;
    XorWCommutes(PWords(SLeft(XorW(left1, k1)), SRight(XorW(left2, k2))).w1, right1);
    XorWCommutes(PWords(SLeft(XorW(left1, k1)), SRight(XorW(left2, k2))).w2, right2);
    var temp1 := XorW(left1, k1);
    var temp2 := XorW(left2, k2);
    var p := PWords(SLeft(temp1), SRight(temp2));
    temp2 := p.w1;
    temp1 := p.w2;
    temp1 := XorW(temp1, right2);
    temp2 := XorW(temp2, right1);
    r1 := left1;
    r2 := left2;
    l1 := temp2;
    l2 := temp1;
  }

  // ----- subkeys -----------------------------------------------------------------------------------------

  // Key words and positions, as the tables name them.
  const KL: nat := 0
  const KR: nat := 1
  const KA: nat := 2
  const KB: nat := 3
  const L: nat := 0
  const R: nat := 64

  /** Where a subkey goes, and which half of which rotated key word it is. */
  datatype Subkey = Subkey(index: nat, key: nat, shift: nat, position: nat)

  /** ks1 */
  function KS1(j: nat): Subkey
    requires j < 26
  {
    if j == 0 then Subkey(0, KL, 0, L)
    else if j == 1 then Subkey(2, KL, 0, R)
    else if j == 2 then Subkey(4, KA, 0, L)
    else if j == 3 then Subkey(6, KA, 0, R)
    else if j == 4 then Subkey(8, KL, 15, L)
    else if j == 5 then Subkey(10, KL, 15, R)
    else if j == 6 then Subkey(12, KA, 15, L)
    else if j == 7 then Subkey(14, KA, 15, R)
    else if j == 8 then Subkey(16, KA, 30, L)
    else if j == 9 then Subkey(18, KA, 30, R)
    else if j == 10 then Subkey(20, KL, 45, L)
    else if j == 11 then Subkey(22, KL, 45, R)
    else if j == 12 then Subkey(24, KA, 45, L)
    else if j == 13 then Subkey(26, KL, 60, R)
    else if j == 14 then Subkey(28, KA, 60, L)
    else if j == 15 then Subkey(30, KA, 60, R)
    else if j == 16 then Subkey(32, KL, 77, L)
    else if j == 17 then Subkey(34, KL, 77, R)
    else if j == 18 then Subkey(36, KL, 94, L)
    else if j == 19 then Subkey(38, KL, 94, R)
    else if j == 20 then Subkey(40, KA, 94, L)
    else if j == 21 then Subkey(42, KA, 94, R)
    else if j == 22 then Subkey(44, KL, 111, L)
    else if j == 23 then Subkey(46, KL, 111, R)
    else if j == 24 then Subkey(48, KA, 111, L)
    else Subkey(50, KA, 111, R)
  }

  /** ks2 */
  function KS2(j: nat): Subkey
    requires j < 34
  {
    if j == 0 then Subkey(0, KL, 0, L)
    else if j == 1 then Subkey(2, KL, 0, R)
    else if j == 2 then Subkey(4, KB, 0, L)
    else if j == 3 then Subkey(6, KB, 0, R)
    else if j == 4 then Subkey(8, KR, 15, L)
    else if j == 5 then Subkey(10, KR, 15, R)
    else if j == 6 then Subkey(12, KA, 15, L)
    else if j == 7 then Subkey(14, KA, 15, R)
    else if j == 8 then Subkey(16, KR, 30, L)
    else if j == 9 then Subkey(18, KR, 30, R)
    else if j == 10 then Subkey(20, KB, 30, L)
    else if j == 11 then Subkey(22, KB, 30, R)
    else if j == 12 then Subkey(24, KL, 45, L)
    else if j == 13 then Subkey(26, KL, 45, R)
    else if j == 14 then Subkey(28, KA, 45, L)
    else if j == 15 then Subkey(30, KA, 45, R)
    else if j == 16 then Subkey(32, KL, 60, L)
    else if j == 17 then Subkey(34, KL, 60, R)
    else if j == 18 then Subkey(36, KR, 60, L)
    else if j == 19 then Subkey(38, KR, 60, R)
    else if j == 20 then Subkey(40, KB, 60, L)
    else if j == 21 then Subkey(42, KB, 60, R)
    else if j == 22 then Subkey(44, KL, 77, L)
    else if j == 23 then Subkey(46, KL, 77, R)
    else if j == 24 then Subkey(48, KA, 77, L)
    else if j == 25 then Subkey(50, KA, 77, R)
    else if j == 26 then Subkey(52, KR, 94, L)
    else if j == 27 then Subkey(54, KR, 94, R)
    else if j == 28 then Subkey(56, KA, 94, L)
    else if j == 29 then Subkey(58, KA, 94, R)
    else if j == 30 then Subkey(60, KL, 111, L)
    else if j == 31 then Subkey(62, KL, 111, R)
    else if j == 32 then Subkey(64, KB, 111, L)
    else Subkey(66, KB, 111, R)
  }

  /** The subkeys of a key schedule, in order. */
  function Entry(nr: nat, j: nat): Subkey
    requires nr in {18, 24} && j < KeyCount(nr)
  {
    if nr == 18 then KS1(j) else KS2(j)
  }

  lemma EntryShape(nr: nat, j: nat)
    requires nr in {18, 24} && j < KeyCount(nr)
    ensures var e := Entry(nr, j);
            && e.index == 2 * j && e.key < 4 && e.position in {0, 64}
            && e.shift in {0, 15, 30, 45, 60, 77, 94, 111}
  {
    assert KeyCount(18) == 26 && KeyCount(24) == 34;
  }

  function WideOf(p: Pair): bv128 {
    Wide(p.left.w1, p.left.w2, p.right.w1, p.right.w2)
  }

  /** h is the named half of the key word rotated left by the listed shift. */
  ghost predicate IsSubkey(h: Half, k: seq<Pair>, e: Subkey)
    requires |k| == 4 && e.key < 4 && e.shift < 128
  {
    exists r: Pair :: WideOf(r) == Rotated(WideOf(k[e.key]), e.shift) && h == if e.position == L then r.left else r.right
  }

  function WordsOf(p: Pair): (w: seq<bv32>)
    ensures |w| == 4
  {
    [p.left.w1, p.left.w2, p.right.w1, p.right.w2]
  }

  /** The two words the code computes for a shift of 32 n + m bits, at word n of the key. */
  function SubkeyWords(k: Pair, n: nat, m: nat): Half
    requires m < 32
  {
    var w := WordsOf(k);
    if m == 0 then Half(w[n % 4], w[(n + 1) % 4])
    else Half(RolPair(w[n % 4], w[(n + 1) % 4], m), RolPair(w[(n + 1) % 4], w[(n + 2) % 4], m))
  }

  /** The left and the right half of the rotated key word. */
  function Halves(k: Pair, shift: nat): Pair {
    Pair(SubkeyWords(k, shift / 32, shift % 32), SubkeyWords(k, shift / 32 + 2, shift % 32))
  }

  lemma HalvesAre(k: Pair, shift: nat)
    ensures var w, h := WordsOf(k), Halves(k, shift);
            && h.left == Half(RolWord(w, shift, 0), RolWord(w, shift, 1))
            && h.right == Half(RolWord(w, shift, 2), RolWord(w, shift, 3))
  {
    hide Shifted, WordsOf;
  }

  lemma HalvesRotate(k: Pair, shift: nat)
    ensures WideOf(Halves(k, shift)) == Rotated(WideOf(k), shift)
  {
    hide Wide, RolWord, Rotated, Halves;
    HalvesAre(k, shift);
    RolWordsRotate(WordsOf(k), shift);
  }

  lemma HalfOffset(shift: nat, position: nat)
    requires position in {L, R}
    ensures (shift + position) % 32 == shift % 32
    ensures (shift + position) / 32 == if position == L then shift / 32 else shift / 32 + 2
  {
  }

  lemma SubkeyIs(k: seq<Pair>, e: Subkey)
    requires |k| == 4 && e.key < 4 && e.position in {L, R} && e.shift < 128
    ensures IsSubkey(SubkeyWords(k[e.key], (e.shift + e.position) / 32, (e.shift + e.position) % 32), k, e)
  {
    hide SubkeyWords, WideOf, Rotated, IsSubkey;
    HalfOffset(e.shift, e.position);
    HalvesRotate(k[e.key], e.shift);
    HalfIsSubkey(k, e, Halves(k[e.key], e.shift));
  }

  lemma HalfIsSubkey(k: seq<Pair>, e: Subkey, r: Pair)
    requires |k| == 4 && e.key < 4 && e.shift < 128
    requires WideOf(r) == Rotated(WideOf(k[e.key]), e.shift)
    ensures IsSubkey(if e.position == L then r.left else r.right, k, e)
  {
    hide WideOf, Rotated;
  }

  // ----- key words ------------------------------------------------------------------------------------------

  function XorPair(a: Pair, b: Pair): Pair {
    Pair(XorHalf(a.left, b.left), XorHalf(a.right, b.right))
  }

  const SIGMA: seq<Half> := [
    Half(0xA09E667F, 0x3BCC908B), Half(0xB67AE858, 0x4CAA73B2), Half(0xC6EF372F, 0xE94F82BE),
    Half(0x54FF53A5, 0xF1D36F1C), Half(0x10E527FA, 0xDE682D1D), Half(0xB05688C2, 0xB3E6C1FD)
  ]

  /** D2 := D2 ^ F(D1, s), then D1 := D1 ^ F(D2, t): the pattern of section 2.2 of RFC 3713. */
  function TwoSteps(d: Pair, s: Half, t: Half): Pair {
    var d2 := XorHalf(d.right, F(d.left, s));
    Pair(XorHalf(d.left, F(d2, t)), d2)
  }

  /** KA, section 2.2. */
  function KeyA(kl: Pair, kr: Pair): Pair {
    TwoSteps(XorPair(TwoSteps(XorPair(kl, kr), SIGMA[0], SIGMA[1]), kl), SIGMA[2], SIGMA[3])
  }

  /** KB, section 2.2. */
  function KeyB(kl: Pair, kr: Pair): Pair {
    TwoSteps(XorPair(KeyA(kl, kr), kr), SIGMA[4], SIGMA[5])
  }

  method XorPairs(a: Pair, b: Pair) returns (c: Pair)
    ensures c == XorPair(a, b)
  {
    c := Pair(Half(XorW(a.left.w1, b.left.w1), XorW(a.left.w2, b.left.w2)),
              Half(XorW(a.right.w1, b.right.w1), XorW(a.right.w2, b.right.w2)));
  }

  method RoundPair(p: Pair, k: Half) returns (q: Pair)
    ensures q == Round(p, k)
  {
    hide Round;
    var l1, l2, r1, r2 := ApplyRound(p.left.w1, p.left.w2, p.right.w1, p.right.w2, k.w1, k.w2);
    q := Pair(Half(l1, l2), Half(r1, r2));
  }

  /** KA is what stands in the working pair after four of the six rounds, KB after all of them. */
  method KeyWords(kl: Pair, kr: Pair) returns (ka: Pair, kb: Pair)
    ensures ka == KeyA(kl, kr) && kb == KeyB(kl, kr)
  {
    GeneratedWords(kl, kr);
    hide F, XorPair, XorHalf, KeyA, KeyB, Round;
    ka := kl;
    kb := XorPairs(kl, kr);
    ghost var p := kb;
    var i := 0;
    while i < 6
      invariant 0 <= i <= 6
      invariant kb == Generated(kl, kr, i)
      invariant i >= 4 ==> ka == KeyA(kl, kr)
    {
      kb := RoundPair(kb, SIGMA[i]);
      if i == 1 {
        kb := XorPairs(kb, kl);
      } else if i == 3 {
        ka := kb;
        kb := XorPairs(kb, kr);
      }
      i := i + 1;
    }
  }

  lemma TwoRounds(p: Pair, s: Half, t: Half)
    ensures Round(Round(p, s), t) == TwoSteps(p, s, t)
  {
    hide F, XorW;
    XorHalfCommutes(p.left, F(Round(p, s).left, t));
  }

  lemma XorHalfCommutes(a: Half, b: Half)
    ensures XorHalf(a, b) == XorHalf(b, a)
  {
    hide XorW;
    XorWCommutes(a.w1, b.w1);
    XorWCommutes(a.w2, b.w2);
  }

  /** The passes of the loop add up to the key words of the standard. */
  lemma GeneratedWords(kl: Pair, kr: Pair)
    ensures Round(Generated(kl, kr, 3), SIGMA[3]) == KeyA(kl, kr) && Generated(kl, kr, 6) == KeyB(kl, kr)
  {
    hide F, XorHalf, XorPair, Round, TwoSteps;
    TwoRounds(XorPair(kl, kr), SIGMA[0], SIGMA[1]);
    assert Generated(kl, kr, 1) == Round(XorPair(kl, kr), SIGMA[0]);
    assert Generated(kl, kr, 2) == XorPair(TwoSteps(XorPair(kl, kr), SIGMA[0], SIGMA[1]), kl);
    TwoRounds(Generated(kl, kr, 2), SIGMA[2], SIGMA[3]);
    assert Generated(kl, kr, 4) == XorPair(KeyA(kl, kr), kr);
    TwoRounds(Generated(kl, kr, 4), SIGMA[4], SIGMA[5]);
    assert Generated(kl, kr, 5) == Round(Generated(kl, kr, 4), SIGMA[4]);
  }

  /** The value in the place of KB after i passes. */
  function Generated(kl: Pair, kr: Pair, i: nat): Pair
    requires i <= 6
  {
    if i == 0 then XorPair(kl, kr)
    else
      var kb := Round(Generated(kl, kr, i - 1), SIGMA[i - 1]);
      if i == 2 then XorPair(kb, kl) else if i == 4 then XorPair(kb, kr) else kb
  }

  /** KL */
  function LeftKey(key: seq<bv8>): Pair {
    Pair(Half(KeyWordBE(key, 0), KeyWordBE(key, 1)), Half(KeyWordBE(key, 2), KeyWordBE(key, 3)))
  }

  /** KR; the second half of a 192-bit key's is the complement of the first. */
  function RightKey(key: seq<bv8>): Pair {
    var kr := Half(KeyWordBE(key, 4), KeyWordBE(key, 5));
    Pair(kr, if |key| == 24 then Half(!kr.w1, !kr.w2) else Half(KeyWordBE(key, 6), KeyWordBE(key, 7)))
  }

  /** The subkeys as halves, two words each. */
  function Keys(ks: seq<bv32>, nr: nat): (h: seq<Half>)
    requires 2 * KeyCount(nr) <= |ks|
    ensures |h| == KeyCount(nr)
  {
    seq(KeyCount(nr), i requires 0 <= i < KeyCount(nr) => Half(ks[2 * i], ks[2 * i + 1]))
  }

  /** Every subkey is the named half of the rotated key word its table entry lists. */
  ghost predicate Scheduled(ks: seq<bv32>, nr: nat, k: seq<Pair>) {
    && |k| == 4 && nr in {18, 24} && 2 * KeyCount(nr) <= |ks|
    && forall j :: 0 <= j < KeyCount(nr) ==> IsEntry(ks, nr, k, j)
  }

  ghost predicate IsEntry(ks: seq<bv32>, nr: nat, k: seq<Pair>, j: nat)
    requires |k| == 4 && nr in {18, 24} && 2 * KeyCount(nr) <= |ks| && j < KeyCount(nr)
  {
    EntryShape(nr, j);
    IsSubkey(Half(ks[2 * j], ks[2 * j + 1]), k, Entry(nr, j))
  }

  ghost predicate FirstEntries(ks: seq<bv32>, nr: nat, k: seq<Pair>, n: nat) {
    && |k| == 4 && nr in {18, 24} && 2 * KeyCount(nr) <= |ks| && n <= KeyCount(nr)
    && forall j :: 0 <= j < n ==> IsEntry(ks, nr, k, j)
  }

  lemma FirstOfNone(ks: seq<bv32>, nr: nat, k: seq<Pair>)
    requires |k| == 4 && nr in {18, 24} && 2 * KeyCount(nr) <= |ks|
    ensures FirstEntries(ks, nr, k, 0)
  {
  }

  lemma FirstOfMore(before: seq<bv32>, after: seq<bv32>, nr: nat, k: seq<Pair>, n: nat)
    requires FirstEntries(before, nr, k, n) && n < KeyCount(nr) && |after| == |before|
    requires after[..2 * n] == before[..2 * n] && IsEntry(after, nr, k, n)
    ensures FirstEntries(after, nr, k, n + 1)
  {
    hide KeyCount, Entry, IsSubkey;
    forall j | 0 <= j < n
      ensures IsEntry(after, nr, k, j)
    {
      assert IsEntry(before, nr, k, j);
      assert after[2 * j] == after[..2 * n][2 * j] && after[2 * j + 1] == after[..2 * n][2 * j + 1];
    }
  }

  lemma AllScheduled(ks: seq<bv32>, nr: nat, k: seq<Pair>)
    requires nr in {18, 24} && FirstEntries(ks, nr, k, KeyCount(nr))
    ensures Scheduled(ks, nr, k)
  {
    hide KeyCount, IsEntry;
  }

  /** The current subkey, from the shift count. */
  method MakeSubkey(k: seq<Pair>, p: Subkey) returns (h: Half)
    requires |k| == 4 && p.key < 4 && p.position in {L, R} && p.shift < 128
    ensures IsSubkey(h, k, p)
  {
    hide IsSubkey, SubkeyWords;
    SubkeyIs(k, p);
    var n := (p.shift + p.position) / 32;
    var m := (p.shift + p.position) % 32;
    h := SubkeyWords(k[p.key], n, m);
  }

  /** KL, KR, KA and KB. */
  function KeysOf(key: seq<bv8>): (k: seq<Pair>)
    ensures |k| == 4
  {
    var kl, kr := LeftKey(key), RightKey(key);
    [kl, kr, KeyA(kl, kr), KeyB(kl, kr)]
  }

  lemma Counts()
    ensures KeyCount(18) == 26 && KeyCount(24) == 34
  {
  }

  // ----- blocks as bytes --------------------------------------------------------------------------------------

  function LoadBlock(input: seq<bv8>): Pair
    requires |input| == 16
  {
    Pair(Half(Load32BE(input[0], input[1], input[2], input[3]), Load32BE(input[4], input[5], input[6], input[7])),
         Half(Load32BE(input[8], input[9], input[10], input[11]), Load32BE(input[12], input[13], input[14], input[15])))
  }

  function StoreBlock(p: Pair): (output: seq<bv8>)
    ensures |output| == 16
  {
    Store32BE(p.left.w1) + Store32BE(p.left.w2) + Store32BE(p.right.w1) + Store32BE(p.right.w2)
  }

  lemma LoadStore(p: Pair)
    ensures LoadBlock(StoreBlock(p)) == p
  {
    hide Load32BE, ByteOf;
    LoadStore32BE(p.left.w1);
    LoadStore32BE(p.left.w2);
    LoadStore32BE(p.right.w1);
    LoadStore32BE(p.right.w2);
  }

  lemma StoreLoad(input: seq<bv8>)
    requires |input| == 16
    ensures StoreBlock(LoadBlock(input)) == input
  {
    FourWordsBE(input);
    hide Load32BE, Store32BE;
  }

  datatype Status = NoError | InvalidKeyLength

  class CamelliaContext {
    var nr: nat
    var k: seq<Pair>
    const ks: array<bv32>

    constructor ()
      ensures fresh(ks) && ks.Length == 68
    {
      nr := 0;
      k := [];
      ks := new bv32[68];
    }

    /** A context after a successful camelliaInit. */
    predicate Valid()
      reads this
    {
      (nr == 18 || nr == 24) && ks.Length == 68
    }

    /** camelliaInit */
    method Init(key: seq<bv8>) returns (status: Status)
      requires ks.Length == 68
      modifies this, ks
      ensures status == (if |key| in {16, 24, 32} then NoError else InvalidKeyLength)
      ensures status == NoError ==>
        && Valid() && nr == (if |key| == 16 then 18 else 24)
        && k == KeysOf(key) && Scheduled(ks[..], nr, k)
    {
      hide KeyA, KeyB, Scheduled, LeftKey, RightKey, KeyCount;
      if |key| == 16 {
        nr := 18;
      } else if |key| == 24 || |key| == 32 {
        nr := 24;
      } else {
        return InvalidKeyLength;
      }
      var kl, kr := LeftKey(key), RightKey(key);
      var ka, kb := KeyWords(kl, kr);
      k := [kl, kr, ka, kb];
      PutSubkeys();
      status := NoError;
    }

    /** The while loop over the table. */
    method PutSubkeys()
      requires Valid() && |k| == 4
      modifies ks
      ensures Scheduled(ks[..], nr, k)
    {
      Counts();
      FirstOfNone(ks[..], nr, k);
      hide FirstEntries, Entry, KeyCount;
      var i := 0;
      while i < KeyCount(nr)
        invariant 0 <= i <= KeyCount(nr) && FirstEntries(ks[..], nr, k, i)
      {
        ghost var before := ks[..];
        PutSubkey(i);
        FirstOfMore(before, ks[..], nr, k, i);
        i := i + 1;
      }
      AllScheduled(ks[..], nr, k);
    }

    /** The current subkey, from its table entry; the words before it stay as they are. */
    method PutSubkey(i: nat)
      requires Valid() && |k| == 4 && i < KeyCount(nr) && KeyCount(18) == 26 && KeyCount(24) == 34
      modifies ks
      ensures IsEntry(ks[..], nr, k, i) && ks[..2 * i] == old(ks[..2 * i])
    {
      hide IsSubkey, Entry, KeyCount;
      EntryShape(nr, i);
      var p := Entry(nr, i);
      var h := MakeSubkey(k, p);
      ks[p.index] := h.w1;
      ks[p.index + 1] := h.w2;
      assert Half(ks[..][2 * i], ks[..][2 * i + 1]) == h;
    }

    /** ks[c] and ks[c + 1], the words of subkey j. */
    method KeyAt(c: nat, ghost j: nat) returns (h: Half)
      requires Valid() && j < KeyCount(nr) && c == 2 * j
      ensures |ks[..]| >= 2 * KeyCount(nr) && h == Keys(ks[..], nr)[j]
    {
      Counts();
      h := Half(ks[c], ks[c + 1]);
    }

    /** One pass of the loop in camelliaEncryptBlock, with i rounds to go and the cursor at c. */
    method EncryptStep(i: nat, c: nat, s: Pair, ghost p: Pair, ghost keys: seq<Half>, ghost r: nat)
      returns (c1: nat, t: Pair)
      requires Valid() && 1 <= i <= nr && r == nr - i && |ks[..]| >= 2 * KeyCount(nr) && keys == Keys(ks[..], nr)
      requires c == 2 * Cursor(nr, r) && s == Layer(Rounds(p, keys, nr, r), keys, nr, r)
      ensures c1 == 2 * Cursor(nr, r + 1) && t == Layer(Rounds(p, keys, nr, r + 1), keys, nr, r + 1)
    {
      hide *;
      Shape();
      CursorMoves(nr, i, r);
      ghost var k := KeyIndex(r + 1);
      NextRound(p, keys, nr, r, k);
      var rk := KeyAt(c, k);
      t := RoundPair(s, rk);
      c1 := c + 2;
      if i == 7 || i == 13 || i == 19 {
        var ke1 := KeyAt(c1, k + 1);
        var ke2 := KeyAt(c1 + 2, k + 2);
        t := ApplyLayer(t, ke1, ke2);
        c1 := c1 + 4;
      }
    }

    lemma Shape()
      requires Valid()
      ensures (nr == 18 || nr == 24) && ks.Length == 68 && KeyCount(nr) >= 4 && |ks[..]| >= 2 * KeyCount(nr)
    {
    }

    /** camelliaEncryptBlock */
    method EncryptBlock(input: seq<bv8>) returns (output: seq<bv8>)
      requires Valid() && |input| == 16
      ensures |ks[..]| >= 2 * KeyCount(nr) && output == StoreBlock(Encrypted(LoadBlock(input), Keys(ks[..], nr), nr))
    {
      hide *;
      Shape();
      ghost var p, keys := LoadBlock(input), Keys(ks[..], nr);
      StartOfRounds(p, keys, nr);
      var kw1 := KeyAt(0, 0);
      var kw2 := KeyAt(2, 1);
      var s := XorPairs(LoadBlock(input), Pair(kw1, kw2));
      var c := 4;
      var i := nr;
      while i > 0
        invariant 0 <= i <= nr && c == 2 * Cursor(nr, nr - i)
        invariant s == Layer(Rounds(p, keys, nr, nr - i), keys, nr, nr - i)
      {
        c, s := EncryptStep(i, c, s, p, keys, nr - i);
        i := i - 1;
      }
      EndOfRounds(p, keys, nr);
      var kw3 := KeyAt(c, KeyCount(nr) - 2);
      var kw4 := KeyAt(c + 2, KeyCount(nr) - 1);
      var o := XorPairs(Pair(s.right, s.left), Pair(kw3, kw4));
      output := StoreBlock(o);
    }

    /** One pass of the loop in camelliaDecryptBlock, which undoes round i. */
    method DecryptStep(i: nat, c: nat, s: Pair, ghost p: Pair, ghost keys: seq<Half>) returns (c1: nat, t: Pair)
      requires Valid() && 1 <= i <= nr && |ks[..]| >= 2 * KeyCount(nr) && keys == Keys(ks[..], nr)
      requires c == 2 * (KeyIndex(i) + 1) && s == InvRounds(p, keys, nr, i)
      ensures c1 == (if i == 1 then 4 else 2 * (KeyIndex(i - 1) + 1)) && t == InvRounds(p, keys, nr, i - 1)
    {
      hide *;
      Shape();
      CursorMovesBack(nr, i);
      ghost var k := KeyIndex(i);
      PreviousRound(p, keys, nr, i, k);
      c1 := c - 2;
      var rk := KeyAt(c1, k);
      t := RoundPair(s, rk);
      if i == 7 || i == 13 || i == 19 {
        c1 := c1 - 4;
        var ke1 := KeyAt(c1, k - 2);
        var ke2 := KeyAt(c1 + 2, k - 1);
        t := ApplyLayer(t, ke2, ke1);
      }
    }

    /** camelliaDecryptBlock */
    method DecryptBlock(input: seq<bv8>) returns (output: seq<bv8>)
      requires Valid() && |input| == 16
      ensures |ks[..]| >= 2 * KeyCount(nr) && output == StoreBlock(Decrypted(LoadBlock(input), Keys(ks[..], nr), nr))
      ensures forall x: seq<bv8> ::
                |x| == 16 && StoreBlock(Encrypted(LoadBlock(x), Keys(ks[..], nr), nr)) == input ==> output == x
    {
      hide *;
      Shape();
      ghost var p, keys := LoadBlock(input), Keys(ks[..], nr);
      StartOfInvRounds(p, keys, nr);
      var c := if nr == 18 then 48 else 64;
      var kw3 := KeyAt(c, KeyCount(nr) - 2);
      var kw4 := KeyAt(c + 2, KeyCount(nr) - 1);
      var s := XorPairs(LoadBlock(input), Pair(kw3, kw4));
      var i := nr;
      while i > 0
        invariant 0 <= i <= nr && c == (if i == 0 then 4 else 2 * (KeyIndex(i) + 1))
        invariant s == InvRounds(p, keys, nr, i)
      {
        c, s := DecryptStep(i, c, s, p, keys);
        i := i - 1;
      }
      c := c - 4;
      EndOfInvRounds(p, keys, nr);
      var kw1 := KeyAt(c, 0);
      var kw2 := KeyAt(c + 2, 1);
      var o := XorPairs(Pair(s.right, s.left), Pair(kw1, kw2));
      output := StoreBlock(o);
      forall x: seq<bv8> | |x| == 16 && StoreBlock(Encrypted(LoadBlock(x), keys, nr)) == input
        ensures output == x
      {
        DecryptionUndoes(x, keys, nr);
      }
    }
  }

  /** Decrypting what was encrypted under the same subkeys gives the plaintext back. */
  lemma DecryptionUndoes(x: seq<bv8>, keys: seq<Half>, nr: nat)
    requires |x| == 16 && |keys| == KeyCount(nr)
    ensures StoreBlock(Decrypted(LoadBlock(StoreBlock(Encrypted(LoadBlock(x), keys, nr))), keys, nr)) == x
  {
    hide *;
    LoadStore(Encrypted(LoadBlock(x), keys, nr));
    CipherInverts(LoadBlock(x), keys, nr);
    StoreLoad(x);
  }

  lemma CursorMovesBack(nr: nat, i: nat)
    requires nr in {18, 24} && 1 <= i <= nr
    ensures 2 <= KeyIndex(i) && KeyIndex(i) + 3 <= KeyCount(nr)
    ensures LayerAfter(i - 1, nr) <==> i == 7 || i == 13 || i == 19
    ensures LayerAfter(i - 1, nr) ==> KeyIndex(i) >= 4
    ensures if i == 1 then KeyIndex(i) == 2
            else KeyIndex(i - 1) + 1 == KeyIndex(i) - (if LayerAfter(i - 1, nr) then 2 else 0)
  {
  }

  lemma PreviousRound(c: Pair, keys: seq<Half>, nr: nat, i: nat, k: nat)
    requires nr in {18, 24} && 1 <= i <= nr && |keys| == KeyCount(nr) && k == KeyIndex(i) && k + 3 <= KeyCount(nr)
    ensures LayerAfter(i - 1, nr) ==> k >= 4
    ensures var m := Round(InvRounds(c, keys, nr, i), keys[k]);
            InvRounds(c, keys, nr, i - 1)
            == if LayerAfter(i - 1, nr) then Pair(FL(m.left, keys[k - 1]), FLInv(m.right, keys[k - 2])) else m
  {
    hide Round, FL, FLInv, KeyCount;
    CursorMovesBack(nr, i);
  }

  lemma StartOfInvRounds(c: Pair, keys: seq<Half>, nr: nat)
    requires nr in {18, 24} && |keys| == KeyCount(nr)
    ensures InvRounds(c, keys, nr, nr) == XorPair(c, Pair(keys[KeyCount(nr) - 2], keys[KeyCount(nr) - 1]))
    ensures (if nr == 18 then 48 else 64) == 2 * (KeyIndex(nr) + 1) == 2 * (KeyCount(nr) - 2)
  {
    hide XorHalf;
  }

  lemma EndOfInvRounds(c: Pair, keys: seq<Half>, nr: nat)
    requires nr in {18, 24} && |keys| == KeyCount(nr)
    ensures var s := InvRounds(c, keys, nr, 0);
            Decrypted(c, keys, nr) == XorPair(Pair(s.right, s.left), Pair(keys[0], keys[1]))
  {
    hide XorHalf, InvRounds;
  }

  /** Where the next subkey stands after r rounds. */
  function Cursor(nr: nat, r: nat): (c: nat)
    requires r <= nr
  {
    if r < nr then KeyIndex(r + 1) else KeyCount(nr) - 2
  }

  lemma CursorMoves(nr: nat, i: nat, r: nat)
    requires nr in {18, 24} && 1 <= i <= nr && r == nr - i
    ensures && Cursor(nr, r) == KeyIndex(r + 1) && 2 <= KeyIndex(r + 1) && KeyIndex(r + 1) + 3 <= KeyCount(nr)
            && (LayerAfter(r + 1, nr) <==> i == 7 || i == 13 || i == 19)
            && (LayerAfter(r + 1, nr) ==> KeyIndex(r + 1) + 5 <= KeyCount(nr))
            && Cursor(nr, r + 1) == KeyIndex(r + 1) + (if LayerAfter(r + 1, nr) then 3 else 1)
  {
  }

  lemma NextRound(p: Pair, keys: seq<Half>, nr: nat, r: nat, k: nat)
    requires r < nr && |keys| == KeyCount(nr) && k == KeyIndex(r + 1) && k + 3 <= KeyCount(nr)
    requires LayerAfter(r + 1, nr) ==> k + 5 <= KeyCount(nr)
    ensures var m := Round(Layer(Rounds(p, keys, nr, r), keys, nr, r), keys[k]);
            Layer(Rounds(p, keys, nr, r + 1), keys, nr, r + 1)
            == if LayerAfter(r + 1, nr) then Pair(FL(m.left, keys[k + 1]), FLInv(m.right, keys[k + 2])) else m
  {
    hide Round, FL, FLInv, KeyIndex, KeyCount;
  }

  lemma StartOfRounds(p: Pair, keys: seq<Half>, nr: nat)
    requires nr in {18, 24} && |keys| == KeyCount(nr)
    ensures Layer(Rounds(p, keys, nr, 0), keys, nr, 0) == XorPair(p, Pair(keys[0], keys[1]))
    ensures Cursor(nr, 0) == 2
  {
    hide XorHalf;
  }

  lemma EndOfRounds(p: Pair, keys: seq<Half>, nr: nat)
    requires nr in {18, 24} && |keys| == KeyCount(nr)
    ensures Cursor(nr, nr) == KeyCount(nr) - 2
    ensures var s := Layer(Rounds(p, keys, nr, nr), keys, nr, nr);
            Encrypted(p, keys, nr)
            == XorPair(Pair(s.right, s.left), Pair(keys[KeyCount(nr) - 2], keys[KeyCount(nr) - 1]))
  {
    hide XorHalf, Rounds;
  }

  /** The FL macro. */
  method ApplyFL(xl: bv32, xr: bv32, kl: bv32, kr: bv32) returns (l: bv32, r: bv32)
    ensures Half(l, r) == FL(Half(xl, xr), Half(kl, kr))
  {
    hide XorW, AndW, OrW, Rol32;
    var temp1 := AndW(xl, kl);
    r := XorW(xr, Rol32(temp1, 1));
    l := XorW(xl, OrW(r, kr));
  }

  /** The FL_INV macro. */
  method ApplyFLInv(yl: bv32, yr: bv32, kl: bv32, kr: bv32) returns (l: bv32, r: bv32)
    ensures Half(l, r) == FLInv(Half(yl, yr), Half(kl, kr))
  {
    hide XorW, AndW, OrW, Rol32;
    l := XorW(yl, OrW(yr, kr));
    var temp1 := AndW(l, kl);
    r := XorW(yr, Rol32(temp1, 1));
  }

  /** The FL-function on the left half and its inverse on the right. */
  method ApplyLayer(t: Pair, ke1: Half, ke2: Half) returns (u: Pair)
    ensures u == Pair(FL(t.left, ke1), FLInv(t.right, ke2))
  {
    hide FL, FLInv;
    var l1, l2 := ApplyFL(t.left.w1, t.left.w2, ke1.w1, ke1.w2);
    var r1, r2 := ApplyFLInv(t.right.w1, t.right.w2, ke2.w1, ke2.w2);
    u := Pair(Half(l1, l2), Half(r1, r2));
  }
}
