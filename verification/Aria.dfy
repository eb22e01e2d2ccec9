/** aria.c: the 128-bit macros on four big-endian words, the round functions and the three entry points. */
module Aria {
  import opened Words
  import opened Rotation
  import opened AesField
  import opened AesTables
  import opened AriaTables
  import opened AriaSpec

  /** Four words of a 128-bit string. */
  datatype Quad = Quad(w0: bv32, w1: bv32, w2: bv32, w3: bv32)

  function WordAt(q: Quad, i: nat): bv32
    requires i < 4
  {
    if i == 0 then q.w0 else if i == 1 then q.w1 else if i == 2 then q.w2 else q.w3
  }

  /** Byte access: byte 0 is the most significant byte of the first word. */
  function X(q: Quad, n: nat): bv8
    requires n < 16
  {
    ByteOf(WordAt(q, n / 4), 3 - n % 4)
  }

  function BlockOf(q: Quad): Block {
    Block(X(q, 0), X(q, 1), X(q, 2), X(q, 3), X(q, 4), X(q, 5), X(q, 6), X(q, 7), X(q, 8), X(q, 9),
          X(q, 10), X(q, 11), X(q, 12), X(q, 13), X(q, 14), X(q, 15))
  }

  function QuadOf(b: Block): Quad {
    Quad(Load32BE(b.x0, b.x1, b.x2, b.x3),
         Load32BE(b.x4, b.x5, b.x6, b.x7),
         Load32BE(b.x8, b.x9, b.x10, b.x11),
         Load32BE(b.x12, b.x13, b.x14, b.x15))
  }

  lemma BytesOfLoad(a: bv8, b: bv8, c: bv8, d: bv8)
    ensures var w := Load32BE(a, b, c, d); ByteOf(w, 3) == a && ByteOf(w, 2) == b && ByteOf(w, 1) == c && ByteOf(w, 0) == d
  {
    StoreLoad32BE(a, b, c, d);
    hide ByteOf, Load32BE;
    var s := Store32BE(Load32BE(a, b, c, d));
    assert s[0] == a && s[1] == b && s[2] == c && s[3] == d;
  }

  lemma BlockOfQuad(b: Block)
    ensures BlockOf(QuadOf(b)) == b
  {
    BytesOfLoad(b.x0, b.x1, b.x2, b.x3);
    BytesOfLoad(b.x4, b.x5, b.x6, b.x7);
    BytesOfLoad(b.x8, b.x9, b.x10, b.x11);
    BytesOfLoad(b.x12, b.x13, b.x14, b.x15);
    hide ByteOf, Load32BE;
  }

  lemma QuadOfBlock(q: Quad)
    ensures QuadOf(BlockOf(q)) == q
  {
    LoadStore32BE(q.w0);
    LoadStore32BE(q.w1);
    LoadStore32BE(q.w2);
    LoadStore32BE(q.w3);
    hide ByteOf, Load32BE;
  }

  // ----- the macros ----------------------------------------------------------------------------------

  /** XOR128 */
  function XorQuad(a: Quad, b: Quad): Quad {
    Quad(XorW(a.w0, b.w0), XorW(a.w1, b.w1), XorW(a.w2, b.w2), XorW(a.w3, b.w3))
  }

  lemma LoadXor(a0: bv8, a1: bv8, a2: bv8, a3: bv8, b0: bv8, b1: bv8, b2: bv8, b3: bv8)
    ensures XorW(Load32BE(a0, a1, a2, a3), Load32BE(b0, b1, b2, b3))
         == Load32BE(Xor(a0, b0), Xor(a1, b1), Xor(a2, b2), Xor(a3, b3))
  {
  }

  lemma XorOfBlocks(a: Block, b: Block)
    ensures XorQuad(QuadOf(a), QuadOf(b)) == QuadOf(XorBlock(a, b))
  {
    hide Load32BE, XorW, Xor;
    LoadXor(a.x0, a.x1, a.x2, a.x3, b.x0, b.x1, b.x2, b.x3);
    LoadXor(a.x4, a.x5, a.x6, a.x7, b.x4, b.x5, b.x6, b.x7);
    LoadXor(a.x8, a.x9, a.x10, a.x11, b.x8, b.x9, b.x10, b.x11);
    LoadXor(a.x12, a.x13, a.x14, a.x15, b.x12, b.x13, b.x14, b.x15);
  }

  lemma XorQuads(a: Quad, b: Quad)
    ensures BlockOf(XorQuad(a, b)) == XorBlock(BlockOf(a), BlockOf(b))
  {
    hide *;
    QuadOfBlock(a);
    QuadOfBlock(b);
    XorOfBlocks(BlockOf(a), BlockOf(b));
    BlockOfQuad(XorBlock(BlockOf(a), BlockOf(b)));
  }

  /** SL1; x holds the bytes X(0) to X(15). */
  method Substitute1(q: Quad) returns (y: Quad)
    ensures BlockOf(y) == SL1(BlockOf(q))
  {
    hide BlockOf, Load32BE, SBox, InvSBox, SB2, SB4;
    var x := BlockOf(q);
    y := Quad(Load32BE(SBox(x.x0), SB2(x.x1), InvSBox(x.x2), SB4(x.x3)),
              Load32BE(SBox(x.x4), SB2(x.x5), InvSBox(x.x6), SB4(x.x7)),
              Load32BE(SBox(x.x8), SB2(x.x9), InvSBox(x.x10), SB4(x.x11)),
              Load32BE(SBox(x.x12), SB2(x.x13), InvSBox(x.x14), SB4(x.x15)));
    BlockOfQuad(SL1(x));
  }

  /** SL2 */
  method Substitute2(q: Quad) returns (y: Quad)
    ensures BlockOf(y) == SL2(BlockOf(q))
  {
    hide BlockOf, Load32BE, SBox, InvSBox, SB2, SB4;
    var x := BlockOf(q);
    y := Quad(Load32BE(InvSBox(x.x0), SB4(x.x1), SBox(x.x2), SB2(x.x3)),
              Load32BE(InvSBox(x.x4), SB4(x.x5), SBox(x.x6), SB2(x.x7)),
              Load32BE(InvSBox(x.x8), SB4(x.x9), SBox(x.x10), SB2(x.x11)),
              Load32BE(InvSBox(x.x12), SB4(x.x13), SBox(x.x14), SB2(x.x15)));
    BlockOfQuad(SL2(x));
  }

  /** A */
  method Diffuse(q: Quad) returns (y: Quad)
    ensures BlockOf(y) == A(BlockOf(q))
  {
    hide BlockOf, Load32BE, Sum7;
    var x := BlockOf(q);
    y := Quad(Load32BE(Sum7(x.x3, x.x4, x.x6, x.x8, x.x9, x.x13, x.x14),
                       Sum7(x.x2, x.x5, x.x7, x.x8, x.x9, x.x12, x.x15),
                       Sum7(x.x1, x.x4, x.x6, x.x10, x.x11, x.x12, x.x15),
                       Sum7(x.x0, x.x5, x.x7, x.x10, x.x11, x.x13, x.x14)),
              Load32BE(Sum7(x.x0, x.x2, x.x5, x.x8, x.x11, x.x14, x.x15),
                       Sum7(x.x1, x.x3, x.x4, x.x9, x.x10, x.x14, x.x15),
                       Sum7(x.x0, x.x2, x.x7, x.x9, x.x10, x.x12, x.x13),
                       Sum7(x.x1, x.x3, x.x6, x.x8, x.x11, x.x12, x.x13)),
              Load32BE(Sum7(x.x0, x.x1, x.x4, x.x7, x.x10, x.x13, x.x15),
                       Sum7(x.x0, x.x1, x.x5, x.x6, x.x11, x.x12, x.x14),
                       Sum7(x.x2, x.x3, x.x5, x.x6, x.x8, x.x13, x.x15),
                       Sum7(x.x2, x.x3, x.x4, x.x7, x.x9, x.x12, x.x14)),
              Load32BE(Sum7(x.x1, x.x2, x.x6, x.x7, x.x9, x.x11, x.x12),
                       Sum7(x.x0, x.x3, x.x6, x.x7, x.x8, x.x10, x.x13),
                       Sum7(x.x0, x.x3, x.x4, x.x5, x.x9, x.x11, x.x14),
                       Sum7(x.x1, x.x2, x.x4, x.x5, x.x8, x.x10, x.x15)));
    BlockOfQuad(A(x));
  }

  // ----- one block -----------------------------------------------------------------------------------

  /** The round keys as blocks. */
  function Keys(rk: seq<Quad>, nr: nat): (ks: seq<Block>)
    requires nr < |rk|
    ensures |ks| == nr + 1
  {
    seq(nr + 1, i requires 0 <= i < nr + 1 => BlockOf(rk[i]))
  }

  /** Odd round function */
  method OF(d: Quad, rk: Quad) returns (y: Quad)
    ensures BlockOf(y) == A(SL1(XorBlock(BlockOf(d), BlockOf(rk))))
  {
    hide *;
    y := XorQuad(d, rk);
    XorQuads(d, rk);
    y := Substitute1(y);
    y := Diffuse(y);
  }

  /** EF, as a step on bytes. */
  method EF(d: Quad, rk: Quad) returns (y: Quad)
    ensures BlockOf(y) == A(SL2(XorBlock(BlockOf(d), BlockOf(rk))))
  {
    hide *;
    y := XorQuad(d, rk);
    XorQuads(d, rk);
    y := Substitute2(y);
    y := Diffuse(y);
  }

  /** Rounds r and r + 1, an odd and an even one. */
  method TwoRounds(d: Quad, rk: array<Quad>, r: nat, nr: nat, ghost b: Block) returns (y: Quad)
    requires r % 2 == 0 && r + 1 <= nr < rk.Length && BlockOf(d) == Rounds(b, Keys(rk[..], nr), r)
    ensures BlockOf(y) == Rounds(b, Keys(rk[..], nr), r + 2)
  {
    hide *;
    ghost var keys := Keys(rk[..], nr);
    KeysAt(rk[..], nr, r);
    KeysAt(rk[..], nr, r + 1);
    y := OF(d, rk[r]);
    OddRound(b, keys, r);
    y := EF(y, rk[r + 1]);
    EvenRound(b, keys, r + 1);
  }

  lemma KeysAt(rk: seq<Quad>, nr: nat, i: nat)
    requires i <= nr < |rk|
    ensures Keys(rk, nr)[i] == BlockOf(rk[i])
  {
    hide BlockOf;
  }

  lemma OddRound(b: Block, keys: seq<Block>, r: nat)
    requires r % 2 == 0 && r < |keys|
    ensures Rounds(b, keys, r + 1) == A(SL1(XorBlock(Rounds(b, keys, r), keys[r])))
  {
    hide A, SL1, SL2, XorBlock, Rounds;
    NextRound(b, keys, r, true);
  }

  lemma EvenRound(b: Block, keys: seq<Block>, r: nat)
    requires r % 2 == 1 && r < |keys|
    ensures Rounds(b, keys, r + 1) == A(SL2(XorBlock(Rounds(b, keys, r), keys[r])))
  {
    hide A, SL1, SL2, XorBlock, Rounds;
    NextRound(b, keys, r, false);
  }

  /** The end of a cipher of nr rounds: one more odd round, and the last round without diffusion. */
  method LastRounds(d: Quad, rk: array<Quad>, nr: nat, ghost b: Block) returns (q: Quad)
    requires nr % 2 == 0 && 2 <= nr < rk.Length && BlockOf(d) == Rounds(b, Keys(rk[..], nr), nr - 2)
    ensures BlockOf(q) == Cipher(b, Keys(rk[..], nr))
  {
    hide *;
    ghost var keys := Keys(rk[..], nr);
    KeysAt(rk[..], nr, nr - 2);
    KeysAt(rk[..], nr, nr - 1);
    KeysAt(rk[..], nr, nr);
    var p := OF(d, rk[nr - 2]);
    OddRound(b, keys, nr - 2);
    XorQuads(p, rk[nr - 1]);
    p := XorQuad(p, rk[nr - 1]);
    q := Substitute2(p);
    XorQuads(q, rk[nr]);
    q := XorQuad(q, rk[nr]);
    CipherEnds(b, keys);
    NoOdd(XorBlock(Rounds(b, keys, nr - 1), keys[nr - 1]));
  }

  function LoadBlock(input: seq<bv8>): Quad
    requires |input| == 16
  {
    Quad(Load32BE(input[0], input[1], input[2], input[3]), Load32BE(input[4], input[5], input[6], input[7]),
         Load32BE(input[8], input[9], input[10], input[11]), Load32BE(input[12], input[13], input[14], input[15]))
  }

  function StoreBlock(q: Quad): (output: seq<bv8>)
    ensures |output| == 16
  {
    Store32BE(q.w0) + Store32BE(q.w1) + Store32BE(q.w2) + Store32BE(q.w3)
  }

  lemma StoreLoad(input: seq<bv8>)
    requires |input| == 16
    ensures StoreBlock(LoadBlock(input)) == input
  {
    FourWordsBE(input);
    hide Load32BE, Store32BE;
  }

  lemma LoadStore(q: Quad)
    ensures LoadBlock(StoreBlock(q)) == q
  {
    LoadStore32BE(q.w0);
    LoadStore32BE(q.w1);
    LoadStore32BE(q.w2);
    LoadStore32BE(q.w3);
    hide Load32BE, ByteOf;
  }

  /** The block cipher on bytes, under the keys of a schedule. */
  function Crypted(rk: seq<Quad>, nr: nat, input: seq<bv8>): seq<bv8>
    requires 1 <= nr < |rk| && |input| == 16
  {
    StoreBlock(QuadOf(Cipher(BlockOf(LoadBlock(input)), Keys(rk, nr))))
  }

  /** The common text of ariaEncryptBlock and ariaDecryptBlock. */
  method CryptBlock(rk: array<Quad>, nr: nat, input: seq<bv8>) returns (output: seq<bv8>)
    requires nr in {12, 14, 16} && rk.Length == 17 && |input| == 16
    ensures output == Crypted(rk[..], nr, input)
  {
    hide *;
    CryptedIs(rk[..], nr, input);
    var p := LoadBlock(input);
    ghost var b := BlockOf(p);
    p := TwoRounds(p, rk, 0, nr, b);
    p := TwoRounds(p, rk, 2, nr, b);
    p := TwoRounds(p, rk, 4, nr, b);
    p := TwoRounds(p, rk, 6, nr, b);
    p := TwoRounds(p, rk, 8, nr, b);
    p := ExtraRounds(p, rk, nr, b);
    var q := LastRounds(p, rk, nr, b);
    QuadOfBlock(q);
    output := StoreBlock(q);
  }

  method ExtraRounds(d: Quad, rk: array<Quad>, nr: nat, ghost b: Block) returns (p: Quad)
    requires nr in {12, 14, 16} && rk.Length == 17 && BlockOf(d) == Rounds(b, Keys(rk[..], nr), 10)
    ensures BlockOf(p) == Rounds(b, Keys(rk[..], nr), nr - 2)
  {
    hide *;
    p := d;
    if nr != 12 {
      p := TwoRounds(p, rk, 10, nr, b);
      if nr != 14 {
        p := TwoRounds(p, rk, 12, nr, b);
      }
    }
  }

  lemma CryptedIs(rk: seq<Quad>, nr: nat, input: seq<bv8>)
    requires 1 <= nr < |rk| && |input| == 16
    ensures var b := BlockOf(LoadBlock(input));
            && Rounds(b, Keys(rk, nr), 0) == b
            && Crypted(rk, nr, input) == StoreBlock(QuadOf(Cipher(b, Keys(rk, nr))))
  {
    NoRounds(BlockOf(LoadBlock(input)), Keys(rk, nr));
    hide BlockOf, LoadBlock, Keys, QuadOf, StoreBlock, Cipher, Rounds;
  }

  // ----- key schedule ----------------------------------------------------------------------------------

  function WordsOf(q: Quad): (w: seq<bv32>)
    ensures |w| == 4
  {
    [q.w0, q.w1, q.w2, q.w3]
  }

  /** ROL128: every word of the result comes from two neighbouring words. */
  function RolQuad(q: Quad, n: nat): Quad {
    var w := WordsOf(q);
    Quad(RolWord(w, n, 0), RolWord(w, n, 1), RolWord(w, n, 2), RolWord(w, n, 3))
  }

  function WideOf(q: Quad): bv128 {
    Wide(q.w0, q.w1, q.w2, q.w3)
  }

  lemma Rotates(q: Quad, n: nat)
    ensures WideOf(RolQuad(q, n)) == Rotated(WideOf(q), n)
  {
    hide Wide, RolWord, Rotated;
    RolWordsRotate(WordsOf(q), n);
  }

  /** The rotation that goes with each group of four round keys. */
  const AMOUNTS: seq<nat> := [109, 97, 61, 31, 19]

  /** The i-th round key made from the four intermediate values, section 2.2 of RFC 5794. */
  ghost predicate IsRoundKey(k: Quad, w: seq<Quad>, i: nat)
    requires |w| == 4 && i < 17
  {
    exists r: Quad ::
      WideOf(r) == Rotated(WideOf(w[(i + 1) % 4]), AMOUNTS[i / 4]) && k == XorQuad(r, w[i % 4])
  }

  const C: seq<Quad> := [
    Quad(0x517CC1B7, 0x27220A94, 0xFE13ABE8, 0xFA9A6EE0),
    Quad(0x6DB14ACC, 0x9E21C820, 0xFF28B1D5, 0xEF5DE2B0),
    Quad(0xDB92371D, 0x2126E970, 0x03249775, 0x04E8C90E)
  ]

  /** The intermediate values W0 to W3 of section 2.2 of RFC 5794, for a key in KL || KR. */
  ghost predicate AreIntermediate(w: seq<Quad>, kl: Quad, kr: Quad, ck: nat)
    requires ck < 3
  {
    && |w| == 4 && w[0] == kl
    && BlockOf(w[1]) == XorBlock(A(SL1(XorBlock(BlockOf(w[0]), BlockOf(C[ck])))), BlockOf(kr))
    && BlockOf(w[2]) == XorBlock(A(SL2(XorBlock(BlockOf(w[1]), BlockOf(C[(ck + 1) % 3])))), BlockOf(w[0]))
    && BlockOf(w[3]) == XorBlock(A(SL1(XorBlock(BlockOf(w[2]), BlockOf(C[(ck + 2) % 3])))), BlockOf(w[1]))
  }

  /** The intermediate values. */
  method Intermediate(kl: Quad, kr: Quad, ck: nat) returns (w: seq<Quad>)
    requires ck < 3
    ensures |w| == 4 && AreIntermediate(w, kl, kr, ck)
  {
    hide BlockOf, XorBlock, A, SL1, SL2, XorQuad;
    var t1 := OF(kl, C[ck]);
    XorQuads(t1, kr);
    var w1 := XorQuad(t1, kr);
    var t2 := EF(w1, C[(ck + 1) % 3]);
    XorQuads(t2, kl);
    var w2 := XorQuad(t2, kl);
    var t3 := OF(w2, C[(ck + 2) % 3]);
    XorQuads(t3, w1);
    var w3 := XorQuad(t3, w1);
    w := [kl, w1, w2, w3];
  }

  /** One round key: a rotated intermediate value added to its predecessor. */
  method RoundKey(w: seq<Quad>, i: nat) returns (k: Quad)
    requires |w| == 4 && i < 17
    ensures IsRoundKey(k, w, i)
  {
    var x := w[(i + 1) % 4];
    hide Wide, Rotated, RolQuad, XorQuad, WideOf;
    var r;
    if i < 4 {
      r := RolQuad(x, 109);
      Rotates(x, 109);
    } else if i < 8 {
      r := RolQuad(x, 97);
      Rotates(x, 97);
    } else if i < 12 {
      r := RolQuad(x, 61);
      Rotates(x, 61);
    } else if i < 16 {
      r := RolQuad(x, 31);
      Rotates(x, 31);
    } else {
      r := RolQuad(x, 19);
      Rotates(x, 19);
    }
    k := XorQuad(r, w[i % 4]);
  }

  /** KL */
  function LeftHalf(key: seq<bv8>): Quad {
    Quad(KeyWordBE(key, 0), KeyWordBE(key, 1), KeyWordBE(key, 2), KeyWordBE(key, 3))
  }

  /** KR */
  function RightHalf(key: seq<bv8>): Quad {
    Quad(KeyWordBE(key, 4), KeyWordBE(key, 5), KeyWordBE(key, 6), KeyWordBE(key, 7))
  }

  /** Which of the constants comes first. */
  function FirstConstant(keyLen: nat): (ck: nat)
    ensures ck < 3
  {
    if keyLen == 16 then 0 else if keyLen == 24 then 1 else 2
  }

  datatype Status = NoError | InvalidKeyLength

  class AriaContext {
    var nr: nat
    const ek: array<Quad>
    const dk: array<Quad>

    constructor ()
      ensures fresh(ek) && fresh(dk) && ek != dk && ek.Length == dk.Length == 17
    {
      nr := 0;
      ek := new Quad[17](_ => Quad(0, 0, 0, 0));
      dk := new Quad[17](_ => Quad(0, 0, 0, 0));
    }

    /** A context after a successful ariaInit. */
    ghost predicate Valid()
      reads this, ek, dk
    {
      nr in {12, 14, 16} && ek.Length == dk.Length == 17 && Keys(dk[..], nr) == InvKeys(Keys(ek[..], nr))
    }

    /** ariaInit */
    method Init(key: seq<bv8>) returns (status: Status, ghost w: seq<Quad>)
      requires ek != dk && ek.Length == dk.Length == 17
      modifies this, ek, dk
      ensures status == (if |key| in {16, 24, 32} then NoError else InvalidKeyLength)
      ensures status == NoError ==>
        && Valid() && nr == (if |key| == 16 then 12 else if |key| == 24 then 14 else 16)
        && AreIntermediate(w, LeftHalf(key), RightHalf(key), FirstConstant(|key|)) && |w| == 4
        && forall i :: 0 <= i < 17 ==> IsRoundKey(ek[i], w, i)
    {
      hide AreIntermediate, IsRoundKey, LeftHalf, RightHalf, Keys, InvKeys;
      w := [];
      var ck;
      if |key| == 16 {
        nr := 12;
        ck := 0;
      } else if |key| == 24 {
        nr := 14;
        ck := 1;
      } else if |key| == 32 {
        nr := 16;
        ck := 2;
      } else {
        return InvalidKeyLength, [];
      }
      var kl, kr := LeftHalf(key), RightHalf(key);
      var ws := Intermediate(kl, kr, ck);
      FillKeys(ws);
      ReverseKeys();
      status, w := NoError, ws;
    }

    /** Compute ek1 to ek17. */
    method FillKeys(w: seq<Quad>)
      requires |w| == 4 && ek.Length == 17
      modifies ek
      ensures forall i :: 0 <= i < 17 ==> IsRoundKey(ek[i], w, i)
    {
      hide IsRoundKey;
      var i := 0;
      while i < 17
        invariant 0 <= i <= 17
        invariant forall j :: 0 <= j < i ==> IsRoundKey(ek[j], w, j)
      {
        var k := RoundKey(w, i);
        ek[i] := k;
        i := i + 1;
      }
    }

    /** dk holds the keys that CipherInverts asks for: those of ek backwards, the inner ones diffused. */
    method ReverseKeys()
      requires nr in {12, 14, 16} && ek != dk && ek.Length == dk.Length == 17
      modifies dk
      ensures Keys(dk[..], nr) == InvKeys(Keys(ek[..], nr))
    {
      hide A, BlockOf;
      ghost var e := ek[..];
      dk[0] := ek[nr];
      var i := 1;
      while i < nr
        invariant 1 <= i <= nr && ek[..] == e && dk[0] == e[nr]
        invariant forall j :: 1 <= j < i ==> BlockOf(dk[j]) == A(BlockOf(e[nr - j]))
      {
        var k := Diffuse(ek[nr - i]);
        dk[i] := k;
        i := i + 1;
      }
      dk[i] := ek[0];
    }

    /** ariaEncryptBlock */
    method EncryptBlock(input: seq<bv8>) returns (output: seq<bv8>)
      requires Valid() && |input| == 16
      ensures output == Crypted(ek[..], nr, input)
    {
      hide Crypted, Keys, InvKeys;
      output := CryptBlock(ek, nr, input);
    }

    /** ariaDecryptBlock */
    method DecryptBlock(input: seq<bv8>) returns (output: seq<bv8>)
      requires Valid() && |input| == 16
      ensures output == Crypted(dk[..], nr, input)
      ensures forall p: seq<bv8> :: |p| == 16 && Crypted(ek[..], nr, p) == input ==> output == p
    {
      hide Crypted;
      output := CryptBlock(dk, nr, input);
      forall p: seq<bv8> | |p| == 16 && Crypted(ek[..], nr, p) == input
        ensures output == p
      {
        DecryptionUndoes(ek[..], dk[..], nr, p);
      }
    }
  }

  /** Decrypting what was encrypted gives the plaintext back. */
  lemma DecryptionUndoes(ek: seq<Quad>, dk: seq<Quad>, nr: nat, p: seq<bv8>)
    requires nr in {12, 14, 16} && |ek| == |dk| == 17 && |p| == 16
    requires Keys(dk, nr) == InvKeys(Keys(ek, nr))
    ensures Crypted(dk, nr, Crypted(ek, nr, p)) == p
  {
    var keys := Keys(ek, nr);
    var b := BlockOf(LoadBlock(p));
    CryptedIs(ek, nr, p);
    CryptedIs(dk, nr, Crypted(ek, nr, p));
    hide *;
    LoadStore(QuadOf(Cipher(b, keys)));
    BlockOfQuad(Cipher(b, keys));
    CipherInverts(b, keys);
    QuadOfBlock(LoadBlock(p));
    StoreLoad(p);
  }
}
