/**
 * The round functions and the round structure of Blowfish, CAST-128 and CAST-256 as their authors state
 * them, with halves that change places after every round, against the written-out rounds of the code.
 */
module FeistelForms {
  import opened Words
  import opened Feistel
  import opened Blowfish
  import opened CastRounds
  import Cast128
  import Cast256

  // ----- the round functions, on the bytes of a word from the most significant on ------------------------------

  /** Subtraction wraps around as addition does. */
  lemma Borrow(a: bv32)
    ensures SubW(0, 1) == 0xFFFFFFFF && SubW(a, 0) == a && SubW(a, a) == 0
  {
  }

  /** F: ((S1[a] + S2[b]) XOR S3[c]) + S4[d] for the bytes a, b, c, d of x. */
  lemma BlowfishF(c: BlowfishContext, x: bv32)
    ensures var b := Store32BE(x);
            c.F(x) == AddW(XorW(AddW(c.s1(b[0]), c.s2(b[1])), c.s3(b[2])), c.s4(b[3]))
  {
    hide ByteOf, AddW, XorW;
  }

  /**
   * The three types of section 2.2 of RFC 2144. I = (Km + D) <<< Kr and f = ((S1[Ia] ^ S2[Ib]) - S3[Ic]) + S4[Id];
   * I = (Km ^ D) <<< Kr and f = ((S1[Ia] - S2[Ib]) + S3[Ic]) ^ S4[Id];
   * I = (Km - D) <<< Kr and f = ((S1[Ia] + S2[Ib]) ^ S3[Ic]) - S4[Id].
   */
  lemma CastTypes(s: Boxes, d: bv32, k: RoundKey)
    ensures var i := Store32BE(Rol32(AddW(k.km, d), k.kr));
            Mix1(s, d, k) == AddW(SubW(XorW(s.s1(i[0]), s.s2(i[1])), s.s3(i[2])), s.s4(i[3]))
    ensures var i := Store32BE(Rol32(XorW(k.km, d), k.kr));
            Mix2(s, d, k) == XorW(AddW(SubW(s.s1(i[0]), s.s2(i[1])), s.s3(i[2])), s.s4(i[3]))
    ensures var i := Store32BE(Rol32(SubW(k.km, d), k.kr));
            Mix3(s, d, k) == SubW(XorW(AddW(s.s1(i[0]), s.s2(i[1])), s.s3(i[2])), s.s4(i[3]))
  {
    hide ByteOf, AddW, XorW, SubW, Rol32;
  }

  // ----- rounds in which the halves change places ------------------------------------------------------------

  function Swapped(s: Halves): Halves {
    Halves(s.r, s.l)
  }

  /** n rounds of Blowfish: xL := xL ^ P[i], xR := F(xL) ^ xR, and the halves change places. */
  function BlowfishRounds(c: BlowfishContext, s: Halves, n: nat): Halves
    requires |c.p| == 18 && n <= 16
  {
    if n == 0 then s
    else
      var t := BlowfishRounds(c, s, n - 1);
      var l := XorW(t.l, c.p[n - 1]);
      Halves(XorW(t.r, c.F(l)), l)
  }

  lemma {:induction false} BlowfishForward(c: BlowfishContext, s: Halves, n: nat)
    requires |c.p| == 18 && n <= 16
    ensures c.Forward(s, n) == if n % 2 == 0 then BlowfishRounds(c, s, n) else Swapped(BlowfishRounds(c, s, n))
    decreases n
  {
    if n > 0 {
      BlowfishForward(c, s, n - 1);
    }
  }

  /** Sixteen rounds, the last exchange undone, then xR := xR ^ P[17th] and xL := xL ^ P[18th]. */
  lemma BlowfishIsTextbook(c: BlowfishContext, s: Halves)
    requires |c.p| == 18
    ensures var t := Swapped(BlowfishRounds(c, s, 16));
            StoreSwapped(c.Encrypted(s)) == Store(Halves(XorW(t.l, c.p[17]), XorW(t.r, c.p[16])))
  {
    BlowfishForward(c, s, 16);
    hide XorW, Store32BE;
  }

  /** Rounds 1, 4, 7, ... are of type 1, rounds 2, 5, 8, ... of type 2, rounds 3, 6, 9, ... of type 3. */
  function CastMix(b: Boxes, round: nat, x: bv32, k: RoundKey): bv32 {
    if round in {1, 4, 7, 10, 13, 16} then Mix1(b, x, k)
    else if round in {2, 5, 8, 11, 14} then Mix2(b, x, k)
    else Mix3(b, x, k)
  }

  /** n rounds of CAST-128, section 2.1 of RFC 2144: L' = R and R' = L ^ f(R). */
  function CastHalves(b: Boxes, keys: seq<RoundKey>, s: Halves, n: nat): Halves
    requires n <= |keys|
  {
    if n == 0 then s
    else
      var t := CastHalves(b, keys, s, n - 1);
      Halves(t.r, XorW(t.l, CastMix(b, n, t.r, keys[n - 1])))
  }

  lemma TypeOf(round: nat)
    requires 1 <= round <= 16
    ensures (round in {1, 4, 7, 10, 13, 16}) <==> (round - 1) % 3 == 0
    ensures (round in {2, 5, 8, 11, 14}) <==> (round - 1) % 3 == 1
  {
  }

  lemma CastRoundAt(b: Boxes, keys: seq<RoundKey>, s: Halves, n: nat)
    requires n < 16 == |keys|
    ensures Cast128.RoundAt(b, keys, n, s) ==
      if n % 2 == 0 then Halves(XorW(s.l, CastMix(b, n + 1, s.r, keys[n])), s.r)
      else Halves(s.l, XorW(s.r, CastMix(b, n + 1, s.l, keys[n])))
  {
    hide XorW, Mix1, Mix2, Mix3;
    TypeOf(n + 1);
  }

  lemma {:induction false} CastForward(b: Boxes, keys: seq<RoundKey>, s: Halves, n: nat)
    requires n <= |keys| == 16
    ensures Cast128.Forward(b, keys, s, n)
         == if n % 2 == 0 then CastHalves(b, keys, s, n) else Swapped(CastHalves(b, keys, s, n))
    decreases n
  {
    hide XorW, CastMix, Cast128.RoundAt;
    if n > 0 {
      CastForward(b, keys, s, n - 1);
      CastRoundAt(b, keys, Cast128.Forward(b, keys, s, n - 1), n - 1);
    }
  }

  /** After twelve or sixteen rounds the ciphertext is the right half and then the left half. */
  lemma Cast128IsTextbook(b: Boxes, keys: seq<RoundKey>, s: Halves, nr: nat)
    requires Cast128.Shaped(nr, keys)
    ensures var t := CastHalves(b, keys, s, nr);
            StoreSwapped(Cast128.Forward(b, keys, s, nr)) == Store32BE(t.r) + Store32BE(t.l)
  {
    CastForward(b, keys, s, nr);
    hide Store32BE, CastHalves, Cast128.Forward;
  }

  /** A forward quad-round of section 2.4 of RFC 2612: C, B, A and D in turn, each from the word after it. */
  lemma ForwardQuad(s: Boxes, k: Cast256.QuadKey, x: Cast256.Quad)
    ensures var y := Cast256.Q(s, k, x);
            && y.c == XorW(x.c, Mix1(s, x.d, k[0])) && y.b == XorW(x.b, Mix2(s, y.c, k[1]))
            && y.a == XorW(x.a, Mix3(s, y.b, k[2])) && y.d == XorW(x.d, Mix1(s, y.a, k[3]))
  {
    hide XorW, Mix1, Mix2, Mix3;
  }

  /** A reverse quad-round: D, A, B and C in turn. */
  lemma ReverseQuad(s: Boxes, k: Cast256.QuadKey, x: Cast256.Quad)
    ensures var y := Cast256.QBar(s, k, x);
            && y.d == XorW(x.d, Mix1(s, x.a, k[3])) && y.a == XorW(x.a, Mix3(s, x.b, k[2]))
            && y.b == XorW(x.b, Mix2(s, x.c, k[1])) && y.c == XorW(x.c, Mix1(s, y.d, k[0]))
  {
    hide XorW, Mix1, Mix2, Mix3;
  }

  /** Six forward and six reverse quad-rounds. */
  lemma SixAndSix(s: Boxes, keys: seq<Cast256.QuadKey>, x: Cast256.Quad, n: nat)
    requires |keys| == 12 && n < 12
    ensures Cast256.Forward(s, keys, x, n + 1) ==
      if n in {0, 1, 2, 3, 4, 5} then Cast256.Q(s, keys[n], Cast256.Forward(s, keys, x, n))
      else Cast256.QBar(s, keys[n], Cast256.Forward(s, keys, x, n))
  {
    hide Cast256.Q, Cast256.QBar;
  }
}
