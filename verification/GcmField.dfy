/** What singles out the product and the hashed bytes of GCM: a commutative product with a one,
      and inputs that read back. */
module GcmField {
  import opened BlockOps
  import opened Words
  import opened Folds
  import opened Gf128
  import opened Shoup
  import opened Gcm
  import opened GcmSpec

  // ----- the product commutes ----------------------------------------------------------------------------

  /** 1 is the string 1 || 0^127. */
  const ONE: Elem := Elem(0x80000000, 0, 0, 0)

  /** A bit string as an element. */
  function Value(x: seq<bool>): Elem {
    Product(x, ONE)
  }

  lemma {:induction false} ProductOfZero(x: seq<bool>)
    ensures Product(x, ZERO) == ZERO
  {
    ProductIsHorner(x, ZERO);
    MulXZero();
    XorZero(ZERO);
    if x != [] {
      ProductOfZero(x[1..]);
      ProductIsHorner(x[1..], ZERO);
    }
    hide Product, MulX, Xor, ZERO;
  }

  lemma ProductShift(x: seq<bool>, y: Elem)
    ensures Product(x, MulX(y)) == MulX(Product(x, y))
  {
    ProductIsHorner(x, MulX(y));
    ProductIsHorner(x, y);
    HornerShift(x, y);
  }

  lemma ProductCons(x: seq<bool>, y: Elem)
    requires x != []
    ensures Product(x, y) == Select(x[0], y, Product(x[1..], y))
  {
    ProductIsHorner(x, y);
    ProductIsHorner(x[1..], y);
    hide Product, Select;
  }

  /** x • z == z • x, for bit strings of any lengths. */
  lemma {:induction false} ProductCommutes(x: seq<bool>, z: seq<bool>)
    ensures Product(x, Value(z)) == Product(z, Value(x))
    decreases |z|
  {
    hide Product, MulX, Xor, ZERO, ONE;
    if z == [] {
      assert Product([], ONE) == ZERO && Product([], Value(x)) == ZERO by { NoBits(); }
      ProductOfZero(x);
    } else {
      ProductCons(z, ONE);
      ProductCons(z, Value(x));
      ProductCommutes(x, z[1..]);
      ProductShift(x, Value(z[1..]));
      if z[0] {
        ProductLinearRight(x, ONE, MulX(Value(z[1..])));
      }
    }
  }

  lemma NoBits()
    ensures forall y: Elem :: Product([], y) == ZERO
  {
  }

  // ----- blocks as elements ----------------------------------------------------------------------------------

  /** A byte put in front of an element, whose last byte falls off. */
  function PutFirst(b: bv8, e: Elem): Elem {
    Elem(XorW(Lead(b), ShrEightW(0, e.w3)), ShrEightW(e.w3, e.w2), ShrEightW(e.w2, e.w1), ShrEightW(e.w1, e.w0))
  }

  /** A byte at the front of a word. */
  function Lead(b: bv8): bv32 {
    (b as bv32) << 24
  }

  /** One bit put in front of the leading word. */
  function Up(bit: bool, w: bv32): bv32 {
    (if bit then 0x80000000 else 0) | (w >> 1)
  }

  lemma ShiftOut(w: bv32)
    requires w & 1 == 0
    ensures ShrW(0, w) == w >> 1 && ShrW(w, 0) == 0 && ShrW(0, 0) == 0 && Top(0) == 0
    ensures Up(true, w) == XorW(0x80000000, w >> 1) && Up(false, w) == w >> 1
  {
  }

  lemma SelectUp(bit: bool, w: bv32)
    requires w & 1 == 0
    ensures Select(bit, ONE, Elem(w, 0, 0, 0)) == Elem(Up(bit, w), 0, 0, 0)
  {
    ShiftOut(w);
    XorWZero(w >> 1);
    XorWZero(0);
    hide XorW, ShrW, Top, Up;
  }

  lemma BitsUp(a: bool, b: bool, c: bool, d: bool, e: bool, f: bool, g: bool, h: bool)
    ensures Horner([a, b, c, d, e, f, g, h], ONE, ZERO)
          == Elem(Up(a, Up(b, Up(c, Up(d, Up(e, Up(f, Up(g, Up(h, 0)))))))), 0, 0, 0)
  {
    LowBitsClear(b, c, d, e, f, g, h);
    EightSelects([a, b, c, d, e, f, g, h], ONE, ZERO);
    assert ZERO == Elem(0, 0, 0, 0);
    hide Horner, Select, Up, ONE, ZERO;
    SelectUp(h, 0);
    SelectUp(g, Up(h, 0));
    SelectUp(f, Up(g, Up(h, 0)));
    SelectUp(e, Up(f, Up(g, Up(h, 0))));
    SelectUp(d, Up(e, Up(f, Up(g, Up(h, 0)))));
    SelectUp(c, Up(d, Up(e, Up(f, Up(g, Up(h, 0))))));
    SelectUp(b, Up(c, Up(d, Up(e, Up(f, Up(g, Up(h, 0)))))));
    SelectUp(a, Up(b, Up(c, Up(d, Up(e, Up(f, Up(g, Up(h, 0))))))));
  }

  lemma LowBitsClear(b: bool, c: bool, d: bool, e: bool, f: bool, g: bool, h: bool)
    ensures Up(h, 0) & 1 == 0 && Up(g, Up(h, 0)) & 1 == 0 && Up(f, Up(g, Up(h, 0))) & 1 == 0
    ensures Up(e, Up(f, Up(g, Up(h, 0)))) & 1 == 0 && Up(d, Up(e, Up(f, Up(g, Up(h, 0))))) & 1 == 0
    ensures Up(c, Up(d, Up(e, Up(f, Up(g, Up(h, 0)))))) & 1 == 0
    ensures Up(b, Up(c, Up(d, Up(e, Up(f, Up(g, Up(h, 0))))))) & 1 == 0
    ensures 0 as bv32 & 1 == 0
  {
  }

  lemma HornerFrom(s: seq<bool>, i: nat, y: Elem, acc: Elem)
    requires i < |s|
    ensures Horner(s[i..], y, acc) == Select(s[i], y, Horner(s[i + 1..], y, acc))
  {
    hide Select;
    assert s[i..][1..] == s[i + 1..];
  }

  lemma FourSelects(s: seq<bool>, i: nat, y: Elem, acc: Elem)
    requires i + 4 <= |s|
    ensures Horner(s[i..], y, acc) ==
      Select(s[i], y, Select(s[i + 1], y, Select(s[i + 2], y, Select(s[i + 3], y, Horner(s[i + 4..], y, acc)))))
  {
    hide *;
    HornerFrom(s, i, y, acc);
    HornerFrom(s, i + 1, y, acc);
    HornerFrom(s, i + 2, y, acc);
    HornerFrom(s, i + 3, y, acc);
  }

  lemma HornerOfNothing(y: Elem, acc: Elem)
    ensures Horner([], y, acc) == acc
  {
  }

  lemma EightSelects(s: seq<bool>, y: Elem, acc: Elem)
    requires |s| == 8
    ensures Horner(s, y, acc) ==
      Select(s[0], y, Select(s[1], y, Select(s[2], y, Select(s[3], y,
      Select(s[4], y, Select(s[5], y, Select(s[6], y, Select(s[7], y, acc))))))))
  {
    hide *;
    WholeSlice(s);
    HornerOfNothing(y, acc);
    FourSelects(s, 0, y, acc);
    FourSelects(s, 4, y, acc);
  }

  lemma UpIsByte(b: bv8)
    ensures Up(b & 0x80 != 0, Up(b & 0x40 != 0, Up(b & 0x20 != 0, Up(b & 0x10 != 0,
            Up(b & 8 != 0, Up(b & 4 != 0, Up(b & 2 != 0, Up(b & 1 != 0, 0)))))))) == Lead(b)
  {
  }

  lemma FirstByte(b: bv8)
    ensures Horner(ByteBits(b), ONE, ZERO) == Elem(Lead(b), 0, 0, 0)
  {
    EightBits(b);
    UpIsByte(b);
    hide ByteBits, Up, Horner, ONE, ZERO, Lead;
    BitsUp(b & 0x80 != 0, b & 0x40 != 0, b & 0x20 != 0, b & 0x10 != 0, b & 8 != 0, b & 4 != 0, b & 2 != 0, b & 1 != 0);
  }

  lemma EightBits(b: bv8)
    ensures ByteBits(b) == [b & 0x80 != 0, b & 0x40 != 0, b & 0x20 != 0, b & 0x10 != 0,
                            b & 8 != 0, b & 4 != 0, b & 2 != 0, b & 1 != 0]
  {
  }

  lemma NoFold(e: Elem)
    requires LowByte(e.w0) == 0
    ensures MulX8(e) == Elem(ShrEightW(0, e.w3), ShrEightW(e.w3, e.w2), ShrEightW(e.w2, e.w1), ShrEightW(e.w1, e.w0))
  {
    NothingFolded();
    XorWZero(ShrEightW(0, e.w3));
    hide R8, ShrEightW, XorW, LowByte;
  }

  lemma NothingFolded()
    ensures R8(0) == 0
  {
  }

  /** A byte in front of a string whose value ends in a zero byte. */
  lemma ByteInFront(b: bv8, bits: seq<bool>)
    requires LowByte(Value(bits).w0) == 0
    ensures Value(ByteBits(b) + bits) == PutFirst(b, Value(bits))
  {
    var e := Value(bits);
    ProductIsHorner(ByteBits(b) + bits, ONE);
    ProductIsHorner(bits, ONE);
    HornerAppend(ByteBits(b), bits, ONE, ZERO);
    HornerOfByte(ByteBits(b), ONE, e);
    FirstByte(b);
    NoFold(e);
    hide Product, Horner, ByteBits, MulX8, ONE, ZERO, Lead, ShrEightW, LowByte;
    JoinWords(b, e);
  }

  lemma XorZeroLeft(w: bv32)
    ensures XorW(0, w) == w
  {
  }

  lemma JoinWords(b: bv8, e: Elem)
    ensures Xor(Elem(Lead(b), 0, 0, 0),
                Elem(ShrEightW(0, e.w3), ShrEightW(e.w3, e.w2), ShrEightW(e.w2, e.w1), ShrEightW(e.w1, e.w0)))
         == PutFirst(b, e)
  {
    XorZeroLeft(ShrEightW(e.w3, e.w2));
    XorZeroLeft(ShrEightW(e.w2, e.w1));
    XorZeroLeft(ShrEightW(e.w1, e.w0));
    hide XorW, Lead, ShrEightW;
  }

  lemma LoadShift(x: bv8, y: bv8, z: bv8, p: bv8, a: bv8, b: bv8, c: bv8, d: bv8)
    ensures ShrEightW(Load32BE(x, y, z, p), Load32BE(a, b, c, d)) == Load32BE(p, a, b, c)
    ensures XorW(Lead(p), ShrEightW(0, Load32BE(a, b, c, d))) == Load32BE(p, a, b, c)
  {
  }

  /** The block b || s, where s has fifteen bytes. */
  lemma PutFirstIs(b: bv8, s: seq<bv8>)
    requires |s| == 15
    ensures ToElem([b] + s) == PutFirst(b, ToElem(s + [0]))
  {
    var (t, u) := (s + [0], [b] + s);
    assert t[15] == 0 && u[0] == b;
    assert forall i :: 0 <= i < 15 ==> t[i] == s[i] && u[i + 1] == s[i];
    hide Load32BE, ShrEightW, Lead, XorW;
    LoadShift(0, 0, 0, b, s[0], s[1], s[2], s[3]);
    LoadShift(s[0], s[1], s[2], s[3], s[4], s[5], s[6], s[7]);
    LoadShift(s[4], s[5], s[6], s[7], s[8], s[9], s[10], s[11]);
    LoadShift(s[8], s[9], s[10], s[11], s[12], s[13], s[14], 0);
  }

  lemma LastByte(s: seq<bv8>)
    requires |s| == 15
    ensures LowByte(ToElem(s + [0]).w0) == 0
  {
    LowOfLoad(s[12], s[13], s[14]);
    hide Load32BE, LowByte;
  }

  lemma LowOfLoad(a: bv8, b: bv8, c: bv8)
    ensures LowByte(Load32BE(a, b, c, 0)) == 0
  {
  }

  /** A string of up to sixteen bytes is the element of its bytes, filled up with zeros. */
  lemma {:induction false} ValueOfBytes(s: seq<bv8>)
    requires |s| <= 16
    ensures Value(BlockBits(s)) == ToElem(s + Repeat(0, 16 - |s|))
    decreases |s|
  {
    if s == [] {
      NoBits();
      assert ToElem(Repeat(0, 16)) == ZERO by { ZeroBytes(); }
      assert s + Repeat(0, 16) == Repeat(0, 16);
      hide Product;
    } else {
      var rest := s[1..] + Repeat(0, 16 - |s|);
      assert s[1..] + Repeat(0, 17 - |s|) == rest + [0];
      assert s + Repeat(0, 16 - |s|) == [s[0]] + rest;
      ValueOfBytes(s[1..]);
      hide ToElem, Value, ByteBits;
      LastByte(rest);
      ByteInFront(s[0], BlockBits(s[1..]));
      PutFirstIs(s[0], rest);
    }
  }

  lemma ZeroBytes()
    ensures ToElem(Repeat(0, 16)) == Elem(0, 0, 0, 0) && ZERO == Elem(0, 0, 0, 0)
  {
  }

  /** x • 1 == x */
  lemma ProductOfOne(x: Block)
    ensures Product(BlockBits(x), ONE) == ToElem(x)
  {
    ValueOfBytes(x);
    hide Product, BlockBits, ToElem;
    assert x + Repeat(0, 0) == x;
  }

  /** The product of blocks commutes. */
  lemma BlockProductCommutes(x: Block, y: Block)
    ensures BlockProduct(x, ToElem(y)) == BlockProduct(y, ToElem(x))
  {
    ProductOfOne(x);
    ProductOfOne(y);
    ProductCommutes(BlockBits(x), BlockBits(y));
    hide Product, BlockBits, ToElem, FromElem, ONE;
  }

  /** The reduction: the rightmost bit times x is 11100001 || 0^120. */
  lemma Reduction()
    ensures MulX(Elem(0, 0, 0, 1)) == Elem(0xE1000000, 0, 0, 0)
  {
  }

  /** x • 1 == x on blocks, where 1 is the block 80 00 ... 00. */
  lemma BlockProductOfOne(x: Block)
    ensures BlockProduct(x, ToElem([0x80] + Repeat(0, 15))) == x
  {
    assert ToElem([0x80] + Repeat(0, 15)) == ONE by { OneIsBlock(); }
    ProductOfOne(x);
    hide Product, BlockBits;
    FourWordsBE(x);
    hide Load32BE, Store32BE;
  }

  lemma OneIsBlock()
    ensures ToElem([0x80] + Repeat(0, 15)) == ONE
  {
  }

  // ----- what is hashed ------------------------------------------------------------------------------------

  lemma Width()
    ensures Pow256(8) == 0x1_0000_0000_0000_0000
  {
  }

  /** Both lengths read back, the first from the left half of the block. */
  lemma LengthBlockReads(m: nat, n: nat)
    requires m < 0x1_0000_0000_0000_0000 && n < 0x1_0000_0000_0000_0000
    ensures FromBigEndian(LengthBlock(m, n)[..8]) == m && FromBigEndian(LengthBlock(m, n)[8..]) == n
  {
    Width();
    BigEndianReads(m, 8);
    BigEndianReads(n, 8);
    hide BigEndian, FromBigEndian, Pow256;
    assert LengthBlock(m, n)[..8] == BigEndian64(m) && LengthBlock(m, n)[8..] == BigEndian64(n);
  }

  lemma {:induction false} ZeroBigEndian(w: nat)
    ensures BigEndian(0, w) == Repeat(0, w)
    decreases w
  {
    if w > 0 {
      ZeroBigEndian(w - 1);
    }
  }

  /** A block of 128 bits behind nothing. */
  lemma KnownLengthBlock()
    ensures LengthBlock(0, 128) == Repeat(0, 15) + [0x80]
  {
    hide BigEndian;
    ZeroBigEndian(8);
    SmallBigEndian(128, 8);
    assert 128 as bv8 == 0x80;
    assert Repeat(0, 8) + (Repeat(0, 7) + [0x80]) == Repeat(0, 15) + [0x80];
  }

  /** A number below 256 in its last byte. */
  lemma SmallBigEndian(n: nat, w: nat)
    requires n < 256 && w >= 1
    ensures BigEndian(n, w) == Repeat(0, w - 1) + [n as bv8]
  {
    ZeroBigEndian(w - 1);
    assert BigEndian(n, w) == BigEndian(0, w - 1) + [n as bv8];
    hide BigEndian;
  }

  lemma JoinOne(b: Block)
    ensures Join([b]) == b
  {
    assert Join([]) == [];
    assert [b][1..] == [];
  }

  lemma HashInputBytes(a: seq<bv8>, c: seq<bv8>)
    ensures Join(HashInput(a, c)) == Pad(a) + Pad(c) + LengthBlock(8 * |a|, 8 * |c|)
  {
    var l := LengthBlock(8 * |a|, 8 * |c|);
    JoinAppend(Blocks(a) + Blocks(c), [l]);
    JoinAppend(Blocks(a), Blocks(c));
    JoinOne(l);
    BlockCount(a);
    BlockCount(c);
    hide Blocks, Join, LengthBlock, Pad;
  }

  /** Both strings can be read from the front and the middle of s, both lengths from its end. */
  ghost predicate Carries(s: seq<bv8>, a: seq<bv8>, c: seq<bv8>) {
    var k := (|a| + 15) / 16 * 16;
    && |s| == k + (|c| + 15) / 16 * 16 + 16
    && s[..|a|] == a && s[k..k + |c|] == c
    && (forall i :: |a| <= i < k || k + |c| <= i < |s| - 16 ==> s[i] == 0)
    && FromBigEndian(s[|s| - 16..|s| - 8]) == 8 * |a| && FromBigEndian(s[|s| - 8..]) == 8 * |c|
  }

  lemma PiecesCarry(p: seq<bv8>, q: seq<bv8>, l: seq<bv8>, a: seq<bv8>, c: seq<bv8>)
    requires |l| == 16 && FromBigEndian(l[..8]) == 8 * |a| && FromBigEndian(l[8..]) == 8 * |c|
    requires |p| == (|a| + 15) / 16 * 16 && p[..|a|] == a && forall i :: |a| <= i < |p| ==> p[i] == 0
    requires |q| == (|c| + 15) / 16 * 16 && q[..|c|] == c && forall i :: |c| <= i < |q| ==> q[i] == 0
    ensures Carries(p + q + l, a, c)
  {
    hide FromBigEndian;
    Pieces(p, q, l);
    Front(p, q + l, |a|);
    Front(q, l, |c|);
    assert p + q + l == p + (q + l);
    Middle(p, q + l, |c|);
  }

  /** Where the hashed bytes carry the additional data, the ciphertext and their lengths. */
  lemma HashInputReads(a: seq<bv8>, c: seq<bv8>)
    requires 8 * |a| < 0x1_0000_0000_0000_0000 && 8 * |c| < 0x1_0000_0000_0000_0000
    ensures Carries(Join(HashInput(a, c)), a, c)
  {
    hide *;
    LengthBlockReads(8 * |a|, 8 * |c|);
    HashInputBytes(a, c);
    PadLengths(a);
    PadLengths(c);
    PiecesCarry(Pad(a), Pad(c), LengthBlock(8 * |a|, 8 * |c|), a, c);
  }

  lemma Front(p: seq<bv8>, q: seq<bv8>, n: nat)
    requires n <= |p|
    ensures (p + q)[..n] == p[..n]
  {
  }

  lemma Middle(p: seq<bv8>, q: seq<bv8>, n: nat)
    requires n <= |q|
    ensures (p + q)[|p|..|p| + n] == q[..n]
  {
  }

  lemma Pieces(p: seq<bv8>, q: seq<bv8>, l: seq<bv8>)
    requires |l| == 16
    ensures var s := p + q + l;
            && s[|s| - 16..|s| - 8] == l[..8] && s[|s| - 8..] == l[8..]
            && (forall i :: 0 <= i < |p| ==> s[i] == p[i])
            && (forall i :: |p| <= i < |s| - 16 ==> s[i] == q[i - |p|])
  {
  }

  lemma PadLengths(x: seq<bv8>)
    ensures |Pad(x)| == (|x| + 15) / 16 * 16 && Pad(x)[..|x|] == x
    ensures forall i :: |x| <= i < |Pad(x)| ==> Pad(x)[i] == 0
  {
  }

  /** The hashed bytes determine the additional data and the ciphertext. */
  lemma HashInputDetermines(a1: seq<bv8>, c1: seq<bv8>, a2: seq<bv8>, c2: seq<bv8>)
    requires 8 * |a1| < 0x1_0000_0000_0000_0000 && 8 * |c1| < 0x1_0000_0000_0000_0000
    requires 8 * |a2| < 0x1_0000_0000_0000_0000 && 8 * |c2| < 0x1_0000_0000_0000_0000
    requires HashInput(a1, c1) == HashInput(a2, c2)
    ensures a1 == a2 && c1 == c2
  {
    hide HashInput, Join, FromBigEndian;
    HashInputReads(a1, c1);
    HashInputReads(a2, c2);
  }

  /** An IV is hashed in front of eight zero bytes and its length in bits. */
  lemma IvInputReads(iv: seq<bv8>)
    requires 8 * |iv| < 0x1_0000_0000_0000_0000
    ensures var (s, k) := (Join(IvInput(iv)), (|iv| + 15) / 16 * 16);
            && |s| == k + 16 && s[..|iv|] == iv
            && (forall i :: |iv| <= i < k + 8 ==> s[i] == 0)
            && FromBigEndian(s[k + 8..]) == 8 * |iv|
  {
    var l := LengthBlock(0, 8 * |iv|);
    LengthBlockReads(0, 8 * |iv|);
    ZeroHalf(8 * |iv|);
    JoinAppend(Blocks(iv), [l]);
    JoinOne(l);
    BlockCount(iv);
    hide Blocks, Join, LengthBlock, FromBigEndian;
    PadLengths(iv);
    var s := Pad(iv) + l;
    assert Join(IvInput(iv)) == s;
    hide Pad;
    assert s[|s| - 8..] == l[8..];
    assert forall i :: 0 <= i < 8 ==> s[|s| - 16 + i] == l[i];
    assert forall i :: |s| - 16 <= i < |s| - 8 ==> s[i] == l[i - (|s| - 16)];
  }

  lemma ZeroHalf(n: nat)
    ensures forall i :: 0 <= i < 8 ==> LengthBlock(0, n)[i] == 0
  {
    assert BigEndian64(0) == [0, 0, 0, 0, 0, 0, 0, 0];
    hide BigEndian64;
  }
}
