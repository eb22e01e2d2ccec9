/**
 * Multiplication in GF(2^128) as section 6.3 of NIST SP 800-38D defines it, bit by bit, and the
 * shift-and-reduce steps of four or eight bits at a time that gcm.c takes instead.
 */
module Gf128 {
  import opened Words
  import opened Folds

  /** A 128-bit string as the four words of gcm.c; w3 holds the leftmost bits. */
  datatype Elem = Elem(w3: bv32, w2: bv32, w1: bv32, w0: bv32)

  const ZERO: Elem := Elem(0, 0, 0, 0)

  function Xor(a: Elem, b: Elem): Elem {
    Elem(XorW(a.w3, b.w3), XorW(a.w2, b.w2), XorW(a.w1, b.w1), XorW(a.w0, b.w0))
  }

  /** A word shifted right by one, taking in the last bit of the word on its left. */
  function ShrW(left: bv32, w: bv32): bv32 {
    (w >> 1) | (left << 31)
  }

  function Shr(v: Elem): Elem {
    Elem(ShrW(0, v.w3), ShrW(v.w3, v.w2), ShrW(v.w2, v.w1), ShrW(v.w1, v.w0))
  }

  /** The leading word of R = 11100001 || 0^120 when the rightmost bit is one, else zero. */
  function Top(w: bv32): bv32 {
    if w & 1 == 1 then 0xE1000000 else 0
  }

  /** One shift towards the rightmost bit, reduced by R. */
  function MulX(v: Elem): Elem {
    Xor(Shr(v), Elem(Top(v.w0), 0, 0, 0))
  }

  /** The loop of Algorithm 1: Z takes V for every one bit of X, and V is shifted each time. */
  function Accumulate(x: seq<bool>, z: Elem, v: Elem): Elem
    decreases |x|
  {
    if x == [] then z else Accumulate(x[1..], if x[0] then Xor(z, v) else z, MulX(v))
  }

  /** X • Y, with the leftmost bit of X first. */
  function Product(x: seq<bool>, y: Elem): Elem {
    Accumulate(x, ZERO, y)
  }

  // ----- laws of the group and of multiplication by x ----------------------------------------

  lemma XorAssociates(a: Elem, b: Elem, c: Elem)
    ensures Xor(Xor(a, b), c) == Xor(a, Xor(b, c))
  {
    hide XorW;
    XorWAssociates(a.w3, b.w3, c.w3);
    XorWAssociates(a.w2, b.w2, c.w2);
    XorWAssociates(a.w1, b.w1, c.w1);
    XorWAssociates(a.w0, b.w0, c.w0);
  }

  lemma XorCommutes(a: Elem, b: Elem)
    ensures Xor(a, b) == Xor(b, a)
  {
    hide XorW;
    XorWCommutes(a.w3, b.w3);
    XorWCommutes(a.w2, b.w2);
    XorWCommutes(a.w1, b.w1);
    XorWCommutes(a.w0, b.w0);
  }

  lemma XorZero(a: Elem)
    ensures Xor(a, ZERO) == a
  {
    hide XorW;
    XorWZero(a.w3);
    XorWZero(a.w2);
    XorWZero(a.w1);
    XorWZero(a.w0);
  }

  lemma XorSelf(a: Elem)
    ensures Xor(a, a) == ZERO
  {
    hide XorW;
    XorWSelf(a.w3);
    XorWSelf(a.w2);
    XorWSelf(a.w1);
    XorWSelf(a.w0);
  }

  /** (a + b) + (c + d) == (a + c) + (b + d) */
  lemma XorSwap(a: Elem, b: Elem, c: Elem, d: Elem)
    ensures Xor(Xor(a, b), Xor(c, d)) == Xor(Xor(a, c), Xor(b, d))
  {
    hide Xor;
    XorAssociates(a, b, Xor(c, d));
    XorAssociates(b, c, d);
    XorCommutes(b, c);
    XorAssociates(c, b, d);
    XorAssociates(a, c, Xor(b, d));
  }

  lemma ShrWLinear(h: bv32, l: bv32, k: bv32, m: bv32)
    ensures ShrW(XorW(h, k), XorW(l, m)) == XorW(ShrW(h, l), ShrW(k, m))
  {
  }

  lemma TopLinear(a: bv32, b: bv32)
    ensures Top(XorW(a, b)) == XorW(Top(a), Top(b))
  {
  }

  lemma ShrLinear(a: Elem, b: Elem)
    ensures Shr(Xor(a, b)) == Xor(Shr(a), Shr(b))
  {
    hide XorW, ShrW;
    XorWZero(0);
    ShrWLinear(0, a.w3, 0, b.w3);
    ShrWLinear(a.w3, a.w2, b.w3, b.w2);
    ShrWLinear(a.w2, a.w1, b.w2, b.w1);
    ShrWLinear(a.w1, a.w0, b.w1, b.w0);
  }

  lemma CarryLinear(a: bv32, b: bv32)
    ensures Elem(Top(XorW(a, b)), 0, 0, 0) == Xor(Elem(Top(a), 0, 0, 0), Elem(Top(b), 0, 0, 0))
  {
    hide XorW, Top;
    TopLinear(a, b);
    XorWZero(0);
  }

  lemma MulXLinear(a: Elem, b: Elem)
    ensures MulX(Xor(a, b)) == Xor(MulX(a), MulX(b))
  {
    hide XorW, Shr, Top;
    ShrLinear(a, b);
    CarryLinear(a.w0, b.w0);
    XorSwap(Shr(a), Shr(b), Elem(Top(a.w0), 0, 0, 0), Elem(Top(b.w0), 0, 0, 0));
  }

  lemma MulXZero()
    ensures MulX(ZERO) == ZERO
  {
  }

  // ----- the product, read from its rightmost bit ------------------------------------------------

  /** The multiple of y a single bit selects, on top of what has been gathered to its right. */
  function Select(bit: bool, y: Elem, acc: Elem): Elem {
    if bit then Xor(y, MulX(acc)) else MulX(acc)
  }

  /** Horner's rule: acc stands for everything to the right of x. */
  function Horner(x: seq<bool>, y: Elem, acc: Elem): Elem {
    if x == [] then acc else Select(x[0], y, Horner(x[1..], y, acc))
  }

  lemma {:induction false} HornerAppend(a: seq<bool>, b: seq<bool>, y: Elem, acc: Elem)
    ensures Horner(a + b, y, acc) == Horner(a, y, Horner(b, y, acc))
  {
    hide Select;
    if a == [] {
      assert a + b == b;
    } else {
      assert (a + b)[1..] == a[1..] + b;
      HornerAppend(a[1..], b, y, acc);
    }
  }

  lemma SelectLinear(bit: bool, y: Elem, u: Elem, v: Elem)
    ensures Select(bit, y, Xor(u, v)) == Xor(Select(bit, y, u), MulX(v))
  {
    hide Xor, MulX;
    MulXLinear(u, v);
    XorAssociates(y, MulX(u), MulX(v));
  }

  /** What stands to the right of n bits is multiplied by x^n. */
  lemma {:induction false} HornerSplit(x: seq<bool>, y: Elem, acc: Elem)
    ensures Horner(x, y, acc) == Xor(Horner(x, y, ZERO), Iterate(MulX, acc, |x|))
  {
    hide Xor, MulX, Select, ZERO;
    if x == [] {
      XorCommutes(ZERO, acc);
      XorZero(acc);
    } else {
      HornerSplit(x[1..], y, acc);
      SelectLinear(x[0], y, Horner(x[1..], y, ZERO), Iterate(MulX, acc, |x| - 1));
      IterateAdd(MulX, acc, |x| - 1, 1);
    }
  }

  lemma SelectShift(bit: bool, y: Elem, u: Elem)
    ensures Select(bit, MulX(y), MulX(u)) == MulX(Select(bit, y, u))
  {
    hide Xor, MulX;
    MulXLinear(y, MulX(u));
  }

  /** (x • y) shifted is x • (y shifted). */
  lemma {:induction false} HornerShift(x: seq<bool>, y: Elem)
    ensures Horner(x, MulX(y), ZERO) == MulX(Horner(x, y, ZERO))
  {
    MulXZero();
    hide MulX, Select, ZERO;
    if x != [] {
      HornerShift(x[1..], y);
      SelectShift(x[0], y, Horner(x[1..], y, ZERO));
    }
  }

  /** Algorithm 1 and Horner's rule compute the same product. */
  lemma {:induction false} AccumulateIsHorner(x: seq<bool>, z: Elem, v: Elem)
    ensures Accumulate(x, z, v) == Xor(z, Horner(x, v, ZERO))
    decreases |x|
  {
    hide Xor, MulX, ZERO;
    if x == [] {
      XorZero(z);
    } else {
      var rest := Horner(x[1..], v, ZERO);
      AccumulateIsHorner(x[1..], if x[0] then Xor(z, v) else z, MulX(v));
      HornerShift(x[1..], v);
      XorAssociates(z, v, MulX(rest));
    }
  }

  lemma ProductIsHorner(x: seq<bool>, y: Elem)
    ensures Product(x, y) == Horner(x, y, ZERO)
  {
    AccumulateIsHorner(x, ZERO, y);
    hide Xor, ZERO;
    XorCommutes(ZERO, Horner(x, y, ZERO));
    XorZero(Horner(x, y, ZERO));
  }

  // ----- bilinearity ---------------------------------------------------------------------------------

  lemma SelectDistributes(bit: bool, y: Elem, z: Elem, u: Elem, v: Elem)
    ensures Select(bit, Xor(y, z), Xor(u, v)) == Xor(Select(bit, y, u), Select(bit, z, v))
  {
    hide Xor, MulX;
    MulXLinear(u, v);
    XorSwap(y, z, MulX(u), MulX(v));
  }

  /** x • (y + z) == x • y + x • z */
  lemma {:induction false} ProductLinearRight(x: seq<bool>, y: Elem, z: Elem)
    ensures Product(x, Xor(y, z)) == Xor(Product(x, y), Product(x, z))
  {
    ProductIsHorner(x, Xor(y, z));
    ProductIsHorner(x, y);
    ProductIsHorner(x, z);
    hide Xor, Select, Product;
    if x == [] {
      XorSelf(ZERO);
    } else {
      ProductLinearRight(x[1..], y, z);
      ProductIsHorner(x[1..], Xor(y, z));
      ProductIsHorner(x[1..], y);
      ProductIsHorner(x[1..], z);
      SelectDistributes(x[0], y, z, Horner(x[1..], y, ZERO), Horner(x[1..], z, ZERO));
    }
  }

  /** Bitwise exclusive-or of two bit strings. */
  function XorBits(a: seq<bool>, b: seq<bool>): (r: seq<bool>)
    requires |a| == |b|
    ensures |r| == |a|
  {
    if a == [] then [] else [a[0] != b[0]] + XorBits(a[1..], b[1..])
  }

  lemma SelectOfXor(p: bool, q: bool, y: Elem, u: Elem, v: Elem)
    ensures Select(p != q, y, Xor(u, v)) == Xor(Select(p, y, u), Select(q, y, v))
  {
    hide Xor, MulX, ZERO;
    var m, n := MulX(u), MulX(v);
    MulXLinear(u, v);
    XorAssociates(y, m, n);
    XorCommutes(m, n);
    XorAssociates(y, n, m);
    XorCommutes(Xor(y, n), m);
    XorSwap(y, m, y, n);
    XorSelf(y);
    XorCommutes(ZERO, Xor(m, n));
    XorZero(Xor(m, n));
  }

  /** (w + x) • y == w • y + x • y */
  lemma {:induction false} ProductLinearLeft(w: seq<bool>, x: seq<bool>, y: Elem)
    requires |w| == |x|
    ensures Product(XorBits(w, x), y) == Xor(Product(w, y), Product(x, y))
  {
    ProductIsHorner(XorBits(w, x), y);
    ProductIsHorner(w, y);
    ProductIsHorner(x, y);
    hide Xor, Select, Product;
    if x == [] {
      XorSelf(ZERO);
    } else {
      ProductLinearLeft(w[1..], x[1..], y);
      ProductIsHorner(XorBits(w[1..], x[1..]), y);
      ProductIsHorner(w[1..], y);
      ProductIsHorner(x[1..], y);
      assert XorBits(w, x)[1..] == XorBits(w[1..], x[1..]);
      SelectOfXor(w[0], x[0], y, Horner(w[1..], y, ZERO), Horner(x[1..], y, ZERO));
    }
  }
}
