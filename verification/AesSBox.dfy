/**
 * What the S-box table holds, in the terms of FIPS 197: the inverse in GF(2^8), section 4.2,
 * followed by the affine map of section 5.1.1.
 */
module AesSBox {
  import opened Words
  import opened AesTables
  import opened AesField

  /** a if bit k of b is set, and zero otherwise. */
  function Select(a: bv8, b: bv8, k: bv8): bv8
    requires k < 8
  {
    a & (0 - ((b >> k) & 1))
  }

  /** s plus x times p. */
  function Next(s: bv8, p: bv8): bv8 {
    Xor(s, XTime(p))
  }

  /** The product in GF(2^8), by the bits of b from the highest power of x down. */
  function Mul(a: bv8, b: bv8): bv8 {
    Next(Select(a, b, 0), Next(Select(a, b, 1), Next(Select(a, b, 2), Next(Select(a, b, 3),
    Next(Select(a, b, 4), Next(Select(a, b, 5), Next(Select(a, b, 6), Select(a, b, 7))))))))
  }

  /** The inverse, with zero as its own. */
  predicate IsInverse(x: bv8, y: bv8) {
    if x == 0 then y == 0 else Mul(x, y) == 1
  }

  /** Bit i of the result is the sum of bits i, i + 4, i + 5, i + 6 and i + 7 of y and of bit i of 0x63. */
  function Affine(y: bv8): bv8 {
    y ^ Rol8(y, 1) ^ Rol8(y, 2) ^ Rol8(y, 3) ^ Rol8(y, 4) ^ 0x63
  }

  // ----- the inverse is unique ---------------------------------------------------------------------

  lemma SelectXor(a: bv8, y: bv8, z: bv8, k: bv8)
    requires k < 8
    ensures Select(a, Xor(y, z), k) == Xor(Select(a, y, k), Select(a, z, k))
  {
  }

  lemma NextXor(s: bv8, t: bv8, p: bv8, q: bv8)
    ensures Next(Xor(s, t), Xor(p, q)) == Xor(Next(s, p), Next(t, q))
  {
    hide Xor, XTime;
    XTimeXor(p, q);
    XorMedial(s, t, XTime(p), XTime(q));
  }

  lemma MulXor(a: bv8, y: bv8, z: bv8)
    ensures Mul(a, Xor(y, z)) == Xor(Mul(a, y), Mul(a, z))
  {
    hide Select, Next, Xor;
    SelectXor(a, y, z, 0);
    SelectXor(a, y, z, 1);
    SelectXor(a, y, z, 2);
    SelectXor(a, y, z, 3);
    SelectXor(a, y, z, 4);
    SelectXor(a, y, z, 5);
    SelectXor(a, y, z, 6);
    SelectXor(a, y, z, 7);
    var y6, z6 := Next(Select(a, y, 6), Select(a, y, 7)), Next(Select(a, z, 6), Select(a, z, 7));
    var y5, z5 := Next(Select(a, y, 5), y6), Next(Select(a, z, 5), z6);
    var y4, z4 := Next(Select(a, y, 4), y5), Next(Select(a, z, 4), z5);
    var y3, z3 := Next(Select(a, y, 3), y4), Next(Select(a, z, 3), z4);
    var y2, z2 := Next(Select(a, y, 2), y3), Next(Select(a, z, 2), z3);
    var y1, z1 := Next(Select(a, y, 1), y2), Next(Select(a, z, 1), z2);
    NextXor(Select(a, y, 6), Select(a, z, 6), Select(a, y, 7), Select(a, z, 7));
    NextXor(Select(a, y, 5), Select(a, z, 5), y6, z6);
    NextXor(Select(a, y, 4), Select(a, z, 4), y5, z5);
    NextXor(Select(a, y, 3), Select(a, z, 3), y4, z4);
    NextXor(Select(a, y, 2), Select(a, z, 2), y3, z3);
    NextXor(Select(a, y, 1), Select(a, z, 1), y2, z2);
    NextXor(Select(a, y, 0), Select(a, z, 0), y1, z1);
  }

  // A product is zero only if a factor is: a quarter of the first factors at a time.

  lemma NoZeroDivisor0(x: bv8, w: bv8)
    requires x >> 6 == 0 && x != 0 && Mul(x, w) == 0
    ensures w == 0
  {
  }

  lemma NoZeroDivisor1(x: bv8, w: bv8)
    requires x >> 6 == 1 && Mul(x, w) == 0
    ensures w == 0
  {
  }

  lemma NoZeroDivisor2(x: bv8, w: bv8)
    requires x >> 6 == 2 && Mul(x, w) == 0
    ensures w == 0
  {
  }

  lemma NoZeroDivisor3(x: bv8, w: bv8)
    requires x >> 6 == 3 && Mul(x, w) == 0
    ensures w == 0
  {
  }

  lemma NoZeroDivisor(x: bv8, w: bv8)
    requires x != 0 && Mul(x, w) == 0
    ensures w == 0
  {
    hide *;
    if x >> 6 == 0 {
      NoZeroDivisor0(x, w);
    } else if x >> 6 == 1 {
      NoZeroDivisor1(x, w);
    } else if x >> 6 == 2 {
      NoZeroDivisor2(x, w);
    } else {
      TopQuarter(x);
      NoZeroDivisor3(x, w);
    }
  }

  lemma EqualIfNoDifference(y: bv8, z: bv8)
    requires Xor(y, z) == 0
    ensures y == z
  {
  }

  lemma InverseIsUnique(x: bv8, y: bv8, z: bv8)
    requires IsInverse(x, y) && IsInverse(x, z)
    ensures y == z
  {
    hide Mul, Xor;
    if x != 0 {
      MulXor(x, y, z);
      XorTwice(1, 1);
      NoZeroDivisor(x, Xor(y, z));
      EqualIfNoDifference(y, z);
    }
  }

  // ----- the table -----------------------------------------------------------------------------------

  /** The inverse of the affine map. */
  function Unaffine(s: bv8): bv8 {
    Rol8(s, 1) ^ Rol8(s, 3) ^ Rol8(s, 6) ^ 0x05
  }

  lemma AffineOfUnaffine(s: bv8)
    ensures Affine(Unaffine(s)) == s
  {
  }

  lemma TableInverts0(x: bv8)
    requires x >> 6 == 0
    ensures IsInverse(x, Unaffine(SBox(x)))
  {
    var y := Unaffine(SBox(x));
    var p := Mul(x, y);
    if x & 1 == 0 {
    }
    if x & 2 == 0 {
    }
  }

  lemma TableInverts1(x: bv8)
    requires x >> 6 == 1
    ensures IsInverse(x, Unaffine(SBox(x)))
  {
    var y := Unaffine(SBox(x));
    var p := Mul(x, y);
    if x & 1 == 0 {
    }
    if x & 2 == 0 {
    }
  }

  lemma TableInverts2(x: bv8)
    requires x >> 6 == 2
    ensures IsInverse(x, Unaffine(SBox(x)))
  {
    var y := Unaffine(SBox(x));
    var p := Mul(x, y);
    if x & 1 == 0 {
    }
    if x & 2 == 0 {
    }
  }

  lemma TableInverts3(x: bv8)
    requires x >> 6 == 3
    ensures IsInverse(x, Unaffine(SBox(x)))
  {
    var y := Unaffine(SBox(x));
    var p := Mul(x, y);
    if x & 1 == 0 {
    }
    if x & 2 == 0 {
    }
  }

  lemma TableInverts(x: bv8)
    ensures IsInverse(x, Unaffine(SBox(x)))
  {
    hide *;
    if x >> 6 == 0 {
      TableInverts0(x);
    } else if x >> 6 == 1 {
      TableInverts1(x);
    } else if x >> 6 == 2 {
      TableInverts2(x);
    } else {
      TopQuarter(x);
      TableInverts3(x);
    }
  }

  /** Every table entry is the affine image of the inverse, whichever y is named as the inverse. */
  lemma SBoxIsInversion(x: bv8, y: bv8)
    requires IsInverse(x, y)
    ensures SBox(x) == Affine(y)
  {
    hide SBox, IsInverse, Affine, Unaffine;
    TableInverts(x);
    InverseIsUnique(x, y, Unaffine(SBox(x)));
    AffineOfUnaffine(SBox(x));
  }

  lemma InverseExists(x: bv8)
    ensures exists y :: IsInverse(x, y)
  {
    hide SBox, IsInverse, Unaffine;
    TableInverts(x);
  }

  /** The S-box of the standard, by its definition. */
  ghost function SubByte(x: bv8): bv8 {
    InverseExists(x);
    var y :| IsInverse(x, y);
    Affine(y)
  }

  lemma SBoxIsSubByte(x: bv8)
    ensures SBox(x) == SubByte(x)
  {
    hide SBox, IsInverse, Affine;
    InverseExists(x);
    var y :| IsInverse(x, y) && SubByte(x) == Affine(y);
    SBoxIsInversion(x, y);
  }
}
