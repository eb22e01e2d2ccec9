/**
 * Bytes as elements of GF(2^8), the AES column mixing built on them, and what the constant tables
 * hold in those terms.
 */
module AesField {
  import opened Words
  import opened AesTables

  /** Multiplication by x, section 4.2.1 of FIPS 197: the bit shifted out comes back as 0x1B. */
  function XTime(b: bv8): bv8 {
    (b << 1) ^ (b >> 7) ^ ((b >> 7) << 1) ^ ((b >> 7) << 3) ^ ((b >> 7) << 4)
  }

  function Xor(a: bv8, b: bv8): bv8 {
    a ^ b
  }

  function Xor4(a: bv8, b: bv8, c: bv8, d: bv8): bv8 {
    Xor(Xor(a, b), Xor(c, d))
  }

  // Multiplication by the entries of the mixing matrices.
  function X3(b: bv8): bv8 { Xor(XTime(b), b) }
  function X9(b: bv8): bv8 { Xor(XTime(XTime(XTime(b))), b) }
  function XB(b: bv8): bv8 { Xor(X9(b), XTime(b)) }
  function XD(b: bv8): bv8 { Xor(X9(b), XTime(XTime(b))) }
  function XE(b: bv8): bv8 { Xor(Xor(XTime(XTime(XTime(b))), XTime(XTime(b))), XTime(b)) }

  lemma XorAssociates(a: bv8, b: bv8, c: bv8)
    ensures Xor(Xor(a, b), c) == Xor(a, Xor(b, c))
  {
  }

  lemma XorCommutes(a: bv8, b: bv8)
    ensures Xor(a, b) == Xor(b, a)
  {
  }

  lemma XorMedial(a: bv8, b: bv8, c: bv8, d: bv8)
    ensures Xor(Xor(a, b), Xor(c, d)) == Xor(Xor(a, c), Xor(b, d))
  {
    hide Xor;
    XorAssociates(a, b, Xor(c, d));
    XorAssociates(b, c, d);
    XorCommutes(b, c);
    XorAssociates(c, b, d);
    XorAssociates(a, c, Xor(b, d));
  }

  lemma XorTwice(a: bv8, b: bv8)
    ensures Xor(Xor(a, b), b) == a && Xor(a, 0) == a && Xor(a, a) == 0
  {
  }

  lemma Xor4Rotates(a: bv8, b: bv8, c: bv8, d: bv8)
    ensures Xor4(a, b, c, d) == Xor4(b, c, d, a)
  {
    hide Xor;
    XorMedial(a, b, c, d);
    XorCommutes(Xor(a, c), Xor(b, d));
    XorMedial(b, d, a, c);
    XorCommutes(a, c);
    XorMedial(b, d, c, a);
  }

  // ----- every multiplication is linear ---------------------------------------------------------------

  lemma XTimeXor(a: bv8, b: bv8)
    ensures XTime(Xor(a, b)) == Xor(XTime(a), XTime(b))
  {
  }

  lemma X9Xor(a: bv8, b: bv8)
    ensures X9(Xor(a, b)) == Xor(X9(a), X9(b))
  {
    hide XTime, Xor;
    XTimeXor(a, b);
    XTimeXor(XTime(a), XTime(b));
    XTimeXor(XTime(XTime(a)), XTime(XTime(b)));
    XorMedial(XTime(XTime(XTime(a))), XTime(XTime(XTime(b))), a, b);
  }

  lemma XBXor(a: bv8, b: bv8)
    ensures XB(Xor(a, b)) == Xor(XB(a), XB(b))
  {
    hide XTime, Xor, X9;
    XTimeXor(a, b);
    X9Xor(a, b);
    XorMedial(X9(a), X9(b), XTime(a), XTime(b));
  }

  lemma XDXor(a: bv8, b: bv8)
    ensures XD(Xor(a, b)) == Xor(XD(a), XD(b))
  {
    hide XTime, Xor, X9;
    XTimeXor(a, b);
    XTimeXor(XTime(a), XTime(b));
    X9Xor(a, b);
    XorMedial(X9(a), X9(b), XTime(XTime(a)), XTime(XTime(b)));
  }

  lemma XEXor(a: bv8, b: bv8)
    ensures XE(Xor(a, b)) == Xor(XE(a), XE(b))
  {
    hide XTime, Xor;
    var a1, b1 := XTime(a), XTime(b);
    var a2, b2 := XTime(a1), XTime(b1);
    var a3, b3 := XTime(a2), XTime(b2);
    XTimeXor(a, b);
    XTimeXor(a1, b1);
    XTimeXor(a2, b2);
    XorMedial(a3, b3, a2, b2);
    XorMedial(Xor(a3, a2), Xor(b3, b2), a1, b1);
  }

  /** Exclusive-or of four rows, summed by columns. */
  lemma Xor4Medial(a: bv8, b: bv8, c: bv8, d: bv8, e: bv8, f: bv8, g: bv8, h: bv8)
    ensures Xor(Xor4(a, b, c, d), Xor4(e, f, g, h)) == Xor4(Xor(a, e), Xor(b, f), Xor(c, g), Xor(d, h))
  {
    hide Xor;
    XorMedial(Xor(a, b), Xor(c, d), Xor(e, f), Xor(g, h));
    XorMedial(a, b, e, f);
    XorMedial(c, d, g, h);
  }

  // ----- the tables -------------------------------------------------------------------------------------

  lemma TopQuarter(x: bv8)
    requires x >> 6 != 0 && x >> 6 != 1 && x >> 6 != 2
    ensures x >> 6 == 3
  {
  }

  // A quarter of a table at a time; deciding the two low bits of the index first keeps the cases few.

  lemma TeEntry0(x: bv8)
    requires x >> 6 == 0
    ensures Te(x) == Load32LE(XTime(SBox(x)), SBox(x), SBox(x), X3(SBox(x)))
  {
    var s, t := SBox(x), Te(x);
    var u := Load32LE(XTime(s), s, s, X3(s));
    if x & 1 == 0 {
    }
    if x & 2 == 0 {
    }
  }

  lemma TeEntry1(x: bv8)
    requires x >> 6 == 1
    ensures Te(x) == Load32LE(XTime(SBox(x)), SBox(x), SBox(x), X3(SBox(x)))
  {
    var s, t := SBox(x), Te(x);
    var u := Load32LE(XTime(s), s, s, X3(s));
    if x & 1 == 0 {
    }
    if x & 2 == 0 {
    }
  }

  lemma TeEntry2(x: bv8)
    requires x >> 6 == 2
    ensures Te(x) == Load32LE(XTime(SBox(x)), SBox(x), SBox(x), X3(SBox(x)))
  {
    var s, t := SBox(x), Te(x);
    var u := Load32LE(XTime(s), s, s, X3(s));
    if x & 1 == 0 {
    }
    if x & 2 == 0 {
    }
  }

  lemma TeEntry3(x: bv8)
    requires x >> 6 == 3
    ensures Te(x) == Load32LE(XTime(SBox(x)), SBox(x), SBox(x), X3(SBox(x)))
  {
    var s, t := SBox(x), Te(x);
    var u := Load32LE(XTime(s), s, s, X3(s));
    if x & 1 == 0 {
    }
    if x & 2 == 0 {
    }
  }

  /** te holds the S-box value times the first column of the mixing matrix. */
  lemma TeEntry(x: bv8)
    ensures Te(x) == Load32LE(XTime(SBox(x)), SBox(x), SBox(x), X3(SBox(x)))
  {
    hide *;
    if x >> 6 == 0 {
      TeEntry0(x);
    } else if x >> 6 == 1 {
      TeEntry1(x);
    } else if x >> 6 == 2 {
      TeEntry2(x);
    } else {
      TopQuarter(x);
      TeEntry3(x);
    }
  }

  lemma TdEntry0(x: bv8)
    requires x >> 6 == 0
    ensures Td(x) == Load32LE(XE(InvSBox(x)), X9(InvSBox(x)), XD(InvSBox(x)), XB(InvSBox(x)))
  {
    var s, t := InvSBox(x), Td(x);
    var u := Load32LE(XE(s), X9(s), XD(s), XB(s));
    if x & 1 == 0 {
    }
    if x & 2 == 0 {
    }
  }

  lemma TdEntry1(x: bv8)
    requires x >> 6 == 1
    ensures Td(x) == Load32LE(XE(InvSBox(x)), X9(InvSBox(x)), XD(InvSBox(x)), XB(InvSBox(x)))
  {
    var s, t := InvSBox(x), Td(x);
    var u := Load32LE(XE(s), X9(s), XD(s), XB(s));
    if x & 1 == 0 {
    }
    if x & 2 == 0 {
    }
  }

  lemma TdEntry2(x: bv8)
    requires x >> 6 == 2
    ensures Td(x) == Load32LE(XE(InvSBox(x)), X9(InvSBox(x)), XD(InvSBox(x)), XB(InvSBox(x)))
  {
    var s, t := InvSBox(x), Td(x);
    var u := Load32LE(XE(s), X9(s), XD(s), XB(s));
    if x & 1 == 0 {
    }
    if x & 2 == 0 {
    }
  }

  lemma TdEntry3(x: bv8)
    requires x >> 6 == 3
    ensures Td(x) == Load32LE(XE(InvSBox(x)), X9(InvSBox(x)), XD(InvSBox(x)), XB(InvSBox(x)))
  {
    var s, t := InvSBox(x), Td(x);
    var u := Load32LE(XE(s), X9(s), XD(s), XB(s));
    if x & 1 == 0 {
    }
    if x & 2 == 0 {
    }
  }

  /** td holds the inverse S-box value times the first column of the inverse matrix. */
  lemma TdEntry(x: bv8)
    ensures Td(x) == Load32LE(XE(InvSBox(x)), X9(InvSBox(x)), XD(InvSBox(x)), XB(InvSBox(x)))
  {
    hide *;
    if x >> 6 == 0 {
      TdEntry0(x);
    } else if x >> 6 == 1 {
      TdEntry1(x);
    } else if x >> 6 == 2 {
      TdEntry2(x);
    } else {
      TopQuarter(x);
      TdEntry3(x);
    }
  }

  lemma InvSBoxInverts(x: bv8)
    ensures InvSBox(SBox(x)) == x
  {
    var s, t := SBox(x), InvSBox(SBox(x));
  }

  lemma SBoxInverts(x: bv8)
    ensures SBox(InvSBox(x)) == x
  {
    var s, t := InvSBox(x), SBox(InvSBox(x));
  }
}
