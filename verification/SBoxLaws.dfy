/**
 * What the second S-box of ARIA and the first of Camellia hold: affine maps around the inverse in GF(2^8),
 * as for the S-box of AES.
 */
module SBoxLaws {
  import opened Words
  import opened AesTables
  import opened AesField
  import opened AesSBox
  import opened AriaTables
  import opened CamelliaTables

  /** A column of a matrix over GF(2), taken if bit k of y is set. */
  function Column(c: bv8, y: bv8, k: bv8): bv8
    requires k < 8
  {
    c & (0 - ((y >> k) & 1))
  }

  /** The affine map behind the inversion in SB2. */
  function AriaMap(y: bv8): bv8 {
    0xE2 ^ Column(0xAC, y, 0) ^ Column(0xFD, y, 1) ^ Column(0xC6, y, 2) ^ Column(0x83, y, 3) ^
    Column(0x26, y, 4) ^ Column(0xA7, y, 5) ^ Column(0xFB, y, 6) ^ Column(0x5F, y, 7)
  }

  /** The affine map in front of the inversion in SBOX1. */
  function CamelliaIn(y: bv8): bv8 {
    0x0B ^ Column(0xB8, y, 0) ^ Column(0x03, y, 1) ^ Column(0xD9, y, 2) ^ Column(0x17, y, 3) ^
    Column(0x0D, y, 4) ^ Column(0x59, y, 5) ^ Column(0x84, y, 6) ^ Column(0xEE, y, 7)
  }

  /** And the one behind it. */
  function CamelliaOut(y: bv8): bv8 {
    0x6E ^ Column(0x14, y, 0) ^ Column(0x46, y, 1) ^ Column(0xFC, y, 2) ^ Column(0x7E, y, 3) ^
    Column(0x66, y, 4) ^ Column(0x22, y, 5) ^ Column(0x25, y, 6) ^ Column(0x3B, y, 7)
  }

  lemma AriaTable0(x: bv8)
    requires x >> 6 == 0
    ensures SB2(x) == AriaMap(Unaffine(SBox(x)))
  {
    var s, t := SB2(x), AriaMap(Unaffine(SBox(x)));
    if x & 1 == 0 {
    }
    if x & 2 == 0 {
    }
  }

  lemma AriaTable1(x: bv8)
    requires x >> 6 == 1
    ensures SB2(x) == AriaMap(Unaffine(SBox(x)))
  {
    var s, t := SB2(x), AriaMap(Unaffine(SBox(x)));
    if x & 1 == 0 {
    }
    if x & 2 == 0 {
    }
  }

  lemma AriaTable2(x: bv8)
    requires x >> 6 == 2
    ensures SB2(x) == AriaMap(Unaffine(SBox(x)))
  {
    var s, t := SB2(x), AriaMap(Unaffine(SBox(x)));
    if x & 1 == 0 {
    }
    if x & 2 == 0 {
    }
  }

  lemma AriaTable3(x: bv8)
    requires x >> 6 == 3
    ensures SB2(x) == AriaMap(Unaffine(SBox(x)))
  {
    var s, t := SB2(x), AriaMap(Unaffine(SBox(x)));
    if x & 1 == 0 {
    }
    if x & 2 == 0 {
    }
  }

  lemma CamelliaTable0(x: bv8)
    requires x >> 6 == 0
    ensures SBox1(x) == CamelliaOut(Unaffine(SBox(CamelliaIn(x))))
  {
    var s, t := SBox1(x), CamelliaOut(Unaffine(SBox(CamelliaIn(x))));
    if x & 1 == 0 {
    }
    if x & 2 == 0 {
    }
  }

  lemma CamelliaTable1(x: bv8)
    requires x >> 6 == 1
    ensures SBox1(x) == CamelliaOut(Unaffine(SBox(CamelliaIn(x))))
  {
    var s, t := SBox1(x), CamelliaOut(Unaffine(SBox(CamelliaIn(x))));
    if x & 1 == 0 {
    }
    if x & 2 == 0 {
    }
  }

  lemma CamelliaTable2(x: bv8)
    requires x >> 6 == 2
    ensures SBox1(x) == CamelliaOut(Unaffine(SBox(CamelliaIn(x))))
  {
    var s, t := SBox1(x), CamelliaOut(Unaffine(SBox(CamelliaIn(x))));
    if x & 1 == 0 {
    }
    if x & 2 == 0 {
    }
  }

  lemma CamelliaTable3(x: bv8)
    requires x >> 6 == 3
    ensures SBox1(x) == CamelliaOut(Unaffine(SBox(CamelliaIn(x))))
  {
    var s, t := SBox1(x), CamelliaOut(Unaffine(SBox(CamelliaIn(x))));
    if x & 1 == 0 {
    }
    if x & 2 == 0 {
    }
  }

  lemma AriaTable(x: bv8)
    ensures SB2(x) == AriaMap(Unaffine(SBox(x)))
  {
    hide *;
    if x >> 6 == 0 {
      AriaTable0(x);
    } else if x >> 6 == 1 {
      AriaTable1(x);
    } else if x >> 6 == 2 {
      AriaTable2(x);
    } else {
      TopQuarter(x);
      AriaTable3(x);
    }
  }

  lemma CamelliaTable(x: bv8)
    ensures SBox1(x) == CamelliaOut(Unaffine(SBox(CamelliaIn(x))))
  {
    hide *;
    if x >> 6 == 0 {
      CamelliaTable0(x);
    } else if x >> 6 == 1 {
      CamelliaTable1(x);
    } else if x >> 6 == 2 {
      CamelliaTable2(x);
    } else {
      TopQuarter(x);
      CamelliaTable3(x);
    }
  }

  /** Every entry of SB2 is an affine image of the inverse of its index. */
  lemma SB2IsInversion(x: bv8, y: bv8)
    requires IsInverse(x, y)
    ensures SB2(x) == AriaMap(y)
  {
    hide *;
    AriaTable(x);
    TableInverts(x);
    InverseIsUnique(x, y, Unaffine(SBox(x)));
  }

  /** Every entry of SBOX1 is an affine image of the inverse of an affine image of its index. */
  lemma SBox1IsInversion(x: bv8, y: bv8)
    requires IsInverse(CamelliaIn(x), y)
    ensures SBox1(x) == CamelliaOut(y)
  {
    hide *;
    CamelliaTable(x);
    TableInverts(CamelliaIn(x));
    InverseIsUnique(CamelliaIn(x), y, Unaffine(SBox(CamelliaIn(x))));
  }
}
