/** The three round functions CAST-128 and CAST-256 share, and rounds that XOR one word with a mix of another. */
module CastRounds {
  import opened Feistel
  import opened Words

  /** The four S-boxes; their contents are arbitrary. */
  datatype Boxes = Boxes(s1: Table, s2: Table, s3: Table, s4: Table)

  /** A rotation and a masking subkey. */
  datatype RoundKey = RoundKey(kr: bv5, km: bv32)

  function Mix1(s: Boxes, x: bv32, k: RoundKey): bv32 {
    var t := Rol32(AddW(k.km, x), k.kr);
    AddW(SubW(XorW(s.s1(ByteOf(t, 3)), s.s2(ByteOf(t, 2))), s.s3(ByteOf(t, 1))), s.s4(ByteOf(t, 0)))
  }

  function Mix2(s: Boxes, x: bv32, k: RoundKey): bv32 {
    var t := Rol32(XorW(k.km, x), k.kr);
    XorW(AddW(SubW(s.s1(ByteOf(t, 3)), s.s2(ByteOf(t, 2))), s.s3(ByteOf(t, 1))), s.s4(ByteOf(t, 0)))
  }

  function Mix3(s: Boxes, x: bv32, k: RoundKey): bv32 {
    var t := Rol32(SubW(k.km, x), k.kr);
    SubW(XorW(AddW(s.s1(ByteOf(t, 3)), s.s2(ByteOf(t, 2))), s.s3(ByteOf(t, 1))), s.s4(ByteOf(t, 0)))
  }

  /** F1, F2 or F3: y is XORed with a mix of x. */
  function F1(s: Boxes, y: bv32, x: bv32, k: RoundKey): bv32 {
    XorW(y, Mix1(s, x, k))
  }

  function F2(s: Boxes, y: bv32, x: bv32, k: RoundKey): bv32 {
    XorW(y, Mix2(s, x, k))
  }

  function F3(s: Boxes, y: bv32, x: bv32, k: RoundKey): bv32 {
    XorW(y, Mix3(s, x, k))
  }

  /** Every round undoes itself. */
  lemma RoundTwice(s: Boxes, y: bv32, x: bv32, k: RoundKey)
    ensures F1(s, F1(s, y, x, k), x, k) == y && F2(s, F2(s, y, x, k), x, k) == y && F3(s, F3(s, y, x, k), x, k) == y
  {
    hide XorW, Mix1, Mix2, Mix3;
    XorTwice(y, Mix1(s, x, k));
    XorTwice(y, Mix2(s, x, k));
    XorTwice(y, Mix3(s, x, k));
  }
}
