/** Fixed-width words as the C sources use them: rotates, byte order, table rows and block XOR. */
module Words {
  /** ROL32; the shift to the right is by 32 - n bits in two parts, as 32 does not fit in five bits. */
  function Rol32(x: bv32, n: bv5): bv32 {
    (x << n) | ((x >> (31 - n)) >> 1)
  }

  /** A byte rotated to the left. */
  function Rol8(b: bv8, n: bv8): bv8
    requires n <= 8
  {
    (b << n) | (b >> (8 - n))
  }

  function XorW(a: bv32, b: bv32): bv32 {
    a ^ b
  }

  /** Addition modulo 2^32. */
  function AddW(a: bv32, b: bv32): bv32 {
    a + b
  }

  lemma XorWAssociates(a: bv32, b: bv32, c: bv32)
    ensures XorW(XorW(a, b), c) == XorW(a, XorW(b, c))
  {
  }

  lemma XorWCommutes(a: bv32, b: bv32)
    ensures XorW(a, b) == XorW(b, a)
  {
  }

  lemma XorWZero(a: bv32)
    ensures XorW(a, 0) == a
  {
  }

  lemma XorWSelf(a: bv32)
    ensures XorW(a, a) == 0
  {
  }

  // ----- byte order -------------------------------------------------------------

  /** LOAD32LE */
  function Load32LE(b0: bv8, b1: bv8, b2: bv8, b3: bv8): bv32 {
    (b0 as bv32) | (b1 as bv32 << 8) | (b2 as bv32 << 16) | (b3 as bv32 << 24)
  }

  /** LOAD32BE */
  function Load32BE(b0: bv8, b1: bv8, b2: bv8, b3: bv8): bv32 {
    (b0 as bv32 << 24) | (b1 as bv32 << 16) | (b2 as bv32 << 8) | (b3 as bv32)
  }

  /** Byte n of a word, least significant first. */
  function ByteOf(w: bv32, n: nat): bv8
    requires n < 4
  {
    if n == 0 then (w & 0xFF) as bv8
    else if n == 1 then ((w >> 8) & 0xFF) as bv8
    else if n == 2 then ((w >> 16) & 0xFF) as bv8
    else ((w >> 24) & 0xFF) as bv8
  }

  /** STORE32LE */
  function Store32LE(w: bv32): (s: seq<bv8>)
    ensures |s| == 4
  {
    [ByteOf(w, 0), ByteOf(w, 1), ByteOf(w, 2), ByteOf(w, 3)]
  }

  /** STORE32BE */
  function Store32BE(w: bv32): (s: seq<bv8>)
    ensures |s| == 4
  {
    [ByteOf(w, 3), ByteOf(w, 2), ByteOf(w, 1), ByteOf(w, 0)]
  }

  lemma LoadStore32LE(w: bv32)
    ensures Load32LE(ByteOf(w, 0), ByteOf(w, 1), ByteOf(w, 2), ByteOf(w, 3)) == w
  {
  }

  lemma LoadStore32BE(w: bv32)
    ensures Load32BE(ByteOf(w, 3), ByteOf(w, 2), ByteOf(w, 1), ByteOf(w, 0)) == w
  {
  }

  lemma StoreLoad32LE(b0: bv8, b1: bv8, b2: bv8, b3: bv8)
    ensures Store32LE(Load32LE(b0, b1, b2, b3)) == [b0, b1, b2, b3]
  {
  }

  lemma StoreLoad32BE(b0: bv8, b1: bv8, b2: bv8, b3: bv8)
    ensures Store32BE(Load32BE(b0, b1, b2, b3)) == [b0, b1, b2, b3]
  {
  }

  /** Sixteen bytes read as four big-endian words and written again. */
  lemma FourWordsBE(b: seq<bv8>)
    requires |b| == 16
    ensures Store32BE(Load32BE(b[0], b[1], b[2], b[3])) + Store32BE(Load32BE(b[4], b[5], b[6], b[7]))
          + Store32BE(Load32BE(b[8], b[9], b[10], b[11])) + Store32BE(Load32BE(b[12], b[13], b[14], b[15])) == b
  {
    hide Load32BE, ByteOf, Store32BE;
    WordAgain(b, 0);
    WordAgain(b, 4);
    WordAgain(b, 8);
    WordAgain(b, 12);
    assert b[0..4] + b[4..8] + b[8..12] + b[12..16] == b;
  }

  lemma WordAgain(b: seq<bv8>, i: nat)
    requires i + 4 <= |b|
    ensures Store32BE(Load32BE(b[i], b[i + 1], b[i + 2], b[i + 3])) == b[i..i + 4]
  {
    hide Load32BE, ByteOf, Store32BE;
    StoreLoad32BE(b[i], b[i + 1], b[i + 2], b[i + 3]);
  }

  /** The big-endian word of a key that starts at byte 4 i, or zero past its end. */
  function KeyWordBE(key: seq<bv8>, i: nat): bv32 {
    if 4 * i + 4 <= |key| then Load32BE(key[4 * i], key[4 * i + 1], key[4 * i + 2], key[4 * i + 3]) else 0
  }

  // ----- bytes as numbers -------------------------------------------------------

  function ByteOfInt(n: nat): bv8
    requires n < 256
  {
    n as bv8
  }

  function IntOfByte(b: bv8): nat {
    b as int
  }

  function NextByte(b: bv8): bv8 {
    b + 1
  }

  lemma NextByteCounts(b: bv8)
    requires IntOfByte(b) < 255
    ensures IntOfByte(NextByte(b)) == IntOfByte(b) + 1
  {
  }

  lemma ByteOfItsInt(n: nat, b: bv8)
    requires n == IntOfByte(b) && n < 256
    ensures ByteOfInt(n) == b
  {
  }

  lemma ZeroByte()
    ensures IntOfByte(ByteOfInt(0)) == 0
  {
  }

  /** Every number below 256 survives as a byte. */
  lemma {:induction false} IntOfItsByte(n: nat)
    requires n < 256
    ensures IntOfByte(ByteOfInt(n)) == n
    decreases n
  {
    hide *;
    if n > 0 {
      IntOfItsByte(n - 1);
      NextByteCounts(ByteOfInt(n - 1));
      ByteOfItsInt(n, NextByte(ByteOfInt(n - 1)));
    } else {
      ZeroByte();
    }
  }

  lemma ByteBack(n: nat)
    requires n < 256
    ensures (n as bv8) as int == n
  {
    IntOfItsByte(n);
  }

  // ----- numbers as little-endian bytes -------------------------------------------

  function LittleEndian(n: nat, width: nat): (s: seq<bv8>)
    ensures |s| == width
    decreases width
  {
    if width == 0 then [] else [(n % 256) as bv8] + LittleEndian(n / 256, width - 1)
  }

  function FromLittleEndian(s: seq<bv8>): nat {
    if s == [] then 0 else s[0] as nat + 256 * FromLittleEndian(s[1..])
  }

  function Pow256(k: nat): (p: nat)
    ensures p >= 1
  {
    if k == 0 then 1 else 256 * Pow256(k - 1)
  }

  /** A number that fits is read back from its bytes. */
  lemma {:induction false} ReadBack(n: nat, width: nat)
    requires n < Pow256(width)
    ensures FromLittleEndian(LittleEndian(n, width)) == n
    decreases width
  {
    if width > 0 {
      ReadBack(n / 256, width - 1);
      assert LittleEndian(n, width)[1..] == LittleEndian(n / 256, width - 1);
      ByteBack(n % 256);
    }
  }

  // ----- constant tables --------------------------------------------------------

  // Tables are written row by row, each row as one constant with its first entry on top.

  /** Byte n of a row, by the low four bits of n. */
  function ByteEntry(row: bv128, n: bv8): bv8 {
    ((row >> ((15 - (n & 15)) << 3)) & 0xFF) as bv8
  }

  /** Word n of a row, by the low three bits of n. */
  function WordEntry(row: bv256, n: bv8): bv32 {
    ((row >> ((7 - (n & 7)) << 5)) & 0xFFFFFFFF) as bv32
  }

  /** One row of sixteen, by the low four bits of n. */
  function RowOf16(n: bv8, v0: bv128, v1: bv128, v2: bv128, v3: bv128, v4: bv128, v5: bv128, v6: bv128, v7: bv128,
                   v8: bv128, v9: bv128, v10: bv128, v11: bv128, v12: bv128, v13: bv128, v14: bv128, v15: bv128): bv128
  {
    if n & 8 == 0 then
      if n & 4 == 0 then
        (if n & 2 == 0 then (if n & 1 == 0 then v0 else v1) else (if n & 1 == 0 then v2 else v3))
      else
        (if n & 2 == 0 then (if n & 1 == 0 then v4 else v5) else (if n & 1 == 0 then v6 else v7))
    else
      if n & 4 == 0 then
        (if n & 2 == 0 then (if n & 1 == 0 then v8 else v9) else (if n & 1 == 0 then v10 else v11))
      else
        (if n & 2 == 0 then (if n & 1 == 0 then v12 else v13) else (if n & 1 == 0 then v14 else v15))
  }

  /** One row of thirty-two, by the low five bits of n. */
  function RowOf32(n: bv8, v0: bv256, v1: bv256, v2: bv256, v3: bv256, v4: bv256, v5: bv256, v6: bv256, v7: bv256,
                   v8: bv256, v9: bv256, v10: bv256, v11: bv256, v12: bv256, v13: bv256, v14: bv256, v15: bv256,
                   v16: bv256, v17: bv256, v18: bv256, v19: bv256, v20: bv256, v21: bv256, v22: bv256, v23: bv256,
                   v24: bv256, v25: bv256, v26: bv256, v27: bv256, v28: bv256, v29: bv256, v30: bv256, v31: bv256): bv256
  {
    if n & 16 == 0 then
      if n & 8 == 0 then
        if n & 4 == 0 then
          (if n & 2 == 0 then (if n & 1 == 0 then v0 else v1) else (if n & 1 == 0 then v2 else v3))
        else
          (if n & 2 == 0 then (if n & 1 == 0 then v4 else v5) else (if n & 1 == 0 then v6 else v7))
      else
        if n & 4 == 0 then
          (if n & 2 == 0 then (if n & 1 == 0 then v8 else v9) else (if n & 1 == 0 then v10 else v11))
        else
          (if n & 2 == 0 then (if n & 1 == 0 then v12 else v13) else (if n & 1 == 0 then v14 else v15))
    else
      if n & 8 == 0 then
        if n & 4 == 0 then
          (if n & 2 == 0 then (if n & 1 == 0 then v16 else v17) else (if n & 1 == 0 then v18 else v19))
        else
          (if n & 2 == 0 then (if n & 1 == 0 then v20 else v21) else (if n & 1 == 0 then v22 else v23))
      else
        if n & 4 == 0 then
          (if n & 2 == 0 then (if n & 1 == 0 then v24 else v25) else (if n & 1 == 0 then v26 else v27))
        else
          (if n & 2 == 0 then (if n & 1 == 0 then v28 else v29) else (if n & 1 == 0 then v30 else v31))
  }

  // ----- byte strings -----------------------------------------------------------

  /** XOR of two byte strings over their common length. */
  function XorBytes(a: seq<bv8>, b: seq<bv8>): (r: seq<bv8>)
    requires |a| <= |b|
    ensures |r| == |a|
    ensures forall i :: 0 <= i < |a| ==> r[i] == a[i] ^ b[i]
  {
    seq(|a|, i requires 0 <= i < |a| => a[i] ^ b[i])
  }

  lemma XorBytesTwice(a: seq<bv8>, k: seq<bv8>)
    requires |a| <= |k|
    ensures XorBytes(XorBytes(a, k), k) == a
  {
  }

  function Repeat<T>(x: T, n: nat): (s: seq<T>)
    ensures |s| == n
    ensures forall i :: 0 <= i < n ==> s[i] == x
  {
    seq(n, _ => x)
  }

  lemma WholeSlice<T>(s: seq<T>)
    ensures s[0..] == s && s[..|s|] == s && s[|s|..] == []
  {
  }
}
