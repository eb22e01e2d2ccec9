/** Rotation of a 128-bit string held in four big-endian words, as the ARIA and Camellia schedules do it. */
module Rotation {
  import opened Words

  /** The string of four words. */
  function Wide(a: bv32, b: bv32, c: bv32, d: bv32): bv128 {
    ((a as bv128) << 96) | ((b as bv128) << 64) | ((c as bv128) << 32) | (d as bv128)
  }

  function RotateOne(x: bv128): bv128 {
    x.RotateLeft(1)
  }

  /** Rotation of a 128-bit string to the left, bit by bit. */
  function Rotated(x: bv128, n: nat): bv128 {
    if n == 0 then x else RotateOne(Rotated(x, n - 1))
  }

  function Up(a: bv32, s: bv8): bv32
    requires s <= 32
  {
    a << s
  }

  function Down(a: bv32, s: bv8): bv32
    requires s <= 32
  {
    a >> s
  }

  function Join(a: bv32, b: bv32): bv32 {
    a | b
  }

  /** The high word of two neighbouring words shifted left together. */
  function Shifted(a: bv32, b: bv32, s: bv8): bv32
    requires 0 < s < 32
  {
    Join(Up(a, s), Down(b, 32 - s))
  }

  /** The word that starts at bit s of the string a || b. */
  function RolPair(a: bv32, b: bv32, s: nat): bv32
    requires s < 32
  {
    if s == 0 then a else Shifted(a, b, ByteOfInt(s))
  }

  /** The i-th word of four after a rotation by n bits: whole words first, then single bits. */
  function RolWord(w: seq<bv32>, n: nat, i: nat): bv32
    requires |w| == 4
  {
    RolPair(w[(n / 32 + i) % 4], w[(n / 32 + i + 1) % 4], n % 32)
  }

  // ----- one bit further ---------------------------------------------------------------------------

  function Carry(a: bv32, b: bv32): bv32 {
    (a << 1) | (b >> 31)
  }

  lemma RotateWide(a: bv32, b: bv32, c: bv32, d: bv32)
    ensures Wide(a, b, c, d).RotateLeft(1)
         == Wide((a << 1) | (b >> 31), (b << 1) | (c >> 31), (c << 1) | (d >> 31), (d << 1) | (a >> 31))
  {
  }

  lemma RotateOneWide(a: bv32, b: bv32, c: bv32, d: bv32)
    ensures RotateOne(Wide(a, b, c, d)) == Wide(Carry(a, b), Carry(b, c), Carry(c, d), Carry(d, a))
  {
    hide Wide;
    RotateWide(a, b, c, d);
  }

  lemma UpOn(a: bv32, s: bv8)
    requires 0 < s < 31
    ensures Up(a, s + 1) == Up(Up(a, s), 1)
  {
  }

  lemma DownOn(b: bv32, s: bv8)
    requires 0 < s < 31
    ensures Down(b, 32 - (s + 1)) == Carry(Down(b, 32 - s), Up(b, s))
  {
  }

  lemma NoTopBit(c: bv32, s: bv8)
    requires 0 < s < 31
    ensures Down(Down(c, 32 - s), 31) == 0
  {
  }

  lemma CarryParts(w: bv32, x: bv32, y: bv32, z: bv32)
    requires Down(z, 31) == 0
    ensures Carry(Join(w, x), Join(y, z)) == Join(Up(w, 1), Carry(x, y))
  {
  }

  lemma ShiftedNext(a: bv32, b: bv32, c: bv32, s: bv8)
    requires 0 < s < 31
    ensures Shifted(a, b, s + 1) == Carry(Shifted(a, b, s), Shifted(b, c, s))
  {
    hide Up, Down, Join, Carry;
    UpOn(a, s);
    DownOn(b, s);
    NoTopBit(c, s);
    CarryParts(Up(a, s), Down(b, 32 - s), Up(b, s), Down(c, 32 - s));
  }

  lemma ShiftedFirst(a: bv32, b: bv32)
    ensures Shifted(a, b, 1) == Carry(a, b)
  {
  }

  lemma ShiftedLast(a: bv32, b: bv32, c: bv32)
    ensures Carry(Shifted(a, b, 31), Shifted(b, c, 31)) == b
  {
  }

  lemma NextAmount(s: nat)
    requires 0 < s < 31
    ensures 0 < ByteOfInt(s) < 31 && ByteOfInt(s + 1) == ByteOfInt(s) + 1
  {
    IntOfItsByte(s);
    NextByteCounts(ByteOfInt(s));
    ByteOfItsInt(s + 1, NextByte(ByteOfInt(s)));
  }

  lemma RolPairNext(a: bv32, b: bv32, c: bv32, s: nat)
    requires s < 31
    ensures RolPair(a, b, s + 1) == Carry(RolPair(a, b, s), RolPair(b, c, s))
  {
    if s == 0 {
      ShiftedFirst(a, b);
    } else {
      NextAmount(s);
      ShiftedNext(a, b, c, ByteOfInt(s));
    }
  }

  lemma RolPairLast(a: bv32, b: bv32, c: bv32)
    ensures RolPair(b, c, 0) == Carry(RolPair(a, b, 31), RolPair(b, c, 31))
  {
    ShiftedLast(a, b, c);
  }

  // ----- any number of bits --------------------------------------------------------------------------

  lemma RolWordNext(w: seq<bv32>, n: nat, i: nat)
    requires |w| == 4
    ensures RolWord(w, n + 1, i) == Carry(RolWord(w, n, i), RolWord(w, n, i + 1))
  {
    hide Carry, RolPair;
    var h := n / 32 + i;
    assert h % 4 < 4;
    if n % 32 == 31 {
      assert (n + 1) / 32 == n / 32 + 1 && (n + 1) % 32 == 0;
      RolPairLast(w[h % 4], w[(h + 1) % 4], w[(h + 2) % 4]);
    } else {
      assert (n + 1) / 32 == n / 32 && (n + 1) % 32 == n % 32 + 1;
      RolPairNext(w[h % 4], w[(h + 1) % 4], w[(h + 2) % 4], n % 32);
    }
  }

  lemma RolWordRound(w: seq<bv32>, n: nat)
    requires |w| == 4
    ensures RolWord(w, n, 4) == RolWord(w, n, 0)
  {
    hide RolPair;
    var h := n / 32;
    assert (h + 4) % 4 == h % 4 && (h + 5) % 4 == (h + 1) % 4;
  }

  /** Words picked and shifted in pairs make up the rotated string, for every amount. */
  lemma {:induction false} RolWordsRotate(w: seq<bv32>, n: nat)
    requires |w| == 4
    ensures Wide(RolWord(w, n, 0), RolWord(w, n, 1), RolWord(w, n, 2), RolWord(w, n, 3))
         == Rotated(Wide(w[0], w[1], w[2], w[3]), n)
    decreases n
  {
    hide Wide, Carry, RotateOne, RolWord;
    if n == 0 {
      RolWordsStay(w);
    } else {
      RolWordsRotate(w, n - 1);
      RolWordNext(w, n - 1, 0);
      RolWordNext(w, n - 1, 1);
      RolWordNext(w, n - 1, 2);
      RolWordNext(w, n - 1, 3);
      RolWordRound(w, n - 1);
      RotateOneWide(RolWord(w, n - 1, 0), RolWord(w, n - 1, 1), RolWord(w, n - 1, 2), RolWord(w, n - 1, 3));
    }
  }

  lemma RolWordsStay(w: seq<bv32>)
    requires |w| == 4
    ensures RolWord(w, 0, 0) == w[0] && RolWord(w, 0, 1) == w[1] && RolWord(w, 0, 2) == w[2] && RolWord(w, 0, 3) == w[3]
  {
  }
}
