/** gcmInit, gcmMul, gcmXorBlock and gcmIncCounter: the pieces GCM is built from in gcm.c. */
module Gcm {
  import opened BlockOps
  import opened Words
  import opened Folds
  import opened Gf128
  import opened Shoup

  // ----- blocks and bits -------------------------------------------------------------------

  function ToElem(b: Block): Elem {
    Elem(Load32BE(b[0], b[1], b[2], b[3]), Load32BE(b[4], b[5], b[6], b[7]),
         Load32BE(b[8], b[9], b[10], b[11]), Load32BE(b[12], b[13], b[14], b[15]))
  }

  function FromElem(e: Elem): Block {
    Store32BE(e.w3) + Store32BE(e.w2) + Store32BE(e.w1) + Store32BE(e.w0)
  }

  /** The four bits of a nibble, leftmost first. */
  function NibbleBits(n: bv8): (s: seq<bool>)
    ensures |s| == 4
  {
    [n & 8 != 0, n & 4 != 0, n & 2 != 0, n & 1 != 0]
  }

  function ByteBits(b: bv8): (s: seq<bool>)
    ensures |s| == 8
  {
    NibbleBits(b >> 4) + NibbleBits(b & 0xF)
  }

  /** A block as the bit string x0 x1 ... x127 of the standard. */
  function BlockBits(x: seq<bv8>): (s: seq<bool>)
    ensures |s| == 8 * |x|
  {
    if x == [] then [] else ByteBits(x[0]) + BlockBits(x[1..])
  }

  /** X • H on blocks */
  function BlockProduct(x: Block, h: Elem): Block {
    FromElem(Product(BlockBits(x), h))
  }

  // ----- the table of multiples ----------------------------------------------------------------

  /** reverseInt4 */
  function ReverseInt4(value: bv8): bv8 {
    var v := ((value & 0x0C) >> 2) | ((value & 0x03) << 2);
    ((v & 0x0A) >> 1) | ((v & 0x05) << 1)
  }

  /** reverseInt8 */
  function ReverseInt8(value: bv8): bv8 {
    var v := ((value & 0xF0) >> 4) | ((value & 0x0F) << 4);
    var w := ((v & 0xCC) >> 2) | ((v & 0x33) << 2);
    ((w & 0xAA) >> 1) | ((w & 0x55) << 1)
  }

  /** GCM_REVERSE_BITS for the 8-bit (wide) or the 4-bit table. */
  function ReverseBits(wide: bool, n: bv8): bv8 {
    if wide then ReverseInt8(n) else ReverseInt4(n)
  }

  /** The bit string a table index stands for. */
  function IndexBits(wide: bool, n: bv8): (s: seq<bool>) {
    if wide then ByteBits(n) else NibbleBits(n)
  }

  /** GCM_TABLE_N */
  function TableSize(wide: bool): nat {
    if wide then 256 else 16
  }

  /** The bits of an index above its lowest one. */
  function UpperBits(wide: bool, n: bv8): seq<bool> {
    if wide then [n & 2 != 0, n & 4 != 0, n & 8 != 0, n & 16 != 0, n & 32 != 0, n & 64 != 0, n & 128 != 0]
    else [n & 2 != 0, n & 4 != 0, n & 8 != 0]
  }

  /** An index with its bits read from the least significant end. */
  function CountBits(wide: bool, n: bv8): seq<bool> {
    [n & 1 != 0] + UpperBits(wide, n)
  }

  predicate IsIndex(wide: bool, n: bv8) {
    wide || n < 16
  }

  lemma ReverseTwice(wide: bool, n: bv8)
    requires IsIndex(wide, n)
    ensures ReverseBits(wide, ReverseBits(wide, n)) == n
  {
    if wide {
      assert ReverseInt8(ReverseInt8(n)) == n;
    } else {
      assert ReverseInt4(ReverseInt4(n)) == n;
    }
  }

  lemma ReverseInRange(wide: bool, n: bv8)
    requires IsIndex(wide, n)
    ensures IsIndex(wide, ReverseBits(wide, n))
  {
  }

  lemma IndexInRange(wide: bool, n: bv8)
    requires IsIndex(wide, n)
    ensures n as int < TableSize(wide)
  {
  }

  lemma ReversedByte(n: bv8)
    ensures var r := ReverseInt8(n);
            ByteBits(n) == [r & 1 != 0, r & 2 != 0, r & 4 != 0, r & 8 != 0, r & 16 != 0, r & 32 != 0, r & 64 != 0, r & 128 != 0]
  {
  }

  lemma ReversedNibble(n: bv8)
    ensures var r := ReverseInt4(n);
            NibbleBits(n) == [r & 1 != 0, r & 2 != 0, r & 4 != 0, r & 8 != 0]
  {
  }

  lemma EightInARow(p: bool, q: bool, r: bool, s: bool, t: bool, u: bool, v: bool, w: bool)
    ensures [p] + [q, r, s, t, u, v, w] == [p, q, r, s, t, u, v, w]
    ensures [p] + [q, r, s] == [p, q, r, s]
  {
  }

  lemma ReversedBits(wide: bool, n: bv8)
    ensures CountBits(wide, ReverseBits(wide, n)) == IndexBits(wide, n)
  {
    hide ReverseInt8, ReverseInt4, ByteBits, NibbleBits;
    var r := ReverseBits(wide, n);
    EightInARow(r & 1 != 0, r & 2 != 0, r & 4 != 0, r & 8 != 0, r & 16 != 0, r & 32 != 0, r & 64 != 0, r & 128 != 0);
    if wide {
      ReversedByte(n);
    } else {
      ReversedNibble(n);
    }
  }

  /** M(n): the multiple of h that the counting index n stands for. */
  function Multiple(wide: bool, n: bv8, h: Elem): Elem {
    Horner(CountBits(wide, n), h, ZERO)
  }

  lemma HalvedBits(wide: bool, n: bv8)
    requires IsIndex(wide, n)
    ensures CountBits(wide, n >> 1) == UpperBits(wide, n) + [false]
  {
  }

  lemma UpperBitsStay(wide: bool, n: bv8)
    ensures UpperBits(wide, n & 0xFE) == UpperBits(wide, n)
  {
  }

  lemma HornerFirst(bit: bool, x: seq<bool>, h: Elem)
    ensures Horner([bit] + x, h, ZERO) == Select(bit, h, Horner(x, h, ZERO))
  {
    assert ([bit] + x)[1..] == x;
  }

  lemma MultipleEven(wide: bool, n: bv8, h: Elem)
    requires IsIndex(wide, n) && n & 1 == 0
    ensures Multiple(wide, n, h) == MulX(Multiple(wide, n >> 1, h))
  {
    HalvedBits(wide, n);
    var u := UpperBits(wide, n);
    MulXZero();
    hide MulX, Xor, ZERO, UpperBits;
    HornerFirst(false, u, h);
    HornerAppend(u, [false], h, ZERO);
    HornerFirst(false, [], h);
    assert [false] + [] == [false];
  }

  lemma MultipleOdd(wide: bool, n: bv8, h: Elem)
    requires IsIndex(wide, n) && n & 1 != 0
    ensures Multiple(wide, n, h) == Xor(Multiple(wide, n & 0xFE, h), h)
  {
    UpperBitsStay(wide, n);
    assert n & 0xFE & 1 == 0;
    var u := UpperBits(wide, n);
    hide MulX, Xor, ZERO, UpperBits;
    HornerFirst(true, u, h);
    HornerFirst(false, u, h);
    XorCommutes(h, MulX(Horner(u, h, ZERO)));
  }

  lemma {:induction false} HornerOfFalse(x: seq<bool>, h: Elem)
    requires forall i :: 0 <= i < |x| ==> !x[i]
    ensures Horner(x, h, ZERO) == ZERO
  {
    MulXZero();
    hide MulX, Xor, ZERO;
    if x != [] {
      HornerOfFalse(x[1..], h);
    }
  }

  lemma MultipleZero(wide: bool, h: Elem)
    ensures Multiple(wide, 0, h) == ZERO
  {
    HornerOfFalse(CountBits(wide, 0), h);
  }

  lemma MultipleOne(wide: bool, h: Elem)
    ensures Multiple(wide, 1, h) == h
  {
    MultipleOdd(wide, 1, h);
    MultipleZero(wide, h);
    assert (1 as bv8) & 0xFE == 0;
    hide Multiple, Xor, ZERO;
    XorCommutes(ZERO, h);
    XorZero(h);
  }

  /** Read by its reversed index, the multiple is the product the multiplication loop needs. */
  lemma MultipleReversed(wide: bool, n: bv8, h: Elem)
    requires IsIndex(wide, n)
    ensures Multiple(wide, ReverseBits(wide, n), h) == Horner(IndexBits(wide, n), h, ZERO)
  {
    ReversedBits(wide, n);
  }

  // ----- integer loop counters and byte indices ------------------------------------------------------

  lemma CounterParity(i: int)
    requires 0 <= i < 256
    ensures i % 2 == 1 <==> (i as bv8) & 1 == 1
  {
  }

  lemma CounterHalf(i: int)
    requires 0 <= i < 256
    ensures (i / 2) as bv8 == (i as bv8) >> 1
  {
    var b := ByteOfInt(i);
    IntOfItsByte(i);
    HalfCounts(b);
    ByteOfItsInt(i / 2, b >> 1);
  }

  lemma HalfCounts(b: bv8)
    ensures IntOfByte(b >> 1) == IntOfByte(b) / 2
  {
  }

  lemma OddLess(x: bv8)
    requires x & 1 == 1
    ensures (x & 0xFE) as int == x as int - 1
  {
  }

  lemma BackToByte(k: int, y: bv8)
    requires k == y as int
    ensures k as bv8 == y
  {
  }

  lemma CounterLess(i: int, x: bv8)
    requires i == x as int && x & 1 == 1
    ensures i > 0 && (i - 1) as bv8 == x & 0xFE
  {
    OddLess(x);
    BackToByte(i - 1, x & 0xFE);
  }

  lemma CounterRange(wide: bool, i: int)
    requires 0 <= i < TableSize(wide)
    ensures IsIndex(wide, i as bv8)
  {
  }

  class GcmContext {
    const wide: bool
    var cipherAlgo: CipherAlgo
    const m: array2<bv32>

    ghost predicate Shaped() {
      m.Length0 == TableSize(wide) && m.Length1 == 4
    }

    /** Row j of the table, most significant word first. */
    ghost function RowAt(j: nat): Elem
      requires Shaped() && j < TableSize(wide)
      reads m
    {
      Elem(m[j, 3], m[j, 2], m[j, 1], m[j, 0])
    }

    /** The hash subkey: the cipher applied to the zero block. */
    ghost function H(): Elem
      reads this
    {
      ToElem(cipherAlgo.encrypt(Repeat(0, 16)))
    }

    /** Row b holds the multiple of H that the bits of b select. */
    ghost predicate Valid()
      reads this, m
    {
      && Shaped()
      && forall b: bv8 :: IsIndex(wide, b) && b as int < TableSize(wide) ==> RowAt(b as int) == Horner(IndexBits(wide, b), H(), ZERO)
    }

    /** The table row used for counting index i. */
    function Slot(i: nat): (j: nat)
      requires i < TableSize(wide)
      ensures j < TableSize(wide)
    {
      CounterRange(wide, i);
      ReverseInRange(wide, i as bv8);
      IndexInRange(wide, ReverseBits(wide, i as bv8));
      ReverseBits(wide, i as bv8) as int
    }

    /** The rows of the counting indices below i are in place. */
    ghost predicate Filled(i: nat, h: Elem)
      requires Shaped() && i <= TableSize(wide)
      reads m
    {
      forall n :: 0 <= n < i ==> RowAt(Slot(n)) == MultipleAt(wide, n, h)
    }

    method WriteRow(j: nat, e: Elem)
      requires Shaped() && j < TableSize(wide)
      modifies m
      ensures RowAt(j) == e
      ensures forall k :: 0 <= k < TableSize(wide) && k != j ==> RowAt(k) == old(RowAt(k))
    {
      m[j, 0], m[j, 1], m[j, 2], m[j, 3] := e.w0, e.w1, e.w2, e.w3;
    }

    lemma SlotsApart(n: nat, i: nat)
      requires n < TableSize(wide) && i < TableSize(wide) && n != i
      ensures Slot(n) != Slot(i)
    {
      CounterRange(wide, n);
      CounterRange(wide, i);
      ReverseTwice(wide, n as bv8);
      ReverseTwice(wide, i as bv8);
      ByteBack(n);
      ByteBack(i);
      var p, q := ReverseBits(wide, n as bv8), ReverseBits(wide, i as bv8);
      hide ReverseBits;
      if p as int == q as int {
        BackToByte(q as int, p);
        BackToByte(q as int, q);
      }
    }

    /** Writing M(i) extends the finished part of the table by one index. */
    method Fill(i: nat, e: Elem, ghost h: Elem)
      requires Shaped() && i < TableSize(wide) && Filled(i, h)
      requires e == MultipleAt(wide, i, h)
      modifies m
      ensures Filled(i + 1, h)
    {
      hide MultipleAt, Slot;
      WriteRow(Slot(i), e);
      forall n | 0 <= n < i
        ensures RowAt(Slot(n)) == MultipleAt(wide, n, h)
      {
        SlotsApart(n, i);
      }
    }

    method ReadRow(n: nat, ghost i: nat, ghost h: Elem) returns (e: Elem)
      requires Shaped() && n < i <= TableSize(wide) && Filled(i, h)
      ensures e == MultipleAt(wide, n, h)
    {
      hide MultipleAt, Slot;
      var j := Slot(n);
      e := Elem(m[j, 3], m[j, 2], m[j, 1], m[j, 0]);
      assert e == RowAt(Slot(n));
    }

    constructor (wide: bool, initial: CipherAlgo)
      ensures this.wide == wide && Shaped() && fresh(m)
    {
      this.wide := wide;
      cipherAlgo := initial;
      m := new bv32[if wide then 256 else 16, 4];
    }

    /** gcmInit */
    method Init(algo: CipherAlgo) returns (error: ErrorCode)
      requires Shaped()
      modifies this, m
      ensures error == if algo.isBlockCipher && algo.blockSize == 16 then NoError else InvalidParameter
      ensures error == NoError ==> cipherAlgo == algo && Valid()
      ensures error != NoError ==> cipherAlgo == old(cipherAlgo) && forall j :: 0 <= j < TableSize(wide) ==> RowAt(j) == old(RowAt(j))
    {
      if !algo.isBlockCipher || algo.blockSize != 16 {
        return InvalidParameter;
      }
      cipherAlgo := algo;
      var h := ToElem(algo.encrypt(Repeat(0, 16)));
      MultipleZero(wide, h);
      MultipleOne(wide, h);
      assert MultipleAt(wide, 0, h) == ZERO && MultipleAt(wide, 1, h) == h;
      hide MultipleAt, RowAt, ToElem, Valid;
      Fill(0, Elem(0, 0, 0, 0), h);
      Fill(1, h, h);
      for i := 2 to TableSize(wide)
        invariant Filled(i, h) && cipherAlgo == algo
      {
        var e := NextMultiple(i, h);
        Fill(i, e, h);
      }
      FilledIsValid(h);
      return NoError;
    }

    lemma RowOfIndex(b: bv8, h: Elem)
      requires IsIndex(wide, b)
      ensures b as int < TableSize(wide) && ReverseBits(wide, b) as int < TableSize(wide)
      ensures Slot(ReverseBits(wide, b) as int) == b as int
      ensures MultipleAt(wide, ReverseBits(wide, b) as int, h) == Horner(IndexBits(wide, b), h, ZERO)
    {
      ReverseInRange(wide, b);
      IndexInRange(wide, b);
      IndexInRange(wide, ReverseBits(wide, b));
      ReverseTwice(wide, b);
      MultipleReversed(wide, b, h);
      BackToByte(ReverseBits(wide, b) as int, ReverseBits(wide, b));
      hide Multiple, ReverseBits, IsIndex;
    }

    lemma FilledIsValid(h: Elem)
      requires Shaped() && Filled(TableSize(wide), h) && h == H()
      ensures Valid()
    {
      forall b: bv8 | IsIndex(wide, b) && b as int < TableSize(wide)
        ensures RowAt(b as int) == Horner(IndexBits(wide, b), H(), ZERO)
      {
        hide MultipleAt, ReverseBits, RowAt, H, IsIndex, Slot, Horner, IndexBits;
        RowOfIndex(b, h);
      }
    }

    /** M(i) for i >= 2, computed from an earlier row as the loop of gcmInit does. */
    method NextMultiple(i: nat, h: Elem) returns (e: Elem)
      requires Shaped() && 2 <= i < TableSize(wide) && Filled(i, h)
      ensures e == MultipleAt(wide, i, h)
    {
      hide MultipleAt, MulX, XorW;
      if i % 2 != 0 {
        MultipleOfOdd(wide, i, h);
        var b := ReadRow(i - 1, i, h);
        e := Elem(XorW(b.w3, h.w3), XorW(b.w2, h.w2), XorW(b.w1, h.w1), XorW(b.w0, h.w0));
      } else {
        MultipleOfEven(wide, i, h);
        var b := ReadRow(i / 2, i, h);
        e := Double(b);
      }
    }

    /** The words of b shifted by one and reduced with an entry of the reduction table. */
    method Double(b: Elem) returns (e: Elem)
      ensures e == MulX(b)
    {
      FirstReduction(wide);
      hide R8, R4, ReverseInt8, ReverseInt4, MulX;
      var c := b.w0 & 1;
      var m0 := (b.w0 >> 1) | (b.w1 << 31);
      var m1 := (b.w1 >> 1) | (b.w2 << 31);
      var m2 := (b.w2 >> 1) | (b.w3 << 31);
      var m3 := b.w3 >> 1;
      var r := if wide then R8(ReverseInt8(1)) else R4(ReverseInt4(1));
      TimesX(b, c, r, m3 ^ (r & !(c - 1)), m2, m1, m0);
      m3 := m3 ^ (r & !(c - 1));
      e := Elem(m3, m2, m1, m0);
    }

    /** context->m[b] */
    method LoadRow(b: bv8) returns (row: Elem)
      requires Valid() && IsIndex(wide, b)
      ensures row == Horner(IndexBits(wide, b), H(), ZERO)
    {
      IndexInRange(wide, b);
      hide Horner, IndexBits, H, IsIndex;
      var j := b as int;
      row := Elem(m[j, 3], m[j, 2], m[j, 1], m[j, 0]);
      assert row == RowAt(j);
    }

    /** The nibble step of gcmMul. */
    method StepNibble(z: Elem, b: bv8) returns (r: Elem)
      requires Valid() && !wide && b < 16
      ensures r == Horner(NibbleBits(b), H(), z)
    {
      var m := LoadRow(b);
      hide R4, LowNibble, H, Horner, NibbleBits, Xor, MulX4;
      r := Elem(((z.w3 >> 4) ^ m.w3) ^ R4(LowNibble(z.w0)),
                ((z.w2 >> 4) | (z.w3 << 28)) ^ m.w2,
                ((z.w1 >> 4) | (z.w2 << 28)) ^ m.w1,
                ((z.w0 >> 4) | (z.w1 << 28)) ^ m.w0);
      NibbleWords(z, m);
      HornerOfNibble(NibbleBits(b), H(), z);
    }

    /** The byte step of gcmMul. */
    method StepByte(z: Elem, b: bv8) returns (r: Elem)
      requires Valid() && wide
      ensures r == Horner(ByteBits(b), H(), z)
    {
      var m := LoadRow(b);
      hide R8, LowByte, H, Horner, ByteBits, Xor, MulX8;
      r := Elem(((z.w3 >> 8) ^ m.w3) ^ R8(LowByte(z.w0)),
                ((z.w2 >> 8) | (z.w3 << 24)) ^ m.w2,
                ((z.w1 >> 8) | (z.w2 << 24)) ^ m.w1,
                ((z.w0 >> 8) | (z.w1 << 24)) ^ m.w0);
      ByteWords(z, m);
      HornerOfByte(ByteBits(b), H(), z);
    }

    /** One byte of gcmMul's loop, lower nibble first when the table is narrow. */
    method StepOnce(z: Elem, b: bv8) returns (r: Elem)
      requires Valid()
      ensures r == Horner(ByteBits(b), H(), z)
    {
      ByteBitsSplit(b);
      hide H, NibbleBits, ByteBits, Horner;
      if wide {
        r := StepByte(z, b);
      } else {
        HornerAppend(NibbleBits(b >> 4), NibbleBits(b & 0xF), H(), z);
        r := StepNibble(z, b & 0x0F);
        r := StepNibble(r, (b >> 4) & 0x0F);
      }
    }

    /** gcmMul: the block becomes its product with H. */
    method Mul(x: array<bv8>)
      requires Valid() && x.Length == 16 && x as object != m
      modifies x
      ensures x[..] == BlockProduct(old(x[..]), H())
    {
      hide H, Horner, ByteBits, Product, BlockBits, FromElem, Valid, BlockProduct;
      ghost var before := x[..];
      assert before[16..] == [];
      EmptyHorner(H());
      var z := Elem(0, 0, 0, 0);
      var i := 15;
      while i >= 0
        invariant -1 <= i <= 15 && x[..] == before
        invariant z == Horner(BlockBits(before[i + 1..]), H(), ZERO)
      {
        HornerOfBytes(before, i, H());
        z := StepOnce(z, x[i]);
        i := i - 1;
      }
      assert i + 1 == 0;
      assert before[i + 1..] == before by { WholeSlice(before); }
      BlockProductByHorner(before, z, H());
      Store(x, z);
    }

    lemma BlockProductByHorner(x: Block, z: Elem, h: Elem)
      requires z == Horner(BlockBits(x), h, ZERO)
      ensures FromElem(z) == BlockProduct(x, h)
    {
      hide FromElem, Horner, Product, BlockBits;
      ProductIsHorner(BlockBits(x), h);
    }

    lemma HornerOfBytes(x: seq<bv8>, i: nat, h: Elem)
      requires i < |x|
      ensures Horner(BlockBits(x[i..]), h, ZERO) == Horner(ByteBits(x[i]), h, Horner(BlockBits(x[i + 1..]), h, ZERO))
    {
      hide ByteBits, Horner, ZERO;
      assert x[i..][1..] == x[i + 1..];
      HornerAppend(ByteBits(x[i]), BlockBits(x[i + 1..]), h, ZERO);
    }

    lemma EmptyHorner(h: Elem)
      ensures Horner(BlockBits([]), h, ZERO) == Elem(0, 0, 0, 0)
    {
    }

    lemma ByteBitsSplit(b: bv8)
      ensures ByteBits(b) == NibbleBits(b >> 4) + NibbleBits(b & 0xF)
      ensures b & 0xF < 16 && b >> 4 < 16 && (b >> 4) & 0x0F == b >> 4
    {
      hide NibbleBits;
    }

    /** STORE32BE of the four words. */
    method Store(x: array<bv8>, z: Elem)
      requires x.Length == 16
      modifies x
      ensures x[..] == FromElem(z)
    {
      var b := FromElem(z);
      hide FromElem;
      forall k | 0 <= k < 16 {
        x[k] := b[k];
      }
    }
  }

  /** M(i) by integer index */
  function MultipleAt(wide: bool, i: nat, h: Elem): Elem
    requires i < 256
  {
    Multiple(wide, i as bv8, h)
  }

  lemma MultipleOfOdd(wide: bool, i: nat, h: Elem)
    requires 0 < i < TableSize(wide) && i % 2 != 0
    ensures MultipleAt(wide, i, h) == Xor(MultipleAt(wide, i - 1, h), h)
  {
    CounterRange(wide, i);
    CounterParity(i);
    ByteBack(i);
    hide Multiple, IsIndex;
    CounterLess(i, i as bv8);
    MultipleOdd(wide, i as bv8, h);
  }

  lemma MultipleOfEven(wide: bool, i: nat, h: Elem)
    requires i < TableSize(wide) && i % 2 == 0
    ensures MultipleAt(wide, i, h) == MulX(MultipleAt(wide, i / 2, h))
  {
    CounterRange(wide, i);
    CounterParity(i);
    MultipleEvenBit(i as bv8);
    CounterHalf(i);
    hide Multiple, IsIndex, MulX;
    MultipleEven(wide, i as bv8, h);
  }

  lemma MultipleEvenBit(x: bv8)
    ensures x & 1 == 1 || x & 1 == 0
  {
  }

  lemma ReductionWord(w: bv32)
    ensures 0xE1000000 & !((w & 1) - 1) == Top(w)
  {
  }

  lemma FirstReduction(wide: bool)
    ensures (if wide then R8(ReverseInt8(1)) else R4(ReverseInt4(1))) == 0xE1000000
  {
  }

  /** The doubling step of gcmInit is multiplication by x. */
  lemma TimesX(b: Elem, c: bv32, r: bv32, m3: bv32, m2: bv32, m1: bv32, m0: bv32)
    requires c == b.w0 & 1 && r == 0xE1000000
    requires m3 == (b.w3 >> 1) ^ (r & !(c - 1))
    requires m2 == (b.w2 >> 1) | (b.w3 << 31)
    requires m1 == (b.w1 >> 1) | (b.w2 << 31)
    requires m0 == (b.w0 >> 1) | (b.w1 << 31)
    ensures Elem(m3, m2, m1, m0) == MulX(b)
  {
    ReductionWord(b.w0);
    assert XorW(ShrW(0, b.w3), Top(b.w0)) == m3 by { hide Top; }
    assert ShrW(b.w3, b.w2) == m2;
    assert ShrW(b.w2, b.w1) == m1;
    assert ShrW(b.w1, b.w0) == m0;
    hide *;
    MulXWords(b);
  }

  lemma MulXWords(b: Elem)
    ensures MulX(b) == Elem(XorW(ShrW(0, b.w3), Top(b.w0)), ShrW(b.w3, b.w2), ShrW(b.w2, b.w1), ShrW(b.w1, b.w0))
  {
    hide XorW, ShrW, Top;
    XorWZero(ShrW(b.w3, b.w2));
    XorWZero(ShrW(b.w2, b.w1));
    XorWZero(ShrW(b.w1, b.w0));
  }
}
