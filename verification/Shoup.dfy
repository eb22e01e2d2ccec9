/** Shoup's method in gcm.c: multiplying by x^4 or x^8 with one table look-up for the reduction. */
module Shoup {
  import opened Words
  import opened Folds
  import opened Gf128

  /** The reduction table for nibbles. */
  function R4(i: bv8): bv32 {
    WordEntry(if i & 8 == 0
              then 0x000000001C2000003840000024600000708000006CA0000048C0000054E00000
              else 0xE1000000FD200000D9400000C5600000918000008DA00000A9C00000B5E00000, i)
  }

  /** The reduction table for bytes. */
  function R8(i: bv8): bv32 {
    WordEntry(RowOf32(i >> 3,
        0x0000000001C2000003840000024600000708000006CA0000048C0000054E0000,
        0x0E1000000FD200000D9400000C5600000918000008DA00000A9C00000B5E0000,
        0x1C2000001DE200001FA400001E6600001B2800001AEA000018AC0000196E0000,
        0x1230000013F2000011B40000107600001538000014FA000016BC0000177E0000,
        0x38400000398200003BC400003A0600003F4800003E8A00003CCC00003D0E0000,
        0x365000003792000035D400003416000031580000309A000032DC0000331E0000,
        0x2460000025A2000027E40000262600002368000022AA000020EC0000212E0000,
        0x2A7000002BB2000029F40000283600002D7800002CBA00002EFC00002F3E0000,
        0x70800000714200007304000072C6000077880000764A0000740C000075CE0000,
        0x7E9000007F5200007D1400007CD6000079980000785A00007A1C00007BDE0000,
        0x6CA000006D6200006F2400006EE600006BA800006A6A0000682C000069EE0000,
        0x62B00000637200006134000060F6000065B80000647A0000663C000067FE0000,
        0x48C00000490200004B4400004A8600004FC800004E0A00004C4C00004D8E0000,
        0x46D0000047120000455400004496000041D80000401A0000425C0000439E0000,
        0x54E00000552200005764000056A6000053E80000522A0000506C000051AE0000,
        0x5AF000005B3200005974000058B600005DF800005C3A00005E7C00005FBE0000,
        0xE1000000E0C20000E2840000E3460000E6080000E7CA0000E58C0000E44E0000,
        0xEF100000EED20000EC940000ED560000E8180000E9DA0000EB9C0000EA5E0000,
        0xFD200000FCE20000FEA40000FF660000FA280000FBEA0000F9AC0000F86E0000,
        0xF3300000F2F20000F0B40000F1760000F4380000F5FA0000F7BC0000F67E0000,
        0xD9400000D8820000DAC40000DB060000DE480000DF8A0000DDCC0000DC0E0000,
        0xD7500000D6920000D4D40000D5160000D0580000D19A0000D3DC0000D21E0000,
        0xC5600000C4A20000C6E40000C7260000C2680000C3AA0000C1EC0000C02E0000,
        0xCB700000CAB20000C8F40000C9360000CC780000CDBA0000CFFC0000CE3E0000,
        0x91800000904200009204000093C6000096880000974A0000950C000094CE0000,
        0x9F9000009E5200009C1400009DD6000098980000995A00009B1C00009ADE0000,
        0x8DA000008C6200008E2400008FE600008AA800008B6A0000892C000088EE0000,
        0x83B00000827200008034000081F6000084B80000857A0000873C000086FE0000,
        0xA9C00000A8020000AA440000AB860000AEC80000AF0A0000AD4C0000AC8E0000,
        0xA7D00000A6120000A4540000A5960000A0D80000A11A0000A35C0000A29E0000,
        0xB5E00000B4220000B6640000B7A60000B2E80000B32A0000B16C0000B0AE0000,
        0xBBF00000BA320000B8740000B9B60000BCF80000BD3A0000BF7C0000BEBE0000), i)
  }

  function ShrFourW(left: bv32, w: bv32): bv32 {
    (w >> 4) | (left << 28)
  }

  function ShrEightW(left: bv32, w: bv32): bv32 {
    (w >> 8) | (left << 24)
  }

  function LowNibble(w: bv32): bv8 {
    (w & 0xF) as bv8
  }

  function LowByte(w: bv32): bv8 {
    (w & 0xFF) as bv8
  }

  /** Four bits at a time: shift, then fold the four bits that fell out back in at the top. */
  function MulX4(z: Elem): Elem {
    Elem(XorW(ShrFourW(0, z.w3), R4(LowNibble(z.w0))), ShrFourW(z.w3, z.w2), ShrFourW(z.w2, z.w1), ShrFourW(z.w1, z.w0))
  }

  /** Eight bits at a time. */
  function MulX8(z: Elem): Elem {
    Elem(XorW(ShrEightW(0, z.w3), R8(LowByte(z.w0))), ShrEightW(z.w3, z.w2), ShrEightW(z.w2, z.w1), ShrEightW(z.w1, z.w0))
  }

  // ----- the table R8 is R4 twice --------------------------------------------------------------

  lemma R8FromR4(c: bv8)
    ensures R8(c) == (R4(c & 0xF) >> 4) ^ R4(c >> 4)
  {
    var s, t := R8(c), (R4(c & 0xF) >> 4) ^ R4(c >> 4);
    if c & 1 == 0 {
    }
    if c & 2 == 0 {
    }
  }

  // ----- the four bits that fall out ------------------------------------------------------------

  lemma LowFour(c: bv8)
    requires c < 16
    ensures MulX(MulX(MulX(MulX(Elem(0, 0, 0, c as bv32))))) == Elem(R4(c), 0, 0, 0)
  {
  }

  // ----- the bits that stay ------------------------------------------------------------------------

  lemma NoCarry(v: Elem)
    requires v.w0 & 1 == 0
    ensures MulX(v) == Shr(v)
  {
    assert Top(v.w0) == 0;
    hide Shr, Top;
    XorZero(Shr(v));
  }

  lemma ShrFourTimes(a: bv32, b: bv32, c: bv32, d: bv32, e: bv32)
    ensures ShrW(ShrW(ShrW(ShrW(a, b), ShrW(b, c)), ShrW(ShrW(b, c), ShrW(c, d))),
                 ShrW(ShrW(ShrW(b, c), ShrW(c, d)), ShrW(ShrW(c, d), ShrW(d, e)))) == ShrFourW(d, e)
  {
  }

  lemma ShrOfZero()
    ensures ShrW(0, 0) == 0
  {
  }

  lemma ShrFour(v: Elem)
    ensures Shr(Shr(Shr(Shr(v)))) ==
      Elem(ShrFourW(0, v.w3), ShrFourW(v.w3, v.w2), ShrFourW(v.w2, v.w1), ShrFourW(v.w1, v.w0))
  {
    hide ShrW, ShrFourW;
    ShrOfZero();
    ShrFourTimes(0, 0, 0, 0, v.w3);
    ShrFourTimes(0, 0, 0, v.w3, v.w2);
    ShrFourTimes(0, 0, v.w3, v.w2, v.w1);
    ShrFourTimes(0, v.w3, v.w2, v.w1, v.w0);
  }

  lemma StillEven1(c: bv32, d: bv32)
    requires d & 0xF == 0
    ensures d & 1 == 0 && ShrW(c, d) & 1 == 0
  {
  }

  lemma StillEven2(b: bv32, c: bv32, d: bv32)
    requires d & 0xF == 0
    ensures ShrW(ShrW(b, c), ShrW(c, d)) & 1 == 0
  {
  }

  lemma StillEven3(a: bv32, b: bv32, c: bv32, d: bv32)
    requires d & 0xF == 0
    ensures ShrW(ShrW(ShrW(a, b), ShrW(b, c)), ShrW(ShrW(b, c), ShrW(c, d))) & 1 == 0
  {
  }

  lemma HighFour(v: Elem)
    requires v.w0 & 0xF == 0
    ensures MulX(MulX(MulX(MulX(v)))) == Shr(Shr(Shr(Shr(v))))
  {
    StillEven1(v.w1, v.w0);
    StillEven2(v.w2, v.w1, v.w0);
    StillEven3(v.w3, v.w2, v.w1, v.w0);
    hide ShrW, MulX;
    NoCarry(v);
    NoCarry(Shr(v));
    NoCarry(Shr(Shr(v)));
    NoCarry(Shr(Shr(Shr(v))));
  }

  function HighNibbles(w: bv32): bv32 {
    w & 0xFFFFFFF0
  }

  function Widen(c: bv8): bv32 {
    c as bv32
  }

  function HighPart(z: Elem): Elem {
    z.(w0 := HighNibbles(z.w0))
  }

  function LowPart(c: bv8): Elem {
    Elem(0, 0, 0, Widen(c))
  }

  lemma SplitFour(z: Elem)
    ensures z == Xor(HighPart(z), LowPart(LowNibble(z.w0)))
  {
    XorWZero(z.w3);
    XorWZero(z.w2);
    XorWZero(z.w1);
    SplitFourW(z.w0);
    hide XorW, LowNibble, HighNibbles, Widen;
  }

  lemma SplitFourW(w: bv32)
    ensures XorW(HighNibbles(w), Widen(LowNibble(w))) == w
    ensures HighNibbles(w) & 0xF == 0
    ensures LowNibble(w) < 16
  {
  }

  /** A pure shift by four, ignoring the bits that fall out. */
  function ShiftFour(v: Elem): Elem {
    Elem(ShrFourW(0, v.w3), ShrFourW(v.w3, v.w2), ShrFourW(v.w2, v.w1), ShrFourW(v.w1, v.w0))
  }

  lemma ShrFourClears(d: bv32, e: bv32)
    ensures ShrFourW(d, HighNibbles(e)) == ShrFourW(d, e)
  {
  }

  lemma HighPartShifts(z: Elem)
    ensures MulX(MulX(MulX(MulX(HighPart(z))))) == ShiftFour(z)
  {
    SplitFourW(z.w0);
    ShrFourClears(z.w1, z.w0);
    HighFour(HighPart(z));
    ShrFour(HighPart(z));
    hide MulX, Shr, ShrFourW;
  }

  lemma MulX4Parts(z: Elem)
    ensures MulX4(z) == Xor(ShiftFour(z), Elem(R4(LowNibble(z.w0)), 0, 0, 0))
  {
    hide XorW, ShrFourW, R4, LowNibble;
    XorWZero(ShrFourW(z.w3, z.w2));
    XorWZero(ShrFourW(z.w2, z.w1));
    XorWZero(ShrFourW(z.w1, z.w0));
  }

  lemma LinearFour(a: Elem, b: Elem)
    ensures MulX(MulX(MulX(MulX(Xor(a, b))))) == Xor(MulX(MulX(MulX(MulX(a)))), MulX(MulX(MulX(MulX(b)))))
  {
    hide Xor, MulX;
    MulXLinear(a, b);
    MulXLinear(MulX(a), MulX(b));
    MulXLinear(MulX(MulX(a)), MulX(MulX(b)));
    MulXLinear(MulX(MulX(MulX(a))), MulX(MulX(MulX(b))));
  }

  /** Four shifts and one look-up multiply by x four times. */
  lemma MulX4IsFourShifts(z: Elem)
    ensures MulX4(z) == MulX(MulX(MulX(MulX(z))))
  {
    var c := LowNibble(z.w0);
    SplitFourW(z.w0);
    LowFour(c);
    assert LowPart(c) == Elem(0, 0, 0, c as bv32);
    hide *;
    SplitFour(z);
    LinearFour(HighPart(z), LowPart(c));
    HighPartShifts(z);
    MulX4Parts(z);
  }

  // ----- eight bits ------------------------------------------------------------------------------------

  function LowHalf(c: bv8): bv8 {
    c & 0xF
  }

  function HighHalf(c: bv8): bv8 {
    c >> 4
  }

  lemma EightTop(w3: bv32, c: bv8)
    ensures XorW(ShrFourW(0, XorW(ShrFourW(0, w3), R4(LowHalf(c)))), R4(HighHalf(c))) == XorW(ShrEightW(0, w3), R8(c))
  {
    hide *;
    var a, b, d := ShrFourW(0, w3), R4(LowHalf(c)), R4(HighHalf(c));
    ShrFourXor(a, b);
    ShrFourTwice(w3);
    R8Split(c);
    XorWAssociates(ShrFourW(0, a), ShrFourW(0, b), d);
  }

  lemma ShrFourXor(a: bv32, b: bv32)
    ensures ShrFourW(0, XorW(a, b)) == XorW(ShrFourW(0, a), ShrFourW(0, b))
  {
  }

  lemma ShrFourTwice(w: bv32)
    ensures ShrFourW(0, ShrFourW(0, w)) == ShrEightW(0, w)
  {
  }

  lemma R8Split(c: bv8)
    ensures R8(c) == XorW(ShrFourW(0, R4(LowHalf(c))), R4(HighHalf(c)))
  {
    hide R8, R4;
    R8FromR4(c);
  }

  lemma EightWord(l: bv32, m: bv32, r: bv32)
    ensures ShrFourW(ShrFourW(l, m), ShrFourW(m, r)) == ShrEightW(m, r)
  {
  }

  lemma FoldedBitsStayOnTop(l: bv32, r: bv32, c: bv8)
    ensures ShrFourW(XorW(l, R4(c)), r) == ShrFourW(l, r)
  {
    R4IsHigh(c);
    hide R4;
  }

  lemma R4IsHigh(c: bv8)
    ensures R4(c) & 0xF == 0
  {
  }

  lemma EightNibbles(m: bv32, r: bv32)
    ensures LowNibble(ShrFourW(m, r)) == HighHalf(LowByte(r))
    ensures LowNibble(r) == LowHalf(LowByte(r))
  {
  }

  /** The byte table does two nibble steps at once. */
  lemma MulX8IsTwoNibbles(z: Elem)
    ensures MulX8(z) == MulX4(MulX4(z))
  {
    var c := LowByte(z.w0);
    EightNibbles(z.w1, z.w0);
    hide R4, R8, XorW, ShrFourW, ShrEightW, LowNibble, LowByte, LowHalf, HighHalf;
    EightTop(z.w3, c);
    FoldedBitsStayOnTop(ShrFourW(0, z.w3), ShrFourW(z.w3, z.w2), LowHalf(c));
    EightWord(0, z.w3, z.w2);
    EightWord(z.w3, z.w2, z.w1);
    EightWord(z.w2, z.w1, z.w0);
  }

  // ----- one step of the multiplication loop ---------------------------------------------------------

  lemma HornerOfNibble(bits: seq<bool>, y: Elem, z: Elem)
    requires |bits| == 4
    ensures Horner(bits, y, z) == Xor(Horner(bits, y, ZERO), MulX4(z))
  {
    hide MulX, MulX4, Xor, ZERO, Horner;
    HornerSplit(bits, y, z);
    MulX4IsFourShifts(z);
    IterateFour(MulX, z);
  }

  lemma HornerOfByte(bits: seq<bool>, y: Elem, z: Elem)
    requires |bits| == 8
    ensures Horner(bits, y, z) == Xor(Horner(bits, y, ZERO), MulX8(z))
  {
    hide MulX, MulX4, MulX8, Xor, ZERO, Horner;
    HornerSplit(bits, y, z);
    MulX8IsTwoNibbles(z);
    MulX4IsFourShifts(z);
    MulX4IsFourShifts(MulX4(z));
    IterateEight(MulX, z);
  }

  lemma NibbleTopWord(w: bv32, row: bv32, r: bv32)
    ensures ((w >> 4) ^ row) ^ r == XorW(row, XorW(ShrFourW(0, w), r))
  {
  }

  lemma NibbleWord(left: bv32, w: bv32, row: bv32)
    ensures ((w >> 4) | (left << 28)) ^ row == XorW(row, ShrFourW(left, w))
  {
  }

  lemma ByteTopWord(w: bv32, row: bv32, r: bv32)
    ensures ((w >> 8) ^ row) ^ r == XorW(row, XorW(ShrEightW(0, w), r))
  {
  }

  lemma ByteWord(left: bv32, w: bv32, row: bv32)
    ensures ((w >> 8) | (left << 24)) ^ row == XorW(row, ShrEightW(left, w))
  {
  }

  /** The words the nibble loop leaves are the table row plus the shifted value. */
  lemma NibbleWords(z: Elem, row: Elem)
    ensures Elem(((z.w3 >> 4) ^ row.w3) ^ R4(LowNibble(z.w0)),
                 ((z.w2 >> 4) | (z.w3 << 28)) ^ row.w2,
                 ((z.w1 >> 4) | (z.w2 << 28)) ^ row.w1,
                 ((z.w0 >> 4) | (z.w1 << 28)) ^ row.w0) == Xor(row, MulX4(z))
  {
    hide XorW, ShrFourW, R4, LowNibble;
    NibbleTopWord(z.w3, row.w3, R4(LowNibble(z.w0)));
    NibbleWord(z.w3, z.w2, row.w2);
    NibbleWord(z.w2, z.w1, row.w1);
    NibbleWord(z.w1, z.w0, row.w0);
  }

  lemma ByteWords(z: Elem, row: Elem)
    ensures Elem(((z.w3 >> 8) ^ row.w3) ^ R8(LowByte(z.w0)),
                 ((z.w2 >> 8) | (z.w3 << 24)) ^ row.w2,
                 ((z.w1 >> 8) | (z.w2 << 24)) ^ row.w1,
                 ((z.w0 >> 8) | (z.w1 << 24)) ^ row.w0) == Xor(row, MulX8(z))
  {
    hide XorW, ShrEightW, R8, LowByte;
    ByteTopWord(z.w3, row.w3, R8(LowByte(z.w0)));
    ByteWord(z.w3, z.w2, row.w2);
    ByteWord(z.w2, z.w1, row.w1);
    ByteWord(z.w1, z.w0, row.w0);
  }
}
