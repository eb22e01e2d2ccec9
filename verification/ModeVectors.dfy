/** Published examples of GCM and CCM, which fix what the code and its specification share. */
module ModeVectors {
  import opened Words
  import opened Folds
  import opened BlockOps
  import opened HexBlocks
  import opened Gf128
  import opened Gcm
  import GcmSpec
  import GcmField
  import CcmSpec

  // ----- which lengths are accepted ----------------------------------------------------------------------

  /** Appendix A.1 of NIST SP 800-38C. */
  lemma CcmLengths(nLen: nat, tLen: nat, length: nat)
    ensures CcmSpec.Accepts(nLen, tLen, length) <==>
      nLen in {7, 8, 9, 10, 11, 12, 13} && tLen in {4, 6, 8, 10, 12, 14, 16} && length < Pow256(15 - nLen)
  {
    hide Pow256;
  }

  /** Any IV but the empty one, and tags of four to sixteen bytes. */
  lemma GcmLengths(ivLen: nat, tLen: nat)
    ensures GcmSpec.Accepts(ivLen, tLen) <==> ivLen != 0 && tLen in {4, 5, 6, 7, 8, 9, 10, 11, 12, 13, 14, 15, 16}
  {
  }

  // ----- a product, byte by byte --------------------------------------------------------------------------

  /** Eight steps of Horner's rule. */
  function StepByte(b: bv8, y: Elem, acc: Elem): Elem {
    Select(b & 0x80 != 0, y, Select(b & 0x40 != 0, y, Select(b & 0x20 != 0, y, Select(b & 0x10 != 0, y,
    Select(b & 8 != 0, y, Select(b & 4 != 0, y, Select(b & 2 != 0, y, Select(b & 1 != 0, y, acc))))))))
  }

  lemma StepIsHorner(b: bv8, y: Elem, acc: Elem)
    ensures Horner(ByteBits(b), y, acc) == StepByte(b, y, acc)
  {
    var s := ByteBits(b);
    BitsOfByte(b);
    hide Horner, Select, ByteBits;
    GcmField.EightSelects(s, y, acc);
  }

  lemma BitsOfByte(b: bv8)
    ensures var s := ByteBits(b);
            && s[0] == (b & 0x80 != 0) && s[1] == (b & 0x40 != 0) && s[2] == (b & 0x20 != 0) && s[3] == (b & 0x10 != 0)
            && s[4] == (b & 8 != 0) && s[5] == (b & 4 != 0) && s[6] == (b & 2 != 0) && s[7] == (b & 1 != 0)
  {
  }

  /** One byte of a block further to the left. */
  lemma NextByte(x: seq<bv8>, i: nat, b: bv8, y: Elem, acc: Elem, r: Elem)
    requires i < |x| && x[i] == b && StepByte(b, y, acc) == r
    requires Horner(BlockBits(x[i + 1..]), y, ZERO) == acc
    ensures Horner(BlockBits(x[i..]), y, ZERO) == r
  {
    hide ByteBits, StepByte;
    StepIsHorner(b, y, acc);
    assert x[i..][1..] == x[i + 1..];
    HornerAppend(ByteBits(b), BlockBits(x[i + 1..]), y, ZERO);
    hide Horner;
  }

  lemma XorFour(a: bv128, b: bv128, shift: bv8)
    requires shift in {24, 56, 88, 120}
    ensures XorBytes(FourBytes(a, shift), FourBytes(b, shift)) == FourBytes(XorNumbers(a, b), shift)
  {
    hide ByteFrom, XorNumbers, XorByte;
    XorByteFrom(a, b, shift);
    XorByteFrom(a, b, shift - 8);
    XorByteFrom(a, b, shift - 16);
    XorByteFrom(a, b, shift - 24);
    XorAt(FourBytes(a, shift), FourBytes(b, shift), FourBytes(XorNumbers(a, b), shift));
  }

  lemma XorHexBytes(a: bv128, b: bv128)
    ensures XorBytes(HexBytes(a), HexBytes(b)) == HexBytes(XorNumbers(a, b))
  {
    hide FourBytes, XorBytes, XorNumbers;
    XorFour(a, b, 120);
    XorFour(a, b, 88);
    XorFour(a, b, 56);
    XorFour(a, b, 24);
    XorBytesAppend(FourBytes(a, 120), FourBytes(a, 88), FourBytes(b, 120), FourBytes(b, 88));
    XorBytesAppend(FourBytes(a, 120) + FourBytes(a, 88), FourBytes(a, 56), FourBytes(b, 120) + FourBytes(b, 88),
          FourBytes(b, 56));
    XorBytesAppend(FourBytes(a, 120) + FourBytes(a, 88) + FourBytes(a, 56), FourBytes(a, 24),
                   FourBytes(b, 120) + FourBytes(b, 88) + FourBytes(b, 56), FourBytes(b, 24));
  }

  lemma XorAt(x: seq<bv8>, y: seq<bv8>, z: seq<bv8>)
    requires |x| == |y| == |z| && forall i :: 0 <= i < |x| ==> z[i] == XorByte(x[i], y[i])
    ensures XorBytes(x, y) == z
  {
  }

  // ----- GCM: test case 2 of the submission of GCM to NIST ------------------------------------------------

  lemma FirstProduct15(x: Block)
    requires x == HexBytes(0x0388DACE60B6A392F328C2B971B2FE78)
    ensures Horner(BlockBits(x[15..]), Elem(0x66E94BD4, 0xEF8A2C3B, 0x884CFA59, 0xCA342B2E), ZERO)
         == Elem(0xF93D4AD8, 0x9F2E7A57, 0xEFB81354, 0x3272D88B)
  {
    NoBits(x, Elem(0x66E94BD4, 0xEF8A2C3B, 0x884CFA59, 0xCA342B2E));
    hide Horner, BlockBits;
    var h := Elem(0x66E94BD4, 0xEF8A2C3B, 0x884CFA59, 0xCA342B2E);
    NextByte(x, 15, 0x78, h, ZERO, Elem(0xF93D4AD8, 0x9F2E7A57, 0xEFB81354, 0x3272D88B));
  }

  lemma FirstProduct13(x: Block)
    requires x == HexBytes(0x0388DACE60B6A392F328C2B971B2FE78)
    ensures Horner(BlockBits(x[13..]), Elem(0x66E94BD4, 0xEF8A2C3B, 0x884CFA59, 0xCA342B2E), ZERO)
         == Elem(0x261AD2A7, 0x2D7B3303, 0x32751068, 0xC3D279DC)
  {
    FirstProduct15(x);
    hide Horner, BlockBits;
    var h := Elem(0x66E94BD4, 0xEF8A2C3B, 0x884CFA59, 0xCA342B2E);
    NextByte(x, 14, 0xFE, h, Elem(0xF93D4AD8, 0x9F2E7A57, 0xEFB81354, 0x3272D88B), Elem(0xEF47D337, 0x5CF901C7,
          0x02780525, 0x050DF088));
    NextByte(x, 13, 0xB2, h, Elem(0xEF47D337, 0x5CF901C7, 0x02780525, 0x050DF088), Elem(0x261AD2A7, 0x2D7B3303,
          0x32751068, 0xC3D279DC));
  }

  lemma FirstProduct11(x: Block)
    requires x == HexBytes(0x0388DACE60B6A392F328C2B971B2FE78)
    ensures Horner(BlockBits(x[11..]), Elem(0x66E94BD4, 0xEF8A2C3B, 0x884CFA59, 0xCA342B2E), ZERO)
         == Elem(0xD1CE0E67, 0x8E61709E, 0x2BE113E5, 0xBBBD0844)
  {
    FirstProduct13(x);
    hide Horner, BlockBits;
    var h := Elem(0x66E94BD4, 0xEF8A2C3B, 0x884CFA59, 0xCA342B2E);
    NextByte(x, 12, 0x71, h, Elem(0x261AD2A7, 0x2D7B3303, 0x32751068, 0xC3D279DC), Elem(0xB7781620, 0xDF24B7FF,
          0x231E3015, 0x75862016));
    NextByte(x, 11, 0xB9, h, Elem(0xB7781620, 0xDF24B7FF, 0x231E3015, 0x75862016), Elem(0xD1CE0E67, 0x8E61709E,
          0x2BE113E5, 0xBBBD0844));
  }

  lemma FirstProduct9(x: Block)
    requires x == HexBytes(0x0388DACE60B6A392F328C2B971B2FE78)
    ensures Horner(BlockBits(x[9..]), Elem(0x66E94BD4, 0xEF8A2C3B, 0x884CFA59, 0xCA342B2E), ZERO)
         == Elem(0x4306E9CD, 0x6AB656BE, 0xBCAB9166, 0x6183F52A)
  {
    FirstProduct11(x);
    hide Horner, BlockBits;
    var h := Elem(0x66E94BD4, 0xEF8A2C3B, 0x884CFA59, 0xCA342B2E);
    NextByte(x, 10, 0xC2, h, Elem(0xD1CE0E67, 0x8E61709E, 0x2BE113E5, 0xBBBD0844), Elem(0xE82F851F, 0xAC7F73E6,
          0x3C60558F, 0xADBD531D));
    NextByte(x, 9, 0x28, h, Elem(0xE82F851F, 0xAC7F73E6, 0x3C60558F, 0xADBD531D), Elem(0x4306E9CD, 0x6AB656BE,
          0xBCAB9166, 0x6183F52A));
  }

  lemma FirstProduct7(x: Block)
    requires x == HexBytes(0x0388DACE60B6A392F328C2B971B2FE78)
    ensures Horner(BlockBits(x[7..]), Elem(0x66E94BD4, 0xEF8A2C3B, 0x884CFA59, 0xCA342B2E), ZERO)
         == Elem(0x23C5B465, 0xC1CC1672, 0x069CABDC, 0xB08C466D)
  {
    FirstProduct9(x);
    hide Horner, BlockBits;
    var h := Elem(0x66E94BD4, 0xEF8A2C3B, 0x884CFA59, 0xCA342B2E);
    NextByte(x, 8, 0xF3, h, Elem(0x4306E9CD, 0x6AB656BE, 0xBCAB9166, 0x6183F52A), Elem(0xAA73E4E0, 0x09577E11,
          0xF8FD2724, 0xD6388A18));
    NextByte(x, 7, 0x92, h, Elem(0xAA73E4E0, 0x09577E11, 0xF8FD2724, 0xD6388A18), Elem(0x23C5B465, 0xC1CC1672,
          0x069CABDC, 0xB08C466D));
  }

  lemma FirstProduct5(x: Block)
    requires x == HexBytes(0x0388DACE60B6A392F328C2B971B2FE78)
    ensures Horner(BlockBits(x[5..]), Elem(0x66E94BD4, 0xEF8A2C3B, 0x884CFA59, 0xCA342B2E), ZERO)
         == Elem(0xFD312B81, 0x90105334, 0xE2B4674D, 0x51366060)
  {
    FirstProduct7(x);
    hide Horner, BlockBits;
    var h := Elem(0x66E94BD4, 0xEF8A2C3B, 0x884CFA59, 0xCA342B2E);
    NextByte(x, 6, 0xA3, h, Elem(0x23C5B465, 0xC1CC1672, 0x069CABDC, 0xB08C466D), Elem(0x71F4AB2D, 0x4BC857CB,
          0x8168F279, 0xB0B51559));
    NextByte(x, 5, 0xB6, h, Elem(0x71F4AB2D, 0x4BC857CB, 0x8168F279, 0xB0B51559), Elem(0xFD312B81, 0x90105334,
          0xE2B4674D, 0x51366060));
  }

  lemma FirstProduct3(x: Block)
    requires x == HexBytes(0x0388DACE60B6A392F328C2B971B2FE78)
    ensures Horner(BlockBits(x[3..]), Elem(0x66E94BD4, 0xEF8A2C3B, 0x884CFA59, 0xCA342B2E), ZERO)
         == Elem(0x4AF46634, 0x16B856B9, 0x869FCB1C, 0xC72ECBD7)
  {
    FirstProduct5(x);
    hide Horner, BlockBits;
    var h := Elem(0x66E94BD4, 0xEF8A2C3B, 0x884CFA59, 0xCA342B2E);
    NextByte(x, 4, 0x60, h, Elem(0xFD312B81, 0x90105334, 0xE2B4674D, 0x51366060), Elem(0x83F3C634, 0xCDB78D40,
          0x12D7F7DD, 0xDAC6293C));
    NextByte(x, 3, 0xCE, h, Elem(0x83F3C634, 0xCDB78D40, 0x12D7F7DD, 0xDAC6293C), Elem(0x4AF46634, 0x16B856B9,
          0x869FCB1C, 0xC72ECBD7));
  }

  lemma FirstProduct1(x: Block)
    requires x == HexBytes(0x0388DACE60B6A392F328C2B971B2FE78)
    ensures Horner(BlockBits(x[1..]), Elem(0x66E94BD4, 0xEF8A2C3B, 0x884CFA59, 0xCA342B2E), ZERO)
         == Elem(0xC6B0FE6B, 0x115E60B5, 0xB41A7587, 0xEF664D9B)
  {
    FirstProduct3(x);
    hide Horner, BlockBits;
    var h := Elem(0x66E94BD4, 0xEF8A2C3B, 0x884CFA59, 0xCA342B2E);
    NextByte(x, 2, 0xDA, h, Elem(0x4AF46634, 0x16B856B9, 0x869FCB1C, 0xC72ECBD7), Elem(0x252102B0, 0x2CEE4D84,
          0xD2407BB9, 0xF1240709));
    NextByte(x, 1, 0x88, h, Elem(0x252102B0, 0x2CEE4D84, 0xD2407BB9, 0xF1240709), Elem(0xC6B0FE6B, 0x115E60B5,
          0xB41A7587, 0xEF664D9B));
  }

  lemma FirstProduct0(x: Block)
    requires x == HexBytes(0x0388DACE60B6A392F328C2B971B2FE78)
    ensures Horner(BlockBits(x[0..]), Elem(0x66E94BD4, 0xEF8A2C3B, 0x884CFA59, 0xCA342B2E), ZERO)
         == Elem(0x5E2EC746, 0x91706288, 0x2C85B068, 0x5353DEB7)
  {
    FirstProduct1(x);
    hide Horner, BlockBits;
    var h := Elem(0x66E94BD4, 0xEF8A2C3B, 0x884CFA59, 0xCA342B2E);
    NextByte(x, 0, 0x03, h, Elem(0xC6B0FE6B, 0x115E60B5, 0xB41A7587, 0xEF664D9B), Elem(0x5E2EC746, 0x91706288,
          0x2C85B068, 0x5353DEB7));
  }

  lemma SecondProduct15(x: Block)
    requires x == HexBytes(0x5E2EC746917062882C85B0685353DE37)
    ensures Horner(BlockBits(x[15..]), Elem(0x66E94BD4, 0xEF8A2C3B, 0x884CFA59, 0xCA342B2E), ZERO)
         == Elem(0x9DAE4669, 0xFB0EA300, 0xD6696C12, 0x5126960D)
  {
    NoBits(x, Elem(0x66E94BD4, 0xEF8A2C3B, 0x884CFA59, 0xCA342B2E));
    hide Horner, BlockBits;
    var h := Elem(0x66E94BD4, 0xEF8A2C3B, 0x884CFA59, 0xCA342B2E);
    NextByte(x, 15, 0x37, h, ZERO, Elem(0x9DAE4669, 0xFB0EA300, 0xD6696C12, 0x5126960D));
  }

  lemma SecondProduct13(x: Block)
    requires x == HexBytes(0x5E2EC746917062882C85B0685353DE37)
    ensures Horner(BlockBits(x[13..]), Elem(0x66E94BD4, 0xEF8A2C3B, 0x884CFA59, 0xCA342B2E), ZERO)
         == Elem(0x099FEE3A, 0xDE8310D8, 0x3CA91A90, 0xC4D1CBA6)
  {
    SecondProduct15(x);
    hide Horner, BlockBits;
    var h := Elem(0x66E94BD4, 0xEF8A2C3B, 0x884CFA59, 0xCA342B2E);
    NextByte(x, 14, 0xDE, h, Elem(0x9DAE4669, 0xFB0EA300, 0xD6696C12, 0x5126960D), Elem(0xF21512CE, 0xD67FAA10,
          0xB752EACC, 0x31E3AE0D));
    NextByte(x, 13, 0x53, h, Elem(0xF21512CE, 0xD67FAA10, 0xB752EACC, 0x31E3AE0D), Elem(0x099FEE3A, 0xDE8310D8,
          0x3CA91A90, 0xC4D1CBA6));
  }

  lemma SecondProduct11(x: Block)
    requires x == HexBytes(0x5E2EC746917062882C85B0685353DE37)
    ensures Horner(BlockBits(x[11..]), Elem(0x66E94BD4, 0xEF8A2C3B, 0x884CFA59, 0xCA342B2E), ZERO)
         == Elem(0xF77A11C6, 0xC4F5B43C, 0xFC45AEFE, 0x6BAC7917)
  {
    SecondProduct13(x);
    hide Horner, BlockBits;
    var h := Elem(0x66E94BD4, 0xEF8A2C3B, 0x884CFA59, 0xCA342B2E);
    NextByte(x, 12, 0x53, h, Elem(0x099FEE3A, 0xDE8310D8, 0x3CA91A90, 0xC4D1CBA6), Elem(0xDC7264C6, 0x2A8BEC62,
          0xF422E160, 0x9824F9C3));
    NextByte(x, 11, 0x68, h, Elem(0xDC7264C6, 0x2A8BEC62, 0xF422E160, 0x9824F9C3), Elem(0xF77A11C6, 0xC4F5B43C,
          0xFC45AEFE, 0x6BAC7917));
  }

  lemma SecondProduct9(x: Block)
    requires x == HexBytes(0x5E2EC746917062882C85B0685353DE37)
    ensures Horner(BlockBits(x[9..]), Elem(0x66E94BD4, 0xEF8A2C3B, 0x884CFA59, 0xCA342B2E), ZERO)
         == Elem(0xEE634457, 0xABA63415, 0x2539AE61, 0x9D8E7629)
  {
    SecondProduct11(x);
    hide Horner, BlockBits;
    var h := Elem(0x66E94BD4, 0xEF8A2C3B, 0x884CFA59, 0xCA342B2E);
    NextByte(x, 10, 0xB0, h, Elem(0xF77A11C6, 0xC4F5B43C, 0xFC45AEFE, 0x6BAC7917), Elem(0x1A974A4A, 0x8F5D1706,
          0x27AA1E2A, 0x7F9408F9));
    NextByte(x, 9, 0x85, h, Elem(0x1A974A4A, 0x8F5D1706, 0x27AA1E2A, 0x7F9408F9), Elem(0xEE634457, 0xABA63415,
          0x2539AE61, 0x9D8E7629));
  }

  lemma SecondProduct7(x: Block)
    requires x == HexBytes(0x5E2EC746917062882C85B0685353DE37)
    ensures Horner(BlockBits(x[7..]), Elem(0x66E94BD4, 0xEF8A2C3B, 0x884CFA59, 0xCA342B2E), ZERO)
         == Elem(0xA15C6086, 0xF3F74326, 0xA85BC553, 0x19D68BFB)
  {
    SecondProduct9(x);
    hide Horner, BlockBits;
    var h := Elem(0x66E94BD4, 0xEF8A2C3B, 0x884CFA59, 0xCA342B2E);
    NextByte(x, 8, 0x2C, h, Elem(0xEE634457, 0xABA63415, 0x2539AE61, 0x9D8E7629), Elem(0x37BFEF52, 0x85CDDE98,
          0x93F0AF4F, 0x41E26756));
    NextByte(x, 7, 0x88, h, Elem(0x37BFEF52, 0x85CDDE98, 0x93F0AF4F, 0x41E26756), Elem(0xA15C6086, 0xF3F74326,
          0xA85BC553, 0x19D68BFB));
  }

  lemma SecondProduct5(x: Block)
    requires x == HexBytes(0x5E2EC746917062882C85B0685353DE37)
    ensures Horner(BlockBits(x[5..]), Elem(0x66E94BD4, 0xEF8A2C3B, 0x884CFA59, 0xCA342B2E), ZERO)
         == Elem(0x0E9DEC6B, 0x814FB2D6, 0xB7D260DA, 0x38723C20)
  {
    SecondProduct7(x);
    hide Horner, BlockBits;
    var h := Elem(0x66E94BD4, 0xEF8A2C3B, 0x884CFA59, 0xCA342B2E);
    NextByte(x, 6, 0x62, h, Elem(0xA15C6086, 0xF3F74326, 0xA85BC553, 0x19D68BFB), Elem(0xB8320E50, 0x996A42E0,
          0xEEBC2B96, 0xA3A6197B));
    NextByte(x, 5, 0x70, h, Elem(0xB8320E50, 0x996A42E0, 0xEEBC2B96, 0xA3A6197B), Elem(0x0E9DEC6B, 0x814FB2D6,
          0xB7D260DA, 0x38723C20));
  }

  lemma SecondProduct3(x: Block)
    requires x == HexBytes(0x5E2EC746917062882C85B0685353DE37)
    ensures Horner(BlockBits(x[3..]), Elem(0x66E94BD4, 0xEF8A2C3B, 0x884CFA59, 0xCA342B2E), ZERO)
         == Elem(0x976CC5B6, 0x56B74AFE, 0xA01DCB39, 0xCAF9BAD6)
  {
    SecondProduct5(x);
    hide Horner, BlockBits;
    var h := Elem(0x66E94BD4, 0xEF8A2C3B, 0x884CFA59, 0xCA342B2E);
    NextByte(x, 4, 0x91, h, Elem(0x0E9DEC6B, 0x814FB2D6, 0xB7D260DA, 0x38723C20), Elem(0xA68F2DD5, 0xB0253256,
          0x58E22E86, 0x9ADEB421));
    NextByte(x, 3, 0x46, h, Elem(0xA68F2DD5, 0xB0253256, 0x58E22E86, 0x9ADEB421), Elem(0x976CC5B6, 0x56B74AFE,
          0xA01DCB39, 0xCAF9BAD6));
  }

  lemma SecondProduct1(x: Block)
    requires x == HexBytes(0x5E2EC746917062882C85B0685353DE37)
    ensures Horner(BlockBits(x[1..]), Elem(0x66E94BD4, 0xEF8A2C3B, 0x884CFA59, 0xCA342B2E), ZERO)
         == Elem(0x134C4686, 0x9CAB54FC, 0x8D031C5F, 0x365B3052)
  {
    SecondProduct3(x);
    hide Horner, BlockBits;
    var h := Elem(0x66E94BD4, 0xEF8A2C3B, 0x884CFA59, 0xCA342B2E);
    NextByte(x, 2, 0xC7, h, Elem(0x976CC5B6, 0x56B74AFE, 0xA01DCB39, 0xCAF9BAD6), Elem(0x246FBF1D, 0x7304E0E5,
          0xF7B95771, 0x0C09DEA0));
    NextByte(x, 1, 0x2E, h, Elem(0x246FBF1D, 0x7304E0E5, 0xF7B95771, 0x0C09DEA0), Elem(0x134C4686, 0x9CAB54FC,
          0x8D031C5F, 0x365B3052));
  }

  lemma SecondProduct0(x: Block)
    requires x == HexBytes(0x5E2EC746917062882C85B0685353DE37)
    ensures Horner(BlockBits(x[0..]), Elem(0x66E94BD4, 0xEF8A2C3B, 0x884CFA59, 0xCA342B2E), ZERO)
         == Elem(0xF38CBB1A, 0xD69223DC, 0xC3457AE5, 0xB6B0F885)
  {
    SecondProduct1(x);
    hide Horner, BlockBits;
    var h := Elem(0x66E94BD4, 0xEF8A2C3B, 0x884CFA59, 0xCA342B2E);
    NextByte(x, 0, 0x5E, h, Elem(0x134C4686, 0x9CAB54FC, 0x8D031C5F, 0x365B3052), Elem(0xF38CBB1A, 0xD69223DC,
          0xC3457AE5, 0xB6B0F885));
  }

  lemma NoBits(x: Block, y: Elem)
    ensures Horner(BlockBits(x[16..]), y, ZERO) == ZERO
  {
    assert x[16..] == [];
  }

  lemma FirstProduct()
    ensures BlockProduct(HexBytes(0x0388DACE60B6A392F328C2B971B2FE78), Elem(0x66E94BD4, 0xEF8A2C3B, 0x884CFA59,
          0xCA342B2E))
         == HexBytes(0x5E2EC746917062882C85B0685353DEB7)
  {
    var x := HexBytes(0x0388DACE60B6A392F328C2B971B2FE78);
    FirstProduct0(x);
    assert x[0..] == x;
    ProductIsHorner(BlockBits(x), Elem(0x66E94BD4, 0xEF8A2C3B, 0x884CFA59, 0xCA342B2E));
    hide Horner, BlockBits, Product;
    FirstResult();
  }

  lemma FirstResult()
    ensures FromElem(Elem(0x5E2EC746, 0x91706288, 0x2C85B068, 0x5353DEB7)) == HexBytes(0x5E2EC746917062882C85B0685353DEB7)
  {
  }

  lemma SecondProduct()
    ensures BlockProduct(HexBytes(0x5E2EC746917062882C85B0685353DE37), Elem(0x66E94BD4, 0xEF8A2C3B, 0x884CFA59,
          0xCA342B2E))
         == HexBytes(0xF38CBB1AD69223DCC3457AE5B6B0F885)
  {
    var x := HexBytes(0x5E2EC746917062882C85B0685353DE37);
    SecondProduct0(x);
    assert x[0..] == x;
    ProductIsHorner(BlockBits(x), Elem(0x66E94BD4, 0xEF8A2C3B, 0x884CFA59, 0xCA342B2E));
    hide Horner, BlockBits, Product;
    SecondResult();
  }

  lemma SecondResult()
    ensures FromElem(Elem(0xF38CBB1A, 0xD69223DC, 0xC3457AE5, 0xB6B0F885)) == HexBytes(0xF38CBB1AD69223DCC3457AE5B6B0F885)
  {
  }

  lemma GcmBlocks()
    ensures GcmSpec.Inc32(HexBytes(0x00000000000000000000000000000001)) == HexBytes(0x00000000000000000000000000000002)
    ensures Repeat(0, 12) + [0, 0, 0, 1] == HexBytes(0x00000000000000000000000000000001)
    ensures ToElem(HexBytes(0x66E94BD4EF8A2C3B884CFA59CA342B2E)) == Elem(0x66E94BD4, 0xEF8A2C3B, 0x884CFA59, 0xCA342B2E)
    ensures XorBytes(ZeroBlock(), HexBytes(0x0388DACE60B6A392F328C2B971B2FE78))
          == HexBytes(0x0388DACE60B6A392F328C2B971B2FE78)
    ensures XorBytes(HexBytes(0x5E2EC746917062882C85B0685353DEB7), Repeat(0, 15) + [0x80])
         == HexBytes(0x5E2EC746917062882C85B0685353DE37)
  {
    ZeroHex();
    CounterOfBlocks();
    hide XorBytes, HexBytes, GcmSpec.Inc32, ToElem;
    XorHexBytes(0, 0x0388DACE60B6A392F328C2B971B2FE78);
    XorHexBytes(0x5E2EC746917062882C85B0685353DEB7, 0x80);
  }

  lemma CounterOfBlocks()
    ensures GcmSpec.Inc32(HexBytes(0x00000000000000000000000000000001)) == HexBytes(0x00000000000000000000000000000002)
    ensures Repeat(0, 12) + [0, 0, 0, 1] == HexBytes(0x00000000000000000000000000000001)
    ensures ToElem(HexBytes(0x66E94BD4EF8A2C3B884CFA59CA342B2E)) == Elem(0x66E94BD4, 0xEF8A2C3B, 0x884CFA59, 0xCA342B2E)
  {
  }

  lemma GcmMasks()
    ensures XorBytes(Repeat(0, 16), HexBytes(0x0388DACE60B6A392F328C2B971B2FE78))
          == HexBytes(0x0388DACE60B6A392F328C2B971B2FE78)
    ensures XorBytes(HexBytes(0xF38CBB1AD69223DCC3457AE5B6B0F885), HexBytes(0x58E2FCCEFA7E3061367F1D57A4E7455A))
         == HexBytes(0xAB6E47D42CEC13BDF53A67B21257BDDF)
  {
    ZeroHex();
    hide XorBytes, HexBytes;
    XorHexBytes(0, 0x0388DACE60B6A392F328C2B971B2FE78);
    XorHexBytes(0xF38CBB1AD69223DCC3457AE5B6B0F885, 0x58E2FCCEFA7E3061367F1D57A4E7455A);
  }

  lemma ZeroHex()
    ensures HexBytes(0) == Repeat(0, 16) && ZeroBlock() == Repeat(0, 16)
    ensures HexBytes(0x80) == Repeat(0, 15) + [0x80]
  {
  }

  /**
   * One block of zeros under the key of zeros: for a block cipher with the three values that AES has
   * there, the ciphertext and the tag of the example.
   */
  lemma GcmExample(e: Cipher)
    requires e(ZeroBlock()) == HexBytes(0x66E94BD4EF8A2C3B884CFA59CA342B2E)
    requires e(HexBytes(0x00000000000000000000000000000001)) == HexBytes(0x58E2FCCEFA7E3061367F1D57A4E7455A)
    requires e(HexBytes(0x00000000000000000000000000000002)) == HexBytes(0x0388DACE60B6A392F328C2B971B2FE78)
    ensures GcmSpec.Ciphertext(e, Repeat(0, 12), Repeat(0, 16)) == HexBytes(0x0388DACE60B6A392F328C2B971B2FE78)
    ensures GcmSpec.Tag(e, Repeat(0, 12), [], HexBytes(0x0388DACE60B6A392F328C2B971B2FE78), 16)
         == HexBytes(0xAB6E47D42CEC13BDF53A67B21257BDDF)
  {
    GcmBlocks();
    GcmMasks();
    FirstProduct();
    SecondProduct();
    hide HexBytes, Repeat, XorBytes, ToElem, BlockProduct, GcmSpec.Tag, GcmSpec.Ciphertext, GcmSpec.LengthBlock,
          ZeroBlock, GcmSpec.Inc32;
    OneBlockCiphertext(e, Repeat(0, 12), Repeat(0, 16), HexBytes(0x00000000000000000000000000000001));
    GcmField.KnownLengthBlock();
    OneBlockTag(e, Repeat(0, 12), HexBytes(0x0388DACE60B6A392F328C2B971B2FE78),
          HexBytes(0x00000000000000000000000000000001));
  }

  lemma OneBlock(c: Block)
    ensures Blocks(c) == [c] && Blocks([]) == []
  {
    NoBlocks();
    BlocksCons(c);
    assert c[16..] == [] && c[..16] == c && Pad(c) == c;
    hide Blocks, Pad;
  }

  lemma OneBlockCiphertext(e: Cipher, iv: seq<bv8>, p: Block, j: Block)
    requires |iv| == 12 && j == iv + [0, 0, 0, 1]
    ensures GcmSpec.Ciphertext(e, iv, p) == XorBytes(p, e(GcmSpec.Inc32(j)))
  {
    hide GcmSpec.Inc32, XorBytes;
    assert p[..16] == p && p[16..] == [];
  }

  /** GHASH of one block and the length block. */
  function OneBlockHash(h: Elem, c: Block): Block {
    BlockProduct(XorBytes(BlockProduct(XorBytes(ZeroBlock(), c), h), GcmSpec.LengthBlock(0, 128)), h)
  }

  lemma OneBlockAuth(e: Cipher, c: Block)
    ensures GcmSpec.AuthBlock(e, [], c) == OneBlockHash(ToElem(e(ZeroBlock())), c)
  {
    hide ToElem, BlockProduct, XorBytes, ZeroBlock, GcmSpec.LengthBlock, Blocks;
    OneBlock(c);
    var h, l := ToElem(e(ZeroBlock())), GcmSpec.LengthBlock(0, 128);
    assert GcmSpec.HashInput([], c) == [c, l];
    FoldTwo(GcmSpec.GhashStep(h), ZeroBlock(), c, l);
  }

  lemma OneBlockTag(e: Cipher, iv: seq<bv8>, c: Block, j: Block)
    requires |iv| == 12 && j == iv + [0, 0, 0, 1]
    ensures GcmSpec.Tag(e, iv, [], c, 16) == XorBytes(OneBlockHash(ToElem(e(ZeroBlock())), c), e(j))
  {
    hide ToElem, OneBlockHash, XorBytes, ZeroBlock, GcmSpec.AuthBlock;
    OneBlockAuth(e, c);
    var s := GcmSpec.AuthBlock(e, [], c);
    assert s[..16] == s;
  }

  // ----- CCM: example 2 of NIST SP 800-38C ------------------------------------------------------------------

  lemma ExampleNonce()
    ensures HexBytes(0x10111213141516170000000000000000)[..8] == [0x10, 0x11, 0x12, 0x13, 0x14, 0x15, 0x16, 0x17]
  {
  }

  lemma FirstBlock()
    ensures CcmSpec.Block0(HexBytes(0x10111213141516170000000000000000)[..8], 16, 6, 16)
          == HexBytes(0x56101112131415161700000000000010)
  {
    ExampleNonce();
    SixteenBytes(7);
    assert CcmSpec.Flags(true, 6, 7) == 0x56;
    hide BigEndian, CcmSpec.Flags;
  }

  lemma DataBytes()
    ensures CcmSpec.StoredLength(16) + HexBytes(0x000102030405060708090A0B0C0D0E0F) + Repeat(0, 14)
         == HexBytes(0x0010000102030405060708090A0B0C0D) + HexBytes(0x0E0F0000000000000000000000000000)
  {
    StoredSixteen();
    hide CcmSpec.StoredLength;
  }

  lemma StoredSixteen()
    ensures CcmSpec.StoredLength(16) == [0, 16]
  {
    SixteenBytes(2);
    hide BigEndian;
  }

  lemma OneByte(w: nat)
    requires w >= 1
    ensures BigEndian(1, w) == Repeat(0, w - 1) + [1]
  {
    GcmField.SmallBigEndian(1, w);
    hide BigEndian;
  }

  lemma SixteenBytes(w: nat)
    requires w >= 1
    ensures BigEndian(16, w) == Repeat(0, w - 1) + [0x10]
  {
    GcmField.SmallBigEndian(16, w);
    hide BigEndian;
  }

  lemma CounterBlocks()
    ensures CcmSpec.Counter(HexBytes(0x10111213141516170000000000000000)[..8], 0)
          == HexBytes(0x06101112131415161700000000000000)
  {
    ExampleNonce();
    GcmField.ZeroBigEndian(7);
    hide BigEndian;
  }

  lemma FirstCounterBlock()
    ensures CcmSpec.Counter(HexBytes(0x10111213141516170000000000000000)[..8], 1)
          == HexBytes(0x06101112131415161700000000000001)
  {
    ExampleNonce();
    OneByte(7);
    hide BigEndian;
  }

  lemma CcmChain()
    ensures XorBytes(HexBytes(0x14DF069CABD1BCDAB1FC1B762CA942CA), HexBytes(0x0010000102030405060708090A0B0C0D))
         == HexBytes(0x14CF069DA9D2B8DFB7FB137F26A24EC7)
    ensures XorBytes(HexBytes(0x46CFDF4B2B2B0FF941F67E310699D812), HexBytes(0x0E0F0000000000000000000000000000))
         == HexBytes(0x48C0DF4B2B2B0FF941F67E310699D812)
    ensures XorBytes(HexBytes(0x8E3A02185B01A7A1CCB79832A65E188A), HexBytes(0x202122232425262728292A2B2C2D2E2F))
         == HexBytes(0xAE1B203B7F248186E49EB2198A7336A5)
    ensures XorBytes(HexBytes(0x202122232425262728292A2B2C2D2E2F), HexBytes(0xF280D2C375CF794520335DB92B107712))
         == HexBytes(0xD2A1F0E051EA5F62081A7792073D593D)
    ensures XorBytes(HexBytes(0x6081D04308A97DCC20CDCC60BF947B78), HexBytes(0x7F479FFCA464322BFE2D4F45A8D8BA24))
         == HexBytes(0x1FC64FBFACCD4FE7DEE08325174CC15C)
  {
    hide XorBytes, HexBytes;
    XorHexBytes(0x14DF069CABD1BCDAB1FC1B762CA942CA, 0x0010000102030405060708090A0B0C0D);
    XorHexBytes(0x46CFDF4B2B2B0FF941F67E310699D812, 0x0E0F0000000000000000000000000000);
    XorHexBytes(0x8E3A02185B01A7A1CCB79832A65E188A, 0x202122232425262728292A2B2C2D2E2F);
    XorHexBytes(0x202122232425262728292A2B2C2D2E2F, 0xF280D2C375CF794520335DB92B107712);
    XorHexBytes(0x6081D04308A97DCC20CDCC60BF947B78, 0x7F479FFCA464322BFE2D4F45A8D8BA24);
  }

  lemma CcmTag()
    ensures XorBytes(HexBytes(0x6081D04308A97DCC20CDCC60BF947B78)[..6], HexBytes(0x7F479FFCA464322BFE2D4F45A8D8BA24)[..6])
         == HexBytes(0x1FC64FBFACCD00000000000000000000)[..6]
  {
    CcmChain();
    XorPrefix(HexBytes(0x6081D04308A97DCC20CDCC60BF947B78), HexBytes(0x7F479FFCA464322BFE2D4F45A8D8BA24), 6);
    hide XorBytes;
  }

  lemma XorPrefix(a: seq<bv8>, b: seq<bv8>, n: nat)
    requires |a| == |b| && n <= |a|
    ensures XorBytes(a[..n], b[..n]) == XorBytes(a, b)[..n]
  {
  }

  /** For a block cipher with the values that AES has there, the ciphertext and the tag of the example. */
  lemma CcmExample(e: Cipher)
    requires e(HexBytes(0x56101112131415161700000000000010)) == HexBytes(0x14DF069CABD1BCDAB1FC1B762CA942CA)
    requires e(HexBytes(0x14CF069DA9D2B8DFB7FB137F26A24EC7)) == HexBytes(0x46CFDF4B2B2B0FF941F67E310699D812)
    requires e(HexBytes(0x48C0DF4B2B2B0FF941F67E310699D812)) == HexBytes(0x8E3A02185B01A7A1CCB79832A65E188A)
    requires e(HexBytes(0xAE1B203B7F248186E49EB2198A7336A5)) == HexBytes(0x7F479FFCA464322BFE2D4F45A8D8BA24)
    requires e(HexBytes(0x06101112131415161700000000000000)) == HexBytes(0x6081D04308A97DCC20CDCC60BF947B78)
    requires e(HexBytes(0x06101112131415161700000000000001)) == HexBytes(0xF280D2C375CF794520335DB92B107712)
    ensures var n, a, p := HexBytes(0x10111213141516170000000000000000)[..8],
          HexBytes(0x000102030405060708090A0B0C0D0E0F),
                           HexBytes(0x202122232425262728292A2B2C2D2E2F);
            && CcmSpec.Ciphertext(e, n, p) == HexBytes(0xD2A1F0E051EA5F62081A7792073D593D)
            && CcmSpec.TagWith(e, CcmSpec.StoredLength(16), n, a, p, 6)
                  == HexBytes(0x1FC64FBFACCD00000000000000000000)[..6]
  {
    FirstBlock();
    DataBytes();
    CounterBlocks();
    FirstCounterBlock();
    CcmChain();
    CcmTag();
    hide HexBytes, XorBytes, CcmSpec.Block0, CcmSpec.StoredLength, CcmSpec.Counter, CcmSpec.TagWith,
          CcmSpec.Ciphertext, Repeat;
    var n, a, p := HexBytes(0x10111213141516170000000000000000)[..8], HexBytes(0x000102030405060708090A0B0C0D0E0F),
                   HexBytes(0x202122232425262728292A2B2C2D2E2F);
    OneBlockStream(e, n, p);
    ShortTag(e, n, a, p, HexBytes(0x0010000102030405060708090A0B0C0D), HexBytes(0x0E0F0000000000000000000000000000));
  }

  lemma OneBlockStream(e: Cipher, n: seq<bv8>, p: Block)
    requires |n| == 8
    ensures CcmSpec.Ciphertext(e, n, p) == XorBytes(p, e(CcmSpec.Counter(n, 1)))
  {
    hide CcmSpec.Counter, XorBytes;
    assert p[..16] == p && p[16..] == [];
  }

  /** Sixteen bytes of additional data behind their length make two blocks. */
  lemma TwoBlocks(l: seq<bv8>, a: seq<bv8>, x: Block, y: Block)
    requires |l| == 2 && |a| == 16 && l + a + Repeat(0, 14) == x + y
    ensures Blocks(l + a) == [x, y]
  {
    var s := l + a;
    BlocksCons(s);
    assert Pad(s) == s + Repeat(0, 14);
    SplitCons(Pad(s));
    SplitCons(Pad(s)[16..]);
    assert (x + y)[..16] == x && (x + y)[16..] == y && y[..16] == y && y[16..] == [];
    hide Pad;
  }

  lemma ShortTag(e: Cipher, n: seq<bv8>, a: seq<bv8>, p: Block, x: Block, y: Block)
    requires |n| == 8 && |a| == 16 && CcmSpec.StoredLength(16) + a + Repeat(0, 14) == x + y
    ensures var y0 := e(CcmSpec.Block0(n, 16, 6, 16));
            var y3 := e(XorBytes(e(XorBytes(e(XorBytes(y0, x)), y)), p));
            CcmSpec.TagWith(e, CcmSpec.StoredLength(16), n, a, p, 6) == XorBytes(e(CcmSpec.Counter(n, 0))[..6], y3[..6])
  {
    CcmSpec.StoredWidth(16);
    hide CcmSpec.Block0, CcmSpec.StoredLength, CcmSpec.Counter, XorBytes, Blocks;
    TwoBlocks(CcmSpec.StoredLength(16), a, x, y);
    OneBlock(p);
    var y0 := e(CcmSpec.Block0(n, 16, 6, 16));
    assert CcmSpec.DataBlocks(CcmSpec.StoredLength(16), a, p) == [x, y, p];
    assert [x, y, p] == [x, y] + [p];
    FoldAppend(CcmSpec.CbcStep(e), y0, [x, y], [p]);
    FoldTwo(CcmSpec.CbcStep(e), y0, x, y);
    FoldOne(CcmSpec.CbcStep(e), Fold(CcmSpec.CbcStep(e), y0, [x, y]), p);
  }
}
