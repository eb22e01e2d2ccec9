/** Sixteen bytes written as one number, for published values. */
module HexBlocks {

  function ByteFrom(x: bv128, shift: bv8): bv8
    requires shift < 128
  {
    ((x >> shift) & 0xFF) as bv8
  }

  function FourBytes(x: bv128, shift: bv8): (b: seq<bv8>)
    requires 24 <= shift < 128
    ensures |b| == 4
  {
    [ByteFrom(x, shift), ByteFrom(x, shift - 8), ByteFrom(x, shift - 16), ByteFrom(x, shift - 24)]
  }

  function HexBytes(x: bv128): (b: seq<bv8>)
    ensures |b| == 16
  {
    FourBytes(x, 120) + FourBytes(x, 88) + FourBytes(x, 56) + FourBytes(x, 24)
  }

  function XorNumbers(x: bv128, y: bv128): bv128 {
    x ^ y
  }

  function XorByte(a: bv8, b: bv8): bv8 {
    a ^ b
  }

  lemma XorByteFrom(x: bv128, y: bv128, shift: bv8)
    requires shift % 8 == 0 && shift <= 120
    ensures ByteFrom(XorNumbers(x, y), shift) == XorByte(ByteFrom(x, shift), ByteFrom(y, shift))
  {
    match shift
    case 0 =>
    case 8 =>
    case 16 =>
    case 24 =>
    case 32 =>
    case 40 =>
    case 48 =>
    case 56 =>
    case 64 =>
    case 72 =>
    case 80 =>
    case 88 =>
    case 96 =>
    case 104 =>
    case 112 =>
    case 120 =>
  }
}
