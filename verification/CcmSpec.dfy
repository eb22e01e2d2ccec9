/** CCM as NIST SP 800-38C states it, over whole byte strings. */
module CcmSpec {
  import opened BlockOps
  import opened Folds
  import opened Words

  // ----- the formatting function, Appendix A.2 -----------------------------------------------------

  /** The lengths ccmFormatBlock0 accepts; the payload length must fit in 15 - nLen bytes. */
  predicate Accepts(nLen: nat, tLen: nat, length: nat) {
    7 <= nLen <= 13 && 4 <= tLen <= 16 && tLen % 2 == 0 && length < Pow256(15 - nLen)
  }

  /** The flags octet of B(0): a bit for associated data, (t - 2) / 2 in bits 3 to 5, q - 1 in bits 0 to 2. */
  function Flags(hasAad: bool, tLen: nat, qLen: nat): bv8
    requires 4 <= tLen <= 16 && 2 <= qLen <= 8
  {
    (if hasAad then 0x40 else 0x00) | ((((tLen - 2) / 2) as bv8) << 3) | ((qLen - 1) as bv8)
  }

  function Block0(nonce: seq<bv8>, aLen: nat, tLen: nat, length: nat): Block
    requires 7 <= |nonce| <= 13 && 4 <= tLen <= 16
  {
    [Flags(aLen > 0, tLen, 15 - |nonce|)] + nonce + BigEndian(length, 15 - |nonce|)
  }

  /** The length of the associated data in two, six or ten bytes, Appendix A.2.2. */
  function AadLength(n: nat): seq<bv8> {
    if n < 0xFF00 then BigEndian(n, 2)
    else if n < 0x1_0000_0000 then [0xFF, 0xFE] + BigEndian(n, 4)
    else [0xFF, 0xFF] + BigEndian(n, 8)
  }

  /** What ccmEncrypt stores instead: it knows two forms, and the second keeps the low 32 bits. */
  function StoredLength(n: nat): seq<bv8> {
    if n < 0xFF00 then BigEndian(n, 2) else [0xFF, 0xFE] + BigEndian(n, 4)
  }

  /** The part of the input that carries the associated data behind its encoded length l. */
  function AadPart(l: seq<bv8>, a: seq<bv8>): seq<Block> {
    if a == [] then [] else Blocks(l + a)
  }

  /** B(1), B(2), ... : the associated data with its length in front, then the payload. */
  function DataBlocks(l: seq<bv8>, a: seq<bv8>, p: seq<bv8>): seq<Block> {
    AadPart(l, a) + Blocks(p)
  }

  function FormattedWith(l: seq<bv8>, nonce: seq<bv8>, a: seq<bv8>, p: seq<bv8>, tLen: nat): seq<Block>
    requires 7 <= |nonce| <= 13 && 4 <= tLen <= 16
  {
    [Block0(nonce, |a|, tLen, |p|)] + DataBlocks(l, a, p)
  }

  /** The formatting function of Appendix A.2. */
  function Formatted(nonce: seq<bv8>, a: seq<bv8>, p: seq<bv8>, tLen: nat): seq<Block>
    requires 7 <= |nonce| <= 13 && 4 <= tLen <= 16
  {
    FormattedWith(AadLength(|a|), nonce, a, p, tLen)
  }

  /** CTR(i), Appendix A.3. */
  function Counter(nonce: seq<bv8>, i: nat): Block
    requires 7 <= |nonce| <= 13
  {
    [(14 - |nonce|) as bv8] + nonce + BigEndian(i, 15 - |nonce|)
  }

  // ----- section 6 -------------------------------------------------------------------------------------

  function CbcStep(e: Cipher): (Block, Block) -> Block {
    (y: Block, b: Block) => e(XorBytes(y, b))
  }

  /** The chain of Y(i) continued from an intermediate value y. */
  function Cbc(e: Cipher, y: Block, blocks: seq<Block>): Block {
    Fold(CbcStep(e), y, blocks)
  }

  /** Y(r), steps 2 to 4 of section 6.1. */
  function CbcMac(e: Cipher, l: seq<bv8>, nonce: seq<bv8>, a: seq<bv8>, p: seq<bv8>, tLen: nat): Block
    requires 7 <= |nonce| <= 13 && 4 <= tLen <= 16
  {
    Cbc(e, e(Block0(nonce, |a|, tLen, |p|)), DataBlocks(l, a, p))
  }

  /** The payload XORed with S(i), S(i + 1), ... */
  function Stream(e: Cipher, nonce: seq<bv8>, i: nat, x: seq<bv8>): (r: seq<bv8>)
    requires 7 <= |nonce| <= 13
    ensures |r| == |x|
    decreases |x|
  {
    if x == [] then []
    else
      var k := Min(|x|, 16);
      XorBytes(x[..k], e(Counter(nonce, i))) + Stream(e, nonce, i + 1, x[k..])
  }

  function Ciphertext(e: Cipher, nonce: seq<bv8>, p: seq<bv8>): (c: seq<bv8>)
    requires 7 <= |nonce| <= 13
    ensures |c| == |p|
  {
    Stream(e, nonce, 1, p)
  }

  /** MSB(S(0)) XOR MSB(Y(r)), with the length of the associated data encoded as l. */
  function TagWith(e: Cipher, l: seq<bv8>, nonce: seq<bv8>, a: seq<bv8>, p: seq<bv8>, tLen: nat): (t: seq<bv8>)
    requires 7 <= |nonce| <= 13 && 4 <= tLen <= 16
    ensures |t| == tLen
  {
    XorBytes(e(Counter(nonce, 0))[..tLen], CbcMac(e, l, nonce, a, p, tLen)[..tLen])
  }

  /** The tag of section 6.1. */
  function Tag(e: Cipher, nonce: seq<bv8>, a: seq<bv8>, p: seq<bv8>, tLen: nat): (t: seq<bv8>)
    requires 7 <= |nonce| <= 13 && 4 <= tLen <= 16
    ensures |t| == tLen
  {
    TagWith(e, AadLength(|a|), nonce, a, p, tLen)
  }

  lemma {:induction false} StreamTwice(e: Cipher, nonce: seq<bv8>, i: nat, x: seq<bv8>)
    requires 7 <= |nonce| <= 13
    ensures Stream(e, nonce, i, Stream(e, nonce, i, x)) == x
    decreases |x|
  {
    hide Counter;
    if x != [] {
      var k := Min(|x|, 16);
      var first, rest := XorBytes(x[..k], e(Counter(nonce, i))), Stream(e, nonce, i + 1, x[k..]);
      assert (first + rest)[..k] == first && (first + rest)[k..] == rest;
      XorBytesTwice(x[..k], e(Counter(nonce, i)));
      StreamTwice(e, nonce, i + 1, x[k..]);
    }
  }

  /** Decrypting a ciphertext under the same nonce gives back the payload. */
  lemma DecryptionUndoesEncryption(e: Cipher, nonce: seq<bv8>, p: seq<bv8>)
    requires 7 <= |nonce| <= 13
    ensures Ciphertext(e, nonce, Ciphertext(e, nonce, p)) == p
  {
    hide Stream;
    StreamTwice(e, nonce, 1, p);
  }

  // ----- no block enters the cipher in two roles ---------------------------------------------------------

  /** The counter blocks of one message are pairwise distinct. */
  lemma CountersDistinct(nonce: seq<bv8>, i: nat, j: nat)
    requires 7 <= |nonce| <= 13 && i < j < Pow256(15 - |nonce|)
    ensures Counter(nonce, i) != Counter(nonce, j)
  {
    if Counter(nonce, i) == Counter(nonce, j) {
      var n := 1 + |nonce|;
      assert Counter(nonce, i)[n..] == BigEndian(i, 15 - |nonce|);
      assert Counter(nonce, j)[n..] == BigEndian(j, 15 - |nonce|);
      BigEndianInjective(i, j, 15 - |nonce|);
    }
  }

  /** Every counter a message uses fits: there are no more blocks than bytes. */
  lemma CountersOfMessage(nonce: seq<bv8>, p: seq<bv8>, i: nat)
    requires 7 <= |nonce| <= 13 && |p| < Pow256(15 - |nonce|) && 16 * i < |p| + 16
    ensures i < Pow256(15 - |nonce|)
  {
  }

  lemma FieldBits(k: bv8, q: bv8, high: bv8)
    requires 1 <= k <= 7 && q <= 7 && (high == 0 || high == 0x40)
    ensures (high | (k << 3) | q) & 0x38 != 0 && q & 0x38 == 0
  {
  }

  /** No counter block of any message under any nonce is the first block of a MAC computation. */
  lemma CountersAreNotBlock0(nonce: seq<bv8>, i: nat, other: seq<bv8>, aLen: nat, tLen: nat, length: nat)
    requires 7 <= |nonce| <= 13 && 7 <= |other| <= 13 && 4 <= tLen <= 16
    ensures Counter(nonce, i) != Block0(other, aLen, tLen, length)
  {
    var k, q := (tLen - 2) / 2, 14 - |other|;
    SmallByte(k);
    SmallByte(q);
    SmallByte(14 - |nonce|);
    FieldBits(k as bv8, q as bv8, if aLen > 0 then 0x40 else 0);
    FieldBits(k as bv8, (14 - |nonce|) as bv8, 0);
    assert Counter(nonce, i)[0] == (14 - |nonce|) as bv8;
    assert Block0(other, aLen, tLen, length)[0] == Flags(aLen > 0, tLen, 15 - |other|);
  }

  lemma SmallByte(n: nat)
    requires n < 8
    ensures (n as bv8) <= 7 && (n >= 1 ==> (n as bv8) >= 1)
  {
  }

  // ----- the formatting determines what was formatted ---------------------------------------------------

  lemma FieldsBack(k: bv8, q: bv8, high: bv8)
    requires k <= 7 && q <= 7 && (high == 0 || high == 0x40)
    ensures var f := high | (k << 3) | q; f & 0x40 == high && (f >> 3) & 7 == k && f & 7 == q
  {
  }

  lemma FlagsInjective(h1: bool, t1: nat, q1: nat, h2: bool, t2: nat, q2: nat)
    requires 4 <= t1 <= 16 && t1 % 2 == 0 && 2 <= q1 <= 8
    requires 4 <= t2 <= 16 && t2 % 2 == 0 && 2 <= q2 <= 8
    requires Flags(h1, t1, q1) == Flags(h2, t2, q2)
    ensures h1 == h2 && t1 == t2 && q1 == q2
  {
    var (k1, k2) := ((t1 - 2) / 2, (t2 - 2) / 2);
    FlagFields(h1, t1, q1);
    FlagFields(h2, t2, q2);
    hide Flags;
    ByteBack(k1);
    ByteBack(k2);
    ByteBack(q1 - 1);
    ByteBack(q2 - 1);
  }

  lemma FlagFields(h: bool, t: nat, q: nat)
    requires 4 <= t <= 16 && 2 <= q <= 8
    ensures var f := Flags(h, t, q);
            (f & 0x40 == if h then 0x40 else 0) && (f >> 3) & 7 == ((t - 2) / 2) as bv8 && f & 7 == (q - 1) as bv8
  {
    SmallByte((t - 2) / 2);
    SmallByte(q - 1);
    FieldsBack(((t - 2) / 2) as bv8, (q - 1) as bv8, if h then 0x40 else 0);
  }

  /** B(0) determines the nonce, the tag length, the payload length and whether there is associated data. */
  lemma Block0Injective(n1: seq<bv8>, a1: nat, t1: nat, l1: nat, n2: seq<bv8>, a2: nat, t2: nat, l2: nat)
    requires Accepts(|n1|, t1, l1) && Accepts(|n2|, t2, l2)
    requires Block0(n1, a1, t1, l1) == Block0(n2, a2, t2, l2)
    ensures n1 == n2 && t1 == t2 && l1 == l2 && (a1 > 0 <==> a2 > 0)
  {
    var (b1, b2) := (Block0(n1, a1, t1, l1), Block0(n2, a2, t2, l2));
    assert b1[0] == Flags(a1 > 0, t1, 15 - |n1|) && b2[0] == Flags(a2 > 0, t2, 15 - |n2|);
    FlagsInjective(a1 > 0, t1, 15 - |n1|, a2 > 0, t2, 15 - |n2|);
    assert b1[1..1 + |n1|] == n1 && b2[1..1 + |n2|] == n2;
    assert b1[1 + |n1|..] == BigEndian(l1, 15 - |n1|) && b2[1 + |n2|..] == BigEndian(l2, 15 - |n2|);
    hide Flags, BigEndian;
    BigEndianInjective(l1, l2, 15 - |n1|);
  }

  /** The bytes that encode the length say which of the three encodings it is. */
  lemma AadLengthInjective(m: nat, n: nat, x: seq<bv8>, y: seq<bv8>)
    requires m < Pow256(8) && n < Pow256(8)
    requires AadLength(m) <= x && AadLength(n) <= y && |x| >= 10 && |y| >= 10 && x[..10] == y[..10]
    ensures m == n
  {
    LengthForm(m);
    LengthForm(n);
    LengthDigits(m, x);
    LengthDigits(n, y);
    Widths();
    hide AadLength, Pow256, BigEndian;
    assert x[0] == x[..10][0] && y[0] == y[..10][0] && x[1] == x[..10][1] && y[1] == y[..10][1];
    if m < 0xFF00 {
      assert x[..2] == x[..10][..2] && y[..2] == y[..10][..2];
      BigEndianInjective(m, n, 2);
    } else if m < 0x1_0000_0000 {
      assert x[2..6] == x[..10][2..6] && y[2..6] == y[..10][2..6];
      BigEndianInjective(m, n, 4);
    } else {
      assert x[2..10] == x[..10][2..] && y[2..10] == y[..10][2..];
      BigEndianInjective(m, n, 8);
    }
  }

  /** The bytes that stand at the front of a string that begins with an encoded length. */
  lemma LengthDigits(n: nat, x: seq<bv8>)
    requires AadLength(n) <= x && |x| >= 10
    ensures x[0] == AadLength(n)[0] && x[1] == AadLength(n)[1]
    ensures n < 0xFF00 ==> x[..2] == BigEndian(n, 2)
    ensures 0xFF00 <= n < 0x1_0000_0000 ==> x[2..6] == BigEndian(n, 4)
    ensures n >= 0x1_0000_0000 ==> x[2..10] == BigEndian(n, 8)
  {
    hide BigEndian;
  }

  lemma Widths()
    ensures Pow256(2) == 0x1_0000 && Pow256(4) == 0x1_0000_0000
  {
    assert Pow256(1) == 256;
    assert Pow256(3) == 0x100_0000;
  }

  lemma LengthForm(n: nat)
    ensures |AadLength(n)| == (if n < 0xFF00 then 2 else if n < 0x1_0000_0000 then 6 else 10)
    ensures (AadLength(n)[0] == 0xFF) <==> n >= 0xFF00
    ensures n >= 0xFF00 ==> AadLength(n)[1] == (if n < 0x1_0000_0000 then 0xFE else 0xFF)
  {
    if n < 0xFF00 {
      BigEndianAt(n, 2, 1);
      assert Shift(n, 1) == n / 256 by {
        assert Shift(n, 0) == n;
      }
      ByteBack(n / 256);
    }
  }

  lemma StoredWidth(n: nat)
    ensures |StoredLength(n)| == if n < 0xFF00 then 2 else 6
  {
  }

  /** The code follows Appendix A.2.2 for associated data below 2^32 bytes and for no longer data. */
  lemma StoredIsStandardIff(n: nat)
    ensures StoredLength(n) == AadLength(n) <==> n < 0x1_0000_0000
  {
    LengthForm(n);
    StoredWidth(n);
  }

  lemma FirstBlock(s: seq<bv8>)
    requires s != []
    ensures |Pad(s)| >= 16 && Blocks(s) != [] && Blocks(s)[0] == Pad(s)[..16]
  {
  }

  lemma AadLengthRead(a1: seq<bv8>, a2: seq<bv8>)
    requires a1 != [] && a2 != [] && |a1| < Pow256(8) && |a2| < Pow256(8)
    requires AadPart(AadLength(|a1|), a1) != [] && AadPart(AadLength(|a2|), a2) != []
    requires AadPart(AadLength(|a1|), a1)[0] == AadPart(AadLength(|a2|), a2)[0]
    ensures |a1| == |a2|
  {
    var (e1, e2) := (AadLength(|a1|) + a1, AadLength(|a2|) + a2);
    LengthForm(|a1|);
    LengthForm(|a2|);
    FirstBlock(e1);
    FirstBlock(e2);
    hide Blocks, AadLength, Pow256;
    var (x, y) := (Pad(e1), Pad(e2));
    assert x[..16][..10] == x[..10] && y[..16][..10] == y[..10];
    AadLengthInjective(|a1|, |a2|, x, y);
  }

  lemma PartsDetermine(l: seq<bv8>, a1: seq<bv8>, p1: seq<bv8>, a2: seq<bv8>, p2: seq<bv8>)
    requires |a1| == |a2| && |p1| == |p2| && DataBlocks(l, a1, p1) <= DataBlocks(l, a2, p2)
    ensures a1 == a2 && p1 == p2
  {
    BlockCount(p1);
    BlockCount(p2);
    BlockCount(l + a1);
    BlockCount(l + a2);
    var n := |AadPart(l, a1)|;
    assert n == |AadPart(l, a2)|;
    hide Blocks;
    assert DataBlocks(l, a1, p1) == DataBlocks(l, a2, p2);
    assert AadPart(l, a1) == DataBlocks(l, a1, p1)[..n] && AadPart(l, a2) == DataBlocks(l, a2, p2)[..n];
    assert Blocks(p1) == DataBlocks(l, a1, p1)[n..] && Blocks(p2) == DataBlocks(l, a2, p2)[n..];
    PadDetermines(p1, p2);
    if a1 != [] {
      PadDetermines(l + a1, l + a2);
      assert a1 == (l + a1)[|l|..] && a2 == (l + a2)[|l|..];
    }
  }

  /**
   * No formatted input is a prefix of another, section 5.4: the MAC input determines the nonce, the
   * associated data, the payload and the tag length, for associated data of every length allowed.
   */
  lemma FormattingPrefixFree(n1: seq<bv8>, a1: seq<bv8>, p1: seq<bv8>, t1: nat,
                             n2: seq<bv8>, a2: seq<bv8>, p2: seq<bv8>, t2: nat)
    requires Accepts(|n1|, t1, |p1|) && Accepts(|n2|, t2, |p2|)
    requires |a1| < Pow256(8) && |a2| < Pow256(8)
    requires Formatted(n1, a1, p1, t1) <= Formatted(n2, a2, p2, t2)
    ensures n1 == n2 && a1 == a2 && p1 == p2 && t1 == t2
  {
    hide Block0, DataBlocks, Pow256, AadLength;
    var (f1, f2) := (Formatted(n1, a1, p1, t1), Formatted(n2, a2, p2, t2));
    assert f1[0] == f2[0];
    Block0Injective(n1, |a1|, t1, |p1|, n2, |a2|, t2, |p2|);
    var (l1, l2) := (AadLength(|a1|), AadLength(|a2|));
    var (d1, d2) := (DataBlocks(l1, a1, p1), DataBlocks(l2, a2, p2));
    assert f1[1..] == d1 && f2[1..] == d2;
    assert d1 <= d2;
    if a1 != [] {
      AadFirst(l1, a1, p1);
      AadFirst(l2, a2, p2);
      assert d1[0] == d2[0];
      AadLengthRead(a1, a2);
    }
    PartsDetermine(l1, a1, p1, a2, p2);
  }

  lemma AadFirst(l: seq<bv8>, a: seq<bv8>, p: seq<bv8>)
    requires a != []
    ensures AadPart(l, a) != [] && DataBlocks(l, a, p) != [] && DataBlocks(l, a, p)[0] == AadPart(l, a)[0]
  {
    FirstBlock(l + a);
    hide Blocks;
  }
}
