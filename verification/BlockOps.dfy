/**
 * Byte strings in blocks of sixteen, as the GCM and CCM modes take them: padding and cutting, partial
 * blocks, numbers as big-endian bytes, and the in-place block helpers.
 */
module BlockOps {
  import opened Words

  type Block = b: seq<bv8> | |b| == 16 witness Repeat(0, 16)

  type Cipher = Block -> Block

  datatype ErrorCode = NoError | InvalidParameter | InvalidLength | Failed

  /** The cipher a mode is built on; the block function itself is arbitrary. */
  datatype CipherAlgo = CipherAlgo(isBlockCipher: bool, blockSize: nat, encrypt: Cipher)

  function ZeroBlock(): Block {
    Repeat(0, 16)
  }

  function BigEndian(n: nat, width: nat): (s: seq<bv8>)
    ensures |s| == width
    decreases width
  {
    if width == 0 then [] else BigEndian(n / 256, width - 1) + [(n % 256) as bv8]
  }

  // ----- numbers as bytes ------------------------------------------------------------------------

  /** v without its last k bytes. */
  function Shift(v: nat, k: nat): nat {
    if k == 0 then v else Shift(v, k - 1) / 256
  }

  /** Byte k of v, from the right. */
  function Digit(v: nat, k: nat): bv8 {
    (Shift(v, k) % 256) as bv8
  }

  lemma {:induction false} ShiftFirst(v: nat, k: nat)
    requires k >= 1
    ensures Shift(v, k) == Shift(v / 256, k - 1)
    decreases k
  {
    if k > 1 {
      ShiftFirst(v, k - 1);
    }
  }

  /** Byte k from the right of a big-endian number. */
  lemma {:induction false} BigEndianAt(v: nat, w: nat, k: nat)
    requires k < w
    ensures BigEndian(v, w)[w - 1 - k] == Digit(v, k)
    decreases w
  {
    if k > 0 {
      BigEndianAt(v / 256, w - 1, k - 1);
      ShiftFirst(v, k);
    }
  }

  /** The last byte of a big-endian number is the first of a little-endian one: the number modulo 256. */
  lemma LowByteEnds(n: nat, w: nat)
    requires w >= 1
    ensures IntOfByte(BigEndian(n, w)[w - 1]) == n % 256 && IntOfByte(LittleEndian(n, w)[0]) == n % 256
  {
    ByteBack(n % 256);
  }

  /** A number that fits is determined by its bytes. */
  lemma {:induction false} BigEndianInjective(u: nat, v: nat, w: nat)
    requires u < Pow256(w) && v < Pow256(w) && BigEndian(u, w) == BigEndian(v, w)
    ensures u == v
    decreases w
  {
    if w > 0 {
      var (x, y) := (BigEndian(u, w), BigEndian(v, w));
      assert x[w - 1] == (u % 256) as bv8 && y[w - 1] == (v % 256) as bv8;
      assert x[..w - 1] == BigEndian(u / 256, w - 1) && y[..w - 1] == BigEndian(v / 256, w - 1);
      ByteBack(u % 256);
      ByteBack(v % 256);
      BigEndianInjective(u / 256, v / 256, w - 1);
    }
  }

  function FromBigEndian(s: seq<bv8>): nat {
    if s == [] then 0 else 256 * FromBigEndian(s[..|s| - 1]) + IntOfByte(s[|s| - 1])
  }

  /** A number that fits is read back from its bytes. */
  lemma {:induction false} BigEndianReads(n: nat, w: nat)
    requires n < Pow256(w)
    ensures FromBigEndian(BigEndian(n, w)) == n
    decreases w
  {
    if w > 0 {
      var s := BigEndian(n, w);
      assert s[..w - 1] == BigEndian(n / 256, w - 1) && s[w - 1] == (n % 256) as bv8;
      ByteBack(n % 256);
      BigEndianReads(n / 256, w - 1);
    }
  }

  lemma {:induction false} ShiftZero(v: nat, w: nat)
    ensures Shift(v, w) == 0 <==> v < Pow256(w)
    decreases w
  {
    if w > 0 {
      ShiftFirst(v, w);
      ShiftZero(v / 256, w - 1);
    }
  }

  // ----- padding and cutting ----------------------------------------------------------------------

  /** Zero bytes up to the next block boundary. */
  function Pad(s: seq<bv8>): (r: seq<bv8>)
    ensures |r| % 16 == 0
  {
    s + Repeat(0, (16 - |s| % 16) % 16)
  }

  function Split(s: seq<bv8>): (r: seq<Block>)
    requires |s| % 16 == 0
    decreases |s|
  {
    if s == [] then [] else [s[..16]] + Split(s[16..])
  }

  /** A string padded with zeros and cut into blocks. */
  function Blocks(s: seq<bv8>): seq<Block> {
    Split(Pad(s))
  }

  function Min(a: nat, b: nat): nat {
    if a < b then a else b
  }

  /** gcmXorBlock and ccmXorBlock; the destination may be one of the sources. */
  method XorBlock(x: array<bv8>, xo: nat, a: array<bv8>, ao: nat, b: array<bv8>, bo: nat, n: nat)
    requires xo + n <= x.Length && ao + n <= a.Length && bo + n <= b.Length
    requires (x == a ==> xo == ao) && (x == b ==> xo == bo)
    modifies x
    ensures x[xo..xo + n] == XorBytes(old(a[ao..ao + n]), old(b[bo..bo + n]))
    ensures x[..xo] == old(x[..xo]) && x[xo + n..] == old(x[xo + n..])
  {
    ghost var p, q, was := a[ao..ao + n], b[bo..bo + n], x[..];
    for i := 0 to n
      invariant forall k :: 0 <= k < i ==> x[xo + k] == p[k] ^ q[k]
      invariant forall k :: i <= k < n ==> a[ao + k] == p[k] && b[bo + k] == q[k]
      invariant x[..xo] == was[..xo] && x[xo + n..] == was[xo + n..]
    {
      x[xo + i] := a[ao + i] ^ b[bo + i];
    }
    assert x[xo..xo + n] == XorBytes(p, q);
  }

  lemma SplitCons(x: seq<bv8>)
    requires |x| % 16 == 0 && x != []
    ensures Split(x) == [x[..16]] + Split(x[16..])
  {
  }

  lemma PadLength(n: nat)
    requires n >= 16
    ensures (16 - n % 16) % 16 == (16 - (n - 16) % 16) % 16
  {
  }

  lemma PadTail(x: seq<bv8>)
    requires |x| >= 16
    ensures Pad(x)[..16] == x[..16] && Pad(x)[16..] == Pad(x[16..]) && Pad(x[..16]) == x[..16]
  {
    PadLength(|x|);
  }

  lemma PadWhole(x: seq<bv8>)
    requires 0 < |x| < 16
    ensures |Pad(x)| == 16 && Pad(x)[..16] == Pad(x) && Pad(x)[16..] == [] && Pad([]) == []
  {
  }

  lemma BlocksCons(x: seq<bv8>)
    requires x != []
    ensures var k := Min(|x|, 16);
            |Pad(x[..k])| == 16 && Blocks(x) == [Pad(x[..k])] + Blocks(x[k..])
  {
    var k := Min(|x|, 16);
    SplitCons(Pad(x));
    hide Pad, Split;
    if |x| >= 16 {
      PadTail(x);
    } else {
      assert x[..k] == x && x[k..] == [];
      PadWhole(x);
    }
  }

  lemma XorWithZero(a: bv8)
    ensures a ^ 0 == a
  {
  }

  /** XORing a partial block changes a value as XORing the zero-padded block does. */
  lemma PadShort(x: seq<bv8>)
    requires 0 < |x| <= 16
    ensures Pad(x) == x + Repeat(0, 16 - |x|)
  {
  }

  lemma XorBytesAppend(a: seq<bv8>, b: seq<bv8>, c: seq<bv8>, d: seq<bv8>)
    requires |a| == |c| && |b| == |d|
    ensures XorBytes(a + b, c + d) == XorBytes(a, c) + XorBytes(b, d)
  {
  }

  lemma XorBytesZero(a: seq<bv8>, n: nat)
    requires |a| == n
    ensures XorBytes(a, Repeat(0, n)) == a
  {
    forall i | 0 <= i < n
      ensures XorBytes(a, Repeat(0, n))[i] == a[i]
    {
      XorWithZero(a[i]);
    }
  }

  lemma PartialBlock(y: Block, chunk: seq<bv8>)
    requires 0 < |chunk| <= 16
    ensures |Pad(chunk)| == 16
    ensures XorBytes(y[..|chunk|], chunk) + y[|chunk|..] == XorBytes(y, Pad(chunk))
  {
    var k := |chunk|;
    PadShort(chunk);
    hide Pad, Repeat, XorBytes;
    assert y == y[..k] + y[k..];
    XorBytesAppend(y[..k], y[k..], chunk, Repeat(0, 16 - k));
    XorBytesZero(y[k..], 16 - k);
  }

  /** The bytes of a sequence of blocks. */
  function Join(blocks: seq<Block>): seq<bv8> {
    if blocks == [] then [] else blocks[0] + Join(blocks[1..])
  }

  lemma {:induction false} JoinSplit(s: seq<bv8>)
    requires |s| % 16 == 0
    ensures Join(Split(s)) == s && 16 * |Split(s)| == |s|
    decreases |s|
  {
    if s != [] {
      JoinSplit(s[16..]);
      assert ([s[..16]] + Split(s[16..]))[1..] == Split(s[16..]);
    }
  }

  lemma BlockCount(s: seq<bv8>)
    ensures |Blocks(s)| == (|s| + 15) / 16 && Join(Blocks(s)) == Pad(s)
  {
    JoinSplit(Pad(s));
    hide Join, Split;
    assert |Pad(s)| == |s| + (16 - |s| % 16) % 16;
  }

  lemma PadDetermines(x: seq<bv8>, y: seq<bv8>)
    requires |x| == |y| && Blocks(x) == Blocks(y)
    ensures x == y
  {
    BlockCount(x);
    BlockCount(y);
    hide Blocks, Join;
    assert x == Pad(x)[..|x|] && y == Pad(y)[..|y|];
  }

  lemma {:induction false} JoinAppend(a: seq<Block>, b: seq<Block>)
    ensures Join(a + b) == Join(a) + Join(b)
    decreases |a|
  {
    if a == [] {
      assert a + b == b;
    } else {
      assert (a + b)[1..] == a[1..] + b;
      JoinAppend(a[1..], b);
    }
  }

  lemma NoBlocks()
    ensures Blocks([]) == []
  {
    assert Pad([]) == [];
  }

  method NewBlock(v: Block) returns (b: array<bv8>)
    ensures fresh(b) && b[..] == v
  {
    b := new bv8[16](i requires 0 <= i < 16 => v[i]);
    assert b[..] == v;
  }

  lemma XorOfPrefix(a: seq<bv8>, b: seq<bv8>)
    requires |a| <= |b|
    ensures XorBytes(a, b[..|a|]) == XorBytes(a, b)
  {
  }

  /** A slice of a slice that starts at off. */
  lemma Tail<T>(x: seq<T>, off: nat, k: nat)
    requires off + k <= |x|
    ensures x[off..][..k] == x[off..off + k] && x[off..][k..] == x[off + k..]
  {
  }

  lemma XorBytesCommutes(a: seq<bv8>, b: seq<bv8>)
    requires |a| == |b|
    ensures XorBytes(a, b) == XorBytes(b, a)
  {
  }

  method StoreTag(t: array<bv8>, b: array<bv8>, tLen: nat)
    requires b.Length == 16 && tLen <= 16 && tLen <= t.Length && t != b
    modifies t
    ensures t[..tLen] == b[..tLen] && t[tLen..] == old(t[tLen..])
  {
    forall k | 0 <= k < tLen {
      t[k] := b[k];
    }
  }

  /** t := MSB(CIPH(J0)) XOR S, in the two steps the code takes. */
  method MaskTag(t: array<bv8>, s: array<bv8>, tLen: nat)
    requires s.Length == 16 && tLen <= 16 && tLen <= t.Length && t != s
    modifies t
    ensures t[..tLen] == XorBytes(s[..tLen], old(t[..tLen]))
    ensures t[tLen..] == old(t[tLen..])
  {
    XorBytesCommutes(t[..tLen], s[..tLen]);
    hide XorBytes;
    assert t[0..tLen] == t[..tLen] && s[0..tLen] == s[..tLen];
    XorBlock(t, 0, t, 0, s, 0, tLen);
  }

  lemma MaskZero(mask: bv8, r: bv8, t: bv8)
    ensures mask | (r ^ t) == 0 <==> mask == 0 && r == t
  {
  }

  /** The tag comparison: every difference is gathered before the verdict. */
  method CompareTags(r: array<bv8>, t: array<bv8>, tLen: nat) returns (mask: bv8)
    requires tLen <= r.Length && tLen <= t.Length
    ensures mask == 0 <==> r[..tLen] == t[..tLen]
  {
    mask := 0;
    for n := 0 to tLen
      invariant mask == 0 <==> r[..n] == t[..n]
    {
      MaskZero(mask, r[n], t[n]);
      assert r[..n + 1] == r[..n] + [r[n]] && t[..n + 1] == t[..n] + [t[n]];
      mask := mask | (r[n] ^ t[n]);
    }
  }
}
