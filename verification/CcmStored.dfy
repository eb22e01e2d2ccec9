/**
 * What ccmEncrypt feeds to the MAC, which knows two of the standard's three forms of the length of the
 * additional data, and how far its inputs can be told apart.
 */
module CcmStored {
  import opened BlockOps
  import opened CcmSpec
  import opened Words

  /** Nonce, additional data, payload and length of the tag. */
  datatype Input = Input(nonce: seq<bv8>, a: seq<bv8>, p: seq<bv8>, tLen: nat)

  predicate Accepted(m: Input) {
    Accepts(|m.nonce|, m.tLen, |m.p|)
  }

  /** The blocks the code chains. */
  function StoredFormat(m: Input): seq<Block>
    requires Accepted(m)
  {
    FormattedWith(StoredLength(|m.a|), m.nonce, m.a, m.p, m.tLen)
  }

  /** The stored bytes do not tell the lengths m and n apart. */
  predicate Confused(m: nat, n: nat) {
    m != n && m >= 0xFF00 && n >= 0xFF00 && m % 0x1_0000_0000 == n % 0x1_0000_0000
  }

  // ----- the stored length ---------------------------------------------------------------------------

  lemma {:induction false} LowDigits(m: nat, n: nat, w: nat)
    requires n == m + Pow256(w)
    ensures BigEndian(m, w) == BigEndian(n, w)
    decreases w
  {
    if w > 0 {
      assert n / 256 == m / 256 + Pow256(w - 1) && n % 256 == m % 256;
      LowDigits(m / 256, n / 256, w - 1);
    }
  }

  lemma StoredForm(n: nat)
    ensures StoredLength(n) == if n < 0xFF00 then BigEndian(n, 2) else [0xFF, 0xFE] + BigEndian(n, 4)
  {
  }

  /** Four bytes hold the length modulo 2^32. */
  lemma {:induction false} LowWord(n: nat)
    ensures BigEndian(n, 4) == BigEndian(n % 0x1_0000_0000, 4)
    decreases n
  {
    hide BigEndian, Pow256;
    if n >= 0x1_0000_0000 {
      Widths();
      LowWord(n - 0x1_0000_0000);
      LowDigits(n - 0x1_0000_0000, n, 4);
    }
  }

  lemma LowWordEqualIff(m: nat, n: nat)
    ensures BigEndian(m, 4) == BigEndian(n, 4) <==> m % 0x1_0000_0000 == n % 0x1_0000_0000
  {
    hide BigEndian, Pow256;
    Widths();
    LowWord(m);
    LowWord(n);
    if BigEndian(m, 4) == BigEndian(n, 4) {
      BigEndianInjective(m % 0x1_0000_0000, n % 0x1_0000_0000, 4);
    }
  }

  /** What the stored length tells of the length: all of it below 0xFF00, and 32 bits of it from there on. */
  lemma StoredLengthEqualIff(m: nat, n: nat)
    ensures StoredLength(m) == StoredLength(n) <==> m == n || Confused(m, n)
  {
    hide BigEndian, Pow256;
    Widths();
    StoredForm(m);
    StoredForm(n);
    hide StoredLength;
    if m < 0xFF00 && n < 0xFF00 && BigEndian(m, 2) == BigEndian(n, 2) {
      BigEndianInjective(m, n, 2);
    }
    if m >= 0xFF00 && n >= 0xFF00 {
      LowWordEqualIff(m, n);
      assert StoredLength(m)[2..] == BigEndian(m, 4) && StoredLength(n)[2..] == BigEndian(n, 4);
    }
  }

  /** The first byte of a string that begins with a stored length says which form it is. */
  lemma StoredFront(n: nat, x: seq<bv8>)
    requires StoredLength(n) <= x
    ensures |StoredLength(n)| == if n < 0xFF00 then 2 else 6
    ensures x[0] == 0xFF <==> n >= 0xFF00
    ensures StoredLength(n) == x[..if n < 0xFF00 then 2 else 6]
  {
    StoredForm(n);
    LengthForm(n);
    assert n < 0xFF00 ==> StoredLength(n) == AadLength(n);
    hide BigEndian, StoredLength, AadLength;
    assert x[0] == StoredLength(n)[0];
  }

  lemma SameFront(x: seq<bv8>, y: seq<bv8>, k: nat)
    requires k <= 6 && |x| >= 6 && |y| >= 6 && x[..6] == y[..6]
    ensures x[..k] == y[..k] && x[0] == y[0]
  {
    assert x[0] == x[..6][0] && y[0] == y[..6][0];
    assert x[..k] == x[..6][..k] && y[..k] == y[..6][..k];
  }

  lemma StoredLengthRead(m: nat, n: nat, x: seq<bv8>, y: seq<bv8>)
    requires StoredLength(m) <= x && StoredLength(n) <= y && |x| >= 6 && |y| >= 6 && x[..6] == y[..6]
    ensures StoredLength(m) == StoredLength(n)
  {
    hide *;
    StoredFront(m, x);
    StoredFront(n, y);
    SameFront(x, y, 2);
  }

  lemma FirstAadBlock(a1: seq<bv8>, a2: seq<bv8>)
    requires a1 != [] && a2 != []
    requires AadPart(StoredLength(|a1|), a1) != [] && AadPart(StoredLength(|a2|), a2) != []
    requires AadPart(StoredLength(|a1|), a1)[0] == AadPart(StoredLength(|a2|), a2)[0]
    ensures StoredLength(|a1|) == StoredLength(|a2|)
  {
    var (e1, e2) := (StoredLength(|a1|) + a1, StoredLength(|a2|) + a2);
    FirstBlock(e1);
    FirstBlock(e2);
    hide Blocks, StoredLength;
    var (x, y) := (Pad(e1), Pad(e2));
    assert x[..16][..6] == x[..6] && y[..16][..6] == y[..6];
    StoredLengthRead(|a1|, |a2|, x, y);
  }

  // ----- which inputs are formatted alike ------------------------------------------------------------

  lemma FormatParts(m: Input)
    requires Accepted(m)
    ensures var f, l := StoredFormat(m), StoredLength(|m.a|);
            f != [] && f[0] == Block0(m.nonce, |m.a|, m.tLen, |m.p|) && f[1..] == DataBlocks(l, m.a, m.p)
  {
    hide Block0, DataBlocks, StoredLength;
  }

  lemma SameHead<T>(f1: seq<T>, f2: seq<T>)
    requires f1 != [] && f1 <= f2
    ensures f1[0] == f2[0] && f1[1..] <= f2[1..]
  {
  }

  /**
   * If the code formats one input as a prefix of what it formats for another, the inputs are equal or
   * differ only in additional data, the lengths of which it does not tell apart.
   */
  lemma StoredDetermines(m1: Input, m2: Input)
    requires Accepted(m1) && Accepted(m2) && StoredFormat(m1) <= StoredFormat(m2)
    ensures m1.nonce == m2.nonce && m1.tLen == m2.tLen && |m1.p| == |m2.p|
    ensures m1 == m2 || Confused(|m1.a|, |m2.a|)
  {
    hide Block0, DataBlocks, StoredLength, StoredFormat;
    var (l1, l2) := (StoredLength(|m1.a|), StoredLength(|m2.a|));
    FormatParts(m1);
    FormatParts(m2);
    SameHead(StoredFormat(m1), StoredFormat(m2));
    Block0Injective(m1.nonce, |m1.a|, m1.tLen, |m1.p|, m2.nonce, |m2.a|, m2.tLen, |m2.p|);
    if m1.a != [] {
      AadFirst(l1, m1.a, m1.p);
      AadFirst(l2, m2.a, m2.p);
      SameHead(DataBlocks(l1, m1.a, m1.p), DataBlocks(l2, m2.a, m2.p));
      FirstAadBlock(m1.a, m2.a);
      StoredLengthEqualIff(|m1.a|, |m2.a|);
    }
    if |m1.a| == |m2.a| {
      PartsDetermine(l1, m1.a, m1.p, m2.a, m2.p);
    }
  }

  // ----- which lengths collide -------------------------------------------------------------------------

  lemma {:induction false} SplitPrefix(s: seq<bv8>, t: seq<bv8>)
    requires |s| % 16 == 0 && |t| % 16 == 0 && s <= t
    ensures Split(s) <= Split(t)
    decreases |s|
  {
    if s != [] {
      SplitPrefix(s[16..], t[16..]);
      assert s[..16] == t[..16];
    }
  }

  lemma ZerosPrefix(l: seq<bv8>, m: nat, n: nat)
    requires |l| == 6 && 6 + m <= 6 + n - 16
    ensures Blocks(l + Repeat(0, m)) <= Blocks(l + Repeat(0, n))
  {
    var x, y := l + Repeat(0, m), l + Repeat(0, n);
    hide Split;
    assert |Pad(x)| <= |y| && Pad(x) <= Pad(y);
    SplitPrefix(Pad(x), Pad(y));
  }

  lemma AlikeIfDataIs(nonce: seq<bv8>, tLen: nat, a1: seq<bv8>, a2: seq<bv8>)
    requires Accepts(|nonce|, tLen, 0) && a1 != [] && a2 != []
    requires StoredLength(|a1|) == StoredLength(|a2|)
    requires Blocks(StoredLength(|a1|) + a1) <= Blocks(StoredLength(|a2|) + a2)
    ensures StoredFormat(Input(nonce, a1, [], tLen)) <= StoredFormat(Input(nonce, a2, [], tLen))
  {
    NoBlocks();
    hide Blocks, StoredLength, BigEndian, Flags;
  }

  /** Different inputs with m and n bytes of additional data that the code formats as a prefix and its extension. */
  ghost predicate Collide(m: nat, n: nat) {
    exists m1, m2 ::
      && Accepted(m1) && Accepted(m2) && |m1.a| == m && |m2.a| == n
      && m1 != m2 && StoredFormat(m1) <= StoredFormat(m2)
  }

  /** Additional data of zeros, in the shorter and the longer length, under any nonce and tag length. */
  lemma ZerosCollide(nonce: seq<bv8>, tLen: nat, m: nat, n: nat)
    requires Accepts(|nonce|, tLen, 0) && m < n && Confused(m, n)
    ensures var m1, m2 := Input(nonce, Repeat(0, m), [], tLen), Input(nonce, Repeat(0, n), [], tLen);
            m1 != m2 && StoredFormat(m1) <= StoredFormat(m2)
  {
    hide StoredFormat, StoredLength, Repeat;
    var a1, a2 := Repeat(0, m), Repeat(0, n);
    StoredLengthEqualIff(m, n);
    StoredWidth(m);
    ZerosPrefix(StoredLength(m), m, n);
    AlikeIfDataIs(nonce, tLen, a1, a2);
  }

  lemma FormatLength(m: Input)
    requires Accepted(m) && |m.a| >= 0xFF00
    ensures |StoredFormat(m)| == 1 + (|m.a| + 21) / 16 + (|m.p| + 15) / 16
  {
    StoredWidth(|m.a|);
    BlockCount(StoredLength(|m.a|) + m.a);
    BlockCount(m.p);
    hide Blocks, Block0, StoredLength, Join;
  }

  /** Which lengths admit a collision: those that agree in their low 32 bits, the shorter one in front. */
  lemma CollideIff(m: nat, n: nat)
    ensures Collide(m, n) <==> m < n && Confused(m, n)
  {
    hide StoredFormat, Repeat;
    if Collide(m, n) {
      var m1, m2 :|
        && Accepted(m1) && Accepted(m2) && |m1.a| == m && |m2.a| == n
        && m1 != m2 && StoredFormat(m1) <= StoredFormat(m2);
      StoredDetermines(m1, m2);
      FormatLength(m1);
      FormatLength(m2);
    }
    if m < n && Confused(m, n) {
      ShortestNonce();
      ZerosCollide(Repeat(0, 7), 4, m, n);
    }
  }

  lemma ShortestNonce()
    ensures Accepts(7, 4, 0)
  {
    assert Pow256(8) > 0;
  }

  /** Section 5.4 for additional data of less than n bytes: no formatted input is a prefix of another. */
  ghost predicate PrefixFreeBelow(n: nat) {
    forall m1, m2 |
      && Accepted(m1) && Accepted(m2) && |m1.a| < n && |m2.a| < n
      && StoredFormat(m1) <= StoredFormat(m2) :: m1 == m2
  }

  /** What the code formats is prefix-free for additional data of up to 2^32 + 0xFEFF bytes and for no longer data. */
  lemma PrefixFreeIff(n: nat)
    ensures PrefixFreeBelow(n) <==> n <= 0x1_0000_FF00
  {
    hide StoredFormat, Repeat;
    if n <= 0x1_0000_FF00 {
      forall m1, m2 |
        && Accepted(m1) && Accepted(m2) && |m1.a| < n && |m2.a| < n
        && StoredFormat(m1) <= StoredFormat(m2)
        ensures m1 == m2
      {
        StoredDetermines(m1, m2);
      }
    } else {
      ShortestNonce();
      ZerosCollide(Repeat(0, 7), 4, 0xFF00, 0x1_0000_FF00);
    }
  }
}
