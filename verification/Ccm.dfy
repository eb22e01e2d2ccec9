/** ccmEncrypt and ccmDecrypt, working block by block in place, against the mode's specification. */
module Ccm {
  import opened BlockOps
  import opened CcmSpec
  import opened Folds
  import opened Words

  // ----- formatting --------------------------------------------------------------------------------

  /** The bytes of a number from position `from` of a block, filled in from the right. */
  lemma FilledNumber(b: seq<bv8>, v: nat, w: nat)
    requires w <= |b| == 16 && forall x :: 16 - w <= x < 16 ==> b[x] == Digit(v, 15 - x)
    ensures b[16 - w..] == BigEndian(v, w)
  {
    var s := b[16 - w..];
    forall i | 0 <= i < w
      ensures s[i] == BigEndian(v, w)[i]
    {
      BigEndianAt(v, w, w - 1 - i);
      assert s[i] == b[16 - w + i];
    }
  }

  /** Writes q0 into the last qLen bytes and returns what does not fit there. */
  method PutNumber(b: array<bv8>, q0: nat, qLen: nat) returns (q: nat)
    requires b.Length == 16 && qLen <= 8
    modifies b
    ensures b[..16 - qLen] == old(b[..16 - qLen]) && b[16 - qLen..] == BigEndian(q0, qLen)
    ensures q == Shift(q0, qLen)
  {
    hide Shift;
    ShiftSteps(q0, 0);
    q := q0;
    var i := 0;
    while i < qLen
      invariant 0 <= i <= qLen && q == Shift(q0, i)
      invariant forall x :: 16 - i <= x < 16 ==> b[x] == Digit(q0, 15 - x)
      invariant forall x :: 0 <= x < 16 - i ==> b[x] == old(b[x])
    {
      ShiftSteps(q0, i);
      b[15 - i] := (q % 256) as bv8;
      q := q / 256;
      i := i + 1;
    }
    FilledNumber(b[..], q0, qLen);
  }

  lemma ShiftSteps(v: nat, k: nat)
    ensures Shift(v, 0) == v && Shift(v, k + 1) == Shift(v, k) / 256
  {
  }

  method CopyNonce(b: array<bv8>, n: seq<bv8>)
    requires b.Length == 16 && |n| <= 13
    modifies b
    ensures b[0] == old(b[0]) && b[1..1 + |n|] == n
  {
    forall k | 0 <= k < |n| {
      b[1 + k] := n[k];
    }
  }

  /** ccmFormatBlock0 */
  method FormatBlock0(q0: nat, n: seq<bv8>, aLen: nat, tLen: nat, b: array<bv8>) returns (error: ErrorCode)
    requires b.Length == 16
    modifies b
    ensures error == if Accepts(|n|, tLen, q0) then NoError else InvalidLength
    ensures error == NoError ==> b[..] == Block0(n, aLen, tLen, q0)
  {
    hide Pow256, Shift, BigEndian;
    if |n| < 7 || |n| > 13 {
      return InvalidLength;
    }
    if tLen < 4 || tLen > 16 || tLen % 2 != 0 {
      return InvalidLength;
    }
    var qLen := 15 - |n|;
    b[0] := Flags(aLen > 0, tLen, qLen);
    CopyNonce(b, n);
    ghost var flags := b[0];
    assert b[..16 - qLen] == [flags] + n;
    var q := PutNumber(b, q0, qLen);
    assert b[..] == b[..16 - qLen] + b[16 - qLen..];
    ShiftZero(q0, qLen);
    return if q == 0 then NoError else InvalidLength;
  }

  /** ccmFormatCounter0 */
  method FormatCounter0(n: seq<bv8>, ctr: array<bv8>)
    requires 7 <= |n| <= 13 && ctr.Length == 16
    modifies ctr
    ensures ctr[..] == Counter(n, 0)
  {
    hide BigEndian;
    var qLen := 15 - |n|;
    ctr[0] := (qLen - 1) as bv8;
    CopyNonce(ctr, n);
    ghost var first := ctr[0];
    assert ctr[..1 + |n|] == [first] + n;
    forall k | 1 + |n| <= k < 16 {
      ctr[k] := 0;
    }
    assert ctr[..1 + |n|] == [first] + n;
    ZeroNumber(qLen);
    assert ctr[1 + |n|..] == BigEndian(0, qLen);
    assert ctr[..] == ctr[..1 + |n|] + ctr[1 + |n|..];
  }

  lemma {:induction false} ZeroNumber(w: nat)
    ensures BigEndian(0, w) == Repeat(0, w)
    decreases w
  {
    if w > 0 {
      ZeroNumber(w - 1);
    }
  }

  /** The carry out of byte k when v goes to v + 1. */
  function Carry(v: nat, k: nat): int {
    Shift(v + 1, k) - Shift(v, k)
  }

  lemma {:induction false} CarryIsBit(v: nat, k: nat)
    ensures 0 <= Carry(v, k) <= 1
    decreases k
  {
    if k > 0 {
      CarryIsBit(v, k - 1);
    }
  }

  /** One byte of the increment, in numbers. */
  lemma CarryStep(v: nat, k: nat, byte: nat)
    requires byte == Shift(v, k) % 256
    ensures (Carry(v, k) + byte) % 256 == Shift(v + 1, k) % 256
    ensures (Carry(v, k) + byte) / 256 == Carry(v, k + 1)
  {
    ShiftSteps(v, k);
    ShiftSteps(v + 1, k);
    hide Shift;
    var x: int, y: int := Shift(v, k), Shift(v + 1, k);
    assert Carry(v, k) + byte == y - 256 * (x / 256);
  }

  function LowByte(temp: int): bv8
    requires temp >= 0
  {
    ByteOfInt(temp % 256)
  }

  /** One byte of the increment: what is left of the sum and what is carried on. */
  lemma DigitStep(v: nat, k: nat)
    ensures var sum := Carry(v, k) + IntOfByte(Digit(v, k));
            0 <= sum && LowByte(sum) == Digit(v + 1, k) && sum / 256 == Carry(v, k + 1)
  {
    ByteBack(Shift(v, k) % 256);
    CarryIsBit(v, k);
    CarryStep(v, k, Shift(v, k) % 256);
    hide Shift, Carry;
  }

  /** ccmIncCounter: the last n bytes count up, and wrap. */
  method IncCounter(ctr: array<bv8>, n: nat, ghost v: nat)
    requires ctr.Length == 16 && n <= 16 && ctr[16 - n..] == BigEndian(v, n)
    modifies ctr
    ensures ctr[..16 - n] == old(ctr[..16 - n]) && ctr[16 - n..] == BigEndian(v + 1, n)
  {
    hide *;
    CarryStart(v);
    ghost var before := ctr[..];
    var temp: int := 1;
    var i := 0;
    while i < n
      invariant 0 <= i <= n && temp == Carry(v, i)
      invariant forall x :: 16 - i <= x < 16 ==> ctr[x] == Digit(v + 1, 15 - x)
      invariant forall x :: 0 <= x < 16 - i ==> ctr[x] == before[x]
    {
      OldByte(before, v, n, i);
      DigitStep(v, i);
      temp := temp + IntOfByte(ctr[15 - i]);
      ctr[15 - i] := LowByte(temp);
      temp := temp / 256;
      i := i + 1;
    }
    FilledNumber(ctr[..], v + 1, n);
  }

  lemma CarryStart(v: nat)
    ensures Carry(v, 0) == 1
  {
  }

  lemma OldByte(b: seq<bv8>, v: nat, n: nat, i: nat)
    requires |b| == 16 && i < n <= 16 && b[16 - n..] == BigEndian(v, n)
    ensures b[15 - i] == Digit(v, i)
  {
    BigEndianAt(v, n, i);
    assert b[16 - n..][n - 1 - i] == b[15 - i];
  }

  // ----- the MAC over the associated data ---------------------------------------------------------------

  /** cipher->encryptBlock */
  method EncryptInto(e: Cipher, src: array<bv8>, dst: array<bv8>)
    requires src.Length == dst.Length == 16
    modifies dst
    ensures dst[..] == e(old(src[..]))
  {
    var r := e(src[..]);
    forall k | 0 <= k < 16 {
      dst[k] := r[k];
    }
    assert dst[..] == r;
  }

  lemma CbcCons(e: Cipher, y: Block, x: seq<bv8>)
    requires x != []
    ensures var k := Min(|x|, 16);
            Cbc(e, y, Blocks(x)) == Cbc(e, e(XorBytes(x[..k], y[..k]) + y[k..]), Blocks(x[k..]))
  {
    var k := Min(|x|, 16);
    BlocksCons(x);
    PartialBlock(y, x[..k]);
    XorBytesCommutes(x[..k], y[..k]);
    hide Blocks, XorBytes, Pad;
    assert ([Pad(x[..k])] + Blocks(x[k..]))[1..] == Blocks(x[k..]);
  }

  /** One more chunk of at most a block into the MAC. */
  method MacChunk(e: Cipher, y: array<bv8>, x: array<bv8>, off: nat, m: nat)
    requires y.Length == 16 && m <= 16 && off + m <= x.Length && x != y
    modifies y
    ensures y[..] == e(XorBytes(x[off..off + m], old(y[..m])) + old(y[m..]))
  {
    hide XorBytes;
    XorBlock(y, 0, x, off, y, 0, m);
    assert y[..] == y[0..m] + y[m..];
    EncryptInto(e, y, y);
  }

  /** The remaining data bytes, block by block. */
  method MacRest(e: Cipher, y: array<bv8>, x: array<bv8>, from: nat)
    requires y.Length == 16 && from <= x.Length && x != y
    modifies y
    ensures y[..] == Cbc(e, old(y[..]), Blocks(x[from..]))
  {
    hide Cbc, Blocks, XorBytes;
    ghost var d := x[..];
    assert d[from..] == x[from..];
    var aLen := x.Length - from;
    var off := from;
    while aLen > 0
      invariant from <= off && 0 <= aLen && off + aLen == |d| && x[..] == d
      invariant Cbc(e, y[..], Blocks(d[off..])) == Cbc(e, old(y[..]), Blocks(d[from..]))
    {
      var m := Min(aLen, 16);
      CbcCons(e, y[..], d[off..]);
      Tail(d, off, m);
      assert d[off..off + m] == x[off..off + m];
      MacChunk(e, y, x, off, m);
      off := off + m;
      aLen := aLen - m;
    }
    assert d[off..] == [];
    NoBlocks();
    NothingToMac(e, y[..]);
  }

  lemma NothingToMac(e: Cipher, y: Block)
    ensures Cbc(e, y, []) == y
  {
  }

  /** How much of the associated data goes into the block of its length. */
  function FirstAad(a: seq<bv8>): (m: nat)
    ensures m <= |a| && |StoredLength(|a|)| + m <= 16
  {
    StoredWidth(|a|);
    Min(|a|, 16 - |StoredLength(|a|)|)
  }

  lemma FirstAadBlock(e: Cipher, y: Block, a: seq<bv8>)
    requires a != []
    ensures var (len, m) := (StoredLength(|a|), FirstAad(a));
            Cbc(e, y, AadPart(len, a)) == Cbc(e, e(XorBytes(len + a[..m] + Repeat(0, 16 - |len| - m), y)), Blocks(a[m..]))
  {
    StoredWidth(|a|);
    var (len, m) := (StoredLength(|a|), FirstAad(a));
    hide StoredLength, Cbc, XorBytes, Blocks;
    var x := len + a;
    CbcCons(e, y, x);
    var k := Min(|x|, 16);
    assert k == |len| + m && x[..k] == len + a[..m] && x[k..] == a[m..];
    PaddedChunk(y, x[..k]);
  }

  lemma PaddedChunk(y: Block, chunk: seq<bv8>)
    requires 0 < |chunk| <= 16
    ensures XorBytes(chunk, y[..|chunk|]) + y[|chunk|..] == XorBytes(chunk + Repeat(0, 16 - |chunk|), y)
  {
    PartialBlock(y, chunk);
    PadShort(chunk);
    XorBytesCommutes(chunk, y[..|chunk|]);
    XorBytesCommutes(y, Pad(chunk));
    hide XorBytes, Pad;
  }

  /** Fills b with the bytes of s from position 0 and zeros after them. */
  method PutPrefix(b: array<bv8>, s: seq<bv8>, a: array<bv8>, m: nat)
    requires b.Length == 16 && |s| + m <= 16 && m <= a.Length && a != b
    modifies b
    ensures b[..] == s + a[..m] + Repeat(0, 16 - |s| - m)
  {
    forall k | 0 <= k < 16 {
      b[k] := 0;
    }
    forall k | 0 <= k < |s| {
      b[k] := s[k];
    }
    forall k | |s| <= k < |s| + m {
      b[k] := a[k - |s|];
    }
  }

  /** The additional data: its length, then its bytes. */
  method MacAad(e: Cipher, y: array<bv8>, b: array<bv8>, a: array<bv8>)
    requires y.Length == b.Length == 16 && y != b && a != y && a != b
    modifies y, b
    ensures y[..] == Cbc(e, old(y[..]), AadPart(StoredLength(a.Length), a[..]))
  {
    hide Cbc, Blocks, XorBytes, BigEndian;
    NothingToMac(e, y[..]);
    if a.Length > 0 {
      ghost var y0: Block, a0 := y[..], a[..];
      var len := StoredLength(a.Length);
      FirstAadBlock(e, y0, a0);
      var m := Min(a.Length, 16 - |len|);
      assert m == FirstAad(a0);
      PutPrefix(b, len, a, m);
      assert a[..m] == a0[..m] && a[m..] == a0[m..];
      ghost var b0 := b[..];
      MacFull(e, y, b);
      MacRest(e, y, a, m);
    }
  }

  method MacFull(e: Cipher, y: array<bv8>, b: array<bv8>)
    requires y.Length == b.Length == 16 && y != b
    modifies y
    ensures y[..] == e(XorBytes(b[..], old(y[..])))
  {
    hide XorBytes;
    ghost var (b0, y0) := (b[..], y[..]);
    assert b[0..16] == b0 && y[..16] == y0 && y[16..] == [];
    MacChunk(e, y, b, 0, 16);
    assert XorBytes(b0, y0) + [] == XorBytes(b0, y0);
  }

  // ----- the payload ----------------------------------------------------------------------------------------

  lemma StreamCons(e: Cipher, nonce: seq<bv8>, i: nat, x: seq<bv8>)
    requires 7 <= |nonce| <= 13 && x != []
    ensures var k := Min(|x|, 16);
            && Stream(e, nonce, i, x)[..k] == XorBytes(x[..k], e(Counter(nonce, i)))
            && Stream(e, nonce, i, x)[k..] == Stream(e, nonce, i + 1, x[k..])
  {
    hide Counter;
  }

  /** Increment the counter and compute S(i). */
  method NextKeyBlock(e: Cipher, b: array<bv8>, s: array<bv8>, n: seq<bv8>, ghost i: nat)
    requires 7 <= |n| <= 13 && b.Length == s.Length == 16 && b != s && b[..] == Counter(n, i)
    modifies b, s
    ensures b[..] == Counter(n, i + 1) && s[..] == e(Counter(n, i + 1))
  {
    hide BigEndian;
    var q := 15 - |n|;
    assert b[..16 - q] == [(14 - |n|) as bv8] + n && b[16 - q..] == BigEndian(i, q);
    IncCounter(b, q, i);
    assert b[..] == b[..16 - q] + b[16 - q..];
    EncryptInto(e, b, s);
  }

  /** c := p XOR S(i) over one chunk. */
  method XorKey(c: array<bv8>, p: array<bv8>, s: array<bv8>, off: nat, m: nat)
    requires off + m <= p.Length == c.Length && m <= 16 == s.Length && s != p && s != c
    modifies c
    ensures c[off..off + m] == XorBytes(old(p[off..off + m]), s[..])
    ensures c[..off] == old(c[..off]) && c[off + m..] == old(c[off + m..])
    ensures p != c ==> p[..] == old(p[..])
  {
    ghost var chunk := p[off..off + m];
    XorOfPrefix(chunk, s[..]);
    hide XorBytes;
    assert s[0..m] == s[..][..m];
    XorBlock(c, off, p, off, s, 0, m);
  }

  /** The loop of ccmEncrypt: into the MAC first, then encrypt, possibly in the same buffer. */
  method EncryptPayload(e: Cipher, n: seq<bv8>, y: array<bv8>, b: array<bv8>, s: array<bv8>, p: array<bv8>, c: array<bv8>)
    requires 7 <= |n| <= 13 && y.Length == b.Length == s.Length == 16 && p.Length == c.Length
    requires y != b && y != s && b != s && p != y && p != b && p != s && c != y && c != b && c != s
    requires b[..] == Counter(n, 0)
    modifies y, b, s, c
    ensures c[..] == Ciphertext(e, n, old(p[..]))
    ensures y[..] == Cbc(e, old(y[..]), Blocks(old(p[..])))
  {
    hide Cbc, Blocks, XorBytes, Stream, Counter;
    ghost var x, y0: Block := p[..], y[..];
    ghost var z := Stream(e, n, 1, x);
    ghost var i := 0;
    var length := p.Length;
    var off := 0;
    WholeSlice(x);
    WholeSlice(z);
    while length > 0
      invariant 0 <= off && 0 <= length && off + length == |x|
      invariant p[off..] == x[off..] && c[..off] == z[..off]
      invariant b[..] == Counter(n, i) && Stream(e, n, i + 1, x[off..]) == z[off..]
      invariant Cbc(e, y[..], Blocks(x[off..])) == Cbc(e, y0, Blocks(x))
    {
      var m := Min(length, 16);
      CbcCons(e, y[..], x[off..]);
      StreamCons(e, n, i + 1, x[off..]);
      Tail(x, off, m);
      Tail(z, off, m);
      assert p[off..off + m] == p[off..][..m] && p[off + m..] == p[off..][m..];
      MacChunk(e, y, p, off, m);
      NextKeyBlock(e, b, s, n, i);
      XorKey(c, p, s, off, m);
      assert c[..off + m] == c[..off] + c[off..off + m] && z[..off + m] == z[..off] + z[off..off + m];
      off := off + m;
      length := length - m;
      i := i + 1;
    }
    assert x[off..] == [];
    NoBlocks();
    NothingToMac(e, y[..]);
  }

  /** The loop of ccmDecrypt: decrypt first, then into the MAC, possibly in the same buffer. */
  method DecryptPayload(e: Cipher, n: seq<bv8>, y: array<bv8>, b: array<bv8>, s: array<bv8>, c: array<bv8>, p: array<bv8>)
    requires 7 <= |n| <= 13 && y.Length == b.Length == s.Length == 16 && p.Length == c.Length
    requires y != b && y != s && b != s && p != y && p != b && p != s && c != y && c != b && c != s
    requires b[..] == Counter(n, 0)
    modifies y, b, s, p
    ensures p[..] == Ciphertext(e, n, old(c[..]))
    ensures y[..] == Cbc(e, old(y[..]), Blocks(p[..]))
  {
    hide Cbc, Blocks, XorBytes, Stream, Counter;
    ghost var x, y0: Block := c[..], y[..];
    ghost var z := Stream(e, n, 1, x);
    ghost var i := 0;
    var length := c.Length;
    var off := 0;
    WholeSlice(x);
    WholeSlice(z);
    while length > 0
      invariant 0 <= off && 0 <= length && off + length == |x|
      invariant c[off..] == x[off..] && p[..off] == z[..off]
      invariant b[..] == Counter(n, i) && Stream(e, n, i + 1, x[off..]) == z[off..]
      invariant Cbc(e, y[..], Blocks(z[off..])) == Cbc(e, y0, Blocks(z))
    {
      var m := Min(length, 16);
      CbcCons(e, y[..], z[off..]);
      StreamCons(e, n, i + 1, x[off..]);
      Tail(x, off, m);
      Tail(z, off, m);
      assert c[off..off + m] == c[off..][..m] && c[off + m..] == c[off..][m..];
      NextKeyBlock(e, b, s, n, i);
      XorKey(p, c, s, off, m);
      assert p[..off + m] == p[..off] + p[off..off + m] && z[..off + m] == z[..off] + z[off..off + m];
      MacChunk(e, y, p, off, m);
      off := off + m;
      length := length - m;
      i := i + 1;
    }
    assert z[off..] == [];
    NoBlocks();
    NothingToMac(e, y[..]);
  }

  // ----- the two entry points ----------------------------------------------------------------------------------

  /** Everything before the payload: Y over B(0) and the associated data, CTR(0) in b, MSB(S(0)) in t. */
  method Start(e: Cipher, n: seq<bv8>, a: array<bv8>, length: nat, tLen: nat,
               y: array<bv8>, b: array<bv8>, s: array<bv8>, t: array<bv8>) returns (error: ErrorCode)
    requires y.Length == b.Length == s.Length == 16 && tLen <= t.Length
    requires y != b && y != s && b != s && t != y && t != b && t != s && a != y && a != b && a != s
    modifies y, b, s, t
    ensures error == if Accepts(|n|, tLen, length) then NoError else InvalidLength
    ensures error == NoError ==>
      && y[..] == Cbc(e, e(Block0(n, a.Length, tLen, length)), AadPart(StoredLength(a.Length), old(a[..])))
      && b[..] == Counter(n, 0)
      && t[..tLen] == e(Counter(n, 0))[..tLen] && t[tLen..] == old(t[tLen..])
    ensures error != NoError ==> t[..] == old(t[..])
  {
    hide Cbc, Block0, AadPart, Counter, Pow256;
    ghost var a0, t0 := a[..], t[..];
    error := FormatBlock0(length, n, a.Length, tLen, b);
    if error != NoError {
      return;
    }
    EncryptInto(e, b, y);
    MacAad(e, y, b, a);
    FormatCounter0(n, b);
    EncryptInto(e, b, s);
    StoreTag(t, s, tLen);
  }

  lemma CbcParts(e: Cipher, l: seq<bv8>, n: seq<bv8>, a: seq<bv8>, p: seq<bv8>, tLen: nat)
    requires 7 <= |n| <= 13 && 4 <= tLen <= 16
    ensures CbcMac(e, l, n, a, p, tLen) == Cbc(e, Cbc(e, e(Block0(n, |a|, tLen, |p|)), AadPart(l, a)), Blocks(p))
  {
    hide CbcStep, Block0, AadPart, Blocks;
    FoldAppend(CbcStep(e), e(Block0(n, |a|, tLen, |p|)), AadPart(l, a), Blocks(p));
  }

  /** Compute MAC: the saved part of S(0) XOR the last Y. */
  method FinishMac(e: Cipher, ghost l: seq<bv8>, n: seq<bv8>, y: array<bv8>, t: array<bv8>, tLen: nat,
                   ghost a: seq<bv8>, ghost p: seq<bv8>)
    requires 7 <= |n| <= 13 && 4 <= tLen <= 16 && y.Length == 16 && tLen <= t.Length && t != y
    requires y[..] == Cbc(e, Cbc(e, e(Block0(n, |a|, tLen, |p|)), AadPart(l, a)), Blocks(p))
    requires t[..tLen] == e(Counter(n, 0))[..tLen]
    modifies t
    ensures t[..tLen] == TagWith(e, l, n, a, p, tLen) && t[tLen..] == old(t[tLen..])
  {
    CbcParts(e, l, n, a, p, tLen);
    TagIs(e, l, n, a, p, tLen);
    hide Cbc, Block0, AadPart, Counter, Blocks, XorBytes, CbcMac, TagWith;
    assert t[0..tLen] == t[..tLen] && y[0..tLen] == y[..tLen] && y[..tLen] == y[..][..tLen];
    XorBlock(t, 0, t, 0, y, 0, tLen);
  }

  lemma TagIs(e: Cipher, l: seq<bv8>, n: seq<bv8>, a: seq<bv8>, p: seq<bv8>, tLen: nat)
    requires 7 <= |n| <= 13 && 4 <= tLen <= 16
    ensures TagWith(e, l, n, a, p, tLen) == XorBytes(e(Counter(n, 0))[..tLen], CbcMac(e, l, n, a, p, tLen)[..tLen])
  {
    hide XorBytes, Counter, CbcMac;
  }

  /** ccmEncrypt */
  method Encrypt(cipher: CipherAlgo, n: seq<bv8>, a: array<bv8>, p: array<bv8>, c: array<bv8>, t: array<bv8>, tLen: nat)
    returns (error: ErrorCode)
    requires p.Length == c.Length && tLen <= t.Length && t != a && t != p && t != c
    modifies c, t
    ensures error == if !cipher.isBlockCipher || cipher.blockSize != 16 then InvalidParameter
                     else if Accepts(|n|, tLen, p.Length) then NoError else InvalidLength
    ensures error == NoError ==>
      && c[..] == Ciphertext(cipher.encrypt, n, old(p[..]))
      && t[..tLen] == TagWith(cipher.encrypt, StoredLength(a.Length), n, old(a[..]), old(p[..]), tLen)
      && t[tLen..] == old(t[tLen..])
    ensures error == NoError && a.Length < 0x1_0000_0000 ==>
      t[..tLen] == Tag(cipher.encrypt, n, old(a[..]), old(p[..]), tLen)
    ensures error != NoError ==> c[..] == old(c[..]) && t[..] == old(t[..])
  {
    if !cipher.isBlockCipher || cipher.blockSize != 16 {
      return InvalidParameter;
    }
    StoredIsStandardIff(a.Length);
    hide Cbc, Block0, AadPart, Counter, Blocks, Ciphertext, TagWith, StoredLength, AadLength, Pow256;
    ghost var e, a0, p0 := cipher.encrypt, a[..], p[..];
    var b, y, s := new bv8[16], new bv8[16], new bv8[16];
    error := Start(cipher.encrypt, n, a, p.Length, tLen, y, b, s, t);
    if error != NoError {
      return;
    }
    EncryptPayload(cipher.encrypt, n, y, b, s, p, c);
    FinishMac(cipher.encrypt, StoredLength(a.Length), n, y, t, tLen, a0, p0);
  }

  /** ccmDecrypt */
  method Decrypt(cipher: CipherAlgo, n: seq<bv8>, a: array<bv8>, c: array<bv8>, p: array<bv8>, t: array<bv8>, tLen: nat)
    returns (error: ErrorCode)
    requires p.Length == c.Length && tLen <= t.Length && t != p
    modifies p
    ensures error == if !cipher.isBlockCipher || cipher.blockSize != 16 then InvalidParameter
                     else if !Accepts(|n|, tLen, c.Length) then InvalidLength
                     else if t[..tLen] == TagWith(cipher.encrypt, StoredLength(a.Length), n, old(a[..]), p[..], tLen)
                     then NoError else Failed
    ensures a.Length < 0x1_0000_0000 && (error == NoError || error == Failed) ==>
      (error == NoError <==> t[..tLen] == Tag(cipher.encrypt, n, old(a[..]), p[..], tLen))
    ensures error == NoError || error == Failed ==> p[..] == Ciphertext(cipher.encrypt, n, old(c[..]))
    ensures error == InvalidParameter || error == InvalidLength ==> p[..] == old(p[..])
  {
    if !cipher.isBlockCipher || cipher.blockSize != 16 {
      return InvalidParameter;
    }
    StoredIsStandardIff(a.Length);
    hide Cbc, Block0, AadPart, Counter, Blocks, Ciphertext, TagWith, StoredLength, AadLength, Pow256;
    ghost var e, a0 := cipher.encrypt, a[..];
    var b, y, s, r := new bv8[16], new bv8[16], new bv8[16], new bv8[16];
    if tLen > 16 {
      // FormatBlock0 refuses this length in any case; here the test bounds the bytes of S(0) that are kept.
      return InvalidLength;
    }
    error := Start(cipher.encrypt, n, a, c.Length, tLen, y, b, s, r);
    if error != NoError {
      return;
    }
    DecryptPayload(cipher.encrypt, n, y, b, s, c, p);
    FinishMac(cipher.encrypt, StoredLength(a.Length), n, y, r, tLen, a0, p[..]);
    var mask := CompareTags(r, t, tLen);
    return if mask == 0 then NoError else Failed;
  }

  /** Decrypting what ccmEncrypt produced succeeds and gives the plaintext back. */
  method EncryptThenDecrypt(cipher: CipherAlgo, n: seq<bv8>, a: array<bv8>, p: array<bv8>, c: array<bv8>, q: array<bv8>,
                            t: array<bv8>, tLen: nat) returns (first: ErrorCode, second: ErrorCode)
    requires p.Length == c.Length == q.Length && tLen <= t.Length
    requires t != a && t != p && t != c && t != q && c != a && c != p && q != c && q != p && q != a
    modifies c, t, q
    ensures first == NoError ==> second == NoError && q[..] == p[..]
    ensures first != NoError ==> second == first
  {
    hide Ciphertext, Tag, TagWith, StoredLength, Pow256;
    ghost var x := p[..];
    first := Encrypt(cipher, n, a, p, c, t, tLen);
    if first == NoError {
      DecryptionUndoesEncryption(cipher.encrypt, n, x);
    }
    second := Decrypt(cipher, n, a, c, q, t, tLen);
  }
}
