/** gcmEncrypt and gcmDecrypt, working block by block in place, against the mode's specification. */
module GcmMode {
  import opened BlockOps
  import opened Words
  import opened Folds
  import opened Gf128
  import opened Gcm
  import opened GcmSpec

  /** The carry from byte to byte is the carry of a 32-bit addition. */
  function Plus(carry: bv16, b: bv8): bv16 {
    carry + (b as bv16)
  }

  function High(temp: bv16): bv16 {
    temp >> 8
  }

  function Low(temp: bv16): bv8 {
    (temp & 0xFF) as bv8
  }

  /** Three carries make an increment of the word. */
  lemma CarryChain(a: bv8, b: bv8, c: bv8, d: bv8)
    ensures var t0 := Plus(1, d);
            var t1 := Plus(High(t0), c);
            var t2 := Plus(High(t1), b);
            Load32BE(Low(Plus(High(t2), a)), Low(t2), Low(t1), Low(t0)) == Load32BE(a, b, c, d) + 1
  {
  }

  /** gcmIncCounter */
  method IncCounter(ctr: array<bv8>)
    requires ctr.Length == 16
    modifies ctr
    ensures ctr[..] == Inc32(old(ctr[..]))
  {
    hide Load32BE, Store32BE, Plus, High, Low;
    ghost var was := ctr[..];
    CarryChain(ctr[12], ctr[13], ctr[14], ctr[15]);
    var temp := Plus(1, ctr[15]);
    ctr[15] := Low(temp);
    temp := Plus(High(temp), ctr[14]);
    ctr[14] := Low(temp);
    temp := Plus(High(temp), ctr[13]);
    ctr[13] := Low(temp);
    temp := Plus(High(temp), ctr[12]);
    ctr[12] := Low(temp);
    StoreLoad32BE(ctr[12], ctr[13], ctr[14], ctr[15]);
    assert ctr[..] == was[..12] + [ctr[12], ctr[13], ctr[14], ctr[15]];
  }

  // ----- hashing a string of any length -----------------------------------------------------------

  lemma GhashCons(h: Elem, y: Block, x: seq<bv8>)
    requires x != []
    ensures var k := Min(|x|, 16);
            var z := XorBytes(y[..k], x[..k]) + y[k..];
            GhashFrom(h, y, Blocks(x)) == GhashFrom(h, BlockProduct(z, h), Blocks(x[k..]))
  {
    var k := Min(|x|, 16);
    BlocksCons(x);
    PartialBlock(y, x[..k]);
    hide BlockProduct, Blocks, XorBytes, Pad;
    assert ([Pad(x[..k])] + Blocks(x[k..]))[1..] == Blocks(x[k..]);
  }

  /** The next chunk, a whole block or the short last one, into GHASH. */
  method AbsorbChunk(context: GcmContext, s: array<bv8>, data: array<bv8>, off: nat, k: nat)
    requires context.Valid() && s.Length == 16 && s != data && s as object != context.m
    requires k <= 16 && off + k <= data.Length
    modifies s
    ensures s[..] == BlockProduct(XorBytes(old(s[..k]), old(data[off..off + k])) + old(s[k..]), context.H())
  {
    hide BlockProduct, XorBytes, GcmContext.H, GcmContext.Valid;
    assert s[0..k] == s[..k];
    XorBlock(s, 0, s, 0, data, off, k);
    assert s[..] == s[0..k] + s[k..];
    context.Mul(s);
  }

  /** The block loop that feeds the IV or the AAD to GHASH. */
  method Absorb(context: GcmContext, s: array<bv8>, data: array<bv8>)
    requires context.Valid() && s.Length == 16 && s != data && s as object != context.m
    modifies s
    ensures s[..] == GhashFrom(context.H(), old(s[..]), Blocks(old(data[..])))
  {
    hide GhashStep, BlockProduct, Blocks, XorBytes, GcmContext.H, GcmContext.Valid;
    ghost var h, x := context.H(), data[..];
    var n := data.Length;
    var off := 0;
    WholeSlice(x);
    while n > 0
      invariant 0 <= off && 0 <= n && off + n == |x| && data[..] == x
      invariant GhashFrom(h, s[..], Blocks(x[off..])) == GhashFrom(h, old(s[..]), Blocks(x))
    {
      var k := Min(n, 16);
      ghost var y: Block := s[..];
      GhashCons(h, y, x[off..]);
      assert x[off..][..k] == x[off..off + k] == data[off..off + k] && x[off..][k..] == x[off + k..];
      AbsorbChunk(context, s, data, off, k);
      off := off + k;
      n := n - k;
    }
    assert x[off..] == [];
    NoBlocks();
  }

  // ----- pieces both directions share ------------------------------------------------------------

  function EncryptWith(context: GcmContext): Cipher
    reads context
  {
    context.cipherAlgo.encrypt
  }

  /** The hash subkey of the specification is the one gcmInit derived. */
  lemma SubkeyIsH(context: GcmContext)
    ensures Subkey(EncryptWith(context)) == context.H()
  {
    hide ToElem;
  }

  /** One more block into GHASH: gcmXorBlock and gcmMul. */
  method AbsorbBlock(context: GcmContext, s: array<bv8>, b: array<bv8>)
    requires context.Valid() && s.Length == 16 && b.Length == 16 && s != b && s as object != context.m
    modifies s
    ensures s[..] == BlockProduct(XorBytes(old(s[..]), old(b[..])), context.H())
  {
    hide BlockProduct, XorBytes, GcmContext.H, GcmContext.Valid;
    ghost var sum := XorBytes(s[..], b[..]);
    assert s[..16] == s[..] && s[16..] == [] && b[0..16] == b[..] && sum + [] == sum;
    AbsorbChunk(context, s, b, 0, 16);
  }

  /** The lengths in bits, stored as two 64-bit big-endian words, close the hash. */
  method AbsorbLengths(context: GcmContext, s: array<bv8>, m: nat, n: nat)
    requires context.Valid() && s.Length == 16 && s as object != context.m
    modifies s
    ensures s[..] == BlockProduct(XorBytes(old(s[..]), LengthBlock(m, n)), context.H())
  {
    hide BlockProduct, XorBytes, GcmContext.H, GcmContext.Valid, LengthBlock;
    var lengths := LengthBlock(m, n);
    var b := new bv8[16](i requires 0 <= i < 16 => lengths[i]);
    assert b[..] == lengths;
    AbsorbBlock(context, s, b);
  }

  lemma GhashSnoc(h: Elem, y: Block, xs: seq<Block>, x: Block)
    ensures GhashFrom(h, y, xs + [x]) == BlockProduct(XorBytes(GhashFrom(h, y, xs), x), h)
  {
    hide BlockProduct, XorBytes;
    FoldAppend(GhashStep(h), y, xs, [x]);
    FoldOne(GhashStep(h), GhashFrom(h, y, xs), x);
  }

  lemma GhashTwo(h: Elem, xs: seq<Block>, ys: seq<Block>)
    ensures Ghash(h, xs + ys) == GhashFrom(h, Ghash(h, xs), ys)
  {
    hide GhashStep;
    FoldAppend(GhashStep(h), ZeroBlock(), xs, ys);
  }

  /** J0, from an IV of any length but zero. */
  method FormPreCounter(context: GcmContext, iv: array<bv8>) returns (j: array<bv8>)
    requires context.Valid() && iv.Length >= 1
    ensures fresh(j) && j.Length == 16
    ensures j[..] == PreCounter(EncryptWith(context), iv[..])
  {
    SubkeyIsH(context);
    hide GcmContext.H, GcmContext.Valid, BlockProduct, XorBytes, GhashFrom, LengthBlock, Blocks, ToElem, EncryptWith, Subkey;
    if iv.Length == 12 {
      j := NewBlock(iv[..] + [0, 0, 0, 1]);
    } else {
      j := NewBlock(ZeroBlock());
      Absorb(context, j, iv);
      GhashSnoc(context.H(), ZeroBlock(), Blocks(iv[..]), LengthBlock(0, 8 * iv.Length));
      AbsorbLengths(context, j, 0, 8 * iv.Length);
    }
  }

  // ----- encryption ---------------------------------------------------------------------------------

  lemma GctrCons(e: Cipher, j: Block, x: seq<bv8>)
    requires x != []
    ensures var k := Min(|x|, 16);
            Gctr(e, j, x)[..k] == XorBytes(x[..k], e(Inc32(j))) && Gctr(e, j, x)[k..] == Gctr(e, Inc32(j), x[k..])
  {
    hide Inc32;
  }

  /** One counter block: step the counter, encrypt it, XOR it onto the next chunk. */
  method CounterBlock(context: GcmContext, j: array<bv8>, x: array<bv8>, y: array<bv8>, off: nat, k: nat)
    requires context.Valid() && j.Length == 16 && 0 < k <= 16
    requires off + k <= x.Length == y.Length && j != x && j != y
    modifies j, y
    ensures j[..] == Inc32(old(j[..]))
    ensures y[off..off + k] == XorBytes(old(x[off..off + k]), EncryptWith(context)(Inc32(old(j[..]))))
    ensures y[..off] == old(y[..off]) && y[off + k..] == old(y[off + k..])
    ensures x != y ==> x[..] == old(x[..])
  {
    hide Inc32, XorBytes;
    IncCounter(j);
    var b := NewBlock(context.cipherAlgo.encrypt(j[..]));
    ghost var chunk := x[off..off + k];
    XorOfPrefix(chunk, b[..]);
    XorBlock(y, off, x, off, b, 0, k);
  }

  /** The plaintext loop of gcmEncrypt; p and c may be the same buffer. */
  method EncryptBlocks(context: GcmContext, j: array<bv8>, s: array<bv8>, p: array<bv8>, c: array<bv8>)
    requires context.Valid() && j.Length == s.Length == 16 && p.Length == c.Length
    requires j != p && j != c && j != s && s != p && s != c && s as object != context.m
    modifies j, s, c
    ensures c[..] == Gctr(EncryptWith(context), old(j[..]), old(p[..]))
    ensures s[..] == GhashFrom(context.H(), old(s[..]), Blocks(c[..]))
  {
    hide GhashFrom, BlockProduct, Blocks, XorBytes, GcmContext.H, GcmContext.Valid, Inc32, Gctr, EncryptWith;
    ghost var h, e, j0: Block, s0: Block := context.H(), EncryptWith(context), j[..], s[..];
    ghost var x := p[..];
    ghost var y := Gctr(e, j0, x);
    var n := p.Length;
    var off := 0;
    WholeSlice(x);
    WholeSlice(y);
    while n > 0
      invariant 0 <= off && 0 <= n && off + n == |x|
      invariant p[off..] == x[off..]
      invariant c[..off] == y[..off]
      invariant Gctr(e, j[..], x[off..]) == y[off..]
      invariant GhashFrom(h, s[..], Blocks(y[off..])) == GhashFrom(h, s0, Blocks(y))
    {
      var k := Min(n, 16);
      GctrCons(e, j[..], x[off..]);
      GhashCons(h, s[..], y[off..]);
      Tail(x, off, k);
      Tail(y, off, k);
      assert p[off..off + k] == p[off..][..k] && p[off + k..] == p[off..][k..];
      CounterBlock(context, j, p, c, off, k);
      assert c[..off + k] == c[..off] + c[off..off + k] && y[..off + k] == y[..off] + y[off..off + k];
      AbsorbChunk(context, s, c, off, k);
      off := off + k;
      n := n - k;
    }
    assert y[off..] == [];
    NoBlocks();
    GhashNothing(h, s[..]);
  }

  lemma GhashNothing(h: Elem, y: Block)
    ensures GhashFrom(h, y, []) == y
  {
  }

  /** The hash over AAD, ciphertext and lengths, put together from its parts. */
  lemma AuthBlockParts(e: Cipher, a: seq<bv8>, c: seq<bv8>)
    ensures var h := Subkey(e);
            AuthBlock(e, a, c) ==
            BlockProduct(XorBytes(GhashFrom(h, GhashFrom(h, ZeroBlock(), Blocks(a)), Blocks(c)),
                                  LengthBlock(8 * |a|, 8 * |c|)), h)
  {
    hide BlockProduct, XorBytes, GhashFrom, Blocks, LengthBlock, Subkey;
    var h := Subkey(e);
    GhashTwo(h, Blocks(a), Blocks(c));
    GhashSnoc(h, ZeroBlock(), Blocks(a) + Blocks(c), LengthBlock(8 * |a|, 8 * |c|));
  }

  /** J0 and the first half of the tag, MSB(CIPH(J0)). */
  method StartTag(context: GcmContext, iv: array<bv8>, t: array<bv8>, tLen: nat) returns (j: array<bv8>)
    requires context.Valid() && iv.Length >= 1 && tLen <= 16 && tLen <= t.Length
    modifies t
    ensures fresh(j) && j.Length == 16 && j[..] == PreCounter(EncryptWith(context), old(iv[..]))
    ensures t[..tLen] == EncryptWith(context)(j[..])[..tLen] && t[tLen..] == old(t[tLen..])
  {
    hide GcmContext.Valid, PreCounter;
    j := FormPreCounter(context, iv);
    var b := NewBlock(context.cipherAlgo.encrypt(j[..]));
    StoreTag(t, b, tLen);
  }

  lemma TagParts(e: Cipher, iv: seq<bv8>, a: seq<bv8>, c: seq<bv8>, tLen: nat)
    requires tLen <= 16
    ensures Tag(e, iv, a, c, tLen) == XorBytes(AuthBlock(e, a, c)[..tLen], e(PreCounter(e, iv))[..tLen])
  {
    hide XorBytes, AuthBlock, PreCounter;
    XorOfPrefix(AuthBlock(e, a, c)[..tLen], e(PreCounter(e, iv)));
  }

  /** The lengths close the hash, and the hash goes over the first half of the tag. */
  method FinishTag(context: GcmContext, s: array<bv8>, t: array<bv8>, tLen: nat, aLen: nat, cLen: nat,
                   ghost iv: seq<bv8>, ghost a: seq<bv8>, ghost c: seq<bv8>)
    requires context.Valid() && s.Length == 16 && tLen <= 16 && tLen <= t.Length
    requires t != s && s as object != context.m && aLen == |a| && cLen == |c|
    requires s[..] == GhashFrom(context.H(), GhashFrom(context.H(), ZeroBlock(), Blocks(a)), Blocks(c))
    requires t[..tLen] == EncryptWith(context)(PreCounter(EncryptWith(context), iv))[..tLen]
    modifies s, t
    ensures t[..tLen] == Tag(EncryptWith(context), iv, a, c, tLen) && t[tLen..] == old(t[tLen..])
  {
    SubkeyIsH(context);
    hide GhashFrom, BlockProduct, Blocks, XorBytes, GcmContext.H, GcmContext.Valid, EncryptWith, Subkey, PreCounter,
      LengthBlock, AuthBlock, Tag;
    ghost var e := EncryptWith(context);
    AuthBlockParts(e, a, c);
    AbsorbLengths(context, s, 8 * aLen, 8 * cLen);
    TagParts(e, iv, a, c, tLen);
    MaskTag(t, s, tLen);
  }

  /** gcmEncrypt behind its two checks. */
  method EncryptAll(context: GcmContext, iv: array<bv8>, a: array<bv8>, p: array<bv8>, c: array<bv8>,
                    t: array<bv8>, tLen: nat)
    requires context.Valid() && p.Length == c.Length && Accepts(iv.Length, tLen) && tLen <= t.Length
    requires t != a && t != p && t != c
    modifies c, t
    ensures c[..] == Ciphertext(EncryptWith(context), old(iv[..]), old(p[..]))
    ensures t[..tLen] == Tag(EncryptWith(context), old(iv[..]), old(a[..]), c[..], tLen) && t[tLen..] == old(t[tLen..])
  {
    hide GhashFrom, Blocks, GcmContext.H, GcmContext.Valid, Gctr, EncryptWith, PreCounter, Tag, Inc32, ZeroBlock;
    ghost var iv0, a0 := iv[..], a[..];
    var j := StartTag(context, iv, t, tLen);
    var s := NewBlock(ZeroBlock());
    Absorb(context, s, a);
    EncryptBlocks(context, j, s, p, c);
    FinishTag(context, s, t, tLen, a.Length, c.Length, iv0, a0, c[..]);
  }

  /** gcmEncrypt */
  method Encrypt(context: GcmContext, iv: array<bv8>, a: array<bv8>, p: array<bv8>, c: array<bv8>,
                 t: array<bv8>, tLen: nat) returns (error: ErrorCode)
    requires context.Valid() && p.Length == c.Length && tLen <= t.Length
    requires t != a && t != p && t != c
    modifies c, t
    ensures error == if Accepts(iv.Length, tLen) then NoError else InvalidLength
    ensures error == NoError ==>
      && c[..] == Ciphertext(EncryptWith(context), old(iv[..]), old(p[..]))
      && t[..tLen] == Tag(EncryptWith(context), old(iv[..]), old(a[..]), c[..], tLen)
      && t[tLen..] == old(t[tLen..])
    ensures error != NoError ==> c[..] == old(c[..]) && t[..] == old(t[..])
  {
    if iv.Length < 1 {
      return InvalidLength;
    }
    if tLen < 4 || tLen > 16 {
      return InvalidLength;
    }
    EncryptAll(context, iv, a, p, c, t, tLen);
    return NoError;
  }

  // ----- decryption -------------------------------------------------------------------------------

  /** The ciphertext loop of gcmDecrypt: hash first, then decrypt, possibly in the same buffer. */
  method DecryptBlocks(context: GcmContext, j: array<bv8>, s: array<bv8>, c: array<bv8>, p: array<bv8>)
    requires context.Valid() && j.Length == s.Length == 16 && p.Length == c.Length
    requires j != p && j != c && j != s && s != p && s != c && s as object != context.m
    modifies j, s, p
    ensures p[..] == Gctr(EncryptWith(context), old(j[..]), old(c[..]))
    ensures s[..] == GhashFrom(context.H(), old(s[..]), Blocks(old(c[..])))
  {
    hide GhashFrom, BlockProduct, Blocks, XorBytes, GcmContext.H, GcmContext.Valid, Inc32, Gctr, EncryptWith;
    ghost var h, e, j0: Block, s0: Block := context.H(), EncryptWith(context), j[..], s[..];
    ghost var x := c[..];
    ghost var y := Gctr(e, j0, x);
    var n := c.Length;
    var off := 0;
    WholeSlice(x);
    WholeSlice(y);
    while n > 0
      invariant 0 <= off && 0 <= n && off + n == |x|
      invariant c[off..] == x[off..]
      invariant p[..off] == y[..off]
      invariant Gctr(e, j[..], x[off..]) == y[off..]
      invariant GhashFrom(h, s[..], Blocks(x[off..])) == GhashFrom(h, s0, Blocks(x))
    {
      var k := Min(n, 16);
      GctrCons(e, j[..], x[off..]);
      GhashCons(h, s[..], x[off..]);
      Tail(x, off, k);
      Tail(y, off, k);
      assert c[off..off + k] == c[off..][..k] && c[off + k..] == c[off..][k..];
      AbsorbChunk(context, s, c, off, k);
      CounterBlock(context, j, c, p, off, k);
      assert p[..off + k] == p[..off] + p[off..off + k] && y[..off + k] == y[..off] + y[off..off + k];
      off := off + k;
      n := n - k;
    }
    assert x[off..] == [];
    NoBlocks();
    GhashNothing(h, s[..]);
  }

  /** The body of gcmDecrypt up to the comparison: plaintext into p, recomputed tag into r. */
  method DecryptAndTag(context: GcmContext, iv: array<bv8>, a: array<bv8>, c: array<bv8>, p: array<bv8>,
                       r: array<bv8>, tLen: nat)
    requires context.Valid() && p.Length == c.Length && iv.Length >= 1 && tLen <= 16 == r.Length
    requires r != a && r != p && r != c
    modifies p, r
    ensures p[..] == Ciphertext(EncryptWith(context), old(iv[..]), old(c[..]))
    ensures r[..tLen] == Tag(EncryptWith(context), old(iv[..]), old(a[..]), old(c[..]), tLen)
  {
    hide GhashFrom, Blocks, GcmContext.H, GcmContext.Valid, Gctr, EncryptWith, PreCounter, Tag;
    ghost var iv0, a0, c0 := iv[..], a[..], c[..];
    var j := StartTag(context, iv, r, tLen);
    var s := NewBlock(ZeroBlock());
    Absorb(context, s, a);
    DecryptBlocks(context, j, s, c, p);
    FinishTag(context, s, r, tLen, a.Length, c.Length, iv0, a0, c0);
  }

  /** gcmDecrypt */
  method Decrypt(context: GcmContext, iv: array<bv8>, a: array<bv8>, c: array<bv8>, p: array<bv8>,
                 t: array<bv8>, tLen: nat) returns (error: ErrorCode)
    requires context.Valid() && p.Length == c.Length && tLen <= t.Length
    requires t != p
    modifies p
    ensures !Accepts(iv.Length, tLen) ==> error == InvalidLength && p[..] == old(p[..])
    ensures Accepts(iv.Length, tLen) ==>
      && p[..] == Ciphertext(EncryptWith(context), old(iv[..]), old(c[..]))
      && error == if t[..tLen] == Tag(EncryptWith(context), old(iv[..]), old(a[..]), old(c[..]), tLen)
                  then NoError else Failed
  {
    hide GcmContext.Valid, EncryptWith, Tag, Ciphertext;
    if iv.Length < 1 {
      return InvalidLength;
    }
    if tLen < 4 || tLen > 16 {
      return InvalidLength;
    }
    var r := new bv8[16];
    DecryptAndTag(context, iv, a, c, p, r, tLen);
    var mask := CompareTags(r, t, tLen);
    return if mask == 0 then NoError else Failed;
  }

  /** Decrypting what gcmEncrypt produced succeeds and gives the plaintext back. */
  method EncryptThenDecrypt(context: GcmContext, iv: array<bv8>, a: array<bv8>, p: array<bv8>, c: array<bv8>,
                            q: array<bv8>, t: array<bv8>, tLen: nat) returns (first: ErrorCode, second: ErrorCode)
    requires context.Valid() && p.Length == c.Length == q.Length && tLen <= t.Length
    requires t != iv && t != a && t != p && t != c && t != q
    requires c != iv && c != a && c != p && q != iv && q != a && q != c && q != p
    requires context.m as object !in {c, t, q}
    modifies c, t, q
    ensures first == NoError ==> second == NoError && q[..] == p[..]
    ensures first != NoError ==> second == first
  {
    hide GcmContext.Valid, Ciphertext, Tag, EncryptWith;
    ghost var e, iv0, x := EncryptWith(context), iv[..], p[..];
    first := Encrypt(context, iv, a, p, c, t, tLen);
    if first == NoError {
      DecryptionUndoesEncryption(e, iv0, x);
    }
    second := Decrypt(context, iv, a, c, q, t, tLen);
  }
}
