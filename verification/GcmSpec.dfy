/** GCM-AE and GCM-AD as section 7 of NIST SP 800-38D states them, over whole byte strings. */
module GcmSpec {
  import opened BlockOps
  import opened Words
  import opened Folds
  import opened Gf128
  import opened Gcm

  /** A non-negative integer as eight bytes, most significant first. */
  function BigEndian64(n: nat): (s: seq<bv8>)
    ensures |s| == 8
  {
    BigEndian(n, 8)
  }

  function GhashStep(h: Elem): (Block, Block) -> Block {
    (y: Block, x: Block) => BlockProduct(XorBytes(y, x), h)
  }

  /** GHASH continued from an intermediate value y. */
  function GhashFrom(h: Elem, y: Block, blocks: seq<Block>): Block {
    Fold(GhashStep(h), y, blocks)
  }

  /** GHASH_H over a sequence of blocks, section 6.4. */
  function Ghash(h: Elem, blocks: seq<Block>): Block {
    GhashFrom(h, ZeroBlock(), blocks)
  }

  /** [len]64 || [len]64 */
  function LengthBlock(m: nat, n: nat): Block {
    BigEndian64(m) + BigEndian64(n)
  }

  /** inc_32, section 6.2: the rightmost 32 bits count up and wrap. */
  function Inc32(j: Block): Block {
    j[..12] + Store32BE(Load32BE(j[12], j[13], j[14], j[15]) + 1)
  }

  /** GCTR, section 6.5, with the counter stepped before each block. */
  function Gctr(e: Cipher, j: Block, x: seq<bv8>): (r: seq<bv8>)
    ensures |r| == |x|
    decreases |x|
  {
    if x == [] then []
    else
      var k := Min(|x|, 16);
      XorBytes(x[..k], e(Inc32(j))) + Gctr(e, Inc32(j), x[k..])
  }

  /** The hash subkey. */
  function Subkey(e: Cipher): Elem {
    ToElem(e(ZeroBlock()))
  }

  /** What is hashed of an IV: the IV, zeros up to a block, and a block with its length. */
  function IvInput(iv: seq<bv8>): seq<Block> {
    Blocks(iv) + [LengthBlock(0, 8 * |iv|)]
  }

  /** J0, step 2 of Algorithm 4. */
  function PreCounter(e: Cipher, iv: seq<bv8>): Block {
    if |iv| == 12 then iv + [0, 0, 0, 1] else Ghash(Subkey(e), IvInput(iv))
  }

  /** What is authenticated: both strings, each with zeros up to a block, and both lengths in bits. */
  function HashInput(a: seq<bv8>, c: seq<bv8>): seq<Block> {
    Blocks(a) + Blocks(c) + [LengthBlock(8 * |a|, 8 * |c|)]
  }

  /** S, steps 4 and 5. */
  function AuthBlock(e: Cipher, a: seq<bv8>, c: seq<bv8>): Block {
    Ghash(Subkey(e), HashInput(a, c))
  }

  /** T = MSB_t(GCTR(J0, S)) */
  function Tag(e: Cipher, iv: seq<bv8>, a: seq<bv8>, c: seq<bv8>, tLen: nat): (t: seq<bv8>)
    requires tLen <= 16
    ensures |t| == tLen
  {
    XorBytes(AuthBlock(e, a, c)[..tLen], e(PreCounter(e, iv)))
  }

  function Ciphertext(e: Cipher, iv: seq<bv8>, p: seq<bv8>): (c: seq<bv8>)
    ensures |c| == |p|
  {
    Gctr(e, PreCounter(e, iv), p)
  }

  predicate Accepts(ivLen: nat, tLen: nat) {
    ivLen >= 1 && 4 <= tLen <= 16
  }

  // ----- what the mode promises -----------------------------------------------------------------

  lemma {:induction false} GctrTwice(e: Cipher, j: Block, x: seq<bv8>)
    ensures Gctr(e, j, Gctr(e, j, x)) == x
    decreases |x|
  {
    hide Inc32;
    if x != [] {
      var k := Min(|x|, 16);
      var first, rest := XorBytes(x[..k], e(Inc32(j))), Gctr(e, Inc32(j), x[k..]);
      assert (first + rest)[..k] == first && (first + rest)[k..] == rest;
      XorBytesTwice(x[..k], e(Inc32(j)));
      GctrTwice(e, Inc32(j), x[k..]);
    }
  }

  /** Decrypting a ciphertext under the same IV gives back the plaintext. */
  lemma DecryptionUndoesEncryption(e: Cipher, iv: seq<bv8>, p: seq<bv8>)
    ensures Ciphertext(e, iv, Ciphertext(e, iv, p)) == p
  {
    hide Gctr, PreCounter;
    GctrTwice(e, PreCounter(e, iv), p);
  }
}
