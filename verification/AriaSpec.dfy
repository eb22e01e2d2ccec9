/** The ARIA cipher of RFC 5794 on blocks of sixteen bytes, and why decryption undoes it. */
module AriaSpec {
  import opened AesTables
  import opened AesField
  import opened AriaTables

  datatype Block = Block(x0: bv8, x1: bv8, x2: bv8, x3: bv8, x4: bv8, x5: bv8, x6: bv8, x7: bv8,
                         x8: bv8, x9: bv8, x10: bv8, x11: bv8, x12: bv8, x13: bv8, x14: bv8,
                         x15: bv8)

  function XorBlock(a: Block, b: Block): Block {
    Block(Xor(a.x0, b.x0), Xor(a.x1, b.x1), Xor(a.x2, b.x2), Xor(a.x3, b.x3), Xor(a.x4, b.x4),
          Xor(a.x5, b.x5), Xor(a.x6, b.x6), Xor(a.x7, b.x7), Xor(a.x8, b.x8), Xor(a.x9, b.x9),
          Xor(a.x10, b.x10), Xor(a.x11, b.x11), Xor(a.x12, b.x12), Xor(a.x13, b.x13),
          Xor(a.x14, b.x14), Xor(a.x15, b.x15))
  }

  /** Substitution layer 1 */
  function SL1(b: Block): Block {
    Block(SBox(b.x0), SB2(b.x1), InvSBox(b.x2), SB4(b.x3), SBox(b.x4), SB2(b.x5), InvSBox(b.x6),
          SB4(b.x7), SBox(b.x8), SB2(b.x9), InvSBox(b.x10), SB4(b.x11), SBox(b.x12), SB2(b.x13),
          InvSBox(b.x14), SB4(b.x15))
  }

  /** Substitution layer 2 */
  function SL2(b: Block): Block {
    Block(InvSBox(b.x0), SB4(b.x1), SBox(b.x2), SB2(b.x3), InvSBox(b.x4), SB4(b.x5), SBox(b.x6),
          SB2(b.x7), InvSBox(b.x8), SB4(b.x9), SBox(b.x10), SB2(b.x11), InvSBox(b.x12), SB4(b.x13),
          SBox(b.x14), SB2(b.x15))
  }

  function Sum7(a: bv8, b: bv8, c: bv8, d: bv8, e: bv8, f: bv8, g: bv8): bv8 {
    Xor(Xor4(a, b, c, d), Xor(Xor(e, f), g))
  }

  /** The diffusion layer: every byte becomes the sum of seven. */
  function A(b: Block): Block {
    Block(Sum7(b.x3, b.x4, b.x6, b.x8, b.x9, b.x13, b.x14),
          Sum7(b.x2, b.x5, b.x7, b.x8, b.x9, b.x12, b.x15),
          Sum7(b.x1, b.x4, b.x6, b.x10, b.x11, b.x12, b.x15),
          Sum7(b.x0, b.x5, b.x7, b.x10, b.x11, b.x13, b.x14),
          Sum7(b.x0, b.x2, b.x5, b.x8, b.x11, b.x14, b.x15),
          Sum7(b.x1, b.x3, b.x4, b.x9, b.x10, b.x14, b.x15),
          Sum7(b.x0, b.x2, b.x7, b.x9, b.x10, b.x12, b.x13),
          Sum7(b.x1, b.x3, b.x6, b.x8, b.x11, b.x12, b.x13),
          Sum7(b.x0, b.x1, b.x4, b.x7, b.x10, b.x13, b.x15),
          Sum7(b.x0, b.x1, b.x5, b.x6, b.x11, b.x12, b.x14),
          Sum7(b.x2, b.x3, b.x5, b.x6, b.x8, b.x13, b.x15),
          Sum7(b.x2, b.x3, b.x4, b.x7, b.x9, b.x12, b.x14),
          Sum7(b.x1, b.x2, b.x6, b.x7, b.x9, b.x11, b.x12),
          Sum7(b.x0, b.x3, b.x6, b.x7, b.x8, b.x10, b.x13),
          Sum7(b.x0, b.x3, b.x4, b.x5, b.x9, b.x11, b.x14),
          Sum7(b.x1, b.x2, b.x4, b.x5, b.x8, b.x10, b.x15))
  }

  // ----- the layers undo each other -------------------------------------------------------------------

  lemma Sum7Xor(a: bv8, b: bv8, c: bv8, d: bv8, e: bv8, f: bv8, g: bv8,
                h: bv8, i: bv8, j: bv8, k: bv8, l: bv8, m: bv8, n: bv8)
    ensures Sum7(Xor(a, h), Xor(b, i), Xor(c, j), Xor(d, k), Xor(e, l), Xor(f, m), Xor(g, n))
         == Xor(Sum7(a, b, c, d, e, f, g), Sum7(h, i, j, k, l, m, n))
  {
    hide Xor;
    XorMedial(Xor4(a, b, c, d), Xor(Xor(e, f), g), Xor4(h, i, j, k), Xor(Xor(l, m), n));
    Xor4Medial(a, b, c, d, h, i, j, k);
    XorMedial(Xor(e, f), g, Xor(l, m), n);
    XorMedial(e, f, l, m);
  }

  /** The diffusion layer is linear. */
  lemma AXor(a: Block, b: Block)
    ensures A(XorBlock(a, b)) == XorBlock(A(a), A(b))
  {
    hide Xor, Sum7;
    Sum7Xor(a.x3, a.x4, a.x6, a.x8, a.x9, a.x13, a.x14,
            b.x3, b.x4, b.x6, b.x8, b.x9, b.x13, b.x14);
    Sum7Xor(a.x2, a.x5, a.x7, a.x8, a.x9, a.x12, a.x15,
            b.x2, b.x5, b.x7, b.x8, b.x9, b.x12, b.x15);
    Sum7Xor(a.x1, a.x4, a.x6, a.x10, a.x11, a.x12, a.x15,
            b.x1, b.x4, b.x6, b.x10, b.x11, b.x12, b.x15);
    Sum7Xor(a.x0, a.x5, a.x7, a.x10, a.x11, a.x13, a.x14,
            b.x0, b.x5, b.x7, b.x10, b.x11, b.x13, b.x14);
    Sum7Xor(a.x0, a.x2, a.x5, a.x8, a.x11, a.x14, a.x15,
            b.x0, b.x2, b.x5, b.x8, b.x11, b.x14, b.x15);
    Sum7Xor(a.x1, a.x3, a.x4, a.x9, a.x10, a.x14, a.x15,
            b.x1, b.x3, b.x4, b.x9, b.x10, b.x14, b.x15);
    Sum7Xor(a.x0, a.x2, a.x7, a.x9, a.x10, a.x12, a.x13,
            b.x0, b.x2, b.x7, b.x9, b.x10, b.x12, b.x13);
    Sum7Xor(a.x1, a.x3, a.x6, a.x8, a.x11, a.x12, a.x13,
            b.x1, b.x3, b.x6, b.x8, b.x11, b.x12, b.x13);
    Sum7Xor(a.x0, a.x1, a.x4, a.x7, a.x10, a.x13, a.x15,
            b.x0, b.x1, b.x4, b.x7, b.x10, b.x13, b.x15);
    Sum7Xor(a.x0, a.x1, a.x5, a.x6, a.x11, a.x12, a.x14,
            b.x0, b.x1, b.x5, b.x6, b.x11, b.x12, b.x14);
    Sum7Xor(a.x2, a.x3, a.x5, a.x6, a.x8, a.x13, a.x15,
            b.x2, b.x3, b.x5, b.x6, b.x8, b.x13, b.x15);
    Sum7Xor(a.x2, a.x3, a.x4, a.x7, a.x9, a.x12, a.x14,
            b.x2, b.x3, b.x4, b.x7, b.x9, b.x12, b.x14);
    Sum7Xor(a.x1, a.x2, a.x6, a.x7, a.x9, a.x11, a.x12,
            b.x1, b.x2, b.x6, b.x7, b.x9, b.x11, b.x12);
    Sum7Xor(a.x0, a.x3, a.x6, a.x7, a.x8, a.x10, a.x13,
            b.x0, b.x3, b.x6, b.x7, b.x8, b.x10, b.x13);
    Sum7Xor(a.x0, a.x3, a.x4, a.x5, a.x9, a.x11, a.x14,
            b.x0, b.x3, b.x4, b.x5, b.x9, b.x11, b.x14);
    Sum7Xor(a.x1, a.x2, a.x4, a.x5, a.x8, a.x10, a.x15,
            b.x1, b.x2, b.x4, b.x5, b.x8, b.x10, b.x15);
  }

  // The diffusion layer undoes itself on every block of one byte, and every block is a sum of those.

  lemma SmallSums(v: bv8)
    ensures Xor(0, 0) == 0 && Xor(v, 0) == v && Xor(0, v) == v && Xor(v, v) == 0
  {
  }

  predicate Undone(b: Block) {
    A(A(b)) == b
  }

  lemma UnitsUndone(v: bv8)
    ensures Undone(Block(v, 0, 0, 0, 0, 0, 0, 0, 0, 0, 0, 0, 0, 0, 0, 0))
    ensures Undone(Block(0, v, 0, 0, 0, 0, 0, 0, 0, 0, 0, 0, 0, 0, 0, 0))
    ensures Undone(Block(0, 0, v, 0, 0, 0, 0, 0, 0, 0, 0, 0, 0, 0, 0, 0))
    ensures Undone(Block(0, 0, 0, v, 0, 0, 0, 0, 0, 0, 0, 0, 0, 0, 0, 0))
    ensures Undone(Block(0, 0, 0, 0, v, 0, 0, 0, 0, 0, 0, 0, 0, 0, 0, 0))
    ensures Undone(Block(0, 0, 0, 0, 0, v, 0, 0, 0, 0, 0, 0, 0, 0, 0, 0))
    ensures Undone(Block(0, 0, 0, 0, 0, 0, v, 0, 0, 0, 0, 0, 0, 0, 0, 0))
    ensures Undone(Block(0, 0, 0, 0, 0, 0, 0, v, 0, 0, 0, 0, 0, 0, 0, 0))
    ensures Undone(Block(0, 0, 0, 0, 0, 0, 0, 0, v, 0, 0, 0, 0, 0, 0, 0))
    ensures Undone(Block(0, 0, 0, 0, 0, 0, 0, 0, 0, v, 0, 0, 0, 0, 0, 0))
    ensures Undone(Block(0, 0, 0, 0, 0, 0, 0, 0, 0, 0, v, 0, 0, 0, 0, 0))
    ensures Undone(Block(0, 0, 0, 0, 0, 0, 0, 0, 0, 0, 0, v, 0, 0, 0, 0))
    ensures Undone(Block(0, 0, 0, 0, 0, 0, 0, 0, 0, 0, 0, 0, v, 0, 0, 0))
    ensures Undone(Block(0, 0, 0, 0, 0, 0, 0, 0, 0, 0, 0, 0, 0, v, 0, 0))
    ensures Undone(Block(0, 0, 0, 0, 0, 0, 0, 0, 0, 0, 0, 0, 0, 0, v, 0))
    ensures Undone(Block(0, 0, 0, 0, 0, 0, 0, 0, 0, 0, 0, 0, 0, 0, 0, v))
  {
    hide Xor;
    SmallSums(v);
  }

  lemma SumUndone(a: Block, b: Block)
    requires Undone(a) && Undone(b)
    ensures Undone(XorBlock(a, b))
  {
    hide A, XorBlock;
    AXor(a, b);
    AXor(A(a), A(b));
  }

  lemma Word0Undone(a: bv8, b: bv8, c: bv8, d: bv8)
    ensures Undone(Block(a, b, c, d, 0, 0, 0, 0, 0, 0, 0, 0, 0, 0, 0, 0))
  {
    hide A, Xor;
    SmallSums(a);
    SmallSums(b);
    SmallSums(c);
    SmallSums(d);
    UnitsUndone(a);
    UnitsUndone(b);
    UnitsUndone(c);
    UnitsUndone(d);
    SumUndone(Block(a, 0, 0, 0, 0, 0, 0, 0, 0, 0, 0, 0, 0, 0, 0, 0), Block(0, b, 0, 0, 0, 0, 0, 0, 0, 0, 0, 0, 0, 0, 0, 0));
    SumUndone(Block(0, 0, c, 0, 0, 0, 0, 0, 0, 0, 0, 0, 0, 0, 0, 0), Block(0, 0, 0, d, 0, 0, 0, 0, 0, 0, 0, 0, 0, 0, 0, 0));
    SumUndone(Block(a, b, 0, 0, 0, 0, 0, 0, 0, 0, 0, 0, 0, 0, 0, 0), Block(0, 0, c, d, 0, 0, 0, 0, 0, 0, 0, 0, 0, 0, 0, 0));
  }

  lemma Word1Undone(a: bv8, b: bv8, c: bv8, d: bv8)
    ensures Undone(Block(0, 0, 0, 0, a, b, c, d, 0, 0, 0, 0, 0, 0, 0, 0))
  {
    hide A, Xor;
    SmallSums(a);
    SmallSums(b);
    SmallSums(c);
    SmallSums(d);
    UnitsUndone(a);
    UnitsUndone(b);
    UnitsUndone(c);
    UnitsUndone(d);
    SumUndone(Block(0, 0, 0, 0, a, 0, 0, 0, 0, 0, 0, 0, 0, 0, 0, 0), Block(0, 0, 0, 0, 0, b, 0, 0, 0, 0, 0, 0, 0, 0, 0, 0));
    SumUndone(Block(0, 0, 0, 0, 0, 0, c, 0, 0, 0, 0, 0, 0, 0, 0, 0), Block(0, 0, 0, 0, 0, 0, 0, d, 0, 0, 0, 0, 0, 0, 0, 0));
    SumUndone(Block(0, 0, 0, 0, a, b, 0, 0, 0, 0, 0, 0, 0, 0, 0, 0), Block(0, 0, 0, 0, 0, 0, c, d, 0, 0, 0, 0, 0, 0, 0, 0));
  }

  lemma Word2Undone(a: bv8, b: bv8, c: bv8, d: bv8)
    ensures Undone(Block(0, 0, 0, 0, 0, 0, 0, 0, a, b, c, d, 0, 0, 0, 0))
  {
    hide A, Xor;
    SmallSums(a);
    SmallSums(b);
    SmallSums(c);
    SmallSums(d);
    UnitsUndone(a);
    UnitsUndone(b);
    UnitsUndone(c);
    UnitsUndone(d);
    SumUndone(Block(0, 0, 0, 0, 0, 0, 0, 0, a, 0, 0, 0, 0, 0, 0, 0), Block(0, 0, 0, 0, 0, 0, 0, 0, 0, b, 0, 0, 0, 0, 0, 0));
    SumUndone(Block(0, 0, 0, 0, 0, 0, 0, 0, 0, 0, c, 0, 0, 0, 0, 0), Block(0, 0, 0, 0, 0, 0, 0, 0, 0, 0, 0, d, 0, 0, 0, 0));
    SumUndone(Block(0, 0, 0, 0, 0, 0, 0, 0, a, b, 0, 0, 0, 0, 0, 0), Block(0, 0, 0, 0, 0, 0, 0, 0, 0, 0, c, d, 0, 0, 0, 0));
  }

  lemma Word3Undone(a: bv8, b: bv8, c: bv8, d: bv8)
    ensures Undone(Block(0, 0, 0, 0, 0, 0, 0, 0, 0, 0, 0, 0, a, b, c, d))
  {
    hide A, Xor;
    SmallSums(a);
    SmallSums(b);
    SmallSums(c);
    SmallSums(d);
    UnitsUndone(a);
    UnitsUndone(b);
    UnitsUndone(c);
    UnitsUndone(d);
    SumUndone(Block(0, 0, 0, 0, 0, 0, 0, 0, 0, 0, 0, 0, a, 0, 0, 0), Block(0, 0, 0, 0, 0, 0, 0, 0, 0, 0, 0, 0, 0, b, 0, 0));
    SumUndone(Block(0, 0, 0, 0, 0, 0, 0, 0, 0, 0, 0, 0, 0, 0, c, 0), Block(0, 0, 0, 0, 0, 0, 0, 0, 0, 0, 0, 0, 0, 0, 0, d));
    SumUndone(Block(0, 0, 0, 0, 0, 0, 0, 0, 0, 0, 0, 0, a, b, 0, 0), Block(0, 0, 0, 0, 0, 0, 0, 0, 0, 0, 0, 0, 0, 0, c, d));
  }

  /** The diffusion layer is an involution. */
  lemma AInvolution(b: Block)
    ensures A(A(b)) == b
  {
    hide A, Xor;
    SmallSums(b.x0);
    SmallSums(b.x1);
    SmallSums(b.x2);
    SmallSums(b.x3);
    SmallSums(b.x4);
    SmallSums(b.x5);
    SmallSums(b.x6);
    SmallSums(b.x7);
    SmallSums(b.x8);
    SmallSums(b.x9);
    SmallSums(b.x10);
    SmallSums(b.x11);
    SmallSums(b.x12);
    SmallSums(b.x13);
    SmallSums(b.x14);
    SmallSums(b.x15);
    Word0Undone(b.x0, b.x1, b.x2, b.x3);
    Word1Undone(b.x4, b.x5, b.x6, b.x7);
    Word2Undone(b.x8, b.x9, b.x10, b.x11);
    Word3Undone(b.x12, b.x13, b.x14, b.x15);
    SumUndone(Block(b.x0, b.x1, b.x2, b.x3, 0, 0, 0, 0, 0, 0, 0, 0, 0, 0, 0, 0),
              Block(0, 0, 0, 0, b.x4, b.x5, b.x6, b.x7, 0, 0, 0, 0, 0, 0, 0, 0));
    SumUndone(Block(0, 0, 0, 0, 0, 0, 0, 0, b.x8, b.x9, b.x10, b.x11, 0, 0, 0, 0),
              Block(0, 0, 0, 0, 0, 0, 0, 0, 0, 0, 0, 0, b.x12, b.x13, b.x14, b.x15));
    SumUndone(Block(b.x0, b.x1, b.x2, b.x3, b.x4, b.x5, b.x6, b.x7, 0, 0, 0, 0, 0, 0, 0, 0),
              Block(0, 0, 0, 0, 0, 0, 0, 0, b.x8, b.x9, b.x10, b.x11, b.x12, b.x13, b.x14, b.x15));
    assert Undone(b);
  }

  lemma XorTwice(a: Block, k: Block)
    ensures XorBlock(XorBlock(a, k), k) == a
  {
    hide Xor;
    AesField.XorTwice(a.x0, k.x0);
    AesField.XorTwice(a.x1, k.x1);
    AesField.XorTwice(a.x2, k.x2);
    AesField.XorTwice(a.x3, k.x3);
    AesField.XorTwice(a.x4, k.x4);
    AesField.XorTwice(a.x5, k.x5);
    AesField.XorTwice(a.x6, k.x6);
    AesField.XorTwice(a.x7, k.x7);
    AesField.XorTwice(a.x8, k.x8);
    AesField.XorTwice(a.x9, k.x9);
    AesField.XorTwice(a.x10, k.x10);
    AesField.XorTwice(a.x11, k.x11);
    AesField.XorTwice(a.x12, k.x12);
    AesField.XorTwice(a.x13, k.x13);
    AesField.XorTwice(a.x14, k.x14);
    AesField.XorTwice(a.x15, k.x15);
  }

  lemma SL2Inverts(b: Block)
    ensures SL2(SL1(b)) == b
  {
    hide SBox, InvSBox, SB2, SB4;
    InvSBoxInverts(b.x0);
    SB4Inverts(b.x1);
    SBoxInverts(b.x2);
    SB2Inverts(b.x3);
    InvSBoxInverts(b.x4);
    SB4Inverts(b.x5);
    SBoxInverts(b.x6);
    SB2Inverts(b.x7);
    InvSBoxInverts(b.x8);
    SB4Inverts(b.x9);
    SBoxInverts(b.x10);
    SB2Inverts(b.x11);
    InvSBoxInverts(b.x12);
    SB4Inverts(b.x13);
    SBoxInverts(b.x14);
    SB2Inverts(b.x15);
  }

  lemma SL1Inverts(b: Block)
    ensures SL1(SL2(b)) == b
  {
    hide SBox, InvSBox, SB2, SB4;
    SBoxInverts(b.x0);
    SB2Inverts(b.x1);
    InvSBoxInverts(b.x2);
    SB4Inverts(b.x3);
    SBoxInverts(b.x4);
    SB2Inverts(b.x5);
    InvSBoxInverts(b.x6);
    SB4Inverts(b.x7);
    SBoxInverts(b.x8);
    SB2Inverts(b.x9);
    InvSBoxInverts(b.x10);
    SB4Inverts(b.x11);
    SBoxInverts(b.x12);
    SB2Inverts(b.x13);
    InvSBoxInverts(b.x14);
    SB4Inverts(b.x15);
  }

  // ----- the cipher -------------------------------------------------------------------------------------

  function Layer(even: bool, b: Block): Block {
    if even then SL1(b) else SL2(b)
  }

  /** The state after round r: rounds 1, 3, 5, ... are odd rounds and use SL1. */
  function Rounds(p: Block, keys: seq<Block>, r: nat): Block
    requires r <= |keys|
  {
    if r == 0 then p else A(Layer(r % 2 == 1, XorBlock(Rounds(p, keys, r - 1), keys[r - 1])))
  }

  /** |keys| - 2 full rounds, then a last round without diffusion: section 2.3 of RFC 5794. */
  function Cipher(p: Block, keys: seq<Block>): Block
    requires |keys| >= 2
  {
    var n := |keys| - 2;
    XorBlock(SL2(XorBlock(Rounds(p, keys, n), keys[n])), keys[n + 1])
  }

  /** The decryption keys: reversed, and diffused but for the first and the last. */
  function InvKeys(keys: seq<Block>): (r: seq<Block>)
    ensures |r| == |keys|
  {
    seq(|keys|, i requires 0 <= i < |keys| =>
      if i == 0 || i == |keys| - 1 then keys[|keys| - 1 - i] else A(keys[|keys| - 1 - i]))
  }

  lemma LayerInverts(even: bool, b: Block)
    ensures Layer(!even, Layer(even, b)) == b
  {
    SL2Inverts(b);
    SL1Inverts(b);
    hide SL1, SL2;
  }

  lemma NextRound(p: Block, keys: seq<Block>, m: nat, odd: bool)
    requires m < |keys| && odd == (m % 2 == 0)
    ensures Rounds(p, keys, m + 1) == A(Layer(odd, XorBlock(Rounds(p, keys, m), keys[m])))
  {
    hide XorBlock, A, Layer;
  }

  lemma NoOdd(b: Block)
    ensures Layer(false, b) == SL2(b)
  {
  }

  lemma CipherEnds(p: Block, keys: seq<Block>)
    requires |keys| >= 2
    ensures Cipher(p, keys) == XorBlock(Layer(false, XorBlock(Rounds(p, keys, |keys| - 2), keys[|keys| - 2])), keys[|keys| - 1])
  {
    hide XorBlock, SL2, SL1, Rounds;
  }

  /** Undoing one encryption round, with the diffused key. */
  lemma OneBack(t: Block, k: Block)
    ensures XorBlock(A(XorBlock(A(t), k)), A(k)) == t
  {
    hide *;
    AXor(A(t), k);
    XorTwice(A(A(t)), A(k));
    AInvolution(t);
  }

  lemma InvKeyAt(keys: seq<Block>, i: nat)
    requires i < |keys|
    ensures InvKeys(keys)[i] == if i == 0 || i == |keys| - 1 then keys[|keys| - 1 - i] else A(keys[|keys| - 1 - i])
  {
    hide A;
  }

  /** Decryption round r starts from the substituted state of the matching encryption round. */
  lemma {:induction false} RoundsMeet(p: Block, keys: seq<Block>, r: nat, odd: bool)
    requires |keys| >= 3 && |keys| % 2 == 1 && r <= |keys| - 2 && odd == (r % 2 == 1)
    ensures XorBlock(Rounds(Cipher(p, keys), InvKeys(keys), r), InvKeys(keys)[r])
         == Layer(odd, XorBlock(Rounds(p, keys, |keys| - 2 - r), keys[|keys| - 2 - r]))
    decreases r
  {
    hide *;
    var n := |keys| - 2;
    InvKeyAt(keys, r);
    if r == 0 {
      NoRounds(Cipher(p, keys), InvKeys(keys));
      CipherEnds(p, keys);
      XorTwice(Layer(false, XorBlock(Rounds(p, keys, n), keys[n])), keys[n + 1]);
    } else {
      RoundsMeet(p, keys, r - 1, !odd);
      MeetStep(Cipher(p, keys), InvKeys(keys), p, keys, r, n - r, odd);
    }
  }

  lemma MeetStep(c: Block, dk: seq<Block>, p: Block, keys: seq<Block>, r: nat, m: nat, odd: bool)
    requires 1 <= r < |dk| && m + 1 < |keys| && odd == (r % 2 == 1) && odd == (m % 2 == 0)
    requires dk[r] == A(keys[m + 1])
    requires XorBlock(Rounds(c, dk, r - 1), dk[r - 1]) == Layer(!odd, XorBlock(Rounds(p, keys, m + 1), keys[m + 1]))
    ensures XorBlock(Rounds(c, dk, r), dk[r]) == Layer(odd, XorBlock(Rounds(p, keys, m), keys[m]))
  {
    hide *;
    NextRound(c, dk, r - 1, odd);
    LayerInverts(!odd, XorBlock(Rounds(p, keys, m + 1), keys[m + 1]));
    NextRound(p, keys, m, odd);
    OneBack(Layer(odd, XorBlock(Rounds(p, keys, m), keys[m])), keys[m + 1]);
  }

  lemma NoRounds(c: Block, keys: seq<Block>)
    ensures Rounds(c, keys, 0) == c
  {
  }

  /** Decryption with the derived keys undoes encryption, for any encryption keys of an even number of rounds. */
  lemma CipherInverts(p: Block, keys: seq<Block>)
    requires |keys| >= 3 && |keys| % 2 == 1
    ensures Cipher(Cipher(p, keys), InvKeys(keys)) == p
  {
    hide XorBlock, Layer, A, Rounds, Cipher;
    RoundsMeet(p, keys, |keys| - 2, true);
    InvKeyAt(keys, |keys| - 2);
    InvKeyAt(keys, |keys| - 1);
    NoRounds(p, keys);
    CipherEnds(Cipher(p, keys), InvKeys(keys));
    LayerInverts(true, XorBlock(p, keys[0]));
    XorTwice(p, keys[0]);
  }
}
