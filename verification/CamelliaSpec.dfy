/** The Camellia cipher of RFC 3713 on 64-bit halves of two words, and why decryption undoes it. */
module CamelliaSpec {
  import opened Words
  import opened CamelliaTables

  /** 64 bits as two words. */
  datatype Half = Half(w1: bv32, w2: bv32)

  /** A 128-bit block in its left and right halves. */
  datatype Pair = Pair(left: Half, right: Half)

  function XorHalf(a: Half, b: Half): Half {
    Half(XorW(a.w1, b.w1), XorW(a.w2, b.w2))
  }

  lemma XorHalfTwice(a: Half, b: Half)
    ensures XorHalf(XorHalf(a, b), b) == a
  {
    hide XorW;
    XorWAssociates(a.w1, b.w1, b.w1);
    XorWAssociates(a.w2, b.w2, b.w2);
    XorWSelf(b.w1);
    XorWSelf(b.w2);
    XorWZero(a.w1);
    XorWZero(a.w2);
  }

  // ----- F, FL and FLINV, section 2.4 ----------------------------------------------------------------

  /** The P-function on eight bytes, section 2.4.1. */
  function PHalf(t1: bv8, t2: bv8, t3: bv8, t4: bv8, t5: bv8, t6: bv8, t7: bv8, t8: bv8): Half {
    Half(Load32BE(t1 ^ t3 ^ t4 ^ t6 ^ t7 ^ t8, t1 ^ t2 ^ t4 ^ t5 ^ t7 ^ t8,
                  t1 ^ t2 ^ t3 ^ t5 ^ t6 ^ t8, t2 ^ t3 ^ t4 ^ t5 ^ t6 ^ t7),
         Load32BE(t1 ^ t2 ^ t6 ^ t7 ^ t8, t2 ^ t3 ^ t5 ^ t7 ^ t8,
                  t3 ^ t4 ^ t5 ^ t6 ^ t8, t1 ^ t4 ^ t5 ^ t6 ^ t7))
  }

  /** The S-boxes as RFC 3713 gives them, from the first alone, then the P-function. */
  function F(input: Half, k: Half): Half {
    var x := XorHalf(input, k);
    PHalf(SBox1(ByteOf(x.w1, 3)), Rol8(SBox1(ByteOf(x.w1, 2)), 1),
          Rol8(SBox1(ByteOf(x.w1, 1)), 7), SBox1(Rol8(ByteOf(x.w1, 0), 1)),
          Rol8(SBox1(ByteOf(x.w2, 3)), 1), Rol8(SBox1(ByteOf(x.w2, 2)), 7),
          SBox1(Rol8(ByteOf(x.w2, 1), 1)), SBox1(ByteOf(x.w2, 0)))
  }

  function AndW(a: bv32, b: bv32): bv32 { a & b }

  function OrW(a: bv32, b: bv32): bv32 { a | b }

  function FL(x: Half, k: Half): Half {
    var x2 := XorW(x.w2, Rol32(AndW(x.w1, k.w1), 1));
    Half(XorW(x.w1, OrW(x2, k.w2)), x2)
  }

  function FLInv(y: Half, k: Half): Half {
    var y1 := XorW(y.w1, OrW(y.w2, k.w2));
    Half(y1, XorW(y.w2, Rol32(AndW(y1, k.w1), 1)))
  }

  lemma XorWTwice(a: bv32, b: bv32)
    ensures XorW(XorW(a, b), b) == a
  {
    hide XorW;
    XorWAssociates(a, b, b);
    XorWSelf(b);
    XorWZero(a);
  }

  /** FLINV undoes FL, and FL undoes FLINV, under the same subkey. */
  lemma FLInverts(x: Half, k: Half)
    ensures FLInv(FL(x, k), k) == x && FL(FLInv(x, k), k) == x
  {
    hide XorW, OrW, AndW, Rol32;
    XorWTwice(x.w2, Rol32(AndW(x.w1, k.w1), 1));
    XorWTwice(x.w1, OrW(FL(x, k).w2, k.w2));
    XorWTwice(x.w1, OrW(x.w2, k.w2));
    XorWTwice(x.w2, Rol32(AndW(FLInv(x, k).w1, k.w1), 1));
  }

  // ----- the cipher, section 2.3 ----------------------------------------------------------------------

  /** One Feistel round. */
  function Round(s: Pair, k: Half): Pair {
    Pair(XorHalf(s.right, F(s.left, k)), s.left)
  }

  /** Whether the FL layer follows round r, counted from 1, of nr. */
  predicate LayerAfter(r: nat, nr: nat) {
    r % 6 == 0 && 0 < r < nr
  }

  /** The place of the key of round r, counted from 1, among the subkeys in order. */
  function KeyIndex(r: nat): nat
    requires r >= 1
  {
    1 + r + 2 * ((r - 1) / 6)
  }

  /** How many subkeys nr rounds take, with their FL layers and the whitening. */
  function KeyCount(nr: nat): nat {
    if nr == 0 then 4 else nr + 4 + 2 * ((nr - 1) / 6)
  }

  lemma KeyIndexBound(r: nat, nr: nat)
    requires 1 <= r <= nr
    ensures KeyIndex(r) + 3 <= KeyCount(nr)
    ensures LayerAfter(r, nr) ==> KeyIndex(r) + 5 <= KeyCount(nr)
  {
  }

  /** The FL layer that may follow round r. */
  function Layer(m: Pair, keys: seq<Half>, nr: nat, r: nat): Pair
    requires r <= nr && |keys| == KeyCount(nr)
  {
    if LayerAfter(r, nr) then
      KeyIndexBound(r, nr);
      Pair(FL(m.left, keys[KeyIndex(r) + 1]), FLInv(m.right, keys[KeyIndex(r) + 2]))
    else m
  }

  /** The state after r rounds, before the FL layer that may follow. */
  function Rounds(s: Pair, keys: seq<Half>, nr: nat, r: nat): Pair
    requires r <= nr && |keys| == KeyCount(nr)
    decreases r
  {
    if r == 0 then Pair(XorHalf(s.left, keys[0]), XorHalf(s.right, keys[1]))
    else
      KeyIndexBound(r, nr);
      Round(Layer(Rounds(s, keys, nr, r - 1), keys, nr, r - 1), keys[KeyIndex(r)])
  }

  /** Encryption: the halves change places in the output. */
  function Encrypted(s: Pair, keys: seq<Half>, nr: nat): Pair
    requires |keys| == KeyCount(nr)
  {
    var t := Rounds(s, keys, nr, nr);
    Pair(XorHalf(t.right, keys[KeyCount(nr) - 2]), XorHalf(t.left, keys[KeyCount(nr) - 1]))
  }

  /** The FL layer on the halves as decryption holds them, with its two keys exchanged. */
  function InvLayer(m: Pair, keys: seq<Half>, nr: nat, r: nat): Pair
    requires r <= nr && |keys| == KeyCount(nr)
  {
    if LayerAfter(r, nr) then
      KeyIndexBound(r, nr);
      Pair(FL(m.left, keys[KeyIndex(r) + 2]), FLInv(m.right, keys[KeyIndex(r) + 1]))
    else m
  }

  /** The state of decryption once the rounds from nr down to r + 1 have been undone. */
  function InvRounds(c: Pair, keys: seq<Half>, nr: nat, r: nat): Pair
    requires r <= nr && |keys| == KeyCount(nr)
    decreases nr - r
  {
    if r == nr then Pair(XorHalf(c.left, keys[KeyCount(nr) - 2]), XorHalf(c.right, keys[KeyCount(nr) - 1]))
    else
      KeyIndexBound(r + 1, nr);
      InvLayer(Round(InvRounds(c, keys, nr, r + 1), keys[KeyIndex(r + 1)]), keys, nr, r)
  }

  /** Decryption, with the subkeys in reverse order. */
  function Decrypted(c: Pair, keys: seq<Half>, nr: nat): Pair
    requires |keys| == KeyCount(nr)
  {
    var t := InvRounds(c, keys, nr, 0);
    Pair(XorHalf(t.right, keys[0]), XorHalf(t.left, keys[1]))
  }

  function Swap(s: Pair): Pair {
    Pair(s.right, s.left)
  }

  lemma LayerInverts(m: Pair, keys: seq<Half>, nr: nat, r: nat)
    requires r <= nr && |keys| == KeyCount(nr)
    ensures InvLayer(Swap(Layer(m, keys, nr, r)), keys, nr, r) == Swap(m)
  {
    hide FL, FLInv, KeyIndex, KeyCount;
    if LayerAfter(r, nr) {
      KeyIndexBound(r, nr);
      FLInverts(m.left, keys[KeyIndex(r) + 1]);
      FLInverts(m.right, keys[KeyIndex(r) + 2]);
    }
  }

  /** Decryption passes through the states of encryption, last to first, with the halves swapped. */
  lemma {:induction false} RoundsMeet(s: Pair, keys: seq<Half>, nr: nat, r: nat)
    requires r <= nr && |keys| == KeyCount(nr)
    ensures InvRounds(Encrypted(s, keys, nr), keys, nr, r) == Swap(Rounds(s, keys, nr, r))
    decreases nr - r
  {
    hide XorHalf, Round, Layer, InvLayer, KeyIndex, KeyCount;
    if r == nr {
      var t := Rounds(s, keys, nr, nr);
      KeysAtEnd(nr);
      XorHalfTwice(t.right, keys[KeyCount(nr) - 2]);
      XorHalfTwice(t.left, keys[KeyCount(nr) - 1]);
    } else {
      RoundsMeet(s, keys, nr, r + 1);
      KeyIndexBound(r + 1, nr);
      var m := Layer(Rounds(s, keys, nr, r), keys, nr, r);
      UndoRound(m, keys[KeyIndex(r + 1)]);
      LayerInverts(Rounds(s, keys, nr, r), keys, nr, r);
    }
  }

  lemma KeysAtEnd(nr: nat)
    ensures KeyCount(nr) >= 4
  {
  }

  /** The same round with the roles of the halves swapped undoes it. */
  lemma UndoRound(s: Pair, k: Half)
    ensures Round(Swap(Round(s, k)), k) == Swap(s)
  {
    hide F, XorHalf;
    XorHalfTwice(s.right, F(s.left, k));
  }

  /** Decryption undoes encryption, for any subkeys and any number of rounds. */
  lemma CipherInverts(s: Pair, keys: seq<Half>, nr: nat)
    requires |keys| == KeyCount(nr)
    ensures Decrypted(Encrypted(s, keys, nr), keys, nr) == s
  {
    hide XorHalf, Encrypted, InvRounds, KeyCount;
    KeysAtEnd(nr);
    RoundsMeet(s, keys, nr, 0);
    XorHalfTwice(s.left, keys[0]);
    XorHalfTwice(s.right, keys[1]);
  }
}
