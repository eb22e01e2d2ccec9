/**
 * Blowfish, CAST-128 and CAST-256 with arbitrary subkeys and S-box contents: taking the rounds in
 * reverse order undoes them.
 */
module Feistel {
  import opened Words

  type Table = bv8 -> bv32

  function SubW(a: bv32, b: bv32): bv32 {
    a - b
  }

  lemma XorTwice(a: bv32, b: bv32)
    ensures XorW(XorW(a, b), b) == a
  {
    hide XorW;
    XorWAssociates(a, b, b);
    XorWSelf(b);
    XorWZero(a);
  }

  lemma XorSwap(a: bv32, b: bv32, c: bv32)
    ensures XorW(XorW(a, b), c) == XorW(XorW(a, c), b)
  {
    hide XorW;
    XorWAssociates(a, b, c);
    XorWCommutes(b, c);
    XorWAssociates(a, c, b);
  }

  /** Two halves of a 64-bit block. */
  datatype Halves = Halves(l: bv32, r: bv32)

  function LoadHalves(input: seq<bv8>): Halves
    requires |input| == 8
  {
    Halves(Load32BE(input[0], input[1], input[2], input[3]), Load32BE(input[4], input[5], input[6], input[7]))
  }

  /** Both block functions put the right half first. */
  function StoreSwapped(s: Halves): (output: seq<bv8>)
    ensures |output| == 8
  {
    Store32BE(s.r) + Store32BE(s.l)
  }

  function Store(s: Halves): (output: seq<bv8>)
    ensures |output| == 8
  {
    Store32BE(s.l) + Store32BE(s.r)
  }

  lemma LoadStoreSwapped(s: Halves)
    ensures LoadHalves(StoreSwapped(s)) == Halves(s.r, s.l)
  {
    hide Load32BE, ByteOf;
    LoadStore32BE(s.l);
    LoadStore32BE(s.r);
  }

  lemma StoreLoad(input: seq<bv8>)
    requires |input| == 8
    ensures Store(LoadHalves(input)) == input
  {
    hide Load32BE, Store32BE;
    StoreLoad32BE(input[0], input[1], input[2], input[3]);
    StoreLoad32BE(input[4], input[5], input[6], input[7]);
    assert [input[0], input[1], input[2], input[3]] + [input[4], input[5], input[6], input[7]] == input;
  }
}
