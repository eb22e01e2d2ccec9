/** blowfish.c: sixteen rounds, two to a pass of the loop. */
module Blowfish {
  import opened Feistel
  import opened Words

  class BlowfishContext {
    const p: seq<bv32>
    const s1: Table
    const s2: Table
    const s3: Table
    const s4: Table

    constructor (p: seq<bv32>, s1: Table, s2: Table, s3: Table, s4: Table)
      requires |p| == 18
      ensures this.p == p && this.s1 == s1 && this.s2 == s2 && this.s3 == s3 && this.s4 == s4
    {
      this.p, this.s1, this.s2, this.s3, this.s4 := p, s1, s2, s3, s4;
    }

    /** The round function. */
    function F(x: bv32): bv32 {
      AddW(XorW(AddW(s1(ByteOf(x, 3)), s2(ByteOf(x, 2))), s3(ByteOf(x, 1))), s4(ByteOf(x, 0)))
    }

    /** Round j: the left half is masked and mixed into the right, or the other way round. */
    function RoundAt(j: nat, s: Halves): Halves
      requires |p| == 18 && j < 16
    {
      if j % 2 == 0 then
        var l := XorW(s.l, p[j]);
        Halves(l, XorW(s.r, F(l)))
      else
        var r := XorW(s.r, p[j]);
        Halves(XorW(s.l, F(r)), r)
    }

    function Forward(s: Halves, n: nat): Halves
      requires |p| == 18 && n <= 16
    {
      if n == 0 then s else RoundAt(n - 1, Forward(s, n - 1))
    }

    /** What blowfishEncryptBlock computes. */
    function Encrypted(s: Halves): Halves
      requires |p| == 18
    {
      var t := Forward(s, 16);
      Halves(XorW(t.l, p[16]), XorW(t.r, p[17]))
    }

    /** blowfishEncryptBlock */
    method EncryptBlock(input: seq<bv8>) returns (output: seq<bv8>)
      requires |p| == 18 && |input| == 8
      ensures output == StoreSwapped(Encrypted(LoadHalves(input)))
    {
      hide F, XorW, LoadHalves, StoreSwapped;
      ghost var s := LoadHalves(input);
      var l, r := LoadHalves(input).l, LoadHalves(input).r;
      var i := 0;
      while i < 16
        invariant 0 <= i <= 16 && i % 2 == 0 && Halves(l, r) == Forward(s, i)
      {
        assert Forward(s, i + 1) == RoundAt(i, Forward(s, i));
        l := XorW(l, p[i]);
        r := XorW(r, F(l));
        r := XorW(r, p[i + 1]);
        l := XorW(l, F(r));
        i := i + 2;
      }
      l := XorW(l, p[16]);
      r := XorW(r, p[17]);
      output := StoreSwapped(Halves(l, r));
    }

    /** Two rounds are undone when each half still carries the key word of the round after. */
    lemma UndoPair(s: Halves, i: nat)
      requires |p| == 18 && 2 <= i <= 16 && i % 2 == 0
      ensures var t, u := Forward(s, i), Forward(s, i - 2);
              var l := XorW(XorW(XorW(t.l, p[i]), F(t.r)), p[i]);
              l == XorW(u.l, p[i - 2]) && XorW(t.r, F(l)) == XorW(u.r, p[i - 1])
    {
      hide F, XorW;
      var t, u := Forward(s, i), Forward(s, i - 2);
      assert Forward(s, i - 1) == RoundAt(i - 2, u);
      var l := XorW(u.l, p[i - 2]);
      var r := XorW(u.r, F(l));
      assert t.r == XorW(r, p[i - 1]) && t.l == XorW(l, F(t.r));
      XorSwap(t.l, p[i], F(t.r));
      XorTwice(XorW(t.l, F(t.r)), p[i]);
      XorTwice(l, F(t.r));
      XorSwap(r, p[i - 1], F(l));
      XorTwice(u.r, F(l));
    }

    /** blowfishDecryptBlock undoes blowfishEncryptBlock. */
    method DecryptBlock(input: seq<bv8>) returns (output: seq<bv8>)
      requires |p| == 18 && |input| == 8
      ensures forall x: seq<bv8> ::
                |x| == 8 && StoreSwapped(Encrypted(LoadHalves(x))) == input ==> output == x
    {
      hide F, XorW, LoadHalves, StoreSwapped, Store;
      var r, l := LoadHalves(input).l, LoadHalves(input).r;
      ghost var c := Halves(l, r);
      var i := 16;
      while i > 0
        invariant 0 <= i <= 16 && i % 2 == 0
        invariant forall s: Halves :: Encrypted(s) == c ==>
                    l == XorW(Forward(s, i).l, p[i]) && r == XorW(Forward(s, i).r, p[i + 1])
      {
        ghost var l0, r0 := l, r;
        r := XorW(r, p[i + 1]);
        l := XorW(l, F(r));
        l := XorW(l, p[i]);
        r := XorW(r, F(l));
        forall s: Halves | Encrypted(s) == c
          ensures l == XorW(Forward(s, i - 2).l, p[i - 2]) && r == XorW(Forward(s, i - 2).r, p[i - 1])
        {
          XorTwice(Forward(s, i).r, p[i + 1]);
          UndoPair(s, i);
        }
        i := i - 2;
      }
      // Nothing is left of the rounds but the first two key additions.
      r := XorW(r, p[1]);
      l := XorW(l, p[0]);
      output := Store(Halves(l, r));
      forall x: seq<bv8> | |x| == 8 && StoreSwapped(Encrypted(LoadHalves(x))) == input
        ensures output == x
      {
        var s := LoadHalves(x);
        LoadStoreSwapped(Encrypted(s));
        XorTwice(s.l, p[0]);
        XorTwice(s.r, p[1]);
        StoreLoad(x);
      }
    }
  }
}
