/** cast128.c: twelve or sixteen rounds over two halves. */
module Cast128 {
  import opened CastRounds
  import opened Feistel
  import opened Words

  predicate Shaped(nr: nat, keys: seq<RoundKey>) {
    nr in {12, 16} && |keys| == 16
  }

  /** Round i: the type goes round in threes, and the halves take turns. */
  function RoundAt(b: Boxes, keys: seq<RoundKey>, i: nat, s: Halves): Halves
    requires i < |keys|
  {
    if i % 2 == 0 then
      Halves(if i % 3 == 0 then F1(b, s.l, s.r, keys[i]) else if i % 3 == 1 then F2(b, s.l, s.r, keys[i]) else F3(b, s.l, s.r, keys[i]), s.r)
    else
      Halves(s.l, if i % 3 == 0 then F1(b, s.r, s.l, keys[i]) else if i % 3 == 1 then F2(b, s.r, s.l, keys[i]) else F3(b, s.r, s.l, keys[i]))
  }

  /** The first n rounds. */
  function Forward(b: Boxes, keys: seq<RoundKey>, s: Halves, n: nat): Halves
    requires n <= |keys|
  {
    if n == 0 then s else RoundAt(b, keys, n - 1, Forward(b, keys, s, n - 1))
  }

  /** The first n rounds, last to first. */
  function Backward(b: Boxes, keys: seq<RoundKey>, s: Halves, n: nat): Halves
    requires n <= |keys|
    decreases n
  {
    if n == 0 then s else Backward(b, keys, RoundAt(b, keys, n - 1, s), n - 1)
  }

  /** Any number of rounds are undone in reverse order. */
  lemma {:induction false} BackwardUndoes(b: Boxes, keys: seq<RoundKey>, s: Halves, n: nat)
    requires n <= |keys|
    ensures Backward(b, keys, Forward(b, keys, s, n), n) == s
    decreases n
  {
    hide F1, F2, F3;
    if n > 0 {
      var t := Forward(b, keys, s, n - 1);
      RoundTwice(b, t.l, t.r, keys[n - 1]);
      RoundTwice(b, t.r, t.l, keys[n - 1]);
      BackwardUndoes(b, keys, s, n - 1);
    }
  }

  /** Rounds from one position to a later one. */
  lemma ForwardFour(b: Boxes, keys: seq<RoundKey>, s: Halves, n: nat)
    requires n + 4 <= |keys|
    ensures Forward(b, keys, s, n + 4)
         == RoundAt(b, keys, n + 3, RoundAt(b, keys, n + 2, RoundAt(b, keys, n + 1, RoundAt(b, keys, n, Forward(b, keys, s, n)))))
  {
    hide RoundAt;
    assert Forward(b, keys, s, n + 2) == RoundAt(b, keys, n + 1, Forward(b, keys, s, n + 1));
  }

  lemma BackwardFour(b: Boxes, keys: seq<RoundKey>, s: Halves, n: nat)
    requires n + 4 <= |keys|
    ensures Backward(b, keys, s, n + 4)
         == Backward(b, keys, RoundAt(b, keys, n, RoundAt(b, keys, n + 1, RoundAt(b, keys, n + 2, RoundAt(b, keys, n + 3, s)))), n)
  {
    hide RoundAt;
    var t3 := RoundAt(b, keys, n + 3, s);
    var t2 := RoundAt(b, keys, n + 2, t3);
    var t1 := RoundAt(b, keys, n + 1, t2);
    assert Backward(b, keys, s, n + 4) == Backward(b, keys, t3, n + 3);
    assert Backward(b, keys, t3, n + 3) == Backward(b, keys, t2, n + 2);
    assert Backward(b, keys, t2, n + 2) == Backward(b, keys, t1, n + 1);
  }

  method Encrypt0(b: Boxes, keys: seq<RoundKey>, l0: bv32, r0: bv32, ghost s: Halves) returns (l: bv32, r: bv32)
    requires |keys| == 16 && Halves(l0, r0) == Forward(b, keys, s, 0)
    ensures Halves(l, r) == Forward(b, keys, s, 4)
  {
    hide F1, F2, F3, Forward;
    ForwardFour(b, keys, s, 0);
    l, r := l0, r0;
    l := F1(b, l, r, keys[0]);
    r := F2(b, r, l, keys[1]);
    l := F3(b, l, r, keys[2]);
    r := F1(b, r, l, keys[3]);
  }

  method Encrypt4(b: Boxes, keys: seq<RoundKey>, l0: bv32, r0: bv32, ghost s: Halves) returns (l: bv32, r: bv32)
    requires |keys| == 16 && Halves(l0, r0) == Forward(b, keys, s, 4)
    ensures Halves(l, r) == Forward(b, keys, s, 8)
  {
    hide F1, F2, F3, Forward;
    ForwardFour(b, keys, s, 4);
    l, r := l0, r0;
    l := F2(b, l, r, keys[4]);
    r := F3(b, r, l, keys[5]);
    l := F1(b, l, r, keys[6]);
    r := F2(b, r, l, keys[7]);
  }

  method Encrypt8(b: Boxes, keys: seq<RoundKey>, l0: bv32, r0: bv32, ghost s: Halves) returns (l: bv32, r: bv32)
    requires |keys| == 16 && Halves(l0, r0) == Forward(b, keys, s, 8)
    ensures Halves(l, r) == Forward(b, keys, s, 12)
  {
    hide F1, F2, F3, Forward;
    ForwardFour(b, keys, s, 8);
    l, r := l0, r0;
    l := F3(b, l, r, keys[8]);
    r := F1(b, r, l, keys[9]);
    l := F2(b, l, r, keys[10]);
    r := F3(b, r, l, keys[11]);
  }

  method Encrypt12(b: Boxes, keys: seq<RoundKey>, l0: bv32, r0: bv32, ghost s: Halves) returns (l: bv32, r: bv32)
    requires |keys| == 16 && Halves(l0, r0) == Forward(b, keys, s, 12)
    ensures Halves(l, r) == Forward(b, keys, s, 16)
  {
    hide F1, F2, F3, Forward;
    ForwardFour(b, keys, s, 12);
    l, r := l0, r0;
    l := F1(b, l, r, keys[12]);
    r := F2(b, r, l, keys[13]);
    l := F3(b, l, r, keys[14]);
    r := F1(b, r, l, keys[15]);
  }

  method Decrypt12(b: Boxes, keys: seq<RoundKey>, l0: bv32, r0: bv32, ghost c: Halves, ghost n: nat) returns (l: bv32, r: bv32)
    requires |keys| == 16 && 16 <= n <= 16
    requires Backward(b, keys, Halves(l0, r0), 16) == Backward(b, keys, c, n)
    ensures Backward(b, keys, Halves(l, r), 12) == Backward(b, keys, c, n)
  {
    hide F1, F2, F3, Backward;
    BackwardFour(b, keys, Halves(l0, r0), 12);
    l, r := l0, r0;
    r := F1(b, r, l, keys[15]);
    l := F3(b, l, r, keys[14]);
    r := F2(b, r, l, keys[13]);
    l := F1(b, l, r, keys[12]);
  }

  method Decrypt8(b: Boxes, keys: seq<RoundKey>, l0: bv32, r0: bv32, ghost c: Halves, ghost n: nat) returns (l: bv32, r: bv32)
    requires |keys| == 16 && 12 <= n <= 16
    requires Backward(b, keys, Halves(l0, r0), 12) == Backward(b, keys, c, n)
    ensures Backward(b, keys, Halves(l, r), 8) == Backward(b, keys, c, n)
  {
    hide F1, F2, F3, Backward;
    BackwardFour(b, keys, Halves(l0, r0), 8);
    l, r := l0, r0;
    r := F3(b, r, l, keys[11]);
    l := F2(b, l, r, keys[10]);
    r := F1(b, r, l, keys[9]);
    l := F3(b, l, r, keys[8]);
  }

  method Decrypt4(b: Boxes, keys: seq<RoundKey>, l0: bv32, r0: bv32, ghost c: Halves, ghost n: nat) returns (l: bv32, r: bv32)
    requires |keys| == 16 && 8 <= n <= 16
    requires Backward(b, keys, Halves(l0, r0), 8) == Backward(b, keys, c, n)
    ensures Backward(b, keys, Halves(l, r), 4) == Backward(b, keys, c, n)
  {
    hide F1, F2, F3, Backward;
    BackwardFour(b, keys, Halves(l0, r0), 4);
    l, r := l0, r0;
    r := F2(b, r, l, keys[7]);
    l := F1(b, l, r, keys[6]);
    r := F3(b, r, l, keys[5]);
    l := F2(b, l, r, keys[4]);
  }

  method Decrypt0(b: Boxes, keys: seq<RoundKey>, l0: bv32, r0: bv32, ghost c: Halves, ghost n: nat) returns (l: bv32, r: bv32)
    requires |keys| == 16 && 4 <= n <= 16
    requires Backward(b, keys, Halves(l0, r0), 4) == Backward(b, keys, c, n)
    ensures Backward(b, keys, Halves(l, r), 0) == Backward(b, keys, c, n)
  {
    hide F1, F2, F3, Backward;
    BackwardFour(b, keys, Halves(l0, r0), 0);
    l, r := l0, r0;
    r := F1(b, r, l, keys[3]);
    l := F3(b, l, r, keys[2]);
    r := F2(b, r, l, keys[1]);
    l := F1(b, l, r, keys[0]);
  }

  /** cast128EncryptBlock */
  method EncryptBlock(b: Boxes, keys: seq<RoundKey>, nr: nat, input: seq<bv8>) returns (output: seq<bv8>)
    requires Shaped(nr, keys) && |input| == 8
    ensures output == StoreSwapped(Forward(b, keys, LoadHalves(input), nr))
  {
    ghost var s := LoadHalves(input);
    assert Forward(b, keys, s, 0) == s;
    hide Forward, LoadHalves, StoreSwapped;
    var l, r := LoadHalves(input).l, LoadHalves(input).r;
    l, r := Encrypt0(b, keys, l, r, s);
    l, r := Encrypt4(b, keys, l, r, s);
    l, r := Encrypt8(b, keys, l, r, s);
    if nr == 16 {
      l, r := Encrypt12(b, keys, l, r, s);
    }
    output := StoreSwapped(Halves(l, r));
  }

  /** cast128DecryptBlock undoes cast128EncryptBlock. */
  method DecryptBlock(b: Boxes, keys: seq<RoundKey>, nr: nat, input: seq<bv8>) returns (output: seq<bv8>)
    requires Shaped(nr, keys) && |input| == 8
    ensures output == Store(Backward(b, keys, Halves(LoadHalves(input).r, LoadHalves(input).l), nr))
    ensures forall x: seq<bv8> ::
              |x| == 8 && StoreSwapped(Forward(b, keys, LoadHalves(x), nr)) == input ==> output == x
  {
    var r, l := LoadHalves(input).l, LoadHalves(input).r;
    ghost var c := Halves(l, r);
    if nr == 16 {
      l, r := Decrypt12(b, keys, l, r, c, nr);
    }
    hide Forward, LoadHalves, StoreSwapped, Store;
    l, r := Decrypt8(b, keys, l, r, c, nr);
    l, r := Decrypt4(b, keys, l, r, c, nr);
    l, r := Decrypt0(b, keys, l, r, c, nr);
    assert Backward(b, keys, Halves(l, r), 0) == Halves(l, r);
    hide Backward;
    output := Store(Halves(l, r));
    forall x: seq<bv8> | |x| == 8 && StoreSwapped(Forward(b, keys, LoadHalves(x), nr)) == input
      ensures output == x
    {
      LoadStoreSwapped(Forward(b, keys, LoadHalves(x), nr));
      BackwardUndoes(b, keys, LoadHalves(x), nr);
      StoreLoad(x);
    }
  }
}
