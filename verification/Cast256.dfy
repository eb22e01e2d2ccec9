/** cast256.c: twelve quad-rounds over four words, six forward and six in reverse. */
module Cast256 {
  import opened CastRounds
  import opened Words

  datatype Quad = Quad(a: bv32, b: bv32, c: bv32, d: bv32)

  /** The four subkey pairs of a quad-round. */
  type QuadKey = k: seq<RoundKey> | |k| == 4
    witness [RoundKey(0, 0), RoundKey(0, 0), RoundKey(0, 0), RoundKey(0, 0)]

  /** The four rounds of a quad-round, by their place in Q. */
  function Step(s: Boxes, k: QuadKey, j: nat, x: Quad): Quad
    requires j < 4
  {
    if j == 0 then x.(c := F1(s, x.c, x.d, k[0]))
    else if j == 1 then x.(b := F2(s, x.b, x.c, k[1]))
    else if j == 2 then x.(a := F3(s, x.a, x.b, k[2]))
    else x.(d := F1(s, x.d, x.a, k[3]))
  }

  /** Q */
  function Q(s: Boxes, k: QuadKey, x: Quad): Quad {
    Step(s, k, 3, Step(s, k, 2, Step(s, k, 1, Step(s, k, 0, x))))
  }

  /** QBAR: the steps of Q from last to first. */
  function QBar(s: Boxes, k: QuadKey, x: Quad): Quad {
    Step(s, k, 0, Step(s, k, 1, Step(s, k, 2, Step(s, k, 3, x))))
  }

  lemma StepTwice(s: Boxes, k: QuadKey, j: nat, x: Quad)
    requires j < 4
    ensures Step(s, k, j, Step(s, k, j, x)) == x
  {
    hide F1, F2, F3;
    RoundTwice(s, x.c, x.d, k[0]);
    RoundTwice(s, x.b, x.c, k[1]);
    RoundTwice(s, x.a, x.b, k[2]);
    RoundTwice(s, x.d, x.a, k[3]);
  }

  /** The two quad-rounds undo each other under the same key. */
  lemma QuadsInvert(s: Boxes, k: QuadKey, x: Quad)
    ensures QBar(s, k, Q(s, k, x)) == x && Q(s, k, QBar(s, k, x)) == x
  {
    hide Step;
    var q1 := Step(s, k, 0, x);
    var q2 := Step(s, k, 1, q1);
    var q3 := Step(s, k, 2, q2);
    StepTwice(s, k, 0, x);
    StepTwice(s, k, 1, q1);
    StepTwice(s, k, 2, q2);
    StepTwice(s, k, 3, q3);
    var r1 := Step(s, k, 3, x);
    var r2 := Step(s, k, 2, r1);
    var r3 := Step(s, k, 1, r2);
    StepTwice(s, k, 3, x);
    StepTwice(s, k, 2, r1);
    StepTwice(s, k, 1, r2);
    StepTwice(s, k, 0, r3);
  }

  /** The first n quad-rounds: six forward ones, then reverse ones. */
  function Forward(s: Boxes, keys: seq<QuadKey>, x: Quad, n: nat): Quad
    requires n <= |keys|
  {
    if n == 0 then x
    else if n <= 6 then Q(s, keys[n - 1], Forward(s, keys, x, n - 1))
    else QBar(s, keys[n - 1], Forward(s, keys, x, n - 1))
  }

  /** The same with the quad-round keys from n - 1 down. */
  function Backward(s: Boxes, keys: seq<QuadKey>, x: Quad, n: nat): Quad
    requires n <= |keys|
    decreases n
  {
    if n == 0 then x
    else if n <= 6 then Backward(s, keys, QBar(s, keys[n - 1], x), n - 1)
    else Backward(s, keys, Q(s, keys[n - 1], x), n - 1)
  }

  /** Any number of quad-rounds are undone with the keys in reverse order. */
  lemma {:induction false} BackwardUndoes(s: Boxes, keys: seq<QuadKey>, x: Quad, n: nat)
    requires n <= |keys|
    ensures Backward(s, keys, Forward(s, keys, x, n), n) == x
    decreases n
  {
    hide Q, QBar;
    if n > 0 {
      QuadsInvert(s, keys[n - 1], Forward(s, keys, x, n - 1));
      BackwardUndoes(s, keys, x, n - 1);
    }
  }

  /** The Q macro. */
  method ApplyQ(s: Boxes, k: QuadKey, x: Quad) returns (y: Quad)
    ensures y == Q(s, k, x)
  {
    hide F1, F2, F3;
    var a, b, c, d := x.a, x.b, x.c, x.d;
    c := F1(s, c, d, k[0]);
    b := F2(s, b, c, k[1]);
    a := F3(s, a, b, k[2]);
    d := F1(s, d, a, k[3]);
    y := Quad(a, b, c, d);
  }

  /** The QBAR macro. */
  method ApplyQBar(s: Boxes, k: QuadKey, x: Quad) returns (y: Quad)
    ensures y == QBar(s, k, x)
  {
    hide F1, F2, F3;
    var a, b, c, d := x.a, x.b, x.c, x.d;
    d := F1(s, d, a, k[3]);
    a := F3(s, a, b, k[2]);
    b := F2(s, b, c, k[1]);
    c := F1(s, c, d, k[0]);
    y := Quad(a, b, c, d);
  }

  function LoadQuad(input: seq<bv8>): Quad
    requires |input| == 16
  {
    Quad(Load32BE(input[0], input[1], input[2], input[3]), Load32BE(input[4], input[5], input[6], input[7]),
         Load32BE(input[8], input[9], input[10], input[11]), Load32BE(input[12], input[13], input[14], input[15]))
  }

  function StoreQuad(x: Quad): (output: seq<bv8>)
    ensures |output| == 16
  {
    Store32BE(x.a) + Store32BE(x.b) + Store32BE(x.c) + Store32BE(x.d)
  }

  lemma LoadStoreQuad(x: Quad)
    ensures LoadQuad(StoreQuad(x)) == x
  {
    hide Load32BE, ByteOf;
    LoadStore32BE(x.a);
    LoadStore32BE(x.b);
    LoadStore32BE(x.c);
    LoadStore32BE(x.d);
  }

  /** cast256EncryptBlock; the twelve calls of the code are a loop over the quad-round keys here. */
  method EncryptBlock(s: Boxes, keys: seq<QuadKey>, input: seq<bv8>) returns (output: seq<bv8>)
    requires |keys| == 12 && |input| == 16
    ensures output == StoreQuad(Forward(s, keys, LoadQuad(input), 12))
  {
    hide Q, QBar, LoadQuad, StoreQuad;
    ghost var x0 := LoadQuad(input);
    var x := LoadQuad(input);
    for q := 0 to 6
      invariant x == Forward(s, keys, x0, q)
    {
      x := ApplyQ(s, keys[q], x);
    }
    for q := 6 to 12
      invariant x == Forward(s, keys, x0, q)
    {
      x := ApplyQBar(s, keys[q], x);
    }
    output := StoreQuad(x);
  }

  /** cast256DecryptBlock undoes cast256EncryptBlock. */
  method DecryptBlock(s: Boxes, keys: seq<QuadKey>, input: seq<bv8>) returns (output: seq<bv8>)
    requires |keys| == 12 && |input| == 16
    ensures output == StoreQuad(Backward(s, keys, LoadQuad(input), 12))
    ensures forall x: seq<bv8> :: |x| == 16 && StoreQuad(Forward(s, keys, LoadQuad(x), 12)) == input ==> output == x
  {
    hide Q, QBar, LoadQuad, StoreQuad;
    ghost var x0 := LoadQuad(input);
    var x := LoadQuad(input);
    for q := 12 downto 6
      invariant Backward(s, keys, x, q) == Backward(s, keys, x0, 12)
    {
      x := ApplyQ(s, keys[q], x);
    }
    for q := 6 downto 0
      invariant Backward(s, keys, x, q) == Backward(s, keys, x0, 12)
    {
      x := ApplyQBar(s, keys[q], x);
    }
    output := StoreQuad(x);
    forall y: seq<bv8> | |y| == 16 && StoreQuad(Forward(s, keys, LoadQuad(y), 12)) == input
      ensures output == y
    {
      LoadStoreQuad(Forward(s, keys, LoadQuad(y), 12));
      BackwardUndoes(s, keys, LoadQuad(y), 12);
      StoreLoadQuad(y);
    }
  }

  lemma StoreLoadQuad(input: seq<bv8>)
    requires |input| == 16
    ensures StoreQuad(LoadQuad(input)) == input
  {
    FourWordsBE(input);
    hide Load32BE, Store32BE;
  }
}
