/** The AES cipher of FIPS 197, on columns of bytes, and its inverse. */
module AesSpec {
  import opened AesTables
  import opened AesField

  datatype Col = Col(b0: bv8, b1: bv8, b2: bv8, b3: bv8)

  datatype State = State(c0: Col, c1: Col, c2: Col, c3: Col)

  function XorCol(a: Col, b: Col): Col {
    Col(Xor(a.b0, b.b0), Xor(a.b1, b.b1), Xor(a.b2, b.b2), Xor(a.b3, b.b3))
  }

  /** AddRoundKey */
  function AddKey(s: State, k: State): State {
    State(XorCol(s.c0, k.c0), XorCol(s.c1, k.c1), XorCol(s.c2, k.c2), XorCol(s.c3, k.c3))
  }

  function SubCol(c: Col): Col {
    Col(SBox(c.b0), SBox(c.b1), SBox(c.b2), SBox(c.b3))
  }

  function InvSubCol(c: Col): Col {
    Col(InvSBox(c.b0), InvSBox(c.b1), InvSBox(c.b2), InvSBox(c.b3))
  }

  /** MixColumns on one column, section 5.1.3. */
  function MixCol(c: Col): Col {
    Col(Xor4(XTime(c.b0), X3(c.b1), c.b2, c.b3),
        Xor4(c.b0, XTime(c.b1), X3(c.b2), c.b3),
        Xor4(c.b0, c.b1, XTime(c.b2), X3(c.b3)),
        Xor4(X3(c.b0), c.b1, c.b2, XTime(c.b3)))
  }

  /** InvMixColumns on one column, section 5.3.3. */
  function InvMixCol(c: Col): Col {
    Col(Xor4(XE(c.b0), XB(c.b1), XD(c.b2), X9(c.b3)),
        Xor4(X9(c.b0), XE(c.b1), XB(c.b2), XD(c.b3)),
        Xor4(XD(c.b0), X9(c.b1), XE(c.b2), XB(c.b3)),
        Xor4(XB(c.b0), XD(c.b1), X9(c.b2), XE(c.b3)))
  }

  // ----- the mixing matrix and its inverse ------------------------------------------------------------

  lemma InvMixXor(a: Col, b: Col)
    ensures InvMixCol(XorCol(a, b)) == XorCol(InvMixCol(a), InvMixCol(b))
  {
    hide XE, XB, XD, X9, Xor, Xor4;
    var (a0, a1, a2, a3) := (a.b0, a.b1, a.b2, a.b3);
    var (b0, b1, b2, b3) := (b.b0, b.b1, b.b2, b.b3);
    LinearByte(a0, b0);
    LinearByte(a1, b1);
    LinearByte(a2, b2);
    LinearByte(a3, b3);
    Xor4Medial(XE(a0), XB(a1), XD(a2), X9(a3), XE(b0), XB(b1), XD(b2), X9(b3));
    Xor4Medial(X9(a0), XE(a1), XB(a2), XD(a3), X9(b0), XE(b1), XB(b2), XD(b3));
    Xor4Medial(XD(a0), X9(a1), XE(a2), XB(a3), XD(b0), X9(b1), XE(b2), XB(b3));
    Xor4Medial(XB(a0), XD(a1), X9(a2), XE(a3), XB(b0), XD(b1), X9(b2), XE(b3));
  }

  lemma LinearByte(a: bv8, b: bv8)
    ensures X9(Xor(a, b)) == Xor(X9(a), X9(b)) && XB(Xor(a, b)) == Xor(XB(a), XB(b))
    ensures XD(Xor(a, b)) == Xor(XD(a), XD(b)) && XE(Xor(a, b)) == Xor(XE(a), XE(b))
  {
    hide *;
    X9Xor(a, b);
    XBXor(a, b);
    XDXor(a, b);
    XEXor(a, b);
  }

  // What the product of the two matrices does to a single byte.

  lemma Diagonal(a: bv8)
    ensures Xor4(XE(XTime(a)), XB(a), XD(a), X9(X3(a))) == a
  {
    var sum := Xor4(XE(XTime(a)), XB(a), XD(a), X9(X3(a)));
    if a & 1 == 0 {
    }
    if a & 2 == 0 {
    }
  }

  lemma OffOne(b: bv8)
    ensures Xor4(XE(X3(b)), XB(XTime(b)), XD(b), X9(b)) == 0
  {
    var sum := Xor4(XE(X3(b)), XB(XTime(b)), XD(b), X9(b));
    if b & 1 == 0 {
    }
    if b & 2 == 0 {
    }
  }

  lemma OffTwo(c: bv8)
    ensures Xor4(XE(c), XB(X3(c)), XD(XTime(c)), X9(c)) == 0
  {
    var sum := Xor4(XE(c), XB(X3(c)), XD(XTime(c)), X9(c));
    if c & 1 == 0 {
    }
    if c & 2 == 0 {
    }
  }

  lemma OffThree(d: bv8)
    ensures Xor4(XE(d), XB(d), XD(X3(d)), X9(XTime(d))) == 0
  {
    var sum := Xor4(XE(d), XB(d), XD(X3(d)), X9(XTime(d)));
    if d & 1 == 0 {
    }
    if d & 2 == 0 {
    }
  }

  lemma Transpose(a: Col, b: Col, c: Col, d: Col)
    ensures Xor4(Xor4(a.b0, a.b1, a.b2, a.b3), Xor4(b.b0, b.b1, b.b2, b.b3),
                 Xor4(c.b0, c.b1, c.b2, c.b3), Xor4(d.b0, d.b1, d.b2, d.b3))
         == Xor4(Xor4(a.b0, b.b0, c.b0, d.b0), Xor4(a.b1, b.b1, c.b1, d.b1),
                 Xor4(a.b2, b.b2, c.b2, d.b2), Xor4(a.b3, b.b3, c.b3, d.b3))
  {
    hide Xor;
    Xor4Medial(a.b0, a.b1, a.b2, a.b3, b.b0, b.b1, b.b2, b.b3);
    Xor4Medial(c.b0, c.b1, c.b2, c.b3, d.b0, d.b1, d.b2, d.b3);
    var (e, f) := (XorCol(a, b), XorCol(c, d));
    Xor4Medial(e.b0, e.b1, e.b2, e.b3, f.b0, f.b1, f.b2, f.b3);
  }

  lemma LinearFour(a: bv8, b: bv8, c: bv8, d: bv8)
    ensures XE(Xor4(a, b, c, d)) == Xor4(XE(a), XE(b), XE(c), XE(d))
    ensures XB(Xor4(a, b, c, d)) == Xor4(XB(a), XB(b), XB(c), XB(d))
    ensures XD(Xor4(a, b, c, d)) == Xor4(XD(a), XD(b), XD(c), XD(d))
    ensures X9(Xor4(a, b, c, d)) == Xor4(X9(a), X9(b), X9(c), X9(d))
  {
    hide XE, XB, XD, X9, Xor;
    LinearByte(a, b);
    LinearByte(c, d);
    LinearByte(Xor(a, b), Xor(c, d));
  }

  lemma OneIn4(a: bv8)
    ensures Xor4(a, 0, 0, 0) == a
  {
  }

  /** One row of the product of the two matrices. */
  lemma MixRow(a: bv8, b: bv8, c: bv8, d: bv8)
    ensures Xor4(XE(Xor4(XTime(a), X3(b), c, d)), XB(Xor4(a, XTime(b), X3(c), d)),
                 XD(Xor4(a, b, XTime(c), X3(d))), X9(Xor4(X3(a), b, c, XTime(d)))) == a
  {
    hide XE, XB, XD, X9, XTime, X3, Xor4;
    LinearFour(XTime(a), X3(b), c, d);
    LinearFour(a, XTime(b), X3(c), d);
    LinearFour(a, b, XTime(c), X3(d));
    LinearFour(X3(a), b, c, XTime(d));
    Transpose(Col(XE(XTime(a)), XE(X3(b)), XE(c), XE(d)), Col(XB(a), XB(XTime(b)), XB(X3(c)), XB(d)),
              Col(XD(a), XD(b), XD(XTime(c)), XD(X3(d))), Col(X9(X3(a)), X9(b), X9(c), X9(XTime(d))));
    Diagonal(a);
    OffOne(b);
    OffTwo(c);
    OffThree(d);
    OneIn4(a);
  }

  function RotCol(c: Col): Col {
    Col(c.b1, c.b2, c.b3, c.b0)
  }

  /** Both matrices are circulant. */
  lemma MixRotates(c: Col)
    ensures MixCol(RotCol(c)) == RotCol(MixCol(c))
  {
    hide XTime, X3, Xor4;
    var (a, b, c, d) := (c.b0, c.b1, c.b2, c.b3);
    Xor4Rotates(XTime(a), X3(b), c, d);
    Xor4Rotates(a, XTime(b), X3(c), d);
    Xor4Rotates(a, b, XTime(c), X3(d));
    Xor4Rotates(X3(a), b, c, XTime(d));
  }

  lemma InvMixRotates(c: Col)
    ensures InvMixCol(RotCol(c)) == RotCol(InvMixCol(c))
  {
    hide XE, XB, XD, X9, Xor4;
    var (a, b, c, d) := (c.b0, c.b1, c.b2, c.b3);
    Xor4Rotates(XE(a), XB(b), XD(c), X9(d));
    Xor4Rotates(X9(a), XE(b), XB(c), XD(d));
    Xor4Rotates(XD(a), X9(b), XE(c), XB(d));
    Xor4Rotates(XB(a), XD(b), X9(c), XE(d));
  }

  lemma FirstByteBack(c: Col)
    ensures InvMixCol(MixCol(c)).b0 == c.b0
  {
    MixRow(c.b0, c.b1, c.b2, c.b3);
    hide XE, XB, XD, X9, XTime, X3, Xor4;
  }

  lemma RotateThrough(c: Col)
    ensures InvMixCol(MixCol(RotCol(c))) == RotCol(InvMixCol(MixCol(c)))
  {
    hide *;
    MixRotates(c);
    InvMixRotates(MixCol(c));
  }

  /** InvMixColumns undoes MixColumns. */
  lemma MixInverts(c: Col)
    ensures InvMixCol(MixCol(c)) == c
  {
    hide InvMixCol, MixCol;
    var (d, e) := (RotCol(c), RotCol(RotCol(c)));
    FirstByteBack(c);
    FirstByteBack(d);
    FirstByteBack(e);
    FirstByteBack(RotCol(e));
    RotateThrough(c);
    RotateThrough(d);
    RotateThrough(e);
  }

  // ----- the state ---------------------------------------------------------------------------------------

  function SubBytes(s: State): State {
    State(SubCol(s.c0), SubCol(s.c1), SubCol(s.c2), SubCol(s.c3))
  }

  function ShiftRows(s: State): State {
    State(Col(s.c0.b0, s.c1.b1, s.c2.b2, s.c3.b3), Col(s.c1.b0, s.c2.b1, s.c3.b2, s.c0.b3),
          Col(s.c2.b0, s.c3.b1, s.c0.b2, s.c1.b3), Col(s.c3.b0, s.c0.b1, s.c1.b2, s.c2.b3))
  }

  function MixColumns(s: State): State {
    State(MixCol(s.c0), MixCol(s.c1), MixCol(s.c2), MixCol(s.c3))
  }

  function InvSubBytes(s: State): State {
    State(InvSubCol(s.c0), InvSubCol(s.c1), InvSubCol(s.c2), InvSubCol(s.c3))
  }

  function InvShiftRows(s: State): State {
    State(Col(s.c0.b0, s.c3.b1, s.c2.b2, s.c1.b3), Col(s.c1.b0, s.c0.b1, s.c3.b2, s.c2.b3),
          Col(s.c2.b0, s.c1.b1, s.c0.b2, s.c3.b3), Col(s.c3.b0, s.c2.b1, s.c1.b2, s.c0.b3))
  }

  function InvMixColumns(s: State): State {
    State(InvMixCol(s.c0), InvMixCol(s.c1), InvMixCol(s.c2), InvMixCol(s.c3))
  }

  // ----- the cipher, section 5.1, and the equivalent inverse cipher, section 5.3.5 ----------------------

  /** The state before round r, r >= 1. */
  function Rounds(s: State, keys: seq<State>, r: nat): State
    requires 1 <= r <= |keys|
  {
    if r == 1 then AddKey(s, keys[0])
    else AddKey(MixColumns(ShiftRows(SubBytes(Rounds(s, keys, r - 1)))), keys[r - 1])
  }

  /** Cipher, with one key for the start and one for every round. */
  function Cipher(s: State, keys: seq<State>): State
    requires |keys| >= 2
  {
    AddKey(ShiftRows(SubBytes(Rounds(s, keys, |keys| - 1))), keys[|keys| - 1])
  }

  /** The state of EqInvCipher once the keys from r on have been used, r >= 1. */
  function InvRounds(s: State, keys: seq<State>, r: nat): State
    requires 1 <= r < |keys|
    decreases |keys| - r
  {
    if r == |keys| - 1 then AddKey(s, keys[r])
    else AddKey(InvMixColumns(InvShiftRows(InvSubBytes(InvRounds(s, keys, r + 1)))), keys[r])
  }

  function EqInvCipher(s: State, keys: seq<State>): State
    requires |keys| >= 2
  {
    AddKey(InvShiftRows(InvSubBytes(InvRounds(s, keys, 1))), keys[0])
  }

  /** The key schedule of the equivalent inverse cipher. */
  function InvKeys(keys: seq<State>): (r: seq<State>)
    ensures |r| == |keys|
  {
    seq(|keys|, i requires 0 <= i < |keys| => if i == 0 || i == |keys| - 1 then keys[i] else InvMixColumns(keys[i]))
  }

  // ----- decryption undoes encryption --------------------------------------------------------------------

  lemma AddKeyTwice(s: State, k: State)
    ensures AddKey(AddKey(s, k), k) == s
  {
    hide Xor;
    AddColTwice(s.c0, k.c0);
    AddColTwice(s.c1, k.c1);
    AddColTwice(s.c2, k.c2);
    AddColTwice(s.c3, k.c3);
    hide XorCol;
  }

  lemma AddColTwice(a: Col, k: Col)
    ensures XorCol(XorCol(a, k), k) == a
  {
    hide Xor;
    XorTwice(a.b0, k.b0);
    XorTwice(a.b1, k.b1);
    XorTwice(a.b2, k.b2);
    XorTwice(a.b3, k.b3);
  }

  lemma SubColInverts(c: Col)
    ensures InvSubCol(SubCol(c)) == c
  {
    hide SBox, InvSBox;
    InvSBoxInverts(c.b0);
    InvSBoxInverts(c.b1);
    InvSBoxInverts(c.b2);
    InvSBoxInverts(c.b3);
  }

  /** The substitution works byte by byte, so the inverse shift can be taken after it. */
  lemma SubShiftInverts(s: State)
    ensures InvShiftRows(InvSubBytes(ShiftRows(SubBytes(s)))) == s
  {
    hide SBox, InvSBox;
    SubColInverts(s.c0);
    SubColInverts(s.c1);
    SubColInverts(s.c2);
    SubColInverts(s.c3);
  }

  lemma MixColumnsInverts(s: State)
    ensures InvMixColumns(MixColumns(s)) == s
  {
    hide MixCol, InvMixCol;
    MixInverts(s.c0);
    MixInverts(s.c1);
    MixInverts(s.c2);
    MixInverts(s.c3);
  }

  lemma InvMixColumnsXor(s: State, k: State)
    ensures InvMixColumns(AddKey(s, k)) == AddKey(InvMixColumns(s), InvMixColumns(k))
  {
    hide InvMixCol, XorCol;
    InvMixXor(s.c0, k.c0);
    InvMixXor(s.c1, k.c1);
    InvMixXor(s.c2, k.c2);
    InvMixXor(s.c3, k.c3);
  }

  /** The inverse rounds pass through the states of the cipher, last to first. */
  lemma {:induction false} InvRoundsMeet(s: State, keys: seq<State>, r: nat)
    requires 1 <= r < |keys|
    ensures InvRounds(Cipher(s, keys), InvKeys(keys), r) == ShiftRows(SubBytes(Rounds(s, keys, r)))
    decreases |keys| - r
  {
    hide AddKey, ShiftRows, SubBytes, InvShiftRows, InvSubBytes, MixColumns, InvMixColumns;
    var last := |keys| - 1;
    if r == last {
      AddKeyTwice(ShiftRows(SubBytes(Rounds(s, keys, last))), keys[last]);
    } else {
      InvRoundsMeet(s, keys, r + 1);
      var t := Rounds(s, keys, r + 1);
      SubShiftInverts(t);
      var u := MixColumns(ShiftRows(SubBytes(Rounds(s, keys, r))));
      InvMixColumnsXor(u, keys[r]);
      MixColumnsInverts(ShiftRows(SubBytes(Rounds(s, keys, r))));
      AddKeyTwice(InvMixColumns(u), InvMixColumns(keys[r]));
    }
  }

  /** The equivalent inverse cipher undoes the cipher, for any round keys. */
  lemma CipherInverts(s: State, keys: seq<State>)
    requires |keys| >= 2
    ensures EqInvCipher(Cipher(s, keys), InvKeys(keys)) == s
  {
    hide AddKey, ShiftRows, SubBytes, InvShiftRows, InvSubBytes, Cipher, InvRounds;
    InvRoundsMeet(s, keys, 1);
    SubShiftInverts(AddKey(s, keys[0]));
    AddKeyTwice(s, keys[0]);
  }

  // ----- key expansion, section 5.2 --------------------------------------------------------------------

  /** The first byte of the round constant: x to the power j - 1. */
  function RconByte(j: nat): bv8
    requires j >= 1
  {
    if j == 1 then 1 else XTime(RconByte(j - 1))
  }

  /** Word i of the expanded key. */
  function KeyWord(key: seq<Col>, i: nat): Col
    requires |key| >= 1
  {
    if i < |key| then key[i]
    else
      var prev := KeyWord(key, i - 1);
      var temp := if i % |key| == 0 then XorCol(SubCol(RotCol(prev)), Col(RconByte(i / |key|), 0, 0, 0))
                  else if |key| > 6 && i % |key| == 4 then SubCol(prev)
                  else prev;
      XorCol(temp, KeyWord(key, i - |key|))
  }

  /** The round keys, four words each. */
  function Schedule(key: seq<Col>, nr: nat): (ks: seq<State>)
    requires |key| >= 1
    ensures |ks| == nr + 1
  {
    seq(nr + 1, r requires 0 <= r < nr + 1 =>
      State(KeyWord(key, 4 * r), KeyWord(key, 4 * r + 1), KeyWord(key, 4 * r + 2), KeyWord(key, 4 * r + 3)))
  }
}
