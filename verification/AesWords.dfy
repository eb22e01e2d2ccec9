/** AES columns held in 32-bit words, least significant byte first, and the table look-ups on them. */
module AesWords {
  import opened Words
  import opened AesTables
  import opened AesField
  import opened AesSpec

  function Word(c: Col): bv32 {
    Load32LE(c.b0, c.b1, c.b2, c.b3)
  }

  function ColOf(w: bv32): Col {
    Col(ByteOf(w, 0), ByteOf(w, 1), ByteOf(w, 2), ByteOf(w, 3))
  }

  lemma WordOfCol(w: bv32)
    ensures Word(ColOf(w)) == w
  {
    LoadStore32LE(w);
    hide ByteOf, Load32LE;
  }

  lemma ColOfWord(c: Col)
    ensures ColOf(Word(c)) == c
  {
    StoreLoad32LE(c.b0, c.b1, c.b2, c.b3);
    hide ByteOf, Load32LE;
    assert Store32LE(Word(c))[0] == c.b0 && Store32LE(Word(c))[1] == c.b1;
    assert Store32LE(Word(c))[2] == c.b2 && Store32LE(Word(c))[3] == c.b3;
  }

  lemma LoadXor(a0: bv8, a1: bv8, a2: bv8, a3: bv8, b0: bv8, b1: bv8, b2: bv8, b3: bv8)
    ensures XorW(Load32LE(a0, a1, a2, a3), Load32LE(b0, b1, b2, b3))
         == Load32LE(Xor(a0, b0), Xor(a1, b1), Xor(a2, b2), Xor(a3, b3))
  {
  }

  lemma RolLoad8(a: bv8, b: bv8, c: bv8, d: bv8)
    ensures Rol32(Load32LE(a, b, c, d), 8) == Load32LE(d, a, b, c)
  {
  }

  lemma RolLoad16(a: bv8, b: bv8, c: bv8, d: bv8)
    ensures Rol32(Load32LE(a, b, c, d), 16) == Load32LE(c, d, a, b)
  {
  }

  lemma RolLoad24(a: bv8, b: bv8, c: bv8, d: bv8)
    ensures Rol32(Load32LE(a, b, c, d), 24) == Load32LE(b, c, d, a)
  {
  }

  lemma WordXor(a: Col, b: Col)
    ensures XorW(Word(a), Word(b)) == Word(XorCol(a, b))
  {
    hide Load32LE, XorW, Xor;
    LoadXor(a.b0, a.b1, a.b2, a.b3, b.b0, b.b1, b.b2, b.b3);
  }

  /** The word t with its column rotated down by one, two or three bytes. */
  lemma WordRol(c: Col)
    ensures Rol32(Word(c), 8) == Word(Col(c.b3, c.b0, c.b1, c.b2))
    ensures Rol32(Word(c), 16) == Word(Col(c.b2, c.b3, c.b0, c.b1))
    ensures Rol32(Word(c), 24) == Word(Col(c.b1, c.b2, c.b3, c.b0))
  {
    RolLoad8(c.b0, c.b1, c.b2, c.b3);
    RolLoad16(c.b0, c.b1, c.b2, c.b3);
    RolLoad24(c.b0, c.b1, c.b2, c.b3);
    hide Load32LE, Rol32;
  }

  /** Four words, rotated by 0, 8, 16 and 24 bits and added up. */
  function Gather(a: bv32, b: bv32, c: bv32, d: bv32): bv32 {
    XorW(XorW(XorW(a, Rol32(b, 8)), Rol32(c, 16)), Rol32(d, 24))
  }

  lemma GatherWords(a: Col, b: Col, c: Col, d: Col)
    ensures Gather(Word(a), Word(b), Word(c), Word(d))
         == Word(Col(Xor4(a.b0, b.b3, c.b2, d.b1), Xor4(a.b1, b.b0, c.b3, d.b2),
                     Xor4(a.b2, b.b1, c.b0, d.b3), Xor4(a.b3, b.b2, c.b1, d.b0)))
  {
    WordRol(b);
    WordRol(c);
    WordRol(d);
    hide Word, Rol32, XorW, Xor;
    var (e, f, g) := (Col(b.b3, b.b0, b.b1, b.b2), Col(c.b2, c.b3, c.b0, c.b1), Col(d.b1, d.b2, d.b3, d.b0));
    XorWAssociates(XorW(Word(a), Word(e)), Word(f), Word(g));
    WordXor(a, e);
    WordXor(f, g);
    WordXor(XorCol(a, e), XorCol(f, g));
  }

  /** One output word of an encryption round: the S-box, the row shift and the column mixing in one. */
  lemma TeGather(a: bv8, b: bv8, c: bv8, d: bv8)
    ensures Gather(Te(a), Te(b), Te(c), Te(d)) == Word(MixCol(SubCol(Col(a, b, c, d))))
  {
    TeEntry(a);
    TeEntry(b);
    TeEntry(c);
    TeEntry(d);
    hide Te, SBox, Load32LE, XTime, X3, Xor4, Gather;
    var (p, q, r, s) := (SBox(a), SBox(b), SBox(c), SBox(d));
    GatherWords(Col(XTime(p), p, p, X3(p)), Col(XTime(q), q, q, X3(q)),
                Col(XTime(r), r, r, X3(r)), Col(XTime(s), s, s, X3(s)));
  }

  /** One output word of a decryption round. */
  lemma TdGather(a: bv8, b: bv8, c: bv8, d: bv8)
    ensures Gather(Td(a), Td(b), Td(c), Td(d)) == Word(InvMixCol(InvSubCol(Col(a, b, c, d))))
  {
    TdEntry(a);
    TdEntry(b);
    TdEntry(c);
    TdEntry(d);
    hide Td, InvSBox, Load32LE, XE, XB, XD, X9, Xor4, Gather;
    var (p, q, r, s) := (InvSBox(a), InvSBox(b), InvSBox(c), InvSBox(d));
    GatherWords(Col(XE(p), X9(p), XD(p), XB(p)), Col(XE(q), X9(q), XD(q), XB(q)),
                Col(XE(r), X9(r), XD(r), XB(r)), Col(XE(s), X9(s), XD(s), XB(s)));
  }

  // ----- blocks and round keys ---------------------------------------------------------------------------

  function ColAt(b: seq<bv8>, i: nat): Col
    requires i + 4 <= |b|
  {
    Col(b[i], b[i + 1], b[i + 2], b[i + 3])
  }

  /** The state a 16-byte block is copied to, section 3.4 of FIPS 197. */
  function StateOf(b: seq<bv8>): State
    requires |b| == 16
  {
    State(ColAt(b, 0), ColAt(b, 4), ColAt(b, 8), ColAt(b, 12))
  }

  function ColBytes(c: Col): seq<bv8> {
    [c.b0, c.b1, c.b2, c.b3]
  }

  function Bytes(s: State): (b: seq<bv8>)
    ensures |b| == 16
  {
    ColBytes(s.c0) + ColBytes(s.c1) + ColBytes(s.c2) + ColBytes(s.c3)
  }

  lemma BytesOfState(s: State)
    ensures StateOf(Bytes(s)) == s
  {
  }

  lemma StateOfBytes(b: seq<bv8>)
    requires |b| == 16
    ensures Bytes(StateOf(b)) == b
  {
  }

  /** Round key r of a schedule of words. */
  function KeyAt(w: seq<bv32>, r: nat): State
    requires 4 * r + 4 <= |w|
  {
    State(ColOf(w[4 * r]), ColOf(w[4 * r + 1]), ColOf(w[4 * r + 2]), ColOf(w[4 * r + 3]))
  }

  function Keys(w: seq<bv32>, nr: nat): (ks: seq<State>)
    requires 4 * nr + 4 <= |w|
    ensures |ks| == nr + 1
  {
    seq(nr + 1, r requires 0 <= r < nr + 1 => KeyAt(w, r))
  }
}
