/** aes.c: the key schedules, block encryption and block decryption. */
module Aes {
  import opened Words
  import opened AesTables
  import opened AesField
  import opened AesSpec
  import opened AesWords

  const RCON: seq<bv32> := [0x00, 0x01, 0x02, 0x04, 0x08, 0x10, 0x20, 0x40, 0x80, 0x1B, 0x36]

  lemma RconEntry(j: nat)
    requires 1 <= j <= 10
    ensures RCON[j] == Word(Col(RconByte(j), 0, 0, 0))
  {
    RconBytes();
    hide RconByte;
  }

  lemma RconBytes()
    ensures RconByte(1) == 0x01 && RconByte(2) == 0x02 && RconByte(3) == 0x04 && RconByte(4) == 0x08
    ensures RconByte(5) == 0x10 && RconByte(6) == 0x20 && RconByte(7) == 0x40 && RconByte(8) == 0x80
    ensures RconByte(9) == 0x1B && RconByte(10) == 0x36
  {
  }

  /** The columns of a key of a multiple of four bytes. */
  function KeyCols(key: seq<bv8>): (cols: seq<Col>)
    ensures |cols| == |key| / 4
  {
    seq(|key| / 4, i requires 0 <= i < |key| / 4 => ColAt(key, 4 * i))
  }

  /** The S-box on every byte of a word, the bytes taken from position `from` on. */
  function SubWord(w: bv32): bv32 {
    Load32LE(SBox(ByteOf(w, 0)), SBox(ByteOf(w, 1)), SBox(ByteOf(w, 2)), SBox(ByteOf(w, 3)))
  }

  function SubRotWord(w: bv32): bv32 {
    Load32LE(SBox(ByteOf(w, 1)), SBox(ByteOf(w, 2)), SBox(ByteOf(w, 3)), SBox(ByteOf(w, 0)))
  }

  lemma SubWords(c: Col)
    ensures SubWord(Word(c)) == Word(SubCol(c)) && SubRotWord(Word(c)) == Word(SubCol(RotCol(c)))
  {
    ColOfWord(c);
    hide SBox, ByteOf, Load32LE;
    assert ByteOf(Word(c), 0) == c.b0 && ByteOf(Word(c), 1) == c.b1;
    assert ByteOf(Word(c), 2) == c.b2 && ByteOf(Word(c), 3) == c.b3;
  }

  /** InvMixColumns on a round-key word, through sbox and td. */
  function InvKeyWord(w: bv32): bv32 {
    Gather(Td(SBox(ByteOf(w, 0))), Td(SBox(ByteOf(w, 1))), Td(SBox(ByteOf(w, 2))), Td(SBox(ByteOf(w, 3))))
  }

  lemma InvKeyWords(w: bv32)
    ensures ColOf(InvKeyWord(w)) == InvMixCol(ColOf(w))
  {
    hide SBox, InvSBox, Td, Gather, Word, ByteOf, InvMixCol;
    var c := ColOf(w);
    TdGather(SBox(c.b0), SBox(c.b1), SBox(c.b2), SBox(c.b3));
    SubColInverts(c);
    ColOfWord(InvMixCol(c));
  }

  datatype Status = NoError | InvalidKeyLength

  function RoundsFor(keyLen: nat): nat {
    if keyLen == 16 then 10 else if keyLen == 24 then 12 else 14
  }

  class AesContext {
    var nr: nat
    const ek: array<bv32>
    const dk: array<bv32>

    constructor ()
      ensures fresh(ek) && fresh(dk) && ek != dk && ek.Length == dk.Length == 60
    {
      nr := 0;
      ek := new bv32[60];
      dk := new bv32[60];
    }

    /** A context after a successful aesInit. */
    ghost predicate Valid()
      reads this, ek, dk
    {
      && (nr == 10 || nr == 12 || nr == 14) && ek.Length == dk.Length == 60
      && Keys(dk[..], nr) == InvKeys(Keys(ek[..], nr))
    }

    /** aesInit */
    method Init(key: seq<bv8>) returns (status: Status)
      requires ek != dk && ek.Length == dk.Length == 60
      modifies this, ek, dk
      ensures status == (if |key| in {16, 24, 32} then NoError else InvalidKeyLength)
      ensures status == NoError ==> Valid() && nr == RoundsFor(|key|)
      ensures status == NoError ==> Keys(ek[..], nr) == Schedule(KeyCols(key), nr)
    {
      if |key| == 16 {
        nr := 10;
      } else if |key| == 24 {
        nr := 12;
      } else if |key| == 32 {
        nr := 14;
      } else {
        return InvalidKeyLength;
      }
      Expand(key);
      InvertKeys();
      status := NoError;
    }

    /** The key schedule for encryption. */
    method Expand(key: seq<bv8>)
      requires |key| in {16, 24, 32} && nr == RoundsFor(|key|)
      requires ek != dk && ek.Length == dk.Length == 60
      modifies ek
      ensures Keys(ek[..], nr) == Schedule(KeyCols(key), nr)
    {
      ghost var cols := KeyCols(key);
      var keyLen := |key| / 4;
      var keyScheduleSize := 4 * (nr + 1);
      assert |cols| == keyLen && keyLen in {4, 6, 8} && 44 <= keyScheduleSize <= 60 && keyScheduleSize <= 11 * keyLen;
      NothingExpanded(ek[..], cols);
      hide *;
      var i := 0;
      while i < keyLen
        invariant 0 <= i <= keyLen
        invariant Expanded(ek[..], cols, i)
      {
        ghost var before := ek[..];
        ek[i] := Load32LE(key[4 * i], key[4 * i + 1], key[4 * i + 2], key[4 * i + 3]);
        KeyCopied(key, i);
        assert ek[..] == before[i := Word(KeyWord(cols, i))];
        ExpandedMore(before, cols, i);
        i := i + 1;
      }
      while i < keyScheduleSize
        invariant keyLen <= i <= keyScheduleSize
        invariant Expanded(ek[..], cols, i)
      {
        ghost var before := ek[..];
        ExpandWord(i, keyLen, cols);
        ExpandedMore(before, cols, i);
        i := i + 1;
      }
      AllExpanded(ek[..], cols, nr);
    }

    /** Word i of the key schedule before the last addition; it depends on word i - 1 alone. */
    method TransformWord(i: nat, keyLen: nat)
      requires keyLen in {4, 6, 8} && keyLen <= i < 60 && i < 11 * keyLen && ek.Length == 60
      modifies ek
      ensures ek[..] == old(ek[..])[i := Transformed(old(ek[i - 1]), i, keyLen)]
    {
      RconIndex(i, keyLen);
      hide Load32LE, ByteOf, SBox, XorW, RCON, SubWord, SubRotWord;
      ghost var before := ek[..];
      var temp := ek[i - 1];
      if i % keyLen == 0 {
        ek[i] := SubRotWord(temp);
        ek[i] := XorW(ek[i], RCON[i / keyLen]);
      } else if keyLen > 6 && i % keyLen == 4 {
        ek[i] := SubWord(temp);
      } else {
        ek[i] := temp;
      }
      assert ek[..] == before[i := ek[i]];
    }

    /** Word i of the key schedule, from word i - 1 and word i - keyLen. */
    method ExpandWord(i: nat, keyLen: nat, ghost cols: seq<Col>)
      requires keyLen in {4, 6, 8} && |cols| == keyLen && keyLen <= i < 60 && i < 11 * keyLen && ek.Length == 60
      requires Expanded(ek[..], cols, i)
      modifies ek
      ensures ek[..] == old(ek[..])[i := Word(KeyWord(cols, i))]
    {
      hide *;
      ghost var before := ek[..];
      ExpandedAt(before, cols, i, i - 1);
      ExpandedAt(before, cols, i, i - keyLen);
      NextWord(cols, i, keyLen);
      TransformWord(i, keyLen);
      ek[i] := XorW(ek[i], ek[i - keyLen]);
      assert ek[..] == before[i := ek[i]];
    }

    /** The key schedule for decryption. */
    method InvertKeys()
      requires (nr == 10 || nr == 12 || nr == 14) && ek != dk && ek.Length == dk.Length == 60
      modifies dk
      ensures Keys(dk[..], nr) == InvKeys(Keys(ek[..], nr))
    {
      hide InvKeyWord;
      var keyScheduleSize := 4 * (nr + 1);
      ghost var w := ek[..];
      var i := 0;
      while i < keyScheduleSize
        invariant 0 <= i <= keyScheduleSize && ek[..] == w
        invariant forall j :: 0 <= j < i ==> dk[j] == if j < 4 || j >= keyScheduleSize - 4 then w[j] else InvKeyWord(w[j])
      {
        if i < 4 || i >= keyScheduleSize - 4 {
          dk[i] := ek[i];
        } else {
          dk[i] := InvKeyWord(ek[i]);
        }
        i := i + 1;
      }
      InvertedKeys(w, dk[..], nr);
    }

    /** What aesEncryptBlock computes, in the terms of FIPS 197. */
    ghost function Encrypted(input: seq<bv8>): seq<bv8>
      reads this, ek, dk
      requires Valid() && |input| == 16
    {
      Bytes(Cipher(StateOf(input), Keys(ek[..], nr)))
    }

    lemma Shape(input: seq<bv8>)
      requires Valid() && |input| == 16
      ensures 10 <= nr <= 14 && ek.Length == dk.Length == 60
      ensures |Keys(ek[..], nr)| == |Keys(dk[..], nr)| == nr + 1
      ensures Encrypted(input) == Bytes(Cipher(StateOf(input), Keys(ek[..], nr)))
    {
    }

    /** The equivalent inverse cipher under this context's keys. */
    lemma DecryptionUndoes(input: seq<bv8>)
      requires Valid() && |input| == 16
      ensures forall p: seq<bv8> :: |p| == 16 && Encrypted(p) == input
                ==> Bytes(EqInvCipher(StateOf(input), Keys(dk[..], nr))) == p
    {
      forall p: seq<bv8> | |p| == 16 && Encrypted(p) == input
        ensures Bytes(EqInvCipher(StateOf(input), Keys(dk[..], nr))) == p
      {
        var keys := Keys(ek[..], nr);
        CipherInverts(StateOf(p), keys);
        BytesOfState(Cipher(StateOf(p), keys));
        StateOfBytes(p);
        hide Bytes, StateOf, Cipher, EqInvCipher, Keys, InvKeys;
      }
    }

    method LoadState(input: seq<bv8>) returns (s0: bv32, s1: bv32, s2: bv32, s3: bv32)
      requires |input| == 16
      ensures Holds(StateOf(input), s0, s1, s2, s3)
    {
      hide Load32LE;
      s0 := Load32LE(input[0], input[1], input[2], input[3]);
      s1 := Load32LE(input[4], input[5], input[6], input[7]);
      s2 := Load32LE(input[8], input[9], input[10], input[11]);
      s3 := Load32LE(input[12], input[13], input[14], input[15]);
    }

    /** The round function of aesEncryptBlock with round key i. */
    method EncryptRound(i: nat, i0: bv32, i1: bv32, i2: bv32, i3: bv32, ghost r: State)
      returns (s0: bv32, s1: bv32, s2: bv32, s3: bv32)
      requires i <= nr && 4 * nr + 4 <= ek.Length && Holds(r, i0, i1, i2, i3)
      ensures Holds(AddKey(MixColumns(ShiftRows(SubBytes(r))), Keys(ek[..], nr)[i]), s0, s1, s2, s3)
    {
      hide *;
      ghost var w := ek[..];
      s0, s1, s2, s3 := i0, i1, i2, i3;
      EncryptWords(r, s0, s1, s2, s3);
      var t0 := Gather(Te(ByteOf(s0, 0)), Te(ByteOf(s1, 1)), Te(ByteOf(s2, 2)), Te(ByteOf(s3, 3)));
      var t1 := Gather(Te(ByteOf(s1, 0)), Te(ByteOf(s2, 1)), Te(ByteOf(s3, 2)), Te(ByteOf(s0, 3)));
      var t2 := Gather(Te(ByteOf(s2, 0)), Te(ByteOf(s3, 1)), Te(ByteOf(s0, 2)), Te(ByteOf(s1, 3)));
      var t3 := Gather(Te(ByteOf(s3, 0)), Te(ByteOf(s0, 1)), Te(ByteOf(s1, 2)), Te(ByteOf(s2, 3)));
      KeyAdded(MixColumns(ShiftRows(SubBytes(r))), w, nr, i, t0, t1, t2, t3);
      s0 := XorW(t0, ek[i * 4]);
      s1 := XorW(t1, ek[i * 4 + 1]);
      s2 := XorW(t2, ek[i * 4 + 2]);
      s3 := XorW(t3, ek[i * 4 + 3]);
    }

    /** SubBytes, ShiftRows and the last round key, on words: no MixColumns, so the S-box replaces the tables. */
    method EncryptLastRound(s0: bv32, s1: bv32, s2: bv32, s3: bv32, ghost r: State) returns (output: seq<bv8>)
      requires 4 * nr + 4 <= ek.Length && Holds(r, s0, s1, s2, s3)
      ensures output == Bytes(AddKey(ShiftRows(SubBytes(r)), Keys(ek[..], nr)[nr]))
    {
      hide *;
      ghost var w := ek[..];
      EncryptLastWords(r, s0, s1, s2, s3);
      var t0 := Load32LE(SBox(ByteOf(s0, 0)), SBox(ByteOf(s1, 1)), SBox(ByteOf(s2, 2)), SBox(ByteOf(s3, 3)));
      var t1 := Load32LE(SBox(ByteOf(s1, 0)), SBox(ByteOf(s2, 1)), SBox(ByteOf(s3, 2)), SBox(ByteOf(s0, 3)));
      var t2 := Load32LE(SBox(ByteOf(s2, 0)), SBox(ByteOf(s3, 1)), SBox(ByteOf(s0, 2)), SBox(ByteOf(s1, 3)));
      var t3 := Load32LE(SBox(ByteOf(s3, 0)), SBox(ByteOf(s0, 1)), SBox(ByteOf(s1, 2)), SBox(ByteOf(s2, 3)));
      KeyAdded(ShiftRows(SubBytes(r)), w, nr, nr, t0, t1, t2, t3);
      var u0 := XorW(t0, ek[nr * 4]);
      var u1 := XorW(t1, ek[nr * 4 + 1]);
      var u2 := XorW(t2, ek[nr * 4 + 2]);
      var u3 := XorW(t3, ek[nr * 4 + 3]);
      output := Store32LE(u0) + Store32LE(u1) + Store32LE(u2) + Store32LE(u3);
      Stored(AddKey(ShiftRows(SubBytes(r)), Keys(w, nr)[nr]), u0, u1, u2, u3);
    }

    /** The state as four words, after the first AddRoundKey. */
    method EncryptStart(input: seq<bv8>) returns (s0: bv32, s1: bv32, s2: bv32, s3: bv32)
      requires 4 * nr + 4 <= ek.Length && |input| == 16
      ensures Holds(AddKey(StateOf(input), Keys(ek[..], nr)[0]), s0, s1, s2, s3)
    {
      hide *;
      ghost var w := ek[..];
      s0, s1, s2, s3 := LoadState(input);
      KeyAdded(StateOf(input), w, nr, 0, s0, s1, s2, s3);
      s0 := XorW(s0, ek[0]);
      s1 := XorW(s1, ek[1]);
      s2 := XorW(s2, ek[2]);
      s3 := XorW(s3, ek[3]);
    }

    /** aesEncryptBlock */
    method EncryptBlock(input: seq<bv8>) returns (output: seq<bv8>)
      requires Valid() && |input| == 16
      ensures output == Encrypted(input)
    {
      hide *;
      Shape(input);
      ghost var st, keys := StateOf(input), Keys(ek[..], nr);
      FirstRound(st, keys);
      var s0, s1, s2, s3 := EncryptStart(input);
      var i := 1;
      while i < nr
        invariant 1 <= i <= nr
        invariant Holds(Rounds(st, keys, i), s0, s1, s2, s3)
      {
        NextRound(st, keys, i);
        s0, s1, s2, s3 := EncryptRound(i, s0, s1, s2, s3, Rounds(st, keys, i));
        i := i + 1;
      }
      CipherEnds(st, keys);
      output := EncryptLastRound(s0, s1, s2, s3, Rounds(st, keys, nr));
    }

    /** The round function of aesDecryptBlock with round key i. */
    method DecryptRound(i: nat, i0: bv32, i1: bv32, i2: bv32, i3: bv32, ghost r: State)
      returns (s0: bv32, s1: bv32, s2: bv32, s3: bv32)
      requires i <= nr && 4 * nr + 4 <= dk.Length && Holds(r, i0, i1, i2, i3)
      ensures Holds(AddKey(InvMixColumns(InvShiftRows(InvSubBytes(r))), Keys(dk[..], nr)[i]), s0, s1, s2, s3)
    {
      hide *;
      ghost var w := dk[..];
      s0, s1, s2, s3 := i0, i1, i2, i3;
      DecryptWords(r, s0, s1, s2, s3);
      var t0 := Gather(Td(ByteOf(s0, 0)), Td(ByteOf(s3, 1)), Td(ByteOf(s2, 2)), Td(ByteOf(s1, 3)));
      var t1 := Gather(Td(ByteOf(s1, 0)), Td(ByteOf(s0, 1)), Td(ByteOf(s3, 2)), Td(ByteOf(s2, 3)));
      var t2 := Gather(Td(ByteOf(s2, 0)), Td(ByteOf(s1, 1)), Td(ByteOf(s0, 2)), Td(ByteOf(s3, 3)));
      var t3 := Gather(Td(ByteOf(s3, 0)), Td(ByteOf(s2, 1)), Td(ByteOf(s1, 2)), Td(ByteOf(s0, 3)));
      KeyAdded(InvMixColumns(InvShiftRows(InvSubBytes(r))), w, nr, i, t0, t1, t2, t3);
      s0 := XorW(t0, dk[i * 4]);
      s1 := XorW(t1, dk[i * 4 + 1]);
      s2 := XorW(t2, dk[i * 4 + 2]);
      s3 := XorW(t3, dk[i * 4 + 3]);
    }

    /** InvSubBytes, InvShiftRows and the first round key, on words: no InvMixColumns, so the S-box replaces the tables. */
    method DecryptLastRound(s0: bv32, s1: bv32, s2: bv32, s3: bv32, ghost r: State) returns (output: seq<bv8>)
      requires 4 * nr + 4 <= dk.Length && Holds(r, s0, s1, s2, s3)
      ensures output == Bytes(AddKey(InvShiftRows(InvSubBytes(r)), Keys(dk[..], nr)[0]))
    {
      hide *;
      ghost var w := dk[..];
      DecryptLastWords(r, s0, s1, s2, s3);
      var t0 := Load32LE(InvSBox(ByteOf(s0, 0)), InvSBox(ByteOf(s3, 1)), InvSBox(ByteOf(s2, 2)), InvSBox(ByteOf(s1, 3)));
      var t1 := Load32LE(InvSBox(ByteOf(s1, 0)), InvSBox(ByteOf(s0, 1)), InvSBox(ByteOf(s3, 2)), InvSBox(ByteOf(s2, 3)));
      var t2 := Load32LE(InvSBox(ByteOf(s2, 0)), InvSBox(ByteOf(s1, 1)), InvSBox(ByteOf(s0, 2)), InvSBox(ByteOf(s3, 3)));
      var t3 := Load32LE(InvSBox(ByteOf(s3, 0)), InvSBox(ByteOf(s2, 1)), InvSBox(ByteOf(s1, 2)), InvSBox(ByteOf(s0, 3)));
      KeyAdded(InvShiftRows(InvSubBytes(r)), w, nr, 0, t0, t1, t2, t3);
      var u0 := XorW(t0, dk[0]);
      var u1 := XorW(t1, dk[1]);
      var u2 := XorW(t2, dk[2]);
      var u3 := XorW(t3, dk[3]);
      output := Store32LE(u0) + Store32LE(u1) + Store32LE(u2) + Store32LE(u3);
      Stored(AddKey(InvShiftRows(InvSubBytes(r)), Keys(w, nr)[0]), u0, u1, u2, u3);
    }

    /** The four words of the state after AddRoundKey with the last key. */
    method DecryptStart(input: seq<bv8>) returns (s0: bv32, s1: bv32, s2: bv32, s3: bv32)
      requires 4 * nr + 4 <= dk.Length && |input| == 16
      ensures Holds(AddKey(StateOf(input), Keys(dk[..], nr)[nr]), s0, s1, s2, s3)
    {
      hide *;
      ghost var w := dk[..];
      s0, s1, s2, s3 := LoadState(input);
      KeyAdded(StateOf(input), w, nr, nr, s0, s1, s2, s3);
      s0 := XorW(s0, dk[nr * 4]);
      s1 := XorW(s1, dk[nr * 4 + 1]);
      s2 := XorW(s2, dk[nr * 4 + 2]);
      s3 := XorW(s3, dk[nr * 4 + 3]);
    }

    /** aesDecryptBlock */
    method DecryptBlock(input: seq<bv8>) returns (output: seq<bv8>)
      requires Valid() && |input| == 16
      ensures output == Bytes(EqInvCipher(StateOf(input), Keys(dk[..], nr)))
      ensures forall p: seq<bv8> :: |p| == 16 && Encrypted(p) == input ==> output == p
    {
      hide *;
      Shape(input);
      DecryptionUndoes(input);
      ghost var st, keys := StateOf(input), Keys(dk[..], nr);
      FirstInvRound(st, keys);
      var s0, s1, s2, s3 := DecryptStart(input);
      var i := nr - 1;
      while i >= 1
        invariant 0 <= i <= nr - 1
        invariant Holds(InvRounds(st, keys, i + 1), s0, s1, s2, s3)
      {
        NextInvRound(st, keys, i);
        s0, s1, s2, s3 := DecryptRound(i, s0, s1, s2, s3, InvRounds(st, keys, i + 1));
        i := i - 1;
      }
      InvCipherEnds(st, keys);
      output := DecryptLastRound(s0, s1, s2, s3, InvRounds(st, keys, 1));
    }
  }

  /** The four state words hold a state. */
  ghost predicate Holds(s: State, s0: bv32, s1: bv32, s2: bv32, s3: bv32) {
    s0 == Word(s.c0) && s1 == Word(s.c1) && s2 == Word(s.c2) && s3 == Word(s.c3)
  }

  lemma FirstRound(s: State, keys: seq<State>)
    requires |keys| >= 2
    ensures Rounds(s, keys, 1) == AddKey(s, keys[0])
  {
  }

  lemma NextRound(s: State, keys: seq<State>, i: nat)
    requires 1 <= i < |keys| - 1
    ensures Rounds(s, keys, i + 1) == AddKey(MixColumns(ShiftRows(SubBytes(Rounds(s, keys, i)))), keys[i])
  {
    hide AddKey, MixColumns, ShiftRows, SubBytes;
  }

  lemma CipherEnds(s: State, keys: seq<State>)
    requires |keys| >= 2
    ensures Cipher(s, keys) == AddKey(ShiftRows(SubBytes(Rounds(s, keys, |keys| - 1))), keys[|keys| - 1])
  {
    hide AddKey, ShiftRows, SubBytes, Rounds;
  }

  lemma KeyAdded(s: State, w: seq<bv32>, nr: nat, r: nat, s0: bv32, s1: bv32, s2: bv32, s3: bv32)
    requires Holds(s, s0, s1, s2, s3) && r <= nr && 4 * nr + 4 <= |w|
    ensures Holds(AddKey(s, Keys(w, nr)[r]),
                  XorW(s0, w[r * 4]), XorW(s1, w[r * 4 + 1]), XorW(s2, w[r * 4 + 2]), XorW(s3, w[r * 4 + 3]))
  {
    hide Word, ColOf, XorW, XorCol;
    WordOfCol(w[4 * r]);
    WordOfCol(w[4 * r + 1]);
    WordOfCol(w[4 * r + 2]);
    WordOfCol(w[4 * r + 3]);
    var k := KeyAt(w, r);
    WordXor(s.c0, k.c0);
    WordXor(s.c1, k.c1);
    WordXor(s.c2, k.c2);
    WordXor(s.c3, k.c3);
  }

  lemma StateBytes(s: State, s0: bv32, s1: bv32, s2: bv32, s3: bv32)
    requires Holds(s, s0, s1, s2, s3)
    ensures ColOf(s0) == s.c0 && ColOf(s1) == s.c1 && ColOf(s2) == s.c2 && ColOf(s3) == s.c3
  {
    hide Word, ColOf;
    ColOfWord(s.c0);
    ColOfWord(s.c1);
    ColOfWord(s.c2);
    ColOfWord(s.c3);
  }

  lemma FirstInvRound(s: State, keys: seq<State>)
    requires |keys| >= 2
    ensures InvRounds(s, keys, |keys| - 1) == AddKey(s, keys[|keys| - 1])
  {
  }

  lemma NextInvRound(s: State, keys: seq<State>, i: nat)
    requires 1 <= i < |keys| - 1
    ensures InvRounds(s, keys, i) == AddKey(InvMixColumns(InvShiftRows(InvSubBytes(InvRounds(s, keys, i + 1)))), keys[i])
  {
    hide AddKey, InvMixColumns, InvShiftRows, InvSubBytes;
  }

  lemma InvCipherEnds(s: State, keys: seq<State>)
    requires |keys| >= 2
    ensures EqInvCipher(s, keys) == AddKey(InvShiftRows(InvSubBytes(InvRounds(s, keys, 1))), keys[0])
  {
    hide AddKey, InvShiftRows, InvSubBytes, InvRounds;
  }

  /** The look-ups of one encryption round. */
  lemma EncryptWords(s: State, s0: bv32, s1: bv32, s2: bv32, s3: bv32)
    requires Holds(s, s0, s1, s2, s3)
    ensures Holds(MixColumns(ShiftRows(SubBytes(s))),
                  Gather(Te(ByteOf(s0, 0)), Te(ByteOf(s1, 1)), Te(ByteOf(s2, 2)), Te(ByteOf(s3, 3))),
                  Gather(Te(ByteOf(s1, 0)), Te(ByteOf(s2, 1)), Te(ByteOf(s3, 2)), Te(ByteOf(s0, 3))),
                  Gather(Te(ByteOf(s2, 0)), Te(ByteOf(s3, 1)), Te(ByteOf(s0, 2)), Te(ByteOf(s1, 3))),
                  Gather(Te(ByteOf(s3, 0)), Te(ByteOf(s0, 1)), Te(ByteOf(s1, 2)), Te(ByteOf(s2, 3))))
  {
    StateBytes(s, s0, s1, s2, s3);
    hide Word, ByteOf, Gather, Te, MixCol, SBox;
    TeGather(s.c0.b0, s.c1.b1, s.c2.b2, s.c3.b3);
    TeGather(s.c1.b0, s.c2.b1, s.c3.b2, s.c0.b3);
    TeGather(s.c2.b0, s.c3.b1, s.c0.b2, s.c1.b3);
    TeGather(s.c3.b0, s.c0.b1, s.c1.b2, s.c2.b3);
  }

  /** The look-ups of the last encryption round. */
  lemma EncryptLastWords(s: State, s0: bv32, s1: bv32, s2: bv32, s3: bv32)
    requires Holds(s, s0, s1, s2, s3)
    ensures Holds(ShiftRows(SubBytes(s)),
                  Load32LE(SBox(ByteOf(s0, 0)), SBox(ByteOf(s1, 1)), SBox(ByteOf(s2, 2)), SBox(ByteOf(s3, 3))),
                  Load32LE(SBox(ByteOf(s1, 0)), SBox(ByteOf(s2, 1)), SBox(ByteOf(s3, 2)), SBox(ByteOf(s0, 3))),
                  Load32LE(SBox(ByteOf(s2, 0)), SBox(ByteOf(s3, 1)), SBox(ByteOf(s0, 2)), SBox(ByteOf(s1, 3))),
                  Load32LE(SBox(ByteOf(s3, 0)), SBox(ByteOf(s0, 1)), SBox(ByteOf(s1, 2)), SBox(ByteOf(s2, 3))))
  {
    StateBytes(s, s0, s1, s2, s3);
    hide Load32LE, ByteOf, SBox;
  }

  /** The look-ups of one decryption round. */
  lemma DecryptWords(s: State, s0: bv32, s1: bv32, s2: bv32, s3: bv32)
    requires Holds(s, s0, s1, s2, s3)
    ensures Holds(InvMixColumns(InvShiftRows(InvSubBytes(s))),
                  Gather(Td(ByteOf(s0, 0)), Td(ByteOf(s3, 1)), Td(ByteOf(s2, 2)), Td(ByteOf(s1, 3))),
                  Gather(Td(ByteOf(s1, 0)), Td(ByteOf(s0, 1)), Td(ByteOf(s3, 2)), Td(ByteOf(s2, 3))),
                  Gather(Td(ByteOf(s2, 0)), Td(ByteOf(s1, 1)), Td(ByteOf(s0, 2)), Td(ByteOf(s3, 3))),
                  Gather(Td(ByteOf(s3, 0)), Td(ByteOf(s2, 1)), Td(ByteOf(s1, 2)), Td(ByteOf(s0, 3))))
  {
    StateBytes(s, s0, s1, s2, s3);
    hide Word, ByteOf, Gather, Td, InvMixCol, InvSBox;
    TdGather(s.c0.b0, s.c3.b1, s.c2.b2, s.c1.b3);
    TdGather(s.c1.b0, s.c0.b1, s.c3.b2, s.c2.b3);
    TdGather(s.c2.b0, s.c1.b1, s.c0.b2, s.c3.b3);
    TdGather(s.c3.b0, s.c2.b1, s.c1.b2, s.c0.b3);
  }

  /** The look-ups of the last decryption round. */
  lemma DecryptLastWords(s: State, s0: bv32, s1: bv32, s2: bv32, s3: bv32)
    requires Holds(s, s0, s1, s2, s3)
    ensures Holds(InvShiftRows(InvSubBytes(s)),
                  Load32LE(InvSBox(ByteOf(s0, 0)), InvSBox(ByteOf(s3, 1)), InvSBox(ByteOf(s2, 2)), InvSBox(ByteOf(s1, 3))),
                  Load32LE(InvSBox(ByteOf(s1, 0)), InvSBox(ByteOf(s0, 1)), InvSBox(ByteOf(s3, 2)), InvSBox(ByteOf(s2, 3))),
                  Load32LE(InvSBox(ByteOf(s2, 0)), InvSBox(ByteOf(s1, 1)), InvSBox(ByteOf(s0, 2)), InvSBox(ByteOf(s3, 3))),
                  Load32LE(InvSBox(ByteOf(s3, 0)), InvSBox(ByteOf(s2, 1)), InvSBox(ByteOf(s1, 2)), InvSBox(ByteOf(s0, 3))))
  {
    StateBytes(s, s0, s1, s2, s3);
    hide Load32LE, ByteOf, InvSBox;
  }

  lemma Stored(s: State, s0: bv32, s1: bv32, s2: bv32, s3: bv32)
    requires Holds(s, s0, s1, s2, s3)
    ensures Store32LE(s0) + Store32LE(s1) + Store32LE(s2) + Store32LE(s3) == Bytes(s)
  {
    StateBytes(s, s0, s1, s2, s3);
    hide Word, ByteOf;
  }

  lemma InvertedKeys(w: seq<bv32>, d: seq<bv32>, nr: nat)
    requires nr >= 1 && 4 * nr + 4 <= |w| == |d|
    requires forall j :: 0 <= j < 4 * nr + 4 ==> d[j] == if j < 4 || j >= 4 * nr then w[j] else InvKeyWord(w[j])
    ensures Keys(d, nr) == InvKeys(Keys(w, nr))
  {
    hide InvKeyWord, ColOf, InvMixCol;
    forall r | 0 <= r <= nr
      ensures KeyAt(d, r) == if r == 0 || r == nr then KeyAt(w, r) else InvMixColumns(KeyAt(w, r))
    {
      if 0 < r < nr {
        InvKeyWords(w[4 * r]);
        InvKeyWords(w[4 * r + 1]);
        InvKeyWords(w[4 * r + 2]);
        InvKeyWords(w[4 * r + 3]);
      }
    }
    hide KeyAt, InvMixColumns;
  }

  /** The first n words of the schedule are in place. */
  ghost predicate Expanded(w: seq<bv32>, cols: seq<Col>, n: nat) {
    |cols| >= 1 && n <= |w| && forall j :: 0 <= j < n ==> w[j] == Word(KeyWord(cols, j))
  }

  lemma NothingExpanded(w: seq<bv32>, cols: seq<Col>)
    requires |cols| >= 1
    ensures Expanded(w, cols, 0)
  {
  }

  lemma ExpandedMore(w: seq<bv32>, cols: seq<Col>, n: nat)
    requires Expanded(w, cols, n) && n < |w|
    ensures |cols| >= 1 && Expanded(w[n := Word(KeyWord(cols, n))], cols, n + 1)
  {
    hide Word, KeyWord;
  }

  lemma ExpandedAt(w: seq<bv32>, cols: seq<Col>, n: nat, j: nat)
    requires Expanded(w, cols, n) && j < n
    ensures |cols| >= 1 && n <= |w| && w[j] == Word(KeyWord(cols, j))
  {
    hide Word, KeyWord;
  }

  lemma KeyCopied(key: seq<bv8>, i: nat)
    requires i < |key| / 4
    ensures Load32LE(key[4 * i], key[4 * i + 1], key[4 * i + 2], key[4 * i + 3]) == Word(KeyWord(KeyCols(key), i))
  {
    hide Load32LE;
  }

  lemma AllExpanded(w: seq<bv32>, cols: seq<Col>, nr: nat)
    requires Expanded(w, cols, 4 * (nr + 1))
    ensures |cols| >= 1 && 4 * (nr + 1) <= |w| && Keys(w, nr) == Schedule(cols, nr)
  {
    forall r | 0 <= r <= nr
      ensures KeyAt(w, r) == Schedule(cols, nr)[r]
    {
      ColOfWord(KeyWord(cols, 4 * r));
      ColOfWord(KeyWord(cols, 4 * r + 1));
      ColOfWord(KeyWord(cols, 4 * r + 2));
      ColOfWord(KeyWord(cols, 4 * r + 3));
      hide Word, KeyWord, ColOf;
    }
    hide KeyAt, Expanded;
    assert forall r :: 0 <= r <= nr ==> Keys(w, nr)[r] == KeyAt(w, r);
  }

  // One step of the code on words is one step of the key expansion, in each of its three cases.

  lemma NextRotated(cols: seq<Col>, i: nat, j: nat)
    requires 1 <= |cols| <= i && i % |cols| == 0 && j == i / |cols| && 1 <= j <= 10
    ensures Word(KeyWord(cols, i))
         == XorW(XorW(SubRotWord(Word(KeyWord(cols, i - 1))), RCON[j]), Word(KeyWord(cols, i - |cols|)))
  {
    var prev, back := KeyWord(cols, i - 1), KeyWord(cols, i - |cols|);
    var (a, b) := (SubCol(RotCol(prev)), Col(RconByte(j), 0, 0, 0));
    assert KeyWord(cols, i) == XorCol(XorCol(a, b), back);
    hide *;
    SubWords(prev);
    RconEntry(j);
    WordXor(a, b);
    WordXor(XorCol(a, b), back);
  }

  lemma NextSubstituted(cols: seq<Col>, i: nat)
    requires 6 < |cols| <= i && i % |cols| == 4
    ensures Word(KeyWord(cols, i)) == XorW(SubWord(Word(KeyWord(cols, i - 1))), Word(KeyWord(cols, i - |cols|)))
  {
    var prev, back := KeyWord(cols, i - 1), KeyWord(cols, i - |cols|);
    assert KeyWord(cols, i) == XorCol(SubCol(prev), back);
    hide *;
    SubWords(prev);
    WordXor(SubCol(prev), back);
  }

  lemma NextPlain(cols: seq<Col>, i: nat)
    requires 1 <= |cols| <= i && i % |cols| != 0 && !(|cols| > 6 && i % |cols| == 4)
    ensures Word(KeyWord(cols, i)) == XorW(Word(KeyWord(cols, i - 1)), Word(KeyWord(cols, i - |cols|)))
  {
    var prev, back := KeyWord(cols, i - 1), KeyWord(cols, i - |cols|);
    assert KeyWord(cols, i) == XorCol(prev, back);
    hide *;
    WordXor(prev, back);
  }

  /** What the loop of aesInit makes of the word before, by the position of the word in its group. */
  function Transformed(temp: bv32, i: nat, keyLen: nat): bv32
    requires keyLen in {4, 6, 8} && keyLen <= i < 11 * keyLen
  {
    RconIndex(i, keyLen);
    if i % keyLen == 0 then XorW(SubRotWord(temp), RCON[i / keyLen])
    else if keyLen > 6 && i % keyLen == 4 then SubWord(temp)
    else temp
  }

  lemma NextWord(cols: seq<Col>, i: nat, keyLen: nat)
    requires keyLen in {4, 6, 8} && |cols| == keyLen && keyLen <= i < 11 * keyLen
    ensures Word(KeyWord(cols, i))
         == XorW(Transformed(Word(KeyWord(cols, i - 1)), i, keyLen), Word(KeyWord(cols, i - keyLen)))
  {
    RconIndex(i, keyLen);
    hide XorW, SubRotWord, SubWord, Word, KeyWord, RCON;
    if i % keyLen == 0 {
      NextRotated(cols, i, i / keyLen);
    } else if keyLen > 6 && i % keyLen == 4 {
      NextSubstituted(cols, i);
    } else {
      NextPlain(cols, i);
    }
  }

  lemma RconIndex(i: nat, n: nat)
    requires n in {4, 6, 8} && n <= i < 11 * n
    ensures 1 <= i / n <= 10 && |RCON| == 11
  {
    assert n == 4 || n == 6 || n == 8;
  }
}
