/** chacha.c: a key stream handed out in pieces, with the unused part of a block kept for the next call. */
module Chacha {
  import opened BlockOps
  import opened ChachaSpec
  import opened Folds
  import opened Words

  /** Half of QUARTER_ROUND */
  method HalfRoundAt(w: array<bv32>, a: nat, b: nat, c: nat, d: nat, r: bv5, s: bv5)
    requires w.Length == 16 && a < 16 && b < 16 && c < 16 && d < 16
    requires a != b && a != c && a != d && b != c && b != d && c != d
    modifies w
    ensures w[..] == HalfRound(old(w[..]), a, b, c, d, r, s)
  {
    hide Rol32, AddW, XorW;
    w[a] := AddW(w[a], w[b]);
    w[d] := XorW(w[d], w[a]);
    w[d] := Rol32(w[d], r);
    w[c] := AddW(w[c], w[d]);
    w[b] := XorW(w[b], w[c]);
    w[b] := Rol32(w[b], s);
  }

  /** QUARTER_ROUND */
  method QuarterRoundAt(w: array<bv32>, a: nat, b: nat, c: nat, d: nat)
    requires w.Length == 16 && a < 16 && b < 16 && c < 16 && d < 16
    requires a != b && a != c && a != d && b != c && b != d && c != d
    modifies w
    ensures w[..] == QuarterRound(old(w[..]), a, b, c, d)
  {
    hide HalfRound;
    HalfRoundAt(w, a, b, c, d, 16, 12);
    HalfRoundAt(w, a, b, c, d, 8, 7);
  }

  /** Two rounds of the loop in chachaProcessBlock. */
  method TwoRounds(w: array<bv32>)
    requires w.Length == 16
    modifies w
    ensures w[..] == DiagonalRound(ColumnRound(old(w[..])))
  {
    hide QuarterRound;
    QuarterRoundAt(w, 0, 4, 8, 12);
    QuarterRoundAt(w, 1, 5, 9, 13);
    QuarterRoundAt(w, 2, 6, 10, 14);
    QuarterRoundAt(w, 3, 7, 11, 15);
    QuarterRoundAt(w, 0, 5, 10, 15);
    QuarterRoundAt(w, 1, 6, 11, 12);
    QuarterRoundAt(w, 2, 7, 8, 13);
    QuarterRoundAt(w, 3, 4, 9, 14);
  }

  lemma {:induction false} SerializeSnoc(w: seq<bv32>, i: nat)
    requires i < |w|
    ensures Serialize(w[..i + 1]) == Serialize(w[..i]) + Store32LE(w[i])
    decreases i
  {
    hide Store32LE;
    if i == 0 {
      assert w[..1] == [w[0]] && w[..1][1..] == [] && w[..0] == [];
      assert Serialize([]) == [];
    } else {
      SerializeSnoc(w[1..], i - 1);
      assert w[..i + 1][1..] == w[1..][..i] && w[..i][1..] == w[1..][..i - 1];
    }
  }

  class ChachaContext {
    var nr: nat
    const state: array<bv32>
    const keystream: array<bv8>
    var pos: nat

    /** The state the stream started from, and how many of its bytes have been handed out. */
    ghost var base: Words16
    ghost var used: nat

    constructor ()
      ensures state.Length == 16 && keystream.Length == 64 && fresh(state) && fresh(keystream)
    {
      nr := 0;
      state := new bv32[16];
      keystream := new bv8[64];
      pos := 0;
      base := Repeat(0, 16);
      used := 0;
    }

    /** Before the first byte. */
    ghost predicate Fresh()
      reads this, state
    {
      state.Length == 16 && state[..] == base && pos == 0 && used == 0
    }

    /** The context is determined by where the stream started and how much of it has been used. */
    ghost predicate Valid()
      reads this, state, keystream
    {
      && state.Length == 16 && keystream.Length == 64 && nr % 2 == 0
      && if used == 0 then Fresh()
         else && pos == (used - 1) % 64 + 1
              && state[..] == StateAt(base, (used - 1) / 64 + 1)
              && keystream[..] == BlockOf(nr, StateAt(base, (used - 1) / 64))
    }

    /** chachaInit */
    method Init(rounds: nat, key: seq<bv8>, nonce: seq<bv8>) returns (error: ErrorCode)
      requires state.Length == 16 && keystream.Length == 64
      modifies this, state
      ensures error == if rounds in {8, 12, 20} && Accepts(|key|, |nonce|) then NoError else InvalidParameter
      ensures error == NoError ==>
        Valid() && nr == rounds && used == 0 && Accepts(|key|, |nonce|) && base == InitialState(key, nonce)
    {
      hide WordsOf, Repeat, InitialState, KeyPart, NoncePart;
      if rounds != 8 && rounds != 12 && rounds != 20 {
        return InvalidParameter;
      }
      nr := rounds;
      if |key| != 16 && |key| != 32 {
        return InvalidParameter;
      }
      PutKey(key);
      if |nonce| != 8 && |nonce| != 12 && |nonce| != 16 {
        return InvalidParameter;
      }
      PutNonce(nonce);
      StateParts(key, nonce);
      assert state[..] == state[..12] + state[12..];
      pos := 0;
      base, used := state[..], 0;
      error := NoError;
    }

    /** Constants, then words 4 to 11 from the key; a 128-bit key is used twice. */
    method PutKey(key: seq<bv8>)
      requires state.Length == 16 && |key| in {16, 32}
      modifies state
      ensures state[..12] == KeyPart(key)
    {
      hide WordsOf;
      if |key| == 16 {
        PutWords([0x61707865, 0x3120646E, 0x79622D36, 0x6B206574], 0);
        PutWords(WordsOf(key), 4);
        PutWords(WordsOf(key), 8);
      } else {
        PutWords([0x61707865, 0x3320646E, 0x79622D32, 0x6B206574], 0);
        PutWords(WordsOf(key), 4);
      }
    }

    /** A block counter of zero, then the nonce. */
    method PutNonce(nonce: seq<bv8>)
      requires state.Length == 16 && |nonce| in {8, 12, 16}
      modifies state
      ensures state[..12] == old(state[..12]) && state[12..] == NoncePart(nonce)
    {
      hide WordsOf, Repeat;
      var n := |nonce| / 4;
      PutWords(Repeat(0, 4 - n), 12);
      PutWords(WordsOf(nonce), 16 - n);
    }

    method PutWords(w: seq<bv32>, at: nat)
      requires state.Length == 16 && at + |w| <= 16
      modifies state
      ensures state[..at] == old(state[..at]) && state[at..at + |w|] == w && state[at + |w|..] == old(state[at + |w|..])
      ensures state[..at + |w|] == old(state[..at]) + w
    {
      forall i | 0 <= i < |w| {
        state[at + i] := w[i];
      }
    }

    /** chachaProcessBlock */
    method ProcessBlock()
      requires state.Length == 16 && keystream.Length == 64 && nr % 2 == 0
      modifies keystream
      ensures keystream[..] == BlockOf(nr, state[..])
    {
      hide DiagonalRound, ColumnRound, Store32LE, Serialize, AddW;
      ghost var st: Words16 := state[..];
      var w := new bv32[16](i requires 0 <= i < 16 reads state => state[i]);
      assert w[..] == st;
      var i := 0;
      while i < nr
        invariant 0 <= i <= nr && i % 2 == 0 && w[..] == DoubleRounds(st, i / 2)
      {
        TwoRounds(w);
        assert (i + 2) / 2 - 1 == i / 2;
        i := i + 2;
      }
      ghost var r: Words16 := w[..];
      for i := 0 to 16
        invariant forall k :: 0 <= k < 16 ==> w[k] == if k < i then AddW(r[k], st[k]) else r[k]
      {
        w[i] := AddW(w[i], state[i]);
      }
      assert w[..] == AddWords(r, st);
      StoreWords(w, keystream);
    }

    /** Generates the next key stream block and increments the block counter. */
    method Refill()
      requires Valid() && used % 64 == 0
      modifies `pos, state, keystream
      ensures pos == 0 && state.Length == 16 && keystream.Length == 64
      ensures state[..] == StateAt(base, used / 64 + 1) && keystream[..] == BlockOf(nr, StateAt(base, used / 64))
    {
      hide BlockOf;
      StateSteps(base, used / 64);
      assert used > 0 ==> (used - 1) / 64 + 1 == used / 64;
      ProcessBlock();
      ghost var st: Words16 := state[..];
      state[12] := Inc(state[12]);
      if state[12] == 0 {
        state[13] := Inc(state[13]);
      }
      assert state[..] == NextState()(st);
      pos := 0;
    }

    /** XORs n bytes of input with the key stream, or puts out n bytes of the key stream itself. */
    method Piece(input: array?<bv8>, output: array<bv8>, off: nat, n: nat)
      requires Ready() && pos + n <= 64
      requires (input != null ==> off + n <= input.Length) && input != keystream
      requires off + n <= output.Length && output != keystream
      modifies output
      ensures output[..off] == old(output[..off]) && output[off + n..] == old(output[off + n..])
      ensures output[off..off + n] == Crypt(nr, base, used, old(Chunk(input, off, n)))
      ensures input != null ==> input[off + n..] == old(input[off + n..])
    {
      hide BlockOf, StateAt, Crypt;
      InBlock(keystream[..], nr, base, used, n);
      assert keystream[pos..pos + n] == KeyStream(nr, base, used, n);
      if input != null {
        CryptIs(nr, base, used, input[off..off + n]);
        XorBlock(output, off, input, off, keystream, pos, n);
      } else {
        forall i | 0 <= i < n {
          output[off + i] := keystream[pos + i];
        }
        assert output[off..off + n] == keystream[pos..pos + n];
        KeyStreamIsCrypt(nr, base, used, n);
      }
    }

    /** chachaCipher has put out the first off bytes of a call that started at position from. */
    ghost predicate Underway(input: array?<bv8>, output: array?<bv8>, off: nat, length: nat,
                             x: seq<bv8>, from: nat, tail: seq<bv8>)
      reads this, state, keystream, input, output
    {
      && Valid() && used == from + off && |x| == off + length
      && (input != null ==> off + length <= input.Length) && (output != null ==> off + length <= output.Length)
      && Chunk(input, off, length) == x[off..]
      && (output != null ==> output[off + length..] == tail && output[..off] == Crypt(nr, base, from, x[..off]))
    }

    /** chachaCipher; without an input the key stream itself is put out, without an output it is skipped. */
    method Cipher(input: array?<bv8>, output: array?<bv8>, length0: nat)
      requires Valid() && keystream != input && keystream != output
      requires input != null ==> length0 <= input.Length
      requires output != null ==> length0 <= output.Length
      modifies `pos, `used, state, keystream, output
      ensures Valid() && used == old(used) + length0
      ensures output != null ==>
        && output[length0..] == old(output[length0..])
        && output[..length0]
           == if input != null then Crypt(nr, base, old(used), old(input[..length0]))
              else KeyStream(nr, base, old(used), length0)
    {
      hide *;
      ghost var from, x := used, Chunk(input, 0, length0);
      ghost var tail := if output != null then output[length0..] else [];
      KeyStreamIsCrypt(nr, base, used, length0);
      Begin(input, output, length0, x, tail);
      var length := length0;
      var off := 0;
      while length > 0
        invariant 0 <= length && 0 <= off && off + length == length0
        invariant Underway(input, output, off, length, x, from, tail)
      {
        var n := Advance(input, output, off, length, x, from, tail);
        length := length - n;
        off := off + n;
      }
      End(input, output, off, x, from, tail);
    }

    /** Any number of calls on one context, each on its own piece of the data. */
    method CipherChunks(chunks: seq<seq<bv8>>) returns (output: seq<bv8>)
      requires Valid()
      modifies `pos, `used, state, keystream
      ensures Valid() && used == old(used) + |Flatten(chunks)|
      ensures output == Crypt(nr, base, old(used), Flatten(chunks))
    {
      hide *;
      NoChunks(chunks, nr, base, used);
      output := [];
      for i := 0 to |chunks|
        invariant Valid() && used == old(used) + |Flatten(chunks[..i])|
        invariant output == Crypt(nr, base, old(used), Flatten(chunks[..i]))
      {
        var piece := NewArray(chunks[i]);
        ghost var from := used;
        Cipher(piece, piece, |chunks[i]|);
        assert piece[..|chunks[i]|] == piece[..];
        FlattenSnoc(chunks, i);
        CryptAppend(nr, base, old(used), Flatten(chunks[..i]), chunks[i]);
        output := output + piece[..];
      }
      assert chunks[..|chunks|] == chunks;
    }

    /** However the calls were split, equally long streams leave equal contexts. */
    lemma ContextDetermined(other: ChachaContext)
      requires Valid() && other.Valid() && nr == other.nr && base == other.base && used == other.used
      ensures pos == other.pos && state[..] == other.state[..]
      ensures used > 0 ==> keystream[..] == other.keystream[..]
    {
      hide BlockOf, StateAt;
    }

    lemma Begin(input: array?<bv8>, output: array?<bv8>, length: nat, x: seq<bv8>, tail: seq<bv8>)
      requires Valid() && (input != null ==> length <= input.Length) && (output != null ==> length <= output.Length)
      requires x == Chunk(input, 0, length) && (output != null ==> output[length..] == tail)
      ensures Underway(input, output, 0, length, x, used, tail)
      ensures input != null ==> x == input[..length]
      ensures input == null ==> x == Repeat(0, length)
    {
      hide Crypt, BlockOf, StateAt;
      StartOfStream(nr, base, used);
      assert x[0..] == x && x[..0] == [];
    }

    lemma End(input: array?<bv8>, output: array?<bv8>, off: nat, x: seq<bv8>, from: nat, tail: seq<bv8>)
      requires Underway(input, output, off, 0, x, from, tail)
      ensures Valid() && used == from + off
      ensures output != null ==> off <= output.Length && output[off..] == tail && output[..off] == Crypt(nr, base, from, x)
    {
      hide Crypt, BlockOf, StateAt;
      assert x[..off] == x;
    }

    /** The current block is at hand. */
    ghost predicate Ready()
      reads this, state, keystream
    {
      && state.Length == 16 && keystream.Length == 64 && nr % 2 == 0 && pos == used % 64
      && state[..] == StateAt(base, used / 64 + 1)
      && keystream[..] == BlockOf(nr, StateAt(base, used / 64))
    }

    /** A stream position at the end of a block is moved to the start of the next one. */
    method EnsureBlock()
      requires Valid()
      modifies `pos, state, keystream
      ensures Ready()
    {
      hide BlockOf, StateAt;
      if pos == 0 || pos >= 64 {
        Refill();
      } else {
        assert (used - 1) / 64 == used / 64 && pos == used % 64;
      }
    }

    /** Advances the position in the keystream block. */
    method Consume(n: nat)
      requires Ready() && 0 < n <= 64 - pos
      modifies `pos, `used
      ensures Valid() && used == old(used) + n
    {
      hide BlockOf, StateAt;
      pos := pos + n;
      used := used + n;
      assert (used - 1) / 64 == (used - n) / 64 && (used - 1) % 64 + 1 == pos;
    }

    /** One pass of the loop. */
    method Advance(input: array?<bv8>, output: array?<bv8>, off: nat, length: nat,
                   ghost x: seq<bv8>, ghost from: nat, ghost tail: seq<bv8>) returns (n: nat)
      requires Underway(input, output, off, length, x, from, tail) && length > 0
      requires keystream != input && keystream != output
      modifies `pos, `used, state, keystream, output
      ensures 0 < n <= length && Underway(input, output, off + n, length - n, x, from, tail)
    {
      hide Crypt, Chunk, Valid, Ready;
      EnsureBlock();
      ReadyPos();
      n := Min(length, 64 - pos);
      if output != null {
        PutPiece(input, output, off, n, length, x, from);
      } else {
        ChunkTail(input, off, length, n);
        Tail(x, off, n);
      }
      Consume(n);
    }

    lemma ReadyPos()
      requires Ready()
      ensures pos == used % 64 < 64
    {
    }

    method PutPiece(input: array?<bv8>, output: array<bv8>, off: nat, n: nat, length: nat, ghost x: seq<bv8>, ghost from: nat)
      requires Ready() && pos + n <= 64 && n <= length && used == from + off
      requires (input != null ==> off + length <= input.Length) && input != keystream
      requires off + length <= output.Length && output != keystream
      requires |x| == off + length && Chunk(input, off, length) == x[off..] && output[..off] == Crypt(nr, base, from, x[..off])
      modifies output
      ensures output[off + length..] == old(output[off + length..])
      ensures output[..off + n] == Crypt(nr, base, from, x[..off + n])
      ensures Chunk(input, off + n, length - n) == x[off + n..]
    {
      hide *;
      ChunkTail(input, off, length, n);
      ChunkFromTail(input, off + n, length - n);
      Tail(x, off, n);
      ghost var before := output[..];
      PartsOf(output, off, n, length);
      Piece(input, output, off, n);
      PartsOf(output, off, n, length);
      PiecePut(before, output[..], off, n, length, x, nr, base, from);
      ChunkFromTail(input, off + n, length - n);
    }
  }

  method NewArray(s: seq<bv8>) returns (a: array<bv8>)
    ensures fresh(a) && a[..] == s && a.Length == |s| && a[..|s|] == s
  {
    a := new bv8[|s|](i requires 0 <= i < |s| => s[i]);
    assert a[..] == s;
  }

  lemma NoChunks(chunks: seq<seq<bv8>>, nr: nat, st: Words16, k: nat)
    ensures Flatten(chunks[..0]) == [] && Crypt(nr, st, k, []) == []
  {
  }

  lemma PartsOf(a: array<bv8>, off: nat, n: nat, length: nat)
    requires n <= length && off + length <= a.Length
    ensures a[..][..off] == a[..off] && a[..][off..off + n] == a[off..off + n] && a[..][off + n..] == a[off + n..]
    ensures a[..][..off + n] == a[..off + n] && a[..][off + length..] == a[off + length..]
  {
  }

  /** What one piece adds to the output. */
  lemma PiecePut(before: seq<bv8>, after: seq<bv8>, off: nat, n: nat, length: nat, x: seq<bv8>,
                 nr: nat, st: Words16, from: nat)
    requires |before| == |after| && n <= length && off + length == |x| <= |after|
    requires after[..off] == before[..off] && after[off + n..] == before[off + n..]
    requires before[..off] == Crypt(nr, st, from, x[..off])
    requires after[off..off + n] == Crypt(nr, st, from + off, x[off..off + n])
    ensures after[..off + n] == Crypt(nr, st, from, x[..off + n]) && after[off + length..] == before[off + length..]
  {
    hide Crypt;
    CryptAppend(nr, st, from, x[..off], x[off..off + n]);
    assert x[..off] + x[off..off + n] == x[..off + n];
    assert after[..off] + after[off..off + n] == after[..off + n];
    assert after[off + length..] == after[off + n..][length - n..];
    assert before[off + length..] == before[off + n..][length - n..];
  }

  /** n bytes of the input from position off, or zeros when there is none. */
  ghost function Chunk(input: array?<bv8>, off: nat, n: nat): (x: seq<bv8>)
    requires input != null ==> off + n <= input.Length
    reads input
    ensures |x| == n
  {
    if input != null then input[off..off + n] else Repeat(0, n)
  }

  lemma ChunkTail(input: array?<bv8>, off: nat, length: nat, n: nat)
    requires n <= length && (input != null ==> off + length <= input.Length)
    ensures Chunk(input, off, length)[n..] == Chunk(input, off + n, length - n)
    ensures Chunk(input, off, length)[..n] == Chunk(input, off, n)
  {
  }

  lemma ChunkFromTail(input: array?<bv8>, off: nat, n: nat)
    requires input != null ==> off + n <= input.Length
    ensures Chunk(input, off, n) == if input != null then input[off..][..n] else Repeat(0, n)
  {
  }

  lemma CryptIs(nr: nat, st: Words16, k: nat, x: seq<bv8>)
    ensures Crypt(nr, st, k, x) == XorBytes(x, KeyStream(nr, st, k, |x|))
  {
  }

  lemma KeyStreamIsCrypt(nr: nat, st: Words16, k: nat, n: nat)
    ensures Crypt(nr, st, k, Repeat(0, n)) == KeyStream(nr, st, k, n)
  {
    hide KeyByte;
    forall i | 0 <= i < n
      ensures Crypt(nr, st, k, Repeat(0, n))[i] == KeyStream(nr, st, k, n)[i]
    {
      ZeroXor(KeyStream(nr, st, k, n)[i]);
    }
  }

  lemma ZeroXor(a: bv8)
    ensures 0 ^ a == a
  {
  }

  lemma StartOfStream(nr: nat, st: Words16, k: nat)
    ensures Crypt(nr, st, k, []) == []
  {
  }

  lemma StateSteps(st: Words16, i: nat)
    ensures StateAt(st, 0) == st && StateAt(st, i + 1) == NextState()(StateAt(st, i))
  {
    NoStep(st);
    StateStep(st, i);
  }

  /** The bytes of the current block are bytes of the key stream. */
  lemma InBlock(block: seq<bv8>, nr: nat, st: Words16, k: nat, n: nat)
    requires k % 64 + n <= 64 && block == BlockOf(nr, StateAt(st, k / 64))
    ensures block[k % 64..k % 64 + n] == KeyStream(nr, st, k, n)
  {
    hide BlockOf, StateAt;
    var s := block[k % 64..k % 64 + n];
    forall i | 0 <= i < n
      ensures s[i] == KeyStream(nr, st, k, n)[i]
    {
      assert (k + i) / 64 == k / 64 && (k + i) % 64 == k % 64 + i;
      assert KeyStream(nr, st, k, n)[i] == KeyByte(nr, st, k + i);
    }
  }

  /** The block buffer receives the string form of the sixteen words. */
  method StoreWords(w: array<bv32>, out: array<bv8>)
    requires w.Length == 16 && out.Length == 64
    modifies out
    ensures out[..] == Serialize(w[..])
  {
    hide Store32LE;
    NoWords();
    for i := 0 to 16
      invariant out[..4 * i] == Serialize(w[..i])
    {
      SerializeSnoc(w[..], i);
      assert w[..][..i + 1] == w[..i + 1] && w[..][..i] == w[..i];
      PutFour(out, 4 * i, Store32LE(w[i]));
    }
    assert w[..16] == w[..] && out[..64] == out[..];
  }

  method PutFour(out: array<bv8>, at: nat, b: seq<bv8>)
    requires at + 4 <= out.Length && |b| == 4
    modifies out
    ensures out[..at + 4] == old(out[..at]) + b
  {
    ghost var before := out[..at];
    out[at], out[at + 1], out[at + 2], out[at + 3] := b[0], b[1], b[2], b[3];
    assert out[..at] == before;
    assert out[at..at + 4] == b;
    JoinFour(out, at);
  }

  lemma JoinFour(out: array<bv8>, at: nat)
    requires at + 4 <= out.Length
    ensures out[..at + 4] == out[..at] + out[at..at + 4]
  {
  }

  lemma NoWords()
    ensures Serialize([]) == []
  {
  }
}
