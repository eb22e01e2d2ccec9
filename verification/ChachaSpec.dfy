/** The ChaCha key stream of RFC 8439 and the block counter that drives it. */
module ChachaSpec {
  import opened Folds
  import opened Words

  /** The sixteen words of a state. */
  type Words16 = w: seq<bv32> | |w| == 16 witness Repeat(0, 16)

  // ----- the block function, section 2.3 -----------------------------------------------------------

  /** Half of the quarter round of section 2.1, on words a, b, c and d of a state. */
  function HalfRound(w: Words16, a: nat, b: nat, c: nat, d: nat, r: bv5, s: bv5): Words16
    requires a < 16 && b < 16 && c < 16 && d < 16
  {
    var a1 := AddW(w[a], w[b]);
    var d1 := Rol32(XorW(w[d], a1), r);
    var c1 := AddW(w[c], d1);
    var b1 := Rol32(XorW(w[b], c1), s);
    w[a := a1][b := b1][c := c1][d := d1]
  }

  /** The quarter round, section 2.2. */
  function QuarterRound(w: Words16, a: nat, b: nat, c: nat, d: nat): Words16
    requires a < 16 && b < 16 && c < 16 && d < 16
  {
    HalfRound(HalfRound(w, a, b, c, d, 16, 12), a, b, c, d, 8, 7)
  }

  function ColumnRound(w: Words16): Words16 {
    QuarterRound(QuarterRound(QuarterRound(QuarterRound(w, 0, 4, 8, 12), 1, 5, 9, 13), 2, 6, 10, 14), 3, 7, 11, 15)
  }

  function DiagonalRound(w: Words16): Words16 {
    QuarterRound(QuarterRound(QuarterRound(QuarterRound(w, 0, 5, 10, 15), 1, 6, 11, 12), 2, 7, 8, 13), 3, 4, 9, 14)
  }

  /** n column rounds and n diagonal rounds, alternating. */
  function DoubleRounds(w: Words16, n: nat): Words16 {
    if n == 0 then w else DiagonalRound(ColumnRound(DoubleRounds(w, n - 1)))
  }

  function AddWords(a: Words16, b: Words16): Words16 {
    seq(16, i requires 0 <= i < 16 => AddW(a[i], b[i]))
  }

  /** A string of four bytes for each word. */
  function Serialize(w: seq<bv32>): (s: seq<bv8>)
    ensures |s| == 4 * |w|
  {
    if w == [] then [] else Store32LE(w[0]) + Serialize(w[1..])
  }

  function BlockOf(nr: nat, st: Words16): (s: seq<bv8>)
    ensures |s| == 64
  {
    Serialize(AddWords(DoubleRounds(st, nr / 2), st))
  }

  // ----- the key stream --------------------------------------------------------------------------------

  /** The block counter steps, and carries into the next word. */
  function NextState(): Words16 -> Words16 {
    (st: Words16) =>
      if Inc(st[12]) == 0 then st[12 := 0][13 := Inc(st[13])] else st[12 := Inc(st[12])]
  }

  /** The state from which block i of the key stream is made. */
  function StateAt(st: Words16, i: nat): Words16 {
    Iterate(NextState(), st, i)
  }

  /** Byte k of the key stream. */
  function KeyByte(nr: nat, st: Words16, k: nat): bv8 {
    BlockOf(nr, StateAt(st, k / 64))[k % 64]
  }

  /** n bytes of the key stream from position k. */
  function KeyStream(nr: nat, st: Words16, k: nat, n: nat): (s: seq<bv8>)
    ensures |s| == n
  {
    seq(n, i requires 0 <= i < n => KeyByte(nr, st, k + i))
  }

  /** Data encrypted or decrypted with the key stream from position k. */
  function Crypt(nr: nat, st: Words16, k: nat, x: seq<bv8>): (y: seq<bv8>)
    ensures |y| == |x|
  {
    XorBytes(x, KeyStream(nr, st, k, |x|))
  }

  /** However the data is cut in two, the output is the same. */
  lemma CryptAppend(nr: nat, st: Words16, k: nat, a: seq<bv8>, b: seq<bv8>)
    ensures Crypt(nr, st, k, a + b) == Crypt(nr, st, k, a) + Crypt(nr, st, k + |a|, b)
  {
    hide KeyByte;
    var l, r := Crypt(nr, st, k, a + b), Crypt(nr, st, k, a) + Crypt(nr, st, k + |a|, b);
    forall i | 0 <= i < |a + b|
      ensures l[i] == r[i]
    {
      if i >= |a| {
        assert (a + b)[i] == b[i - |a|];
        assert k + i == k + |a| + (i - |a|);
      }
    }
  }

  /** The data of any number of calls. */
  function CryptChunks(nr: nat, st: Words16, k: nat, chunks: seq<seq<bv8>>): seq<bv8>
    decreases |chunks|
  {
    if chunks == [] then []
    else Crypt(nr, st, k, chunks[0]) + CryptChunks(nr, st, k + |chunks[0]|, chunks[1..])
  }

  lemma {:induction false} ChunkingIrrelevantToCrypt(nr: nat, st: Words16, k: nat, chunks: seq<seq<bv8>>)
    ensures CryptChunks(nr, st, k, chunks) == Crypt(nr, st, k, Flatten(chunks))
    decreases |chunks|
  {
    hide Crypt;
    if chunks != [] {
      ChunkingIrrelevantToCrypt(nr, st, k + |chunks[0]|, chunks[1..]);
      CryptAppend(nr, st, k, chunks[0], Flatten(chunks[1..]));
    }
  }

  /** Encrypting twice from the same position gives the data back. */
  lemma CryptTwice(nr: nat, st: Words16, k: nat, x: seq<bv8>)
    ensures Crypt(nr, st, k, Crypt(nr, st, k, x)) == x
  {
    hide KeyStream;
    XorBytesTwice(x, KeyStream(nr, st, k, |x|));
  }

  // ----- the block counter ---------------------------------------------------------------------------------

  function Inc(x: bv32): bv32 { x + 1 }

  function Double(x: bv32): bv32 { x << 1 }

  /** i as a 32-bit word, reached by counting up from zero. */
  function Counted(i: nat): bv32 {
    if i == 0 then 0 else Inc(Counted(i - 1))
  }

  function Pow2(k: nat): nat {
    if k == 0 then 1 else 2 * Pow2(k - 1)
  }

  function Bit(k: nat): bv32 {
    if k == 0 then 1 else Double(Bit(k - 1))
  }

  lemma DoubleStep(x: bv32)
    ensures Inc(Inc(Double(x))) == Double(Inc(x))
  {
  }

  lemma DoubleZero()
    ensures Double(0) == 0
  {
  }

  /** Counting is doubling, plus one for odd numbers. */
  lemma {:induction false} CountedHalves(m: nat)
    ensures Counted(2 * m) == Double(Counted(m))
    ensures Counted(2 * m + 1) == Inc(Double(Counted(m)))
    decreases m
  {
    hide Inc, Double;
    if m > 0 {
      CountedHalves(m - 1);
      DoubleStep(Counted(m - 1));
      assert Counted(2 * m) == Inc(Counted(2 * (m - 1) + 1));
    } else {
      DoubleZero();
    }
  }

  /** Below a bound, and not zero when it counts something. */
  predicate Small(x: bv32, bound: bv32, positive: bool) {
    x < bound && (positive ==> x != 0)
  }

  lemma DoubledSmall(x: bv32, bound: bv32, positive: bool)
    requires Small(x, bound, positive) && bound <= 0x4000_0000
    ensures Small(Double(x), Double(bound), positive) && Small(Inc(Double(x)), Double(bound), true)
  {
  }

  /** The powers of two up to 2^30 fit in 31 bits. */
  lemma BitFits(k: nat)
    requires k <= 30
    ensures Bit(k) <= 0x4000_0000
  {
    assert Bit(0) == 0x1;
    assert Bit(1) == 0x2;
    assert Bit(2) == 0x4;
    assert Bit(3) == 0x8;
    assert Bit(4) == 0x10;
    assert Bit(5) == 0x20;
    assert Bit(6) == 0x40;
    assert Bit(7) == 0x80;
    assert Bit(8) == 0x100;
    assert Bit(9) == 0x200;
    assert Bit(10) == 0x400;
    assert Bit(11) == 0x800;
    assert Bit(12) == 0x1000;
    assert Bit(13) == 0x2000;
    assert Bit(14) == 0x4000;
    assert Bit(15) == 0x8000;
    assert Bit(16) == 0x10000;
    assert Bit(17) == 0x20000;
    assert Bit(18) == 0x40000;
    assert Bit(19) == 0x80000;
    assert Bit(20) == 0x100000;
    assert Bit(21) == 0x200000;
    assert Bit(22) == 0x400000;
    assert Bit(23) == 0x800000;
    assert Bit(24) == 0x1000000;
    assert Bit(25) == 0x2000000;
    assert Bit(26) == 0x4000000;
    assert Bit(27) == 0x8000000;
    assert Bit(28) == 0x10000000;
    assert Bit(29) == 0x20000000;
    assert Bit(30) == 0x40000000;
    hide Bit, Double;
  }

  lemma NothingIsSmall()
    ensures Small(0, 1, false)
  {
  }

  /** A number below 2^k stays below bit k, and a positive one is not zero. */
  lemma {:induction false} CountedFits(i: nat, k: nat)
    requires i < Pow2(k) && k <= 31
    ensures Small(Counted(i), Bit(k), i > 0)
    decreases k
  {
    hide Inc, Double, Small;
    if k > 0 {
      var m := i / 2;
      CountedFits(m, k - 1);
      CountedHalves(m);
      BitFits(k - 1);
      DoubledSmall(Counted(m), Bit(k - 1), m > 0);
      assert i == 2 * m || i == 2 * m + 1;
    } else {
      NothingIsSmall();
    }
  }

  lemma HalfOfLast(x: bv32, positive: bool)
    requires Small(x, 0x8000_0000, positive)
    ensures Inc(Double(x)) != 0 && (positive ==> Double(x) != 0)
  {
  }

  lemma LastBit()
    ensures Bit(31) == 0x8000_0000 && Pow2(31) == 0x8000_0000
  {
    assert Pow2(8) == 0x100 && Pow2(16) == 0x1_0000 && Pow2(24) == 0x100_0000;
    assert Bit(8) == 0x100 && Bit(16) == 0x1_0000 && Bit(24) == 0x100_0000;
  }

  /** The counter word does not return to zero before 2^32 steps. */
  lemma CounterDoesNotWrap(i: nat)
    requires 0 < i < 0x1_0000_0000
    ensures Counted(i) != 0
  {
    hide Inc, Double, Small, Bit, Pow2, Counted;
    var m := i / 2;
    LastBit();
    CountedFits(m, 31);
    CountedHalves(m);
    HalfOfLast(Counted(m), m > 0);
    assert i == 2 * m || i == 2 * m + 1;
  }

  lemma NoStep(st: Words16)
    ensures StateAt(st, 0) == st
  {
  }

  lemma OneStep(st: Words16)
    ensures Iterate(NextState(), st, 1) == NextState()(st)
  {
  }

  lemma StateStep(st: Words16, i: nat)
    ensures StateAt(st, i + 1) == NextState()(StateAt(st, i))
  {
    IterateAdd(NextState(), st, i, 1);
    OneStep(StateAt(st, i));
    hide NextState;
  }

  /** Within the first 2^32 blocks the counter takes only its own word, as RFC 8439 has it. */
  lemma {:induction false} FirstBlocks(st: Words16, i: nat)
    requires st[12] == 0 && i < 0x1_0000_0000
    ensures StateAt(st, i) == st[12 := Counted(i)]
    decreases i
  {
    hide Inc;
    if i > 0 {
      FirstBlocks(st, i - 1);
      CounterDoesNotWrap(i);
      StateStep(st, i - 1);
    }
  }

  lemma {:induction false} CountedPow2(k: nat)
    ensures Counted(Pow2(k)) == Bit(k)
    decreases k
  {
    hide Inc, Double;
    if k > 0 {
      CountedPow2(k - 1);
      CountedHalves(Pow2(k - 1));
    } else {
      OneCounted();
    }
  }

  lemma OneCounted()
    ensures Counted(1) == 1
  {
    assert Counted(0) == 0;
  }

  lemma DoubleTop()
    ensures Double(0x8000_0000) == 0
  {
  }

  /** At block 2^32 the carry does reach the word after the counter, which a 12-byte nonce occupies. */
  lemma CarryAtLimit(st: Words16)
    requires st[12] == 0
    ensures StateAt(st, 0x1_0000_0000) == st[13 := Inc(st[13])]
  {
    var last := 0xFFFF_FFFF;
    LastBit();
    CountedPow2(31);
    CountedHalves(0x8000_0000);
    DoubleTop();
    assert Counted(0x1_0000_0000) == Inc(Counted(last)) by { CountedStep(last); }
    FirstBlocks(st, last);
    StateStep(st, last);
    hide Inc, Counted, StateAt, Bit, Pow2, Double;
    assert st[12 := 0][13 := Inc(st[13])] == st[13 := Inc(st[13])];
  }

  /** The words after the counter keep the nonce for the first 2^32 blocks and not for one block more. */
  lemma NonceKeptIff(st: Words16, n: nat)
    requires st[12] == 0
    ensures (forall i: nat | i < n :: StateAt(st, i)[13..] == st[13..]) <==> n <= 0x1_0000_0000
  {
    hide StateAt;
    if n <= 0x1_0000_0000 {
      forall i: nat | i < n
        ensures StateAt(st, i)[13..] == st[13..]
      {
        FirstBlocks(st, i);
      }
    } else {
      CarryAtLimit(st);
      IncMoves(st[13]);
      assert StateAt(st, 0x1_0000_0000)[13..][0] != st[13..][0];
    }
  }

  lemma IncMoves(w: bv32)
    ensures Inc(w) != w
  {
  }

  lemma CountedStep(i: nat)
    ensures Counted(i + 1) == Inc(Counted(i))
  {
  }

  lemma IncInjective(x: bv32, y: bv32)
    requires Inc(x) == Inc(y)
    ensures x == y
  {
  }

  lemma {:induction false} CountedDistinct(i: nat, j: nat)
    requires i < j < 0x1_0000_0000
    ensures Counted(i) != Counted(j)
    decreases i
  {
    hide Inc;
    if i == 0 {
      CounterDoesNotWrap(j);
    } else if Counted(i) == Counted(j) {
      IncInjective(Counted(i - 1), Counted(j - 1));
      CountedDistinct(i - 1, j - 1);
    }
  }

  lemma CountedWraps()
    ensures Counted(0x1_0000_0000) == Counted(0)
  {
    LastBit();
    CountedPow2(31);
    CountedHalves(0x8000_0000);
    DoubleTop();
  }

  lemma {:induction false} CountedPeriodic(n: nat)
    ensures Counted(n) == Counted(n % 0x1_0000_0000)
    decreases n
  {
    hide Inc, Counted;
    if n > 0 {
      CountedPeriodic(n - 1);
      CountedWraps();
      CountedStep(n - 1);
      CountedStep((n - 1) % 0x1_0000_0000);
    }
  }

  /** The counter takes the same value again after 2^32 steps and no sooner. */
  lemma CountedEqualIff(i: nat, j: nat)
    ensures Counted(i) == Counted(j) <==> i % 0x1_0000_0000 == j % 0x1_0000_0000
  {
    hide Counted;
    var a, b := i % 0x1_0000_0000, j % 0x1_0000_0000;
    CountedPeriodic(i);
    CountedPeriodic(j);
    if a < b {
      CountedDistinct(a, b);
    } else if b < a {
      CountedDistinct(b, a);
    }
  }

  lemma IncOfPrevious(x: bv32)
    requires x != 0
    ensures x - 1 < x && Inc(x - 1) == x
  {
  }

  /** The counter takes every value. */
  lemma {:induction false} CountedReaches(x: bv32) returns (n: nat)
    ensures Counted(n) == x
    decreases x
  {
    hide Inc;
    if x == 0 {
      n := 0;
    } else {
      IncOfPrevious(x);
      n := CountedReaches(x - 1);
      CountedStep(n);
      n := n + 1;
    }
  }

  /** Words 12 and 13 are the two digits of the block number to the base 2^32. */
  lemma {:induction false} Position(st: Words16, i: nat)
    requires st[12] == 0 && st[13] == 0
    ensures StateAt(st, i) == st[12 := Counted(i % 0x1_0000_0000)][13 := Counted(i / 0x1_0000_0000)]
    decreases i
  {
    hide Inc, StateAt, Counted;
    assert Counted(0) == 0 by { CountedZero(); }
    if i > 0 {
      var r, q := (i - 1) % 0x1_0000_0000, (i - 1) / 0x1_0000_0000;
      Position(st, i - 1);
      StateStep(st, i - 1);
      CountedStep(r);
      CountedStep(q);
      CountedWraps();
      if r + 1 < 0x1_0000_0000 {
        CounterDoesNotWrap(r + 1);
        assert i % 0x1_0000_0000 == r + 1 && i / 0x1_0000_0000 == q;
      } else {
        assert i % 0x1_0000_0000 == 0 && i / 0x1_0000_0000 == q + 1;
      }
    } else {
      assert StateAt(st, 0) == st by { NoStep(st); }
    }
  }

  lemma CountedZero()
    ensures Counted(0) == 0
  {
  }

  lemma LastTwoDigits(x: nat)
    ensures x % 0x1_0000_0000_0000_0000 == 0x1_0000_0000 * ((x / 0x1_0000_0000) % 0x1_0000_0000) + x % 0x1_0000_0000
  {
    var q := x / 0x1_0000_0000;
    assert x == 0x1_0000_0000_0000_0000 * (q / 0x1_0000_0000) + 0x1_0000_0000 * (q % 0x1_0000_0000) + x % 0x1_0000_0000;
  }

  lemma DigitsIff(x: nat, y: nat)
    ensures x % 0x1_0000_0000_0000_0000 == y % 0x1_0000_0000_0000_0000 <==>
      (x % 0x1_0000_0000 == y % 0x1_0000_0000
        && (x / 0x1_0000_0000) % 0x1_0000_0000 == (y / 0x1_0000_0000) % 0x1_0000_0000)
  {
    LastTwoDigits(x);
    LastTwoDigits(y);
  }

  lemma ShiftIff(k: nat, i: nat, j: nat)
    ensures (k + i) % 0x1_0000_0000_0000_0000 == (k + j) % 0x1_0000_0000_0000_0000
       <==> i % 0x1_0000_0000_0000_0000 == j % 0x1_0000_0000_0000_0000
  {
  }

  /** Every state is reached from the one whose counter words are zero. */
  lemma FromZero(st: Words16) returns (k: nat)
    ensures forall i: nat :: StateAt(st, i) == StateAt(st[12 := 0][13 := 0], k + i)
  {
    hide NextState, Counted;
    var zero: Words16 := st[12 := 0][13 := 0];
    var low := CountedReaches(st[12]);
    var high := CountedReaches(st[13]);
    k := 0x1_0000_0000 * high + low % 0x1_0000_0000;
    CountedPeriodic(low);
    Position(zero, k);
    assert k % 0x1_0000_0000 == low % 0x1_0000_0000 && k / 0x1_0000_0000 == high;
    assert StateAt(zero, k) == st;
    forall i: nat
      ensures StateAt(st, i) == StateAt(zero, k + i)
    {
      IterateAdd(NextState(), zero, k, i);
    }
  }

  /** From any state, whatever the nonce, two blocks have the same input exactly when they are a multiple of 2^64 apart. */
  lemma BlockInputsRepeatIff(st: Words16, i: nat, j: nat)
    ensures StateAt(st, i) == StateAt(st, j) <==> i % 0x1_0000_0000_0000_0000 == j % 0x1_0000_0000_0000_0000
  {
    hide StateAt, Counted;
    var zero: Words16 := st[12 := 0][13 := 0];
    var k := FromZero(st);
    Position(zero, k + i);
    Position(zero, k + j);
    CountedEqualIff((k + i) % 0x1_0000_0000, (k + j) % 0x1_0000_0000);
    CountedEqualIff((k + i) / 0x1_0000_0000, (k + j) / 0x1_0000_0000);
    DigitsIff(k + i, k + j);
    ShiftIff(k, i, j);
    SameCounters(zero, Counted((k + i) % 0x1_0000_0000), Counted((k + i) / 0x1_0000_0000),
                 Counted((k + j) % 0x1_0000_0000), Counted((k + j) / 0x1_0000_0000));
  }

  lemma SameCounters(st: Words16, a: bv32, b: bv32, c: bv32, d: bv32)
    ensures st[12 := a][13 := b] == st[12 := c][13 := d] <==> a == c && b == d
  {
    var s, t := st[12 := a][13 := b], st[12 := c][13 := d];
    assert s[12] == a && s[13] == b && t[12] == c && t[13] == d;
  }

  // ----- the initial state -----------------------------------------------------------------------------------

  /** Words read in little-endian order. */
  function WordsOf(b: seq<bv8>): (w: seq<bv32>)
    ensures |w| == |b| / 4
  {
    seq(|b| / 4, i requires 0 <= i < |b| / 4 => Load32LE(b[4 * i], b[4 * i + 1], b[4 * i + 2], b[4 * i + 3]))
  }

  predicate Accepts(keyLen: nat, nonceLen: nat) {
    keyLen in {16, 32} && nonceLen in {8, 12, 16}
  }

  /** Constants and key. */
  function KeyPart(key: seq<bv8>): (w: seq<bv32>)
    requires |key| in {16, 32}
    ensures |w| == 12
  {
    if |key| == 16 then [0x61707865, 0x3120646E, 0x79622D36, 0x6B206574] + WordsOf(key) + WordsOf(key)
    else [0x61707865, 0x3320646E, 0x79622D32, 0x6B206574] + WordsOf(key)
  }

  /** A counter of zero in front of a nonce of less than four words. */
  function NoncePart(nonce: seq<bv8>): (w: seq<bv32>)
    requires |nonce| in {8, 12, 16}
    ensures |w| == 4
  {
    Repeat(0, 4 - |nonce| / 4) + WordsOf(nonce)
  }

  function InitialState(key: seq<bv8>, nonce: seq<bv8>): Words16
    requires Accepts(|key|, |nonce|)
  {
    KeyPart(key) + NoncePart(nonce)
  }

  lemma StateParts(key: seq<bv8>, nonce: seq<bv8>)
    requires Accepts(|key|, |nonce|)
    ensures InitialState(key, nonce) == KeyPart(key) + NoncePart(nonce)
  {
  }

  /** With a nonce of 8 or 12 bytes the counter starts from zero, as RFC 8439 asks. */
  lemma CounterStartsAtZero(key: seq<bv8>, nonce: seq<bv8>)
    requires |key| in {16, 32} && |nonce| in {8, 12}
    ensures InitialState(key, nonce)[12] == 0
  {
    hide KeyPart, WordsOf;
  }
}
