/**
 * The CRC-32 of the boot loader (reflected polynomial 0xEDB88320, preset 0xFFFFFFFF, no final
 * XOR): the bit-by-bit form of src/main.c, the table-driven streaming form of crc32.c, and what
 * the checksum is able to detect.
 */
module Crc32 {
  import opened Words
  import opened Folds

  const PRESET: bv32 := 0xFFFFFFFF

  // ----- specification: a shift register fed one bit at a time --------------------

  /** One clock of the shift register. */
  function BitStep(c: bv32): bv32 {
    if c & 1 == 1 then (c >> 1) ^ 0xEDB88320 else c >> 1
  }

  function BitSteps(c: bv32, n: nat): bv32 {
    Iterate(BitStep, c, n)
  }

  type Bit = bv1

  function BitWord(b: Bit): bv32 {
    b as bv32
  }

  /** Message bits enter at the low end of the register. */
  function FeedBit(c: bv32, b: Bit): bv32 {
    BitStep(c ^ BitWord(b))
  }

  function FeedBits(c: bv32, bits: seq<Bit>): bv32 {
    Fold(FeedBit, c, bits)
  }

  function BitAt(b: bv8, n: nat): Bit
    requires n < 8
  {
    ((b >> n) & 1) as bv1
  }

  /** The bits of a byte in transmission order, least significant first. */
  function BitsOf(b: bv8): (s: seq<Bit>)
    ensures |s| == 8
  {
    [BitAt(b, 0), BitAt(b, 1), BitAt(b, 2), BitAt(b, 3), BitAt(b, 4), BitAt(b, 5), BitAt(b, 6), BitAt(b, 7)]
  }

  function MessageBits(data: seq<bv8>): (s: seq<Bit>)
    ensures |s| == 8 * |data|
  {
    if data == [] then [] else BitsOf(data[0]) + MessageBits(data[1..])
  }

  /** The register after one message byte, as the byte loops write it. */
  function FeedByte(c: bv32, b: bv8): bv32 {
    BitSteps(c ^ (b as bv32), 8)
  }

  /** The register after a whole message, starting from c. */
  function Digest(c: bv32, data: seq<bv8>): bv32 {
    Fold(FeedByte, c, data)
  }

  function Crc(data: seq<bv8>): bv32 {
    Digest(PRESET, data)
  }

  lemma DigestNothing(c: bv32)
    ensures Digest(c, []) == c
  {
  }

  lemma DigestSnoc(c: bv32, data: seq<bv8>, i: nat)
    requires i < |data|
    ensures Digest(c, data[..i + 1]) == FeedByte(Digest(c, data[..i]), data[i])
  {
    FoldSnoc(FeedByte, c, data, i);
  }

  /** A message fed in any pieces from the preset has the CRC of the whole message. */
  lemma StreamedCrc(chunks: seq<seq<bv8>>)
    ensures FoldChunks(FeedByte, PRESET, chunks) == Crc(Flatten(chunks))
  {
    ChunkingIrrelevant(FeedByte, PRESET, chunks);
  }

  // ----- the register is XOR-linear and injective ----------------------------------

  function Xor(a: bv32, b: bv32): bv32 {
    a ^ b
  }

  lemma BitStepLinearOdd(a: bv32, b: bv32)
    requires a & 1 == 1 && b & 1 == 1
    ensures BitStep(a ^ b) == BitStep(a) ^ BitStep(b)
  {
  }

  lemma BitStepLinearMixed(a: bv32, b: bv32)
    requires a & 1 == 0 && b & 1 == 1
    ensures BitStep(a ^ b) == BitStep(a) ^ BitStep(b)
  {
  }

  lemma BitStepLinearEven(a: bv32, b: bv32)
    requires a & 1 == 0 && b & 1 == 0
    ensures BitStep(a ^ b) == BitStep(a) ^ BitStep(b)
  {
  }

  lemma LowBit(a: bv32)
    ensures a & 1 == 0 || a & 1 == 1
  {
  }

  lemma BitStepLinear(a: bv32, b: bv32)
    ensures BitStep(Xor(a, b)) == Xor(BitStep(a), BitStep(b))
  {
    LowBit(a);
    LowBit(b);
    if a & 1 == 1 && b & 1 == 1 {
      BitStepLinearOdd(a, b);
    } else if b & 1 == 1 {
      BitStepLinearMixed(a, b);
    } else if a & 1 == 1 {
      BitStepLinearMixed(b, a);
    } else {
      BitStepLinearEven(a, b);
    }
  }

  lemma BitStepsLinear(a: bv32, b: bv32, n: nat)
    ensures BitSteps(Xor(a, b), n) == Xor(BitSteps(a, n), BitSteps(b, n))
  {
    forall x, y
      ensures BitStep(Xor(x, y)) == Xor(BitStep(x), BitStep(y))
    {
      BitStepLinear(x, y);
    }
    IterateHomomorphic(BitStep, Xor, a, b, n);
  }

  /** Runs the register one clock backwards. */
  function BitStepBack(c: bv32): bv32 {
    if c & 0x80000000 != 0 then ((c ^ 0xEDB88320) << 1) | 1 else c << 1
  }

  lemma BitStepUndone(c: bv32)
    ensures BitStepBack(BitStep(c)) == c
  {
  }

  lemma BitStepInjective()
    ensures forall a, b :: BitStep(a) == BitStep(b) ==> a == b
  {
    forall a, b | BitStep(a) == BitStep(b)
      ensures a == b
    {
      BitStepUndone(a);
      BitStepUndone(b);
    }
  }

  lemma FeedBitsInjective(c: bv32, d: bv32, bits: seq<Bit>)
    requires FeedBits(c, bits) == FeedBits(d, bits)
    ensures c == d
  {
    forall a, b, x | FeedBit(a, x) == FeedBit(b, x)
      ensures a == b
    {
      BitStepUndone(a ^ BitWord(x));
      BitStepUndone(b ^ BitWord(x));
    }
    FoldInjective(FeedBit, c, d, bits);
  }

  // ----- the lookup table -------------------------------------------------------------

  /** crc32Table */
  function Table(i: bv8): bv32 {
    WordEntry(RowOf32(i >> 3,
        0x0000000077073096EE0E612C990951BA076DC419706AF48FE963A5359E6495A3,
        0x0EDB883279DCB8A4E0D5E91E97D2D98809B64C2B7EB17CBDE7B82D0790BF1D91,
        0x1DB710646AB020F2F3B9714884BE41DE1ADAD47D6DDDE4EBF4D4B55183D385C7,
        0x136C9856646BA8C0FD62F97A8A65C9EC14015C4F63066CD9FA0F3D638D080DF5,
        0x3B6E20C84C69105ED56041E4A26771723C03E4D14B04D447D20D85FDA50AB56B,
        0x35B5A8FA42B2986CDBBBC9D6ACBCF94032D86CE345DF5C75DCD60DCFABD13D59,
        0x26D930AC51DE003AC8D75180BFD0611621B4F4B556B3C423CFBA9599B8BDA50F,
        0x2802B89E5F058808C60CD9B2B10BE9242F6F7C8758684C11C1611DABB6662D3D,
        0x76DC419001DB710698D220BCEFD5102A71B1858906B6B51F9FBFE4A5E8B8D433,
        0x7807C9A20F00F9349609A88EE10E98187F6A0DBB086D3D2D91646C97E6635C01,
        0x6B6B51F41C6C6162856530D8F262004E6C0695ED1B01A57B8208F4C1F50FC457,
        0x65B0D9C612B7E9508BBEB8EAFCB9887C62DD1DDF15DA2D498CD37CF3FBD44C65,
        0x4DB261583AB551CEA3BC0074D4BB30E24ADFA5413DD895D7A4D1C46DD3D6F4FB,
        0x4369E96A346ED9FCAD678846DA60B8D044042D7333031DE5AA0A4C5FDD0D7CC9,
        0x5005713C270241AABE0B1010C90C20865768B525206F85B3B966D409CE61E49F,
        0x5EDEF90E29D9C998B0D09822C7D7A8B459B33D172EB40D81B7BD5C3BC0BA6CAD,
        0xEDB883209ABFB3B603B6E20C74B1D29AEAD547399DD277AF04DB261573DC1683,
        0xE3630B1294643B840D6D6A3E7A6A5AA8E40ECF0B9309FF9D0A00AE277D079EB1,
        0xF00F93448708A3D21E01F2686906C2FEF762575D806567CB196C36716E6B06E7,
        0xFED41B7689D32BE010DA7A5A67DD4ACCF9B9DF6F8EBEEFF917B7BE4360B08ED5,
        0xD6D6A3E8A1D1937E38D8C2C44FDFF252D1BB67F1A6BC57673FB506DD48B2364B,
        0xD80D2BDAAF0A1B4C36034AF641047A60DF60EFC3A867DF55316E8EEF4669BE79,
        0xCB61B38CBC66831A256FD2A05268E236CC0C7795BB0B4703220216B95505262F,
        0xC5BA3BBEB2BD0B282BB45A925CB36A04C2D7FFA7B5D0CF312CD99E8B5BDEAE1D,
        0x9B64C2B0EC63F226756AA39C026D930A9C0906A9EB0E363F7207678505005713,
        0x95BF4A82E2B87A147BB12BAE0CB61B3892D28E9BE5D5BE0D7CDCEFB70BDBDF21,
        0x86D3D2D4F1D4E24268DDB3F81FDA836E81BE16CDF6B9265B6FB077E118B74777,
        0x88085AE6FF0F6A7066063BCA11010B5C8F659EFFF862AE69616BFFD3166CCF45,
        0xA00AE278D70DD2EE4E0483543903B3C2A7672661D06016F74969474D3E6E77DB,
        0xAED16A4AD9D65ADC40DF0B6637D83BF0A9BCAE53DEBB9EC547B2CF7F30B5FFE9,
        0xBDBDF21CCABAC28A53B3933024B4A3A6BAD03605CDD7069354DE572923D967BF,
        0xB3667A2EC4614AB85D681B022A6F2B94B40BBE37C30C8EA15A05DF1B2D02EF8D), i)
  }

  function EightSteps(c: bv32): bv32 {
    BitStep(BitStep(BitStep(BitStep(BitStep(BitStep(BitStep(BitStep(c))))))))
  }

  lemma TableByEightSteps(i: bv8)
    ensures Table(i) == EightSteps(i as bv32)
  {
    var s, t := Table(i), EightSteps(i as bv32);
    if i & 1 == 0 {
    }
    if i & 2 == 0 {
    }
  }

  /** Every table entry is eight clocks of its index. */
  lemma TableEntry(i: bv8)
    ensures Table(i) == BitSteps(i as bv32, 8)
  {
    TableByEightSteps(i);
    IterateEight(BitStep, i as bv32);
  }

  lemma EightStepsHigh(c: bv32)
    ensures EightSteps(c & 0xFFFFFF00) == c >> 8
  {
  }

  lemma HighBytesShift(c: bv32)
    ensures BitSteps(c & 0xFFFFFF00, 8) == c >> 8
  {
    EightStepsHigh(c);
    IterateEight(BitStep, c & 0xFFFFFF00);
  }

  function Widen(b: bv8): bv32 {
    b as bv32
  }

  /** The index crc32Update looks up. */
  function Index(c: bv32, b: bv8): bv8 {
    ((c & 0xFF) as bv8) ^ b
  }

  lemma SplitLowByte(c: bv32, b: bv8)
    ensures c ^ (b as bv32) == Xor(c & 0xFFFFFF00, Widen(Index(c, b)))
  {
  }

  lemma LookUp(word: bv32, high: bv32, low: bv8, shifted: bv32)
    requires word == Xor(high, Widen(low))
    requires BitSteps(high, 8) == shifted
    ensures BitSteps(word, 8) == Xor(shifted, Table(low))
  {
    BitStepsLinear(high, Widen(low), 8);
    TableEntry(low);
  }

  lemma FeedByteByIndex(c: bv32, b: bv8)
    ensures FeedByte(c, b) == Xor(c >> 8, Table(Index(c, b)))
  {
    SplitLowByte(c, b);
    HighBytesShift(c);
    LookUp(c ^ (b as bv32), c & 0xFFFFFF00, Index(c, b), c >> 8);
  }

  /** One table look-up does the work of eight clocks. */
  lemma FeedByteByTable(c: bv32, b: bv8)
    ensures FeedByte(c, b) == (c >> 8) ^ Table(Index(c, b))
  {
    FeedByteByIndex(c, b);
    hide Table, FeedByte, Index;
  }

  // ----- windows of up to 32 bits ---------------------------------------------------------

  function Cons(b: Bit, w: bv32): bv32 {
    BitWord(b) | (w << 1)
  }

  /** Bits packed into a word, first bit lowest. */
  function Pack(bits: seq<Bit>): bv32 {
    if bits == [] then 0 else Cons(bits[0], Pack(bits[1..]))
  }

  /** The n low bits of a word. */
  function LowMask(n: nat): bv32 {
    if n == 0 then 0 else (LowMask(n - 1) << 1) | 1
  }

  predicate TopClear(w: bv32) {
    w & 0x80000000 == 0
  }

  lemma {:induction false} LowMaskGrows(n: nat)
    ensures LowMask(n) & !LowMask(n + 1) == 0
  {
    if n > 0 {
      LowMaskGrows(n - 1);
    }
  }

  lemma {:induction false} LowMaskTop(n: nat)
    requires n <= 31
    ensures TopClear(LowMask(n))
    decreases 31 - n
  {
    if n == 31 {
      assert LowMask(8) == 0xFF;
      assert LowMask(16) == 0xFFFF;
      assert LowMask(24) == 0xFFFFFF;
      assert LowMask(31) == 0x7FFFFFFF;
    } else {
      LowMaskTop(n + 1);
      LowMaskGrows(n);
    }
  }

  lemma {:induction false} PackFits(bits: seq<Bit>)
    ensures Pack(bits) & !LowMask(|bits|) == 0
  {
    if bits != [] {
      PackFits(bits[1..]);
    }
  }

  lemma PackTop(bits: seq<Bit>)
    requires |bits| <= 31
    ensures TopClear(Pack(bits))
  {
    PackFits(bits);
    LowMaskTop(|bits|);
  }

  lemma ConsInjective(a: Bit, p: bv32, b: Bit, q: bv32)
    requires TopClear(p) && TopClear(q)
    requires Cons(a, p) == Cons(b, q)
    ensures a == b && p == q
  {
  }

  lemma {:induction false} PackInjective(a: seq<Bit>, b: seq<Bit>)
    requires |a| == |b| <= 32
    requires Pack(a) == Pack(b)
    ensures a == b
  {
    hide Cons, LowMask, TopClear;
    if a != [] {
      PackTop(a[1..]);
      PackTop(b[1..]);
      ConsInjective(a[0], Pack(a[1..]), b[0], Pack(b[1..]));
      PackInjective(a[1..], b[1..]);
      assert a == [a[0]] + a[1..] && b == [b[0]] + b[1..];
    }
  }

  lemma JoinIsXor(c: bv32, w: bv32, p: bv32)
    requires w & 0xFFFFFFFE == 0
    ensures c ^ (w | (p << 1)) == Xor(c ^ w, p << 1)
  {
  }

  lemma StepOfShifted(p: bv32)
    requires p & 0x80000000 == 0
    ensures BitStep(p << 1) == p
  {
  }

  lemma FeedRaw(c: bv32, w: bv32, p: bv32)
    requires w & 0xFFFFFFFE == 0 && p & 0x80000000 == 0
    ensures BitStep(c ^ (w | (p << 1))) == Xor(BitStep(c ^ w), p)
  {
    hide *;
    JoinIsXor(c, w, p);
    StepOfShifted(p);
    BitStepLinear(c ^ w, p << 1);
  }

  lemma BitWordSmall(b: Bit)
    ensures BitWord(b) & 0xFFFFFFFE == 0
  {
  }

  lemma FeedWord(c: bv32, b: Bit, p: bv32)
    requires TopClear(p)
    ensures BitStep(c ^ (BitWord(b) | (p << 1))) == BitStep(c ^ BitWord(b)) ^ p
  {
    BitWordSmall(b);
    hide BitStep, BitWord;
    FeedRaw(c, BitWord(b), p);
  }

  lemma UnfoldCons(c: bv32, b: Bit, p: bv32)
    ensures BitStep(Xor(c, Cons(b, p))) == BitStep(c ^ (BitWord(b) | (p << 1)))
  {
    hide BitStep, BitWord;
  }

  lemma UnfoldFeedBit(c: bv32, b: Bit, p: bv32)
    ensures Xor(FeedBit(c, b), p) == BitStep(c ^ BitWord(b)) ^ p
  {
    hide BitStep, BitWord;
  }

  /** Bits waiting behind the one being fed are clocked in unchanged. */
  lemma FeedBehind(c: bv32, b: Bit, p: bv32)
    requires TopClear(p)
    ensures BitStep(Xor(c, Cons(b, p))) == Xor(FeedBit(c, b), p)
  {
    hide *;
    UnfoldCons(c, b, p);
    FeedWord(c, b, p);
    UnfoldFeedBit(c, b, p);
  }

  lemma XorZero(c: bv32)
    ensures Xor(c, 0) == c
  {
  }

  /** Feeding up to 32 bits is XORing them in at once and clocking the register that often. */
  lemma {:induction false} FeedWindow(c: bv32, bits: seq<Bit>)
    requires |bits| <= 32
    ensures FeedBits(c, bits) == BitSteps(Xor(c, Pack(bits)), |bits|)
    decreases |bits|
  {
    hide BitStep, Cons, TopClear, Xor, FeedBit, LowMask;
    if bits == [] {
      XorZero(c);
    } else {
      PackTop(bits[1..]);
      FeedBehind(c, bits[0], Pack(bits[1..]));
      FeedWindow(FeedBit(c, bits[0]), bits[1..]);
    }
  }

  // ----- bytes as windows ---------------------------------------------------------------------

  /** A byte in front of packed bits. */
  function ConsByte(b: bv8, w: bv32): bv32 {
    (b as bv32) | (w << 8)
  }

  lemma PackByteRaw(b: bv8, w: bv32)
    ensures Cons(BitAt(b, 0), Cons(BitAt(b, 1), Cons(BitAt(b, 2), Cons(BitAt(b, 3),
            Cons(BitAt(b, 4), Cons(BitAt(b, 5), Cons(BitAt(b, 6), Cons(BitAt(b, 7), w))))))))
            == ConsByte(b, w)
  {
  }

  lemma PackByte(b: bv8, rest: seq<Bit>)
    ensures Pack(BitsOf(b) + rest) == ConsByte(b, Pack(rest))
  {
    PackByteRaw(b, Pack(rest));
    hide Cons, ConsByte;
    var bits := BitsOf(b) + rest;
    assert bits[8..] == rest;
    PackEight(bits);
  }

  lemma PackEight(bits: seq<Bit>)
    requires |bits| >= 8
    ensures Pack(bits) == Cons(bits[0], Cons(bits[1], Cons(bits[2], Cons(bits[3],
                          Cons(bits[4], Cons(bits[5], Cons(bits[6], Cons(bits[7], Pack(bits[8..])))))))))
  {
    hide Cons;
    PackFour(bits);
    PackFour(bits[4..]);
    assert bits[4..][4..] == bits[8..];
  }

  lemma PackFour(bits: seq<Bit>)
    requires |bits| >= 4
    ensures Pack(bits) == Cons(bits[0], Cons(bits[1], Cons(bits[2], Cons(bits[3], Pack(bits[4..])))))
  {
    hide Cons;
    assert bits[1..][1..] == bits[2..];
    assert bits[2..][1..] == bits[3..];
    assert bits[3..][1..] == bits[4..];
    assert Pack(bits[3..]) == Cons(bits[3], Pack(bits[4..]));
    assert Pack(bits[2..]) == Cons(bits[2], Pack(bits[3..]));
    assert Pack(bits[1..]) == Cons(bits[1], Pack(bits[2..]));
  }

  lemma NoWaitingBits(b: bv8)
    ensures ConsByte(b, 0) == (b as bv32)
  {
  }

  /** The byte loop feeds the byte's bits. */
  lemma FeedByteIsBits(c: bv32, b: bv8)
    ensures FeedByte(c, b) == FeedBits(c, BitsOf(b))
  {
    hide BitStep, ConsByte, FeedBit;
    FeedWindow(c, BitsOf(b));
    PackByte(b, []);
    assert BitsOf(b) + [] == BitsOf(b);
    NoWaitingBits(b);
  }

  /** Feeding bytes is feeding their bits in order. */
  lemma {:induction false} DigestIsBits(c: bv32, data: seq<bv8>)
    ensures Digest(c, data) == FeedBits(c, MessageBits(data))
    decreases |data|
  {
    hide FeedByte, FeedBit, BitsOf;
    if data != [] {
      FeedByteIsBits(c, data[0]);
      DigestIsBits(FeedByte(c, data[0]), data[1..]);
      FoldAppend(FeedBit, c, BitsOf(data[0]), MessageBits(data[1..]));
    }
  }

  // ----- what the checksum detects --------------------------------------------------------------

  lemma BitStepsInjective(a: bv32, b: bv32, n: nat)
    requires BitSteps(a, n) == BitSteps(b, n)
    ensures a == b
  {
    BitStepInjective();
    hide BitStep;
    IterateInjective(BitStep, a, b, n);
  }

  lemma XorCancel(c: bv32, a: bv32, b: bv32)
    requires Xor(c, a) == Xor(c, b)
    ensures a == b
  {
    assert c ^ (c ^ a) == a;
    assert c ^ (c ^ b) == b;
  }

  /** From one register value, two different windows of at most 32 bits never meet again. */
  lemma WindowsDiffer(c: bv32, a: seq<Bit>, b: seq<Bit>)
    requires |a| == |b| <= 32
    requires FeedBits(c, a) == FeedBits(c, b)
    ensures a == b
  {
    FeedWindow(c, a);
    FeedWindow(c, b);
    hide *;
    BitStepsInjective(Xor(c, Pack(a)), Xor(c, Pack(b)), |a|);
    XorCancel(c, Pack(a), Pack(b));
    PackInjective(a, b);
  }

  lemma ByteFromBits(a: bv8, b: bv8)
    requires BitsOf(a) == BitsOf(b)
    ensures a == b
  {
    assert BitsOf(a) + [] == BitsOf(a) && BitsOf(b) + [] == BitsOf(b);
    PackByte(a, []);
    PackByte(b, []);
    NoWaitingBits(a);
    NoWaitingBits(b);
    hide *;
    assert a as bv32 == b as bv32;
  }

  lemma {:induction false} MessageFromBits(a: seq<bv8>, b: seq<bv8>)
    requires |a| == |b|
    requires MessageBits(a) == MessageBits(b)
    ensures a == b
  {
    if a != [] {
      assert MessageBits(a)[..8] == BitsOf(a[0]) && MessageBits(b)[..8] == BitsOf(b[0]);
      assert MessageBits(a)[8..] == MessageBits(a[1..]) && MessageBits(b)[8..] == MessageBits(b[1..]);
      hide BitsOf;
      ByteFromBits(a[0], b[0]);
      MessageFromBits(a[1..], b[1..]);
    }
  }

  /** Bit strings that differ only inside one window of 32 bits leave different registers. */
  lemma BitBurstDetected(c: bv32, a: seq<Bit>, b: seq<Bit>, lo: nat)
    requires |a| == |b| && a != b
    requires forall k :: 0 <= k < |a| && !(lo <= k < lo + 32) ==> a[k] == b[k]
    ensures FeedBits(c, a) != FeedBits(c, b)
  {
    var n := |a|;
    var from, to := if lo < n then lo else n, if lo + 32 < n then lo + 32 else n;
    var (a0, a1, a2) := (a[..from], a[from..to], a[to..]);
    var (b0, b1, b2) := (b[..from], b[from..to], b[to..]);
    assert a == (a0 + a1) + a2 && b == (b0 + b1) + b2;
    assert a0 == b0 && a2 == b2;
    FoldAppend(FeedBit, c, a0 + a1, a2);
    FoldAppend(FeedBit, c, b0 + b1, b2);
    FoldAppend(FeedBit, c, a0, a1);
    FoldAppend(FeedBit, c, b0, b1);
    hide FeedBit;
    if FeedBits(c, a) == FeedBits(c, b) {
      FeedBitsInjective(FeedBits(c, a0 + a1), FeedBits(c, b0 + b1), a2);
      WindowsDiffer(FeedBits(c, a0), a1, b1);
    }
  }

  /** Messages of one length that differ only inside 32 consecutive bits have different CRCs. */
  lemma BurstDetected(a: seq<bv8>, b: seq<bv8>, lo: nat)
    requires |a| == |b| && a != b
    requires forall k :: 0 <= k < 8 * |a| && !(lo <= k < lo + 32) ==> MessageBits(a)[k] == MessageBits(b)[k]
    ensures Crc(a) != Crc(b)
  {
    if MessageBits(a) == MessageBits(b) {
      MessageFromBits(a, b);
    }
    DigestIsBits(PRESET, a);
    DigestIsBits(PRESET, b);
    hide Digest, FeedBits;
    BitBurstDetected(PRESET, MessageBits(a), MessageBits(b), lo);
  }

  lemma {:induction false} BitsOfByte(data: seq<bv8>, k: nat)
    requires k < 8 * |data|
    ensures MessageBits(data)[k] == BitsOf(data[k / 8])[k % 8]
  {
    hide BitsOf;
    if k >= 8 {
      BitsOfByte(data[1..], k - 8);
    }
  }

  /** The byte-aligned case: damage confined to four consecutive bytes is always seen. */
  lemma FourByteBurstDetected(a: seq<bv8>, b: seq<bv8>, i: nat)
    requires |a| == |b| && a != b
    requires forall k :: 0 <= k < |a| && !(i <= k < i + 4) ==> a[k] == b[k]
    ensures Crc(a) != Crc(b)
  {
    forall k | 0 <= k < 8 * |a| && !(8 * i <= k < 8 * i + 32)
      ensures MessageBits(a)[k] == MessageBits(b)[k]
    {
      hide BitsOf;
      BitsOfByte(a, k);
      BitsOfByte(b, k);
    }
    BurstDetected(a, b, 8 * i);
  }

  lemma PackWord(w: bv32)
    ensures Pack(MessageBits(Store32LE(w))) == w
  {
    var s := Store32LE(w);
    assert s[1..][1..] == s[2..] && s[2..][1..] == s[3..] && s[3..][1..] == [];
    assert ConsByte(s[0], ConsByte(s[1], ConsByte(s[2], ConsByte(s[3], 0)))) == w by { StoredWord(w); }
    hide ConsByte, BitsOf, ByteOf, Store32LE;
    PackByte(s[0], MessageBits(s[1..]));
    PackByte(s[1], MessageBits(s[2..]));
    PackByte(s[2], MessageBits(s[3..]));
    PackByte(s[3], []);
  }

  lemma StoredWord(w: bv32)
    ensures ConsByte(ByteOf(w, 0), ConsByte(ByteOf(w, 1), ConsByte(ByteOf(w, 2), ConsByte(ByteOf(w, 3), 0)))) == w
  {
  }

  lemma BitStepsZero(n: nat)
    ensures BitSteps(0, n) == 0
  {
    if n > 0 {
      assert BitStep(0) == 0;
      BitStepsZero(n - 1);
    }
  }

  lemma XorSelf(a: bv32, b: bv32)
    ensures Xor(a, b) == 0 <==> a == b
  {
    if Xor(a, b) == 0 {
      assert a == (a ^ b) ^ b;
    }
  }

  /** A message followed by a little-endian word checks to zero exactly when the word is its CRC. */
  lemma ResidueZero(c: bv32, message: seq<bv8>, w: bv32)
    ensures Digest(c, message + Store32LE(w)) == 0 <==> w == Digest(c, message)
  {
    var d := Digest(c, message);
    FoldAppend(FeedByte, c, message, Store32LE(w));
    DigestIsBits(d, Store32LE(w));
    FeedWindow(d, MessageBits(Store32LE(w)));
    PackWord(w);
    assert Digest(c, message + Store32LE(w)) == BitSteps(Xor(d, w), 32);
    hide *;
    BitStepsZero(32);
    XorSelf(d, w);
    if BitSteps(Xor(d, w), 32) == 0 {
      BitStepsInjective(Xor(d, w), 0, 32);
    }
  }

  // ----- what the preset is for ---------------------------------------------------------------------

  lemma FeedByteInjective(c: bv32, d: bv32, b: bv8)
    requires FeedByte(c, b) == FeedByte(d, b)
    ensures c == d
  {
    hide FeedByte, BitSteps, Xor, Widen;
    FeedByteIs(c, b);
    FeedByteIs(d, b);
    BitStepsInjective(Xor(c, Widen(b)), Xor(d, Widen(b)), 8);
    XorCancelRight(c, d, Widen(b));
  }

  lemma FeedByteIs(c: bv32, b: bv8)
    ensures FeedByte(c, b) == BitSteps(Xor(c, Widen(b)), 8)
  {
    hide BitSteps;
  }

  lemma XorCancelRight(a: bv32, b: bv32, c: bv32)
    requires Xor(a, c) == Xor(b, c)
    ensures a == b
  {
  }

  lemma NoSuchEntry(i: bv8)
    ensures Table(i) != 0xFF000000
  {
    var t := Table(i);
    if i & 1 == 0 {
    }
    if i & 2 == 0 {
    }
  }

  lemma MovedTop(t: bv32)
    requires t != 0xFF000000
    ensures 0x00FFFFFF ^ t != 0xFFFFFFFF
  {
  }

  /** No byte leaves the preset where it is. */
  lemma PresetMoves(b: bv8)
    ensures FeedByte(PRESET, b) != PRESET
  {
    FeedByteByTable(PRESET, b);
    NoSuchEntry(Index(PRESET, b));
    hide Table, FeedByte, Index;
    assert PRESET >> 8 == 0x00FFFFFF;
    MovedTop(Table(Index(PRESET, b)));
  }

  /** A byte put in front of a message changes its CRC, a zero byte as well. */
  lemma PrependedByteDetected(b: bv8, message: seq<bv8>)
    ensures Crc([b] + message) != Crc(message)
  {
    hide FeedByte;
    FoldAppend(FeedByte, PRESET, [b], message);
    FoldOne(FeedByte, PRESET, b);
    PresetMoves(b);
    if Crc([b] + message) == Crc(message) {
      forall c, d, x | FeedByte(c, x) == FeedByte(d, x)
        ensures c == d
      {
        FeedByteInjective(c, d, x);
      }
      FoldInjective(FeedByte, FeedByte(PRESET, b), PRESET, message);
    }
  }

  /** The message by which CRC variants are told apart. */
  const DIGITS: seq<bv8> := [0x31, 0x32, 0x33, 0x34, 0x35, 0x36, 0x37, 0x38, 0x39]

  lemma FirstDigits()
    ensures Crc(DIGITS[..4]) == 0x641C1F5C
  {
    var m := DIGITS;
    DigestNothing(PRESET);
    NextKnown(m, 0, 0xFFFFFFFF, 0x31, 0x7C231048);
    NextKnown(m, 1, 0x7C231048, 0x32, 0xB0ACBB32);
    NextKnown(m, 2, 0xB0ACBB32, 0x33, 0x77B79C2D);
    NextKnown(m, 3, 0x77B79C2D, 0x34, 0x641C1F5C);
  }

  lemma LastDigits()
    ensures Crc(DIGITS) == 0x340BC6D9
  {
    var m := DIGITS;
    FirstDigits();
    NextKnown(m, 4, 0x641C1F5C, 0x35, 0x340AC5E3);
    NextKnown(m, 5, 0x340AC5E3, 0x36, 0xF68D2C9E);
    NextKnown(m, 6, 0xF68D2C9E, 0x37, 0xAFFC9660);
    NextKnown(m, 7, 0xAFFC9660, 0x38, 0x651F2550);
    NextKnown(m, 8, 0x651F2550, 0x39, 0x340BC6D9);
    assert m[..9] == m;
  }

  /** The CRC of the empty message and of the nine digits. */
  lemma KnownCrcs()
    ensures Crc([]) == 0xFFFFFFFF
    ensures Crc([0x31, 0x32, 0x33, 0x34, 0x35, 0x36, 0x37, 0x38, 0x39]) == 0x340BC6D9
  {
    DigestNothing(PRESET);
    LastDigits();
  }

  lemma NextKnown(m: seq<bv8>, i: nat, c: bv32, b: bv8, d: bv32)
    requires i < |m| && m[i] == b && Crc(m[..i]) == c && (c >> 8) ^ Table(Index(c, b)) == d
    ensures Crc(m[..i + 1]) == d
  {
    DigestSnoc(PRESET, m, i);
    FeedByteByTable(c, b);
    hide Table, FeedByte, Index;
  }

  // ----- the code -----------------------------------------------------------------------------------

  lemma ClockUnfold(c: bv32)
    ensures BitStep(c) == if c & 1 == 1 then (c >> 1) ^ 0xEDB88320 else c >> 1
  {
  }

  /** crc32Calc: one bit at a time. */
  method Crc32Calc(data: seq<bv8>) returns (crc: bv32)
    ensures crc == Crc(data)
  {
    hide BitStep;
    crc := 0xFFFFFFFF;
    for i := 0 to |data|
      invariant crc == Digest(PRESET, data[..i])
    {
      ghost var before := crc;
      crc := crc ^ (data[i] as bv32);
      ghost var start := crc;
      for bit := 0 to 8
        invariant crc == BitSteps(start, bit)
      {
        IterateAdd(BitStep, start, bit, 1);
        ClockUnfold(crc);
        if crc & 1 == 1 {
          crc := (crc >> 1) ^ 0xEDB88320;
        } else {
          crc := crc >> 1;
        }
      }
      DigestSnoc(PRESET, data, i);
    }
    assert data[..|data|] == data;
  }

  /** Crc32Context with crc32Init, crc32Update and crc32Final. */
  class Crc32Context {
    var digest: bv32

    constructor ()
      ensures digest == PRESET
    {
      digest := 0xFFFFFFFF;
    }

    method Update(data: seq<bv8>)
      modifies this
      ensures digest == Digest(old(digest), data)
    {
      hide Table, FeedByte, Digest, Index;
      var crc := digest;
      DigestNothing(crc);
      assert data[..0] == [];
      for i := 0 to |data|
        invariant crc == Digest(old(digest), data[..i])
        invariant digest == old(digest)
      {
        FeedByteByTable(crc, data[i]);
        crc := (crc >> 8) ^ Table(Index(crc, data[i]));
        DigestSnoc(old(digest), data, i);
      }
      assert data[..|data|] == data;
      digest := crc;
    }

    method Final(out: array<bv8>)
      requires out.Length >= 4
      modifies out
      ensures out[..4] == Store32LE(digest)
      ensures out[4..] == old(out[4..])
    {
      out[0], out[1], out[2], out[3] := ByteOf(digest, 0), ByteOf(digest, 1), ByteOf(digest, 2), ByteOf(digest, 3);
    }
  }

  /** crc32Init, any number of crc32Update calls, and crc32Final. */
  method Crc32Stream(chunks: seq<seq<bv8>>, out: array<bv8>) returns (digest: bv32)
    requires out.Length >= 4
    modifies out
    ensures digest == Crc(Flatten(chunks))
    ensures out[..4] == Store32LE(Crc(Flatten(chunks))) && out[4..] == old(out[4..])
  {
    hide FeedByte, Store32LE, Fold;
    var context := new Crc32Context();
    assert chunks[..0] == [];
    for i := 0 to |chunks|
      invariant fresh(context) && out[..] == old(out[..])
      invariant context.digest == FoldChunks(FeedByte, PRESET, chunks[..i])
    {
      FoldChunksSnoc(FeedByte, PRESET, chunks, i);
      context.Update(chunks[i]);
    }
    assert chunks[..|chunks|] == chunks;
    StreamedCrc(chunks);
    context.Final(out);
    digest := context.digest;
  }

  /** crc32Compute */
  method Crc32Compute(data: seq<bv8>, out: array<bv8>)
    requires out.Length >= 4
    modifies out
    ensures out[..4] == Store32LE(Crc(data)) && out[4..] == old(out[4..])
  {
    hide FeedByte, Store32LE, Fold;
    var context := new Crc32Context();
    context.Update(data);
    context.Final(out);
  }
}
