/** Published values of RFC 8439, which fix what the code and its specification share. */
module ChachaVectors {
  import opened Words
  import opened Folds
  import opened HexBlocks
  import opened ChachaSpec
  import opened ChachaPoly

  // ----- which lengths are accepted ----------------------------------------------------------------------

  /** Keys of 128 or 256 bits, nonces of 64, 96 or 128 bits. */
  lemma ChachaLengths(keyLen: nat, nonceLen: nat)
    ensures Accepts(keyLen, nonceLen) <==> 8 * keyLen in {128, 256} && 8 * nonceLen in {64, 96, 128}
  {
  }

  // ----- the quarter round ------------------------------------------------------------------------------

  datatype Four = Four(a: bv32, b: bv32, c: bv32, d: bv32)

  /** Half a quarter round on its four words. */
  function Half(q: Four, r: bv5, s: bv5): Four {
    var a := AddW(q.a, q.b);
    var d := Rol32(XorW(q.d, a), r);
    var c := AddW(q.c, d);
    Four(a, Rol32(XorW(q.b, c), s), c, d)
  }

  function Quarter(q: Four): Four {
    Half(Half(q, 16, 12), 8, 7)
  }

  function At(w: Words16, a: nat, b: nat, c: nat, d: nat): Four
    requires a < 16 && b < 16 && c < 16 && d < 16
  {
    Four(w[a], w[b], w[c], w[d])
  }

  predicate Distinct(a: nat, b: nat, c: nat, d: nat) {
    a < 16 && b < 16 && c < 16 && d < 16 && a != b && a != c && a != d && b != c && b != d && c != d
  }

  lemma HalfAt(w: Words16, a: nat, b: nat, c: nat, d: nat, r: bv5, s: bv5)
    requires Distinct(a, b, c, d)
    ensures At(HalfRound(w, a, b, c, d, r, s), a, b, c, d) == Half(At(w, a, b, c, d), r, s)
    ensures forall i :: 0 <= i < 16 && i != a && i != b && i != c && i != d ==> HalfRound(w, a, b, c, d, r, s)[i] == w[i]
  {
    hide Rol32, AddW, XorW;
  }

  /** A quarter round works on its four words and leaves the others. */
  lemma QuarterAt(w: Words16, a: nat, b: nat, c: nat, d: nat)
    requires Distinct(a, b, c, d)
    ensures At(QuarterRound(w, a, b, c, d), a, b, c, d) == Quarter(At(w, a, b, c, d))
    ensures forall i :: 0 <= i < 16 && i != a && i != b && i != c && i != d ==> QuarterRound(w, a, b, c, d)[i] == w[i]
  {
    hide HalfRound, Half, At;
    HalfAt(w, a, b, c, d, 16, 12);
    HalfAt(HalfRound(w, a, b, c, d, 16, 12), a, b, c, d, 8, 7);
  }

  /** The example of section 2.1.1. */
  lemma Section211()
    ensures Quarter(Four(0x11111111, 0x01020304, 0x9B8D6F43, 0x01234567))
         == Four(0xEA2A92F4, 0xCB1CF8CE, 0x4581472E, 0x5881C4BB)
  {
  }

  // ----- a round ------------------------------------------------------------------------------------------

  lemma QuarterLine(w: Words16, a: nat, b: nat, c: nat, d: nat)
    requires Distinct(a, b, c, d)
    ensures At(QuarterRound(w, a, b, c, d), a, b, c, d) == Quarter(At(w, a, b, c, d))
  {
    hide At, Quarter, QuarterRound;
    QuarterAt(w, a, b, c, d);
  }

  /** A line of four other words is kept. */
  lemma OtherLine(w: Words16, a: nat, b: nat, c: nat, d: nat, e: nat, f: nat, g: nat, h: nat)
    requires Distinct(a, b, c, d) && Distinct(e, f, g, h)
    requires e != a && e != b && e != c && e != d && f != a && f != b && f != c && f != d
    requires g != a && g != b && g != c && g != d && h != a && h != b && h != c && h != d
    ensures At(QuarterRound(w, a, b, c, d), e, f, g, h) == At(w, e, f, g, h)
  {
    hide Quarter, QuarterRound;
    QuarterAt(w, a, b, c, d);
  }

  lemma ColumnIs(w: Words16, v: Words16)
    requires Quarter(At(w, 0, 4, 8, 12)) == At(v, 0, 4, 8, 12)
    requires Quarter(At(w, 1, 5, 9, 13)) == At(v, 1, 5, 9, 13)
    requires Quarter(At(w, 2, 6, 10, 14)) == At(v, 2, 6, 10, 14)
    requires Quarter(At(w, 3, 7, 11, 15)) == At(v, 3, 7, 11, 15)
    ensures ColumnRound(w) == v
  {
    hide QuarterRound, Quarter, At;
    var w1 := QuarterRound(w, 0, 4, 8, 12);
    QuarterLine(w, 0, 4, 8, 12);
    OtherLine(w, 0, 4, 8, 12, 1, 5, 9, 13);
    OtherLine(w, 0, 4, 8, 12, 2, 6, 10, 14);
    OtherLine(w, 0, 4, 8, 12, 3, 7, 11, 15);
    var w2 := QuarterRound(w1, 1, 5, 9, 13);
    QuarterLine(w1, 1, 5, 9, 13);
    OtherLine(w1, 1, 5, 9, 13, 0, 4, 8, 12);
    OtherLine(w1, 1, 5, 9, 13, 2, 6, 10, 14);
    OtherLine(w1, 1, 5, 9, 13, 3, 7, 11, 15);
    var w3 := QuarterRound(w2, 2, 6, 10, 14);
    QuarterLine(w2, 2, 6, 10, 14);
    OtherLine(w2, 2, 6, 10, 14, 0, 4, 8, 12);
    OtherLine(w2, 2, 6, 10, 14, 1, 5, 9, 13);
    OtherLine(w2, 2, 6, 10, 14, 3, 7, 11, 15);
    var w4 := QuarterRound(w3, 3, 7, 11, 15);
    QuarterLine(w3, 3, 7, 11, 15);
    OtherLine(w3, 3, 7, 11, 15, 0, 4, 8, 12);
    OtherLine(w3, 3, 7, 11, 15, 1, 5, 9, 13);
    OtherLine(w3, 3, 7, 11, 15, 2, 6, 10, 14);
    SameFour(w4, v, 0, 4, 8, 12);
    SameFour(w4, v, 1, 5, 9, 13);
    SameFour(w4, v, 2, 6, 10, 14);
    SameFour(w4, v, 3, 7, 11, 15);
    SameWords(w4, v);
  }

  lemma DiagonalIs(w: Words16, v: Words16)
    requires Quarter(At(w, 0, 5, 10, 15)) == At(v, 0, 5, 10, 15)
    requires Quarter(At(w, 1, 6, 11, 12)) == At(v, 1, 6, 11, 12)
    requires Quarter(At(w, 2, 7, 8, 13)) == At(v, 2, 7, 8, 13)
    requires Quarter(At(w, 3, 4, 9, 14)) == At(v, 3, 4, 9, 14)
    ensures DiagonalRound(w) == v
  {
    hide QuarterRound, Quarter, At;
    var w1 := QuarterRound(w, 0, 5, 10, 15);
    QuarterLine(w, 0, 5, 10, 15);
    OtherLine(w, 0, 5, 10, 15, 1, 6, 11, 12);
    OtherLine(w, 0, 5, 10, 15, 2, 7, 8, 13);
    OtherLine(w, 0, 5, 10, 15, 3, 4, 9, 14);
    var w2 := QuarterRound(w1, 1, 6, 11, 12);
    QuarterLine(w1, 1, 6, 11, 12);
    OtherLine(w1, 1, 6, 11, 12, 0, 5, 10, 15);
    OtherLine(w1, 1, 6, 11, 12, 2, 7, 8, 13);
    OtherLine(w1, 1, 6, 11, 12, 3, 4, 9, 14);
    var w3 := QuarterRound(w2, 2, 7, 8, 13);
    QuarterLine(w2, 2, 7, 8, 13);
    OtherLine(w2, 2, 7, 8, 13, 0, 5, 10, 15);
    OtherLine(w2, 2, 7, 8, 13, 1, 6, 11, 12);
    OtherLine(w2, 2, 7, 8, 13, 3, 4, 9, 14);
    var w4 := QuarterRound(w3, 3, 4, 9, 14);
    QuarterLine(w3, 3, 4, 9, 14);
    OtherLine(w3, 3, 4, 9, 14, 0, 5, 10, 15);
    OtherLine(w3, 3, 4, 9, 14, 1, 6, 11, 12);
    OtherLine(w3, 3, 4, 9, 14, 2, 7, 8, 13);
    SameFour(w4, v, 0, 5, 10, 15);
    SameFour(w4, v, 1, 6, 11, 12);
    SameFour(w4, v, 2, 7, 8, 13);
    SameFour(w4, v, 3, 4, 9, 14);
    SameWords(w4, v);
  }

  lemma SameWords(w: Words16, v: Words16)
    requires w[0] == v[0] && w[1] == v[1] && w[2] == v[2] && w[3] == v[3]
    requires w[4] == v[4] && w[5] == v[5] && w[6] == v[6] && w[7] == v[7]
    requires w[8] == v[8] && w[9] == v[9] && w[10] == v[10] && w[11] == v[11]
    requires w[12] == v[12] && w[13] == v[13] && w[14] == v[14] && w[15] == v[15]
    ensures w == v
  {
  }

  lemma SameFour(w: Words16, v: Words16, a: nat, b: nat, c: nat, d: nat)
    requires a < 16 && b < 16 && c < 16 && d < 16 && At(w, a, b, c, d) == At(v, a, b, c, d)
    ensures w[a] == v[a] && w[b] == v[b] && w[c] == v[c] && w[d] == v[d]
  {
  }

  /** The example of section 2.6.2: a 32-byte key 80 81 ... 9f and a 12-byte nonce 00 00 00 00 00 01 ... 07. */
  function ExampleKey(): seq<bv8> {
    HexBytes(0x808182838485868788898A8B8C8D8E8F) + HexBytes(0x909192939495969798999A9B9C9D9E9F)
  }

  function ExampleNonce(): seq<bv8> {
    HexBytes(0x00000000000102030405060700000000)[..12]
  }

  /** The constants spell out "expand 16-byte k" and "expand 32-byte k". */
  lemma Constants(key: seq<bv8>)
    requires |key| in {16, 32}
    ensures Serialize(KeyPart(key)[..4]) ==
      HexBytes(if |key| == 16 then 0x657870616E642031362D62797465206B else 0x657870616E642033322D62797465206B)
  {
    hide WordsOf;
    var w := KeyPart(key);
    FourWords(w[..4]);
  }

  lemma SerializeCons(w: seq<bv32>)
    requires w != []
    ensures Serialize(w) == Store32LE(w[0]) + Serialize(w[1..])
  {
  }

  lemma FourWords(w: seq<bv32>)
    requires |w| == 4
    ensures Serialize(w) == Store32LE(w[0]) + Store32LE(w[1]) + Store32LE(w[2]) + Store32LE(w[3])
  {
    assert Serialize([]) == [];
    hide Store32LE, Serialize;
    var (x, y, z) := (w[1..], w[2..], w[3..]);
    assert x[1..] == y && y[1..] == z && z[1..] == [];
    SerializeCons(w);
    SerializeCons(x);
    SerializeCons(y);
    SerializeCons(z);
    Reassociate(Store32LE(w[0]), Store32LE(w[1]), Store32LE(w[2]), Store32LE(w[3]));
  }

  lemma Reassociate(a: seq<bv8>, b: seq<bv8>, c: seq<bv8>, d: seq<bv8>)
    ensures a + (b + (c + (d + []))) == a + b + c + d
  {
  }

  lemma WordsOfTwo(a: seq<bv8>, b: seq<bv8>)
    requires |a| == |b| == 16
    ensures WordsOf(a + b) == WordsOf(a) + WordsOf(b)
  {
    hide Load32LE;
  }

  function WordFrom(x: bv128, shift: bv8): bv32
    requires 24 <= shift < 128
  {
    Load32LE(ByteFrom(x, shift), ByteFrom(x, shift - 8), ByteFrom(x, shift - 16), ByteFrom(x, shift - 24))
  }

  lemma WordsOfHex(x: bv128)
    ensures WordsOf(HexBytes(x)) == [WordFrom(x, 120), WordFrom(x, 88), WordFrom(x, 56), WordFrom(x, 24)]
  {
    hide Load32LE, ByteFrom;
  }

  lemma KeyWords()
    ensures WordsOf(ExampleKey()) ==
      [0x83828180, 0x87868584, 0x8B8A8988, 0x8F8E8D8C,
       0x93929190, 0x97969594, 0x9B9A9998, 0x9F9E9D9C]
  {
    hide WordsOf, HexBytes;
    WordsOfTwo(HexBytes(0x808182838485868788898A8B8C8D8E8F), HexBytes(0x909192939495969798999A9B9C9D9E9F));
    WordsOfHex(0x808182838485868788898A8B8C8D8E8F);
    WordsOfHex(0x909192939495969798999A9B9C9D9E9F);
  }

  lemma NonceWords()
    ensures WordsOf(ExampleNonce()) == [0x00000000, 0x03020100, 0x07060504]
  {
  }

  lemma ExampleState()
    ensures InitialState(ExampleKey(), ExampleNonce()) ==
      [0x61707865, 0x3320646E, 0x79622D32, 0x6B206574, 0x83828180, 0x87868584, 0x8B8A8988, 0x8F8E8D8C,
       0x93929190, 0x97969594, 0x9B9A9998, 0x9F9E9D9C, 0x00000000, 0x00000000, 0x03020100, 0x07060504]
  {
    KeyWords();
    NonceWords();
    hide WordsOf, ExampleKey, ExampleNonce;
  }

  lemma Quarters1()
    ensures Quarter(Four(0x61707865, 0x83828180, 0x93929190, 0x00000000))
          == Four(0x94631AD4, 0x835E005D, 0x14769CEF, 0x86FE266D)
    ensures Quarter(Four(0x3320646E, 0x87868584, 0x97969594, 0x00000000))
          == Four(0xB802CA52, 0x50D275C6, 0x71FA448B, 0xF070F451)
    ensures Quarter(Four(0x79622D32, 0x8B8A8988, 0x9B9A9998, 0x03020100))
          == Four(0xE76DA447, 0x3C53ADE4, 0x2AF84AD6, 0xD7A3A950)
    ensures Quarter(Four(0x6B206574, 0x8F8E8D8C, 0x9F9E9D9C, 0x07060504))
          == Four(0xCC1B74A2, 0x20126E32, 0xB52CA57E, 0x1F890A3A)
  {
  }

  lemma Round1()
    ensures ColumnRound([0x61707865, 0x3320646E, 0x79622D32, 0x6B206574, 0x83828180, 0x87868584, 0x8B8A8988, 0x8F8E8D8C,
            0x93929190, 0x97969594, 0x9B9A9998, 0x9F9E9D9C, 0x00000000, 0x00000000, 0x03020100, 0x07060504])
      == [0x94631AD4, 0xB802CA52, 0xE76DA447, 0xCC1B74A2, 0x835E005D, 0x50D275C6, 0x3C53ADE4, 0x20126E32,
          0x14769CEF, 0x71FA448B, 0x2AF84AD6, 0xB52CA57E, 0x86FE266D, 0xF070F451, 0xD7A3A950, 0x1F890A3A]
  {
    hide ColumnRound, DiagonalRound, Quarter;
    Quarters1();
    ColumnIs([0x61707865, 0x3320646E, 0x79622D32, 0x6B206574, 0x83828180, 0x87868584, 0x8B8A8988, 0x8F8E8D8C,
          0x93929190, 0x97969594, 0x9B9A9998, 0x9F9E9D9C, 0x00000000, 0x00000000, 0x03020100, 0x07060504],
      [0x94631AD4, 0xB802CA52, 0xE76DA447, 0xCC1B74A2, 0x835E005D, 0x50D275C6, 0x3C53ADE4, 0x20126E32,
       0x14769CEF, 0x71FA448B, 0x2AF84AD6, 0xB52CA57E, 0x86FE266D, 0xF070F451, 0xD7A3A950, 0x1F890A3A]);
  }

  lemma Quarters2()
    ensures Quarter(Four(0x94631AD4, 0x50D275C6, 0x2AF84AD6, 0x1F890A3A))
          == Four(0x983AD9EE, 0x5CEF6076, 0x5FBC9794, 0x9A235202)
    ensures Quarter(Four(0xB802CA52, 0x3C53ADE4, 0xB52CA57E, 0x86FE266D))
          == Four(0xAFB29B33, 0x16CB7523, 0xFD71B417, 0xE9E99BF1)
    ensures Quarter(Four(0xE76DA447, 0x20126E32, 0x14769CEF, 0xF070F451))
          == Four(0xE72EF021, 0x84DC246F, 0x00A765E0, 0x0607D101)
    ensures Quarter(Four(0xCC1B74A2, 0x835E005D, 0x71FA448B, 0xD7A3A950))
          == Four(0xCD4D01CE, 0xC8BEDD27, 0x3242F175, 0xE2991410)
  {
  }

  lemma Round2()
    ensures DiagonalRound([0x94631AD4, 0xB802CA52, 0xE76DA447, 0xCC1B74A2, 0x835E005D, 0x50D275C6, 0x3C53ADE4, 0x20126E32,
            0x14769CEF, 0x71FA448B, 0x2AF84AD6, 0xB52CA57E, 0x86FE266D, 0xF070F451, 0xD7A3A950, 0x1F890A3A])
      == [0x983AD9EE, 0xAFB29B33, 0xE72EF021, 0xCD4D01CE, 0xC8BEDD27, 0x5CEF6076, 0x16CB7523, 0x84DC246F,
          0x00A765E0, 0x3242F175, 0x5FBC9794, 0xFD71B417, 0xE9E99BF1, 0x0607D101, 0xE2991410, 0x9A235202]
  {
    hide ColumnRound, DiagonalRound, Quarter;
    Quarters2();
    DiagonalIs([0x94631AD4, 0xB802CA52, 0xE76DA447, 0xCC1B74A2, 0x835E005D, 0x50D275C6, 0x3C53ADE4, 0x20126E32,
          0x14769CEF, 0x71FA448B, 0x2AF84AD6, 0xB52CA57E, 0x86FE266D, 0xF070F451, 0xD7A3A950, 0x1F890A3A],
      [0x983AD9EE, 0xAFB29B33, 0xE72EF021, 0xCD4D01CE, 0xC8BEDD27, 0x5CEF6076, 0x16CB7523, 0x84DC246F,
       0x00A765E0, 0x3242F175, 0x5FBC9794, 0xFD71B417, 0xE9E99BF1, 0x0607D101, 0xE2991410, 0x9A235202]);
  }

  lemma Quarters3()
    ensures Quarter(Four(0x983AD9EE, 0xC8BEDD27, 0x00A765E0, 0xE9E99BF1))
          == Four(0xB4373568, 0x3A8CEDA9, 0x01486788, 0xD3BC7898)
    ensures Quarter(Four(0xAFB29B33, 0x5CEF6076, 0x3242F175, 0x0607D101))
          == Four(0x6668CBA9, 0x356DB3A2, 0x1DAC0B67, 0xC0C10F4C)
    ensures Quarter(Four(0xE72EF021, 0x16CB7523, 0x5FBC9794, 0xE2991410))
          == Four(0xBA37B1C1, 0x410ADFC4, 0x34BF59C2, 0x63AEA2CB)
    ensures Quarter(Four(0xCD4D01CE, 0x84DC246F, 0xFD71B417, 0x9A235202))
          == Four(0x27AE1593, 0x05FD116B, 0x038F1574, 0x91DD9953)
  {
  }

  lemma Round3()
    ensures ColumnRound([0x983AD9EE, 0xAFB29B33, 0xE72EF021, 0xCD4D01CE, 0xC8BEDD27, 0x5CEF6076, 0x16CB7523, 0x84DC246F,
            0x00A765E0, 0x3242F175, 0x5FBC9794, 0xFD71B417, 0xE9E99BF1, 0x0607D101, 0xE2991410, 0x9A235202])
      == [0xB4373568, 0x6668CBA9, 0xBA37B1C1, 0x27AE1593, 0x3A8CEDA9, 0x356DB3A2, 0x410ADFC4, 0x05FD116B,
          0x01486788, 0x1DAC0B67, 0x34BF59C2, 0x038F1574, 0xD3BC7898, 0xC0C10F4C, 0x63AEA2CB, 0x91DD9953]
  {
    hide ColumnRound, DiagonalRound, Quarter;
    Quarters3();
    ColumnIs([0x983AD9EE, 0xAFB29B33, 0xE72EF021, 0xCD4D01CE, 0xC8BEDD27, 0x5CEF6076, 0x16CB7523, 0x84DC246F,
          0x00A765E0, 0x3242F175, 0x5FBC9794, 0xFD71B417, 0xE9E99BF1, 0x0607D101, 0xE2991410, 0x9A235202],
      [0xB4373568, 0x6668CBA9, 0xBA37B1C1, 0x27AE1593, 0x3A8CEDA9, 0x356DB3A2, 0x410ADFC4, 0x05FD116B,
       0x01486788, 0x1DAC0B67, 0x34BF59C2, 0x038F1574, 0xD3BC7898, 0xC0C10F4C, 0x63AEA2CB, 0x91DD9953]);
  }

  lemma Quarters4()
    ensures Quarter(Four(0xB4373568, 0x356DB3A2, 0x34BF59C2, 0x91DD9953))
          == Four(0x3FBE8211, 0x8551C6ED, 0x8D133A8A, 0xE7FA684F)
    ensures Quarter(Four(0x6668CBA9, 0x410ADFC4, 0x038F1574, 0xD3BC7898))
          == Four(0x8CCC24D5, 0xC66EE57A, 0x10D4A4A2, 0x39501A5F)
    ensures Quarter(Four(0xBA37B1C1, 0x05FD116B, 0x01486788, 0xC0C10F4C))
          == Four(0x17C62FB1, 0x2360EE92, 0x73D7AD58, 0xA62F44DB)
    ensures Quarter(Four(0x27AE1593, 0x3A8CEDA9, 0x1DAC0B67, 0x63AEA2CB))
          == Four(0x60505B8E, 0x743877CC, 0x66FD28BD, 0xA75A1BC1)
  {
  }

  lemma Round4()
    ensures DiagonalRound([0xB4373568, 0x6668CBA9, 0xBA37B1C1, 0x27AE1593, 0x3A8CEDA9, 0x356DB3A2, 0x410ADFC4, 0x05FD116B,
            0x01486788, 0x1DAC0B67, 0x34BF59C2, 0x038F1574, 0xD3BC7898, 0xC0C10F4C, 0x63AEA2CB, 0x91DD9953])
      == [0x3FBE8211, 0x8CCC24D5, 0x17C62FB1, 0x60505B8E, 0x743877CC, 0x8551C6ED, 0xC66EE57A, 0x2360EE92,
          0x73D7AD58, 0x66FD28BD, 0x8D133A8A, 0x10D4A4A2, 0x39501A5F, 0xA62F44DB, 0xA75A1BC1, 0xE7FA684F]
  {
    hide ColumnRound, DiagonalRound, Quarter;
    Quarters4();
    DiagonalIs([0xB4373568, 0x6668CBA9, 0xBA37B1C1, 0x27AE1593, 0x3A8CEDA9, 0x356DB3A2, 0x410ADFC4, 0x05FD116B,
          0x01486788, 0x1DAC0B67, 0x34BF59C2, 0x038F1574, 0xD3BC7898, 0xC0C10F4C, 0x63AEA2CB, 0x91DD9953],
      [0x3FBE8211, 0x8CCC24D5, 0x17C62FB1, 0x60505B8E, 0x743877CC, 0x8551C6ED, 0xC66EE57A, 0x2360EE92,
       0x73D7AD58, 0x66FD28BD, 0x8D133A8A, 0x10D4A4A2, 0x39501A5F, 0xA62F44DB, 0xA75A1BC1, 0xE7FA684F]);
  }

  lemma Quarters5()
    ensures Quarter(Four(0x3FBE8211, 0x743877CC, 0x73D7AD58, 0x39501A5F))
          == Four(0xD7FA1C13, 0xF9E78275, 0xCFF0ED32, 0x7896B534)
    ensures Quarter(Four(0x8CCC24D5, 0x8551C6ED, 0x66FD28BD, 0xA62F44DB))
          == Four(0x83BE14F6, 0x0BC417E6, 0xBDB7A11B, 0xA7A0C42C)
    ensures Quarter(Four(0x17C62FB1, 0xC66EE57A, 0x8D133A8A, 0xA75A1BC1))
          == Four(0x139D4B04, 0x2C156793, 0x13301F16, 0x77326B1D)
    ensures Quarter(Four(0x60505B8E, 0x2360EE92, 0x10D4A4A2, 0xE7FA684F))
          == Four(0xD2193B22, 0xE241EFF3, 0xA9A372DD, 0x765F69F0)
  {
  }

  lemma Round5()
    ensures ColumnRound([0x3FBE8211, 0x8CCC24D5, 0x17C62FB1, 0x60505B8E, 0x743877CC, 0x8551C6ED, 0xC66EE57A, 0x2360EE92,
            0x73D7AD58, 0x66FD28BD, 0x8D133A8A, 0x10D4A4A2, 0x39501A5F, 0xA62F44DB, 0xA75A1BC1, 0xE7FA684F])
      == [0xD7FA1C13, 0x83BE14F6, 0x139D4B04, 0xD2193B22, 0xF9E78275, 0x0BC417E6, 0x2C156793, 0xE241EFF3,
          0xCFF0ED32, 0xBDB7A11B, 0x13301F16, 0xA9A372DD, 0x7896B534, 0xA7A0C42C, 0x77326B1D, 0x765F69F0]
  {
    hide ColumnRound, DiagonalRound, Quarter;
    Quarters5();
    ColumnIs([0x3FBE8211, 0x8CCC24D5, 0x17C62FB1, 0x60505B8E, 0x743877CC, 0x8551C6ED, 0xC66EE57A, 0x2360EE92,
          0x73D7AD58, 0x66FD28BD, 0x8D133A8A, 0x10D4A4A2, 0x39501A5F, 0xA62F44DB, 0xA75A1BC1, 0xE7FA684F],
      [0xD7FA1C13, 0x83BE14F6, 0x139D4B04, 0xD2193B22, 0xF9E78275, 0x0BC417E6, 0x2C156793, 0xE241EFF3,
       0xCFF0ED32, 0xBDB7A11B, 0x13301F16, 0xA9A372DD, 0x7896B534, 0xA7A0C42C, 0x77326B1D, 0x765F69F0]);
  }

  lemma Quarters6()
    ensures Quarter(Four(0xD7FA1C13, 0x0BC417E6, 0x13301F16, 0x765F69F0))
          == Four(0xBDEF4A68, 0x141458C7, 0x54193EDE, 0xE6DF89E7)
    ensures Quarter(Four(0x83BE14F6, 0x2C156793, 0xA9A372DD, 0x7896B534))
          == Four(0xF2AE9280, 0x3E0D5562, 0x86A70F5D, 0x1345C53B)
    ensures Quarter(Four(0x139D4B04, 0xE241EFF3, 0xCFF0ED32, 0xA7A0C42C))
          == Four(0xD2E35DBF, 0xEFEE8AED, 0x06DBFFDD, 0x380FC02C)
    ensures Quarter(Four(0xD2193B22, 0xF9E78275, 0xBDB7A11B, 0x77326B1D))
          == Four(0x29E44471, 0x51134B2F, 0x0341A04C, 0x6EFF43FF)
  {
  }

  lemma Round6()
    ensures DiagonalRound([0xD7FA1C13, 0x83BE14F6, 0x139D4B04, 0xD2193B22, 0xF9E78275, 0x0BC417E6, 0x2C156793, 0xE241EFF3,
            0xCFF0ED32, 0xBDB7A11B, 0x13301F16, 0xA9A372DD, 0x7896B534, 0xA7A0C42C, 0x77326B1D, 0x765F69F0])
      == [0xBDEF4A68, 0xF2AE9280, 0xD2E35DBF, 0x29E44471, 0x51134B2F, 0x141458C7, 0x3E0D5562, 0xEFEE8AED,
          0x06DBFFDD, 0x0341A04C, 0x54193EDE, 0x86A70F5D, 0x1345C53B, 0x380FC02C, 0x6EFF43FF, 0xE6DF89E7]
  {
    hide ColumnRound, DiagonalRound, Quarter;
    Quarters6();
    DiagonalIs([0xD7FA1C13, 0x83BE14F6, 0x139D4B04, 0xD2193B22, 0xF9E78275, 0x0BC417E6, 0x2C156793, 0xE241EFF3,
          0xCFF0ED32, 0xBDB7A11B, 0x13301F16, 0xA9A372DD, 0x7896B534, 0xA7A0C42C, 0x77326B1D, 0x765F69F0],
      [0xBDEF4A68, 0xF2AE9280, 0xD2E35DBF, 0x29E44471, 0x51134B2F, 0x141458C7, 0x3E0D5562, 0xEFEE8AED,
       0x06DBFFDD, 0x0341A04C, 0x54193EDE, 0x86A70F5D, 0x1345C53B, 0x380FC02C, 0x6EFF43FF, 0xE6DF89E7]);
  }

  lemma Quarters7()
    ensures Quarter(Four(0xBDEF4A68, 0x51134B2F, 0x06DBFFDD, 0x1345C53B))
          == Four(0xC4734600, 0xC969E8C1, 0x36E263B8, 0xDF5A4794)
    ensures Quarter(Four(0xF2AE9280, 0x141458C7, 0x0341A04C, 0x380FC02C))
          == Four(0x8F40CEF2, 0x707E8B69, 0x5A9D1EBD, 0x2BF03FA4)
    ensures Quarter(Four(0xD2E35DBF, 0x3E0D5562, 0x54193EDE, 0x6EFF43FF))
          == Four(0xBF89AAD0, 0x2A35C999, 0x9CCC9C3C, 0x57D4DF4F)
    ensures Quarter(Four(0x29E44471, 0xEFEE8AED, 0x86A70F5D, 0xE6DF89E7))
          == Four(0x121B4186, 0x2BF5CB44, 0x701F99BE, 0xA2BE8B54)
  {
  }

  lemma Round7()
    ensures ColumnRound([0xBDEF4A68, 0xF2AE9280, 0xD2E35DBF, 0x29E44471, 0x51134B2F, 0x141458C7, 0x3E0D5562, 0xEFEE8AED,
            0x06DBFFDD, 0x0341A04C, 0x54193EDE, 0x86A70F5D, 0x1345C53B, 0x380FC02C, 0x6EFF43FF, 0xE6DF89E7])
      == [0xC4734600, 0x8F40CEF2, 0xBF89AAD0, 0x121B4186, 0xC969E8C1, 0x707E8B69, 0x2A35C999, 0x2BF5CB44,
          0x36E263B8, 0x5A9D1EBD, 0x9CCC9C3C, 0x701F99BE, 0xDF5A4794, 0x2BF03FA4, 0x57D4DF4F, 0xA2BE8B54]
  {
    hide ColumnRound, DiagonalRound, Quarter;
    Quarters7();
    ColumnIs([0xBDEF4A68, 0xF2AE9280, 0xD2E35DBF, 0x29E44471, 0x51134B2F, 0x141458C7, 0x3E0D5562, 0xEFEE8AED,
          0x06DBFFDD, 0x0341A04C, 0x54193EDE, 0x86A70F5D, 0x1345C53B, 0x380FC02C, 0x6EFF43FF, 0xE6DF89E7],
      [0xC4734600, 0x8F40CEF2, 0xBF89AAD0, 0x121B4186, 0xC969E8C1, 0x707E8B69, 0x2A35C999, 0x2BF5CB44,
       0x36E263B8, 0x5A9D1EBD, 0x9CCC9C3C, 0x701F99BE, 0xDF5A4794, 0x2BF03FA4, 0x57D4DF4F, 0xA2BE8B54]);
  }

  lemma Quarters8()
    ensures Quarter(Four(0xC4734600, 0x707E8B69, 0x9CCC9C3C, 0xA2BE8B54))
          == Four(0x808FF9E0, 0x73E50971, 0xA979E265, 0xB26FAFDA)
    ensures Quarter(Four(0x8F40CEF2, 0x2A35C999, 0x701F99BE, 0xDF5A4794))
          == Four(0x6CDDCEDB, 0x4060E6D1, 0x11E7F79D, 0xC2A8F7B3)
    ensures Quarter(Four(0xBF89AAD0, 0x2BF5CB44, 0x36E263B8, 0x2BF03FA4))
          == Four(0x5A6FB0CA, 0x79A9F607, 0x6003695A, 0xDF704513)
    ensures Quarter(Four(0x121B4186, 0xC969E8C1, 0x5A9D1EBD, 0x57D4DF4F))
          == Four(0x9FC222B3, 0x343A8A6F, 0x1A548D78, 0xCAAEE26A)
  {
  }

  lemma Round8()
    ensures DiagonalRound([0xC4734600, 0x8F40CEF2, 0xBF89AAD0, 0x121B4186, 0xC969E8C1, 0x707E8B69, 0x2A35C999, 0x2BF5CB44,
            0x36E263B8, 0x5A9D1EBD, 0x9CCC9C3C, 0x701F99BE, 0xDF5A4794, 0x2BF03FA4, 0x57D4DF4F, 0xA2BE8B54])
      == [0x808FF9E0, 0x6CDDCEDB, 0x5A6FB0CA, 0x9FC222B3, 0x343A8A6F, 0x73E50971, 0x4060E6D1, 0x79A9F607,
          0x6003695A, 0x1A548D78, 0xA979E265, 0x11E7F79D, 0xC2A8F7B3, 0xDF704513, 0xCAAEE26A, 0xB26FAFDA]
  {
    hide ColumnRound, DiagonalRound, Quarter;
    Quarters8();
    DiagonalIs([0xC4734600, 0x8F40CEF2, 0xBF89AAD0, 0x121B4186, 0xC969E8C1, 0x707E8B69, 0x2A35C999, 0x2BF5CB44,
          0x36E263B8, 0x5A9D1EBD, 0x9CCC9C3C, 0x701F99BE, 0xDF5A4794, 0x2BF03FA4, 0x57D4DF4F, 0xA2BE8B54],
      [0x808FF9E0, 0x6CDDCEDB, 0x5A6FB0CA, 0x9FC222B3, 0x343A8A6F, 0x73E50971, 0x4060E6D1, 0x79A9F607,
       0x6003695A, 0x1A548D78, 0xA979E265, 0x11E7F79D, 0xC2A8F7B3, 0xDF704513, 0xCAAEE26A, 0xB26FAFDA]);
  }

  lemma Quarters9()
    ensures Quarter(Four(0x808FF9E0, 0x343A8A6F, 0x6003695A, 0xC2A8F7B3))
          == Four(0x0A27C2CB, 0x74DBA4FD, 0xAFB48935, 0xDBB4A979)
    ensures Quarter(Four(0x6CDDCEDB, 0x73E50971, 0x1A548D78, 0xDF704513))
          == Four(0x4D089491, 0x8DA65FB1, 0x0F5EF0FA, 0x57AB23D0)
    ensures Quarter(Four(0x5A6FB0CA, 0x4060E6D1, 0xA979E265, 0xCAAEE26A))
          == Four(0x5813BD8B, 0x8D06F05F, 0x02592810, 0xE2EDF52D)
    ensures Quarter(Four(0x9FC222B3, 0x79A9F607, 0x11E7F79D, 0xB26FAFDA))
          == Four(0x2EB693C8, 0x658A9BC5, 0x9F816E39, 0xD638CB99)
  {
  }

  lemma Round9()
    ensures ColumnRound([0x808FF9E0, 0x6CDDCEDB, 0x5A6FB0CA, 0x9FC222B3, 0x343A8A6F, 0x73E50971, 0x4060E6D1, 0x79A9F607,
            0x6003695A, 0x1A548D78, 0xA979E265, 0x11E7F79D, 0xC2A8F7B3, 0xDF704513, 0xCAAEE26A, 0xB26FAFDA])
      == [0x0A27C2CB, 0x4D089491, 0x5813BD8B, 0x2EB693C8, 0x74DBA4FD, 0x8DA65FB1, 0x8D06F05F, 0x658A9BC5,
          0xAFB48935, 0x0F5EF0FA, 0x02592810, 0x9F816E39, 0xDBB4A979, 0x57AB23D0, 0xE2EDF52D, 0xD638CB99]
  {
    hide ColumnRound, DiagonalRound, Quarter;
    Quarters9();
    ColumnIs([0x808FF9E0, 0x6CDDCEDB, 0x5A6FB0CA, 0x9FC222B3, 0x343A8A6F, 0x73E50971, 0x4060E6D1, 0x79A9F607,
          0x6003695A, 0x1A548D78, 0xA979E265, 0x11E7F79D, 0xC2A8F7B3, 0xDF704513, 0xCAAEE26A, 0xB26FAFDA],
      [0x0A27C2CB, 0x4D089491, 0x5813BD8B, 0x2EB693C8, 0x74DBA4FD, 0x8DA65FB1, 0x8D06F05F, 0x658A9BC5,
       0xAFB48935, 0x0F5EF0FA, 0x02592810, 0x9F816E39, 0xDBB4A979, 0x57AB23D0, 0xE2EDF52D, 0xD638CB99]);
  }

  lemma Quarters10()
    ensures Quarter(Four(0x0A27C2CB, 0x8DA65FB1, 0x02592810, 0xD638CB99))
          == Four(0x1B299895, 0x265DF09D, 0xB917CDF8, 0xCCD963F2)
    ensures Quarter(Four(0x4D089491, 0x8D06F05F, 0x9F816E39, 0xDBB4A979))
          == Four(0xA40A38F0, 0xDC87BECC, 0x5043BB7D, 0x83394B89)
    ensures Quarter(Four(0x5813BD8B, 0x658A9BC5, 0xAFB48935, 0x57AB23D0))
          == Four(0xBC294E4B, 0xA9836596, 0xD3D9F230, 0xA9A47EC6)
    ensures Quarter(Four(0x2EB693C8, 0x74DBA4FD, 0x0F5EF0FA, 0xE2EDF52D))
          == Four(0x6CFA835E, 0xB08F419C, 0xF009541A, 0x12C221A1)
  {
  }

  lemma Round10()
    ensures DiagonalRound([0x0A27C2CB, 0x4D089491, 0x5813BD8B, 0x2EB693C8, 0x74DBA4FD, 0x8DA65FB1, 0x8D06F05F, 0x658A9BC5,
            0xAFB48935, 0x0F5EF0FA, 0x02592810, 0x9F816E39, 0xDBB4A979, 0x57AB23D0, 0xE2EDF52D, 0xD638CB99])
      == [0x1B299895, 0xA40A38F0, 0xBC294E4B, 0x6CFA835E, 0xB08F419C, 0x265DF09D, 0xDC87BECC, 0xA9836596,
          0xD3D9F230, 0xF009541A, 0xB917CDF8, 0x5043BB7D, 0x83394B89, 0xA9A47EC6, 0x12C221A1, 0xCCD963F2]
  {
    hide ColumnRound, DiagonalRound, Quarter;
    Quarters10();
    DiagonalIs([0x0A27C2CB, 0x4D089491, 0x5813BD8B, 0x2EB693C8, 0x74DBA4FD, 0x8DA65FB1, 0x8D06F05F, 0x658A9BC5,
          0xAFB48935, 0x0F5EF0FA, 0x02592810, 0x9F816E39, 0xDBB4A979, 0x57AB23D0, 0xE2EDF52D, 0xD638CB99],
      [0x1B299895, 0xA40A38F0, 0xBC294E4B, 0x6CFA835E, 0xB08F419C, 0x265DF09D, 0xDC87BECC, 0xA9836596,
       0xD3D9F230, 0xF009541A, 0xB917CDF8, 0x5043BB7D, 0x83394B89, 0xA9A47EC6, 0x12C221A1, 0xCCD963F2]);
  }

  lemma Quarters11()
    ensures Quarter(Four(0x1B299895, 0xB08F419C, 0xD3D9F230, 0x83394B89))
          == Four(0xA36BB782, 0x11F05977, 0x39913DE3, 0xD3FF0332)
    ensures Quarter(Four(0xA40A38F0, 0x265DF09D, 0xF009541A, 0xA9A47EC6))
          == Four(0x5EDFDF9D, 0x335F7FA4, 0xDC1108EF, 0x94BC5109)
    ensures Quarter(Four(0xBC294E4B, 0xDC87BECC, 0xB917CDF8, 0x12C221A1))
          == Four(0x371B80AB, 0x59A18906, 0x92D93086, 0xAD0AD81B)
    ensures Quarter(Four(0x6CFA835E, 0xA9836596, 0x5043BB7D, 0xCCD963F2))
          == Four(0xB5B96020, 0x1F36B982, 0x9B051A5F, 0xBFBA843E)
  {
  }

  lemma Round11()
    ensures ColumnRound([0x1B299895, 0xA40A38F0, 0xBC294E4B, 0x6CFA835E, 0xB08F419C, 0x265DF09D, 0xDC87BECC, 0xA9836596,
            0xD3D9F230, 0xF009541A, 0xB917CDF8, 0x5043BB7D, 0x83394B89, 0xA9A47EC6, 0x12C221A1, 0xCCD963F2])
      == [0xA36BB782, 0x5EDFDF9D, 0x371B80AB, 0xB5B96020, 0x11F05977, 0x335F7FA4, 0x59A18906, 0x1F36B982,
          0x39913DE3, 0xDC1108EF, 0x92D93086, 0x9B051A5F, 0xD3FF0332, 0x94BC5109, 0xAD0AD81B, 0xBFBA843E]
  {
    hide ColumnRound, DiagonalRound, Quarter;
    Quarters11();
    ColumnIs([0x1B299895, 0xA40A38F0, 0xBC294E4B, 0x6CFA835E, 0xB08F419C, 0x265DF09D, 0xDC87BECC, 0xA9836596,
          0xD3D9F230, 0xF009541A, 0xB917CDF8, 0x5043BB7D, 0x83394B89, 0xA9A47EC6, 0x12C221A1, 0xCCD963F2],
      [0xA36BB782, 0x5EDFDF9D, 0x371B80AB, 0xB5B96020, 0x11F05977, 0x335F7FA4, 0x59A18906, 0x1F36B982,
       0x39913DE3, 0xDC1108EF, 0x92D93086, 0x9B051A5F, 0xD3FF0332, 0x94BC5109, 0xAD0AD81B, 0xBFBA843E]);
  }

  lemma Quarters12()
    ensures Quarter(Four(0xA36BB782, 0x335F7FA4, 0x92D93086, 0xBFBA843E))
          == Four(0xC5306E90, 0xCE2603C1, 0x6DF97B6D, 0x2807E176)
    ensures Quarter(Four(0x5EDFDF9D, 0x59A18906, 0x9B051A5F, 0xD3FF0332))
          == Four(0x294F1E96, 0xE0EDF64A, 0xE50C6E1F, 0xDE75E842)
    ensures Quarter(Four(0x371B80AB, 0x1F36B982, 0x39913DE3, 0x94BC5109))
          == Four(0x61E775E5, 0xFC1831B1, 0x686D0BDB, 0xC3B70B0A)
    ensures Quarter(Four(0xB5B96020, 0x11F05977, 0xDC1108EF, 0xAD0AD81B))
          == Four(0x9A580C5D, 0x551025E0, 0x1204728D, 0xD466FEFB)
  {
  }

  lemma Round12()
    ensures DiagonalRound([0xA36BB782, 0x5EDFDF9D, 0x371B80AB, 0xB5B96020, 0x11F05977, 0x335F7FA4, 0x59A18906, 0x1F36B982,
            0x39913DE3, 0xDC1108EF, 0x92D93086, 0x9B051A5F, 0xD3FF0332, 0x94BC5109, 0xAD0AD81B, 0xBFBA843E])
      == [0xC5306E90, 0x294F1E96, 0x61E775E5, 0x9A580C5D, 0x551025E0, 0xCE2603C1, 0xE0EDF64A, 0xFC1831B1,
          0x686D0BDB, 0x1204728D, 0x6DF97B6D, 0xE50C6E1F, 0xDE75E842, 0xC3B70B0A, 0xD466FEFB, 0x2807E176]
  {
    hide ColumnRound, DiagonalRound, Quarter;
    Quarters12();
    DiagonalIs([0xA36BB782, 0x5EDFDF9D, 0x371B80AB, 0xB5B96020, 0x11F05977, 0x335F7FA4, 0x59A18906, 0x1F36B982,
          0x39913DE3, 0xDC1108EF, 0x92D93086, 0x9B051A5F, 0xD3FF0332, 0x94BC5109, 0xAD0AD81B, 0xBFBA843E],
      [0xC5306E90, 0x294F1E96, 0x61E775E5, 0x9A580C5D, 0x551025E0, 0xCE2603C1, 0xE0EDF64A, 0xFC1831B1,
       0x686D0BDB, 0x1204728D, 0x6DF97B6D, 0xE50C6E1F, 0xDE75E842, 0xC3B70B0A, 0xD466FEFB, 0x2807E176]);
  }

  lemma Quarters13()
    ensures Quarter(Four(0xC5306E90, 0x551025E0, 0x686D0BDB, 0xDE75E842))
          == Four(0x199F9F88, 0x524336B7, 0x91FB8D75, 0xAD5BBD65)
    ensures Quarter(Four(0x294F1E96, 0xCE2603C1, 0x1204728D, 0xC3B70B0A))
          == Four(0x71BE11AB, 0x67FFF9B2, 0x1E8710A7, 0xE3256958)
    ensures Quarter(Four(0x61E775E5, 0xE0EDF64A, 0x6DF97B6D, 0xD466FEFB))
          == Four(0x811C1A31, 0x8E1D18FB, 0xC95A9433, 0xC88C8213)
    ensures Quarter(Four(0x9A580C5D, 0xFC1831B1, 0xE50C6E1F, 0x2807E176))
          == Four(0x6842B197, 0xA3BF6217, 0xFE950D4D, 0x3A0FE0B7)
  {
  }

  lemma Round13()
    ensures ColumnRound([0xC5306E90, 0x294F1E96, 0x61E775E5, 0x9A580C5D, 0x551025E0, 0xCE2603C1, 0xE0EDF64A, 0xFC1831B1,
            0x686D0BDB, 0x1204728D, 0x6DF97B6D, 0xE50C6E1F, 0xDE75E842, 0xC3B70B0A, 0xD466FEFB, 0x2807E176])
      == [0x199F9F88, 0x71BE11AB, 0x811C1A31, 0x6842B197, 0x524336B7, 0x67FFF9B2, 0x8E1D18FB, 0xA3BF6217,
          0x91FB8D75, 0x1E8710A7, 0xC95A9433, 0xFE950D4D, 0xAD5BBD65, 0xE3256958, 0xC88C8213, 0x3A0FE0B7]
  {
    hide ColumnRound, DiagonalRound, Quarter;
    Quarters13();
    ColumnIs([0xC5306E90, 0x294F1E96, 0x61E775E5, 0x9A580C5D, 0x551025E0, 0xCE2603C1, 0xE0EDF64A, 0xFC1831B1,
          0x686D0BDB, 0x1204728D, 0x6DF97B6D, 0xE50C6E1F, 0xDE75E842, 0xC3B70B0A, 0xD466FEFB, 0x2807E176],
      [0x199F9F88, 0x71BE11AB, 0x811C1A31, 0x6842B197, 0x524336B7, 0x67FFF9B2, 0x8E1D18FB, 0xA3BF6217,
       0x91FB8D75, 0x1E8710A7, 0xC95A9433, 0xFE950D4D, 0xAD5BBD65, 0xE3256958, 0xC88C8213, 0x3A0FE0B7]);
  }

  lemma Quarters14()
    ensures Quarter(Four(0x199F9F88, 0x67FFF9B2, 0xC95A9433, 0x3A0FE0B7))
          == Four(0xFD06AB8B, 0x4FBC8B5B, 0xCDF86B47, 0x8B101B84)
    ensures Quarter(Four(0x71BE11AB, 0x8E1D18FB, 0xFE950D4D, 0xAD5BBD65))
          == Four(0x544E8C2A, 0x22358A38, 0x24370A90, 0x8DDEAAC3)
    ensures Quarter(Four(0x811C1A31, 0xA3BF6217, 0x91FB8D75, 0xE3256958))
          == Four(0x5851BC93, 0xF8C145ED, 0xE887C2C0, 0x417B6D4D)
    ensures Quarter(Four(0x6842B197, 0x524336B7, 0x1E8710A7, 0xC88C8213))
          == Four(0x35C665F8, 0x5E04D2AC, 0x23FC740F, 0x9B17F15F)
  {
  }

  lemma Round14()
    ensures DiagonalRound([0x199F9F88, 0x71BE11AB, 0x811C1A31, 0x6842B197, 0x524336B7, 0x67FFF9B2, 0x8E1D18FB, 0xA3BF6217,
            0x91FB8D75, 0x1E8710A7, 0xC95A9433, 0xFE950D4D, 0xAD5BBD65, 0xE3256958, 0xC88C8213, 0x3A0FE0B7])
      == [0xFD06AB8B, 0x544E8C2A, 0x5851BC93, 0x35C665F8, 0x5E04D2AC, 0x4FBC8B5B, 0x22358A38, 0xF8C145ED,
          0xE887C2C0, 0x23FC740F, 0xCDF86B47, 0x24370A90, 0x8DDEAAC3, 0x417B6D4D, 0x9B17F15F, 0x8B101B84]
  {
    hide ColumnRound, DiagonalRound, Quarter;
    Quarters14();
    DiagonalIs([0x199F9F88, 0x71BE11AB, 0x811C1A31, 0x6842B197, 0x524336B7, 0x67FFF9B2, 0x8E1D18FB, 0xA3BF6217,
          0x91FB8D75, 0x1E8710A7, 0xC95A9433, 0xFE950D4D, 0xAD5BBD65, 0xE3256958, 0xC88C8213, 0x3A0FE0B7],
      [0xFD06AB8B, 0x544E8C2A, 0x5851BC93, 0x35C665F8, 0x5E04D2AC, 0x4FBC8B5B, 0x22358A38, 0xF8C145ED,
       0xE887C2C0, 0x23FC740F, 0xCDF86B47, 0x24370A90, 0x8DDEAAC3, 0x417B6D4D, 0x9B17F15F, 0x8B101B84]);
  }

  lemma Quarters15()
    ensures Quarter(Four(0xFD06AB8B, 0x5E04D2AC, 0xE887C2C0, 0x8DDEAAC3))
          == Four(0xDFBF1C6E, 0xFA654BC6, 0x094754A0, 0x4BCABB0B)
    ensures Quarter(Four(0x544E8C2A, 0x4FBC8B5B, 0x23FC740F, 0x417B6D4D))
          == Four(0x412D649C, 0xB284568C, 0x844745BA, 0xE581EC3B)
    ensures Quarter(Four(0x5851BC93, 0x22358A38, 0xCDF86B47, 0x9B17F15F))
          == Four(0x06F64146, 0x206CF9B2, 0xE82E2388, 0x62A0D6B1)
    ensures Quarter(Four(0x35C665F8, 0xF8C145ED, 0x24370A90, 0x8B101B84))
          == Four(0xCDE44EAA, 0xEFA7B0E2, 0x5A83EDA4, 0x85EB3D7D)
  {
  }

  lemma Round15()
    ensures ColumnRound([0xFD06AB8B, 0x544E8C2A, 0x5851BC93, 0x35C665F8, 0x5E04D2AC, 0x4FBC8B5B, 0x22358A38, 0xF8C145ED,
            0xE887C2C0, 0x23FC740F, 0xCDF86B47, 0x24370A90, 0x8DDEAAC3, 0x417B6D4D, 0x9B17F15F, 0x8B101B84])
      == [0xDFBF1C6E, 0x412D649C, 0x06F64146, 0xCDE44EAA, 0xFA654BC6, 0xB284568C, 0x206CF9B2, 0xEFA7B0E2,
          0x094754A0, 0x844745BA, 0xE82E2388, 0x5A83EDA4, 0x4BCABB0B, 0xE581EC3B, 0x62A0D6B1, 0x85EB3D7D]
  {
    hide ColumnRound, DiagonalRound, Quarter;
    Quarters15();
    ColumnIs([0xFD06AB8B, 0x544E8C2A, 0x5851BC93, 0x35C665F8, 0x5E04D2AC, 0x4FBC8B5B, 0x22358A38, 0xF8C145ED,
          0xE887C2C0, 0x23FC740F, 0xCDF86B47, 0x24370A90, 0x8DDEAAC3, 0x417B6D4D, 0x9B17F15F, 0x8B101B84],
      [0xDFBF1C6E, 0x412D649C, 0x06F64146, 0xCDE44EAA, 0xFA654BC6, 0xB284568C, 0x206CF9B2, 0xEFA7B0E2,
       0x094754A0, 0x844745BA, 0xE82E2388, 0x5A83EDA4, 0x4BCABB0B, 0xE581EC3B, 0x62A0D6B1, 0x85EB3D7D]);
  }

  lemma Quarters16()
    ensures Quarter(Four(0xDFBF1C6E, 0xB284568C, 0xE82E2388, 0x85EB3D7D))
          == Four(0xA91F3B4D, 0x9CF4A2EC, 0xCFE22116, 0x982CE5E6)
    ensures Quarter(Four(0x412D649C, 0x206CF9B2, 0x5A83EDA4, 0x4BCABB0B))
          == Four(0xC07EC048, 0xABA8F192, 0x7BB33019, 0x3BEA1825)
    ensures Quarter(Four(0x06F64146, 0xEFA7B0E2, 0x094754A0, 0xE581EC3B))
          == Four(0xD413DEB7, 0xAEFF84FA, 0x28281386, 0x00CDABCA)
    ensures Quarter(Four(0xCDE44EAA, 0xFA654BC6, 0x844745BA, 0x62A0D6B1))
          == Four(0xA3FFED26, 0x7349126A, 0x0F50C092, 0x3E47CFEF)
  {
  }

  lemma Round16()
    ensures DiagonalRound([0xDFBF1C6E, 0x412D649C, 0x06F64146, 0xCDE44EAA, 0xFA654BC6, 0xB284568C, 0x206CF9B2, 0xEFA7B0E2,
            0x094754A0, 0x844745BA, 0xE82E2388, 0x5A83EDA4, 0x4BCABB0B, 0xE581EC3B, 0x62A0D6B1, 0x85EB3D7D])
      == [0xA91F3B4D, 0xC07EC048, 0xD413DEB7, 0xA3FFED26, 0x7349126A, 0x9CF4A2EC, 0xABA8F192, 0xAEFF84FA,
          0x28281386, 0x0F50C092, 0xCFE22116, 0x7BB33019, 0x3BEA1825, 0x00CDABCA, 0x3E47CFEF, 0x982CE5E6]
  {
    hide ColumnRound, DiagonalRound, Quarter;
    Quarters16();
    DiagonalIs([0xDFBF1C6E, 0x412D649C, 0x06F64146, 0xCDE44EAA, 0xFA654BC6, 0xB284568C, 0x206CF9B2, 0xEFA7B0E2,
          0x094754A0, 0x844745BA, 0xE82E2388, 0x5A83EDA4, 0x4BCABB0B, 0xE581EC3B, 0x62A0D6B1, 0x85EB3D7D],
      [0xA91F3B4D, 0xC07EC048, 0xD413DEB7, 0xA3FFED26, 0x7349126A, 0x9CF4A2EC, 0xABA8F192, 0xAEFF84FA,
       0x28281386, 0x0F50C092, 0xCFE22116, 0x7BB33019, 0x3BEA1825, 0x00CDABCA, 0x3E47CFEF, 0x982CE5E6]);
  }

  lemma Quarters17()
    ensures Quarter(Four(0xA91F3B4D, 0x7349126A, 0x28281386, 0x3BEA1825))
          == Four(0x4EFE6EA6, 0x4ABFE66C, 0xEA035F23, 0x6C49241B)
    ensures Quarter(Four(0xC07EC048, 0x9CF4A2EC, 0x0F50C092, 0x00CDABCA))
          == Four(0x193F277F, 0x01123511, 0x99C9E021, 0xC17AC1D1)
    ensures Quarter(Four(0xD413DEB7, 0xABA8F192, 0xCFE22116, 0x3E47CFEF))
          == Four(0x88E5048B, 0xF2F3F51D, 0x32CDD3A8, 0x43457097)
    ensures Quarter(Four(0xA3FFED26, 0xAEFF84FA, 0x7BB33019, 0x982CE5E6))
          == Four(0xBAE0DDF8, 0x3826E0AF, 0x39912619, 0x26172B2D)
  {
  }

  lemma Round17()
    ensures ColumnRound([0xA91F3B4D, 0xC07EC048, 0xD413DEB7, 0xA3FFED26, 0x7349126A, 0x9CF4A2EC, 0xABA8F192, 0xAEFF84FA,
            0x28281386, 0x0F50C092, 0xCFE22116, 0x7BB33019, 0x3BEA1825, 0x00CDABCA, 0x3E47CFEF, 0x982CE5E6])
      == [0x4EFE6EA6, 0x193F277F, 0x88E5048B, 0xBAE0DDF8, 0x4ABFE66C, 0x01123511, 0xF2F3F51D, 0x3826E0AF,
          0xEA035F23, 0x99C9E021, 0x32CDD3A8, 0x39912619, 0x6C49241B, 0xC17AC1D1, 0x43457097, 0x26172B2D]
  {
    hide ColumnRound, DiagonalRound, Quarter;
    Quarters17();
    ColumnIs([0xA91F3B4D, 0xC07EC048, 0xD413DEB7, 0xA3FFED26, 0x7349126A, 0x9CF4A2EC, 0xABA8F192, 0xAEFF84FA,
          0x28281386, 0x0F50C092, 0xCFE22116, 0x7BB33019, 0x3BEA1825, 0x00CDABCA, 0x3E47CFEF, 0x982CE5E6],
      [0x4EFE6EA6, 0x193F277F, 0x88E5048B, 0xBAE0DDF8, 0x4ABFE66C, 0x01123511, 0xF2F3F51D, 0x3826E0AF,
       0xEA035F23, 0x99C9E021, 0x32CDD3A8, 0x39912619, 0x6C49241B, 0xC17AC1D1, 0x43457097, 0x26172B2D]);
  }

  lemma Quarters18()
    ensures Quarter(Four(0x4EFE6EA6, 0x01123511, 0x32CDD3A8, 0x26172B2D))
          == Four(0xF7DC8F5E, 0xD52444D2, 0x0261A32E, 0x46F9597F)
    ensures Quarter(Four(0x193F277F, 0xF2F3F51D, 0x39912619, 0x6C49241B))
          == Four(0xC36C04AA, 0x22DFC075, 0x5D7D578E, 0xEB64D0FB)
    ensures Quarter(Four(0x88E5048B, 0x3826E0AF, 0xEA035F23, 0xC17AC1D1))
          == Four(0x4CFF98A6, 0x3A42C854, 0x238736FC, 0x1498D768)
    ensures Quarter(Four(0xBAE0DDF8, 0x4ABFE66C, 0x99C9E021, 0x43457097))
          == Four(0x31B764A4, 0x64E465DF, 0x92DF688B, 0x44224185)
  {
  }

  lemma Round18()
    ensures DiagonalRound([0x4EFE6EA6, 0x193F277F, 0x88E5048B, 0xBAE0DDF8, 0x4ABFE66C, 0x01123511, 0xF2F3F51D, 0x3826E0AF,
            0xEA035F23, 0x99C9E021, 0x32CDD3A8, 0x39912619, 0x6C49241B, 0xC17AC1D1, 0x43457097, 0x26172B2D])
      == [0xF7DC8F5E, 0xC36C04AA, 0x4CFF98A6, 0x31B764A4, 0x64E465DF, 0xD52444D2, 0x22DFC075, 0x3A42C854,
          0x238736FC, 0x92DF688B, 0x0261A32E, 0x5D7D578E, 0xEB64D0FB, 0x1498D768, 0x44224185, 0x46F9597F]
  {
    hide ColumnRound, DiagonalRound, Quarter;
    Quarters18();
    DiagonalIs([0x4EFE6EA6, 0x193F277F, 0x88E5048B, 0xBAE0DDF8, 0x4ABFE66C, 0x01123511, 0xF2F3F51D, 0x3826E0AF,
          0xEA035F23, 0x99C9E021, 0x32CDD3A8, 0x39912619, 0x6C49241B, 0xC17AC1D1, 0x43457097, 0x26172B2D],
      [0xF7DC8F5E, 0xC36C04AA, 0x4CFF98A6, 0x31B764A4, 0x64E465DF, 0xD52444D2, 0x22DFC075, 0x3A42C854,
       0x238736FC, 0x92DF688B, 0x0261A32E, 0x5D7D578E, 0xEB64D0FB, 0x1498D768, 0x44224185, 0x46F9597F]);
  }

  lemma Quarters19()
    ensures Quarter(Four(0xF7DC8F5E, 0x64E465DF, 0x238736FC, 0xEB64D0FB))
          == Four(0xF578E817, 0x8D28554F, 0x07ADA270, 0xBE5FB3D0)
    ensures Quarter(Four(0xC36C04AA, 0xD52444D2, 0x92DF688B, 0x1498D768))
          == Four(0x139467D9, 0x6DEC3EE5, 0xB1DFC620, 0x80EBD18D)
    ensures Quarter(Four(0x4CFF98A6, 0x22DFC075, 0x0261A32E, 0x44224185))
          == Four(0x70D53C9D, 0x716608B3, 0x66172F93, 0x4B176068)
    ensures Quarter(Four(0x31B764A4, 0x3A42C854, 0x5D7D578E, 0x46F9597F))
          == Four(0xD0C68B8C, 0x33A55138, 0x14AB1436, 0x41A68FA5)
  {
  }

  lemma Round19()
    ensures ColumnRound([0xF7DC8F5E, 0xC36C04AA, 0x4CFF98A6, 0x31B764A4, 0x64E465DF, 0xD52444D2, 0x22DFC075, 0x3A42C854,
            0x238736FC, 0x92DF688B, 0x0261A32E, 0x5D7D578E, 0xEB64D0FB, 0x1498D768, 0x44224185, 0x46F9597F])
      == [0xF578E817, 0x139467D9, 0x70D53C9D, 0xD0C68B8C, 0x8D28554F, 0x6DEC3EE5, 0x716608B3, 0x33A55138,
          0x07ADA270, 0xB1DFC620, 0x66172F93, 0x14AB1436, 0xBE5FB3D0, 0x80EBD18D, 0x4B176068, 0x41A68FA5]
  {
    hide ColumnRound, DiagonalRound, Quarter;
    Quarters19();
    ColumnIs([0xF7DC8F5E, 0xC36C04AA, 0x4CFF98A6, 0x31B764A4, 0x64E465DF, 0xD52444D2, 0x22DFC075, 0x3A42C854,
          0x238736FC, 0x92DF688B, 0x0261A32E, 0x5D7D578E, 0xEB64D0FB, 0x1498D768, 0x44224185, 0x46F9597F],
      [0xF578E817, 0x139467D9, 0x70D53C9D, 0xD0C68B8C, 0x8D28554F, 0x6DEC3EE5, 0x716608B3, 0x33A55138,
       0x07ADA270, 0xB1DFC620, 0x66172F93, 0x14AB1436, 0xBE5FB3D0, 0x80EBD18D, 0x4B176068, 0x41A68FA5]);
  }

  lemma Quarters20()
    ensures Quarter(Four(0xF578E817, 0x6DEC3EE5, 0x66172F93, 0x41A68FA5))
          == Four(0x2A305D25, 0x1D87785F, 0x78F038D9, 0x697FE683)
    ensures Quarter(Four(0x139467D9, 0x716608B3, 0x14AB1436, 0xBE5FB3D0))
          == Four(0x9960FB22, 0x572E5180, 0x14C8D635, 0x3CC1875A)
    ensures Quarter(Four(0x70D53C9D, 0x33A55138, 0x07ADA270, 0x80EBD18D))
          == Four(0xADDE234F, 0xB7184471, 0xEA0DA5F2, 0x8607DEF1)
    ensures Quarter(Four(0xD0C68B8C, 0x8D28554F, 0xB1DFC620, 0x4B176068))
          == Four(0x06744CD6, 0xB433B228, 0xF9ED0C9F, 0xC75A2F86)
  {
  }

  lemma Round20()
    ensures DiagonalRound([0xF578E817, 0x139467D9, 0x70D53C9D, 0xD0C68B8C, 0x8D28554F, 0x6DEC3EE5, 0x716608B3, 0x33A55138,
            0x07ADA270, 0xB1DFC620, 0x66172F93, 0x14AB1436, 0xBE5FB3D0, 0x80EBD18D, 0x4B176068, 0x41A68FA5])
      == [0x2A305D25, 0x9960FB22, 0xADDE234F, 0x06744CD6, 0xB433B228, 0x1D87785F, 0x572E5180, 0xB7184471,
          0xEA0DA5F2, 0xF9ED0C9F, 0x78F038D9, 0x14C8D635, 0x3CC1875A, 0x8607DEF1, 0xC75A2F86, 0x697FE683]
  {
    hide ColumnRound, DiagonalRound, Quarter;
    Quarters20();
    DiagonalIs([0xF578E817, 0x139467D9, 0x70D53C9D, 0xD0C68B8C, 0x8D28554F, 0x6DEC3EE5, 0x716608B3, 0x33A55138,
          0x07ADA270, 0xB1DFC620, 0x66172F93, 0x14AB1436, 0xBE5FB3D0, 0x80EBD18D, 0x4B176068, 0x41A68FA5],
      [0x2A305D25, 0x9960FB22, 0xADDE234F, 0x06744CD6, 0xB433B228, 0x1D87785F, 0x572E5180, 0xB7184471,
       0xEA0DA5F2, 0xF9ED0C9F, 0x78F038D9, 0x14C8D635, 0x3CC1875A, 0x8607DEF1, 0xC75A2F86, 0x697FE683]);
  }

  lemma TwoMore(w: Words16, n: nat, v: Words16, u: Words16, t: Words16)
    requires DoubleRounds(w, n) == v && ColumnRound(v) == u && DiagonalRound(u) == t
    ensures DoubleRounds(w, n + 1) == t
  {
    hide ColumnRound, DiagonalRound;
  }

  lemma Rounds1To10()
    ensures DoubleRounds([0x61707865, 0x3320646E, 0x79622D32, 0x6B206574, 0x83828180, 0x87868584, 0x8B8A8988, 0x8F8E8D8C,
                         0x93929190, 0x97969594, 0x9B9A9998, 0x9F9E9D9C, 0x00000000, 0x00000000, 0x03020100,
                               0x07060504], 5)
      == [0x1B299895, 0xA40A38F0, 0xBC294E4B, 0x6CFA835E, 0xB08F419C, 0x265DF09D, 0xDC87BECC, 0xA9836596,
          0xD3D9F230, 0xF009541A, 0xB917CDF8, 0x5043BB7D, 0x83394B89, 0xA9A47EC6, 0x12C221A1, 0xCCD963F2]
  {
    hide ColumnRound, DiagonalRound, DoubleRounds;
    var w: Words16 := [0x61707865, 0x3320646E, 0x79622D32, 0x6B206574, 0x83828180, 0x87868584, 0x8B8A8988, 0x8F8E8D8C,
       0x93929190, 0x97969594, 0x9B9A9998, 0x9F9E9D9C, 0x00000000, 0x00000000, 0x03020100, 0x07060504];
    NoDoubleRounds(w);
    Round1();
    Round2();
    TwoMore(w, 0, [0x61707865, 0x3320646E, 0x79622D32, 0x6B206574, 0x83828180, 0x87868584, 0x8B8A8988, 0x8F8E8D8C,
             0x93929190, 0x97969594, 0x9B9A9998, 0x9F9E9D9C, 0x00000000, 0x00000000, 0x03020100, 0x07060504],
            [0x94631AD4, 0xB802CA52, 0xE76DA447, 0xCC1B74A2, 0x835E005D, 0x50D275C6, 0x3C53ADE4, 0x20126E32,
             0x14769CEF, 0x71FA448B, 0x2AF84AD6, 0xB52CA57E, 0x86FE266D, 0xF070F451, 0xD7A3A950, 0x1F890A3A],
            [0x983AD9EE, 0xAFB29B33, 0xE72EF021, 0xCD4D01CE, 0xC8BEDD27, 0x5CEF6076, 0x16CB7523, 0x84DC246F,
             0x00A765E0, 0x3242F175, 0x5FBC9794, 0xFD71B417, 0xE9E99BF1, 0x0607D101, 0xE2991410, 0x9A235202]);
    Round3();
    Round4();
    TwoMore(w, 1, [0x983AD9EE, 0xAFB29B33, 0xE72EF021, 0xCD4D01CE, 0xC8BEDD27, 0x5CEF6076, 0x16CB7523, 0x84DC246F,
             0x00A765E0, 0x3242F175, 0x5FBC9794, 0xFD71B417, 0xE9E99BF1, 0x0607D101, 0xE2991410, 0x9A235202],
            [0xB4373568, 0x6668CBA9, 0xBA37B1C1, 0x27AE1593, 0x3A8CEDA9, 0x356DB3A2, 0x410ADFC4, 0x05FD116B,
             0x01486788, 0x1DAC0B67, 0x34BF59C2, 0x038F1574, 0xD3BC7898, 0xC0C10F4C, 0x63AEA2CB, 0x91DD9953],
            [0x3FBE8211, 0x8CCC24D5, 0x17C62FB1, 0x60505B8E, 0x743877CC, 0x8551C6ED, 0xC66EE57A, 0x2360EE92,
             0x73D7AD58, 0x66FD28BD, 0x8D133A8A, 0x10D4A4A2, 0x39501A5F, 0xA62F44DB, 0xA75A1BC1, 0xE7FA684F]);
    Round5();
    Round6();
    TwoMore(w, 2, [0x3FBE8211, 0x8CCC24D5, 0x17C62FB1, 0x60505B8E, 0x743877CC, 0x8551C6ED, 0xC66EE57A, 0x2360EE92,
             0x73D7AD58, 0x66FD28BD, 0x8D133A8A, 0x10D4A4A2, 0x39501A5F, 0xA62F44DB, 0xA75A1BC1, 0xE7FA684F],
            [0xD7FA1C13, 0x83BE14F6, 0x139D4B04, 0xD2193B22, 0xF9E78275, 0x0BC417E6, 0x2C156793, 0xE241EFF3,
             0xCFF0ED32, 0xBDB7A11B, 0x13301F16, 0xA9A372DD, 0x7896B534, 0xA7A0C42C, 0x77326B1D, 0x765F69F0],
            [0xBDEF4A68, 0xF2AE9280, 0xD2E35DBF, 0x29E44471, 0x51134B2F, 0x141458C7, 0x3E0D5562, 0xEFEE8AED,
             0x06DBFFDD, 0x0341A04C, 0x54193EDE, 0x86A70F5D, 0x1345C53B, 0x380FC02C, 0x6EFF43FF, 0xE6DF89E7]);
    Round7();
    Round8();
    TwoMore(w, 3, [0xBDEF4A68, 0xF2AE9280, 0xD2E35DBF, 0x29E44471, 0x51134B2F, 0x141458C7, 0x3E0D5562, 0xEFEE8AED,
             0x06DBFFDD, 0x0341A04C, 0x54193EDE, 0x86A70F5D, 0x1345C53B, 0x380FC02C, 0x6EFF43FF, 0xE6DF89E7],
            [0xC4734600, 0x8F40CEF2, 0xBF89AAD0, 0x121B4186, 0xC969E8C1, 0x707E8B69, 0x2A35C999, 0x2BF5CB44,
             0x36E263B8, 0x5A9D1EBD, 0x9CCC9C3C, 0x701F99BE, 0xDF5A4794, 0x2BF03FA4, 0x57D4DF4F, 0xA2BE8B54],
            [0x808FF9E0, 0x6CDDCEDB, 0x5A6FB0CA, 0x9FC222B3, 0x343A8A6F, 0x73E50971, 0x4060E6D1, 0x79A9F607,
             0x6003695A, 0x1A548D78, 0xA979E265, 0x11E7F79D, 0xC2A8F7B3, 0xDF704513, 0xCAAEE26A, 0xB26FAFDA]);
    Round9();
    Round10();
    TwoMore(w, 4, [0x808FF9E0, 0x6CDDCEDB, 0x5A6FB0CA, 0x9FC222B3, 0x343A8A6F, 0x73E50971, 0x4060E6D1, 0x79A9F607,
             0x6003695A, 0x1A548D78, 0xA979E265, 0x11E7F79D, 0xC2A8F7B3, 0xDF704513, 0xCAAEE26A, 0xB26FAFDA],
            [0x0A27C2CB, 0x4D089491, 0x5813BD8B, 0x2EB693C8, 0x74DBA4FD, 0x8DA65FB1, 0x8D06F05F, 0x658A9BC5,
             0xAFB48935, 0x0F5EF0FA, 0x02592810, 0x9F816E39, 0xDBB4A979, 0x57AB23D0, 0xE2EDF52D, 0xD638CB99],
            [0x1B299895, 0xA40A38F0, 0xBC294E4B, 0x6CFA835E, 0xB08F419C, 0x265DF09D, 0xDC87BECC, 0xA9836596,
             0xD3D9F230, 0xF009541A, 0xB917CDF8, 0x5043BB7D, 0x83394B89, 0xA9A47EC6, 0x12C221A1, 0xCCD963F2]);
  }

  lemma Rounds11To20()
    ensures DoubleRounds([0x61707865, 0x3320646E, 0x79622D32, 0x6B206574, 0x83828180, 0x87868584, 0x8B8A8988, 0x8F8E8D8C,
                         0x93929190, 0x97969594, 0x9B9A9998, 0x9F9E9D9C, 0x00000000, 0x00000000, 0x03020100,
                               0x07060504], 10)
      == [0x2A305D25, 0x9960FB22, 0xADDE234F, 0x06744CD6, 0xB433B228, 0x1D87785F, 0x572E5180, 0xB7184471,
          0xEA0DA5F2, 0xF9ED0C9F, 0x78F038D9, 0x14C8D635, 0x3CC1875A, 0x8607DEF1, 0xC75A2F86, 0x697FE683]
  {
    hide ColumnRound, DiagonalRound, DoubleRounds;
    var w: Words16 := [0x61707865, 0x3320646E, 0x79622D32, 0x6B206574, 0x83828180, 0x87868584, 0x8B8A8988, 0x8F8E8D8C,
       0x93929190, 0x97969594, 0x9B9A9998, 0x9F9E9D9C, 0x00000000, 0x00000000, 0x03020100, 0x07060504];
    Rounds1To10();
    Round11();
    Round12();
    TwoMore(w, 5, [0x1B299895, 0xA40A38F0, 0xBC294E4B, 0x6CFA835E, 0xB08F419C, 0x265DF09D, 0xDC87BECC, 0xA9836596,
             0xD3D9F230, 0xF009541A, 0xB917CDF8, 0x5043BB7D, 0x83394B89, 0xA9A47EC6, 0x12C221A1, 0xCCD963F2],
            [0xA36BB782, 0x5EDFDF9D, 0x371B80AB, 0xB5B96020, 0x11F05977, 0x335F7FA4, 0x59A18906, 0x1F36B982,
             0x39913DE3, 0xDC1108EF, 0x92D93086, 0x9B051A5F, 0xD3FF0332, 0x94BC5109, 0xAD0AD81B, 0xBFBA843E],
            [0xC5306E90, 0x294F1E96, 0x61E775E5, 0x9A580C5D, 0x551025E0, 0xCE2603C1, 0xE0EDF64A, 0xFC1831B1,
             0x686D0BDB, 0x1204728D, 0x6DF97B6D, 0xE50C6E1F, 0xDE75E842, 0xC3B70B0A, 0xD466FEFB, 0x2807E176]);
    Round13();
    Round14();
    TwoMore(w, 6, [0xC5306E90, 0x294F1E96, 0x61E775E5, 0x9A580C5D, 0x551025E0, 0xCE2603C1, 0xE0EDF64A, 0xFC1831B1,
             0x686D0BDB, 0x1204728D, 0x6DF97B6D, 0xE50C6E1F, 0xDE75E842, 0xC3B70B0A, 0xD466FEFB, 0x2807E176],
            [0x199F9F88, 0x71BE11AB, 0x811C1A31, 0x6842B197, 0x524336B7, 0x67FFF9B2, 0x8E1D18FB, 0xA3BF6217,
             0x91FB8D75, 0x1E8710A7, 0xC95A9433, 0xFE950D4D, 0xAD5BBD65, 0xE3256958, 0xC88C8213, 0x3A0FE0B7],
            [0xFD06AB8B, 0x544E8C2A, 0x5851BC93, 0x35C665F8, 0x5E04D2AC, 0x4FBC8B5B, 0x22358A38, 0xF8C145ED,
             0xE887C2C0, 0x23FC740F, 0xCDF86B47, 0x24370A90, 0x8DDEAAC3, 0x417B6D4D, 0x9B17F15F, 0x8B101B84]);
    Round15();
    Round16();
    TwoMore(w, 7, [0xFD06AB8B, 0x544E8C2A, 0x5851BC93, 0x35C665F8, 0x5E04D2AC, 0x4FBC8B5B, 0x22358A38, 0xF8C145ED,
             0xE887C2C0, 0x23FC740F, 0xCDF86B47, 0x24370A90, 0x8DDEAAC3, 0x417B6D4D, 0x9B17F15F, 0x8B101B84],
            [0xDFBF1C6E, 0x412D649C, 0x06F64146, 0xCDE44EAA, 0xFA654BC6, 0xB284568C, 0x206CF9B2, 0xEFA7B0E2,
             0x094754A0, 0x844745BA, 0xE82E2388, 0x5A83EDA4, 0x4BCABB0B, 0xE581EC3B, 0x62A0D6B1, 0x85EB3D7D],
            [0xA91F3B4D, 0xC07EC048, 0xD413DEB7, 0xA3FFED26, 0x7349126A, 0x9CF4A2EC, 0xABA8F192, 0xAEFF84FA,
             0x28281386, 0x0F50C092, 0xCFE22116, 0x7BB33019, 0x3BEA1825, 0x00CDABCA, 0x3E47CFEF, 0x982CE5E6]);
    Round17();
    Round18();
    TwoMore(w, 8, [0xA91F3B4D, 0xC07EC048, 0xD413DEB7, 0xA3FFED26, 0x7349126A, 0x9CF4A2EC, 0xABA8F192, 0xAEFF84FA,
             0x28281386, 0x0F50C092, 0xCFE22116, 0x7BB33019, 0x3BEA1825, 0x00CDABCA, 0x3E47CFEF, 0x982CE5E6],
            [0x4EFE6EA6, 0x193F277F, 0x88E5048B, 0xBAE0DDF8, 0x4ABFE66C, 0x01123511, 0xF2F3F51D, 0x3826E0AF,
             0xEA035F23, 0x99C9E021, 0x32CDD3A8, 0x39912619, 0x6C49241B, 0xC17AC1D1, 0x43457097, 0x26172B2D],
            [0xF7DC8F5E, 0xC36C04AA, 0x4CFF98A6, 0x31B764A4, 0x64E465DF, 0xD52444D2, 0x22DFC075, 0x3A42C854,
             0x238736FC, 0x92DF688B, 0x0261A32E, 0x5D7D578E, 0xEB64D0FB, 0x1498D768, 0x44224185, 0x46F9597F]);
    Round19();
    Round20();
    TwoMore(w, 9, [0xF7DC8F5E, 0xC36C04AA, 0x4CFF98A6, 0x31B764A4, 0x64E465DF, 0xD52444D2, 0x22DFC075, 0x3A42C854,
             0x238736FC, 0x92DF688B, 0x0261A32E, 0x5D7D578E, 0xEB64D0FB, 0x1498D768, 0x44224185, 0x46F9597F],
            [0xF578E817, 0x139467D9, 0x70D53C9D, 0xD0C68B8C, 0x8D28554F, 0x6DEC3EE5, 0x716608B3, 0x33A55138,
             0x07ADA270, 0xB1DFC620, 0x66172F93, 0x14AB1436, 0xBE5FB3D0, 0x80EBD18D, 0x4B176068, 0x41A68FA5],
            [0x2A305D25, 0x9960FB22, 0xADDE234F, 0x06744CD6, 0xB433B228, 0x1D87785F, 0x572E5180, 0xB7184471,
             0xEA0DA5F2, 0xF9ED0C9F, 0x78F038D9, 0x14C8D635, 0x3CC1875A, 0x8607DEF1, 0xC75A2F86, 0x697FE683]);
  }

  lemma NoDoubleRounds(w: Words16)
    ensures DoubleRounds(w, 0) == w
  {
  }

  lemma {:induction false} SerializeAppend(a: seq<bv32>, b: seq<bv32>)
    ensures Serialize(a + b) == Serialize(a) + Serialize(b)
    decreases |a|
  {
    hide Store32LE;
    if a == [] {
      assert a + b == b;
    } else {
      assert (a + b)[1..] == a[1..] + b;
      SerializeAppend(a[1..], b);
    }
  }

  /** The first half of a block is made of its first eight words. */
  lemma FirstHalf(w: seq<bv32>)
    requires |w| == 16
    ensures Serialize(w)[..32] == Store32LE(w[0]) + Store32LE(w[1]) + Store32LE(w[2]) + Store32LE(w[3])
                                + (Store32LE(w[4]) + Store32LE(w[5]) + Store32LE(w[6]) + Store32LE(w[7]))
  {
    hide Store32LE, Serialize;
    assert w == w[..4] + (w[4..8] + w[8..]);
    SerializeAppend(w[..4], w[4..8] + w[8..]);
    SerializeAppend(w[4..8], w[8..]);
    FourWords(w[..4]);
    FourWords(w[4..8]);
  }

  lemma SumAt(a: Words16, b: Words16, i: nat)
    requires i < 16
    ensures AddWords(a, b)[i] == AddW(a[i], b[i])
  {
    hide AddW;
  }

  lemma SumOfExample(a: Words16, b: Words16)
    requires a == [0x2A305D25, 0x9960FB22, 0xADDE234F, 0x06744CD6, 0xB433B228, 0x1D87785F, 0x572E5180, 0xB7184471,
                   0xEA0DA5F2, 0xF9ED0C9F, 0x78F038D9, 0x14C8D635, 0x3CC1875A, 0x8607DEF1, 0xC75A2F86, 0x697FE683]
    requires b == [0x61707865, 0x3320646E, 0x79622D32, 0x6B206574, 0x83828180, 0x87868584, 0x8B8A8988, 0x8F8E8D8C,
                   0x93929190, 0x97969594, 0x9B9A9998, 0x9F9E9D9C, 0x00000000, 0x00000000, 0x03020100, 0x07060504]
    ensures AddWords(a, b)[..8] == [0x8BA0D58A, 0xCC815F90, 0x27405081, 0x7194B24A, 0x37B633A8, 0xA50DFDE3, 0xE2B8DB08,
          0x46A6D1FD]
  {
    hide AddWords;
    SumAt(a, b, 0);
    SumAt(a, b, 1);
    SumAt(a, b, 2);
    SumAt(a, b, 3);
    SumAt(a, b, 4);
    SumAt(a, b, 5);
    SumAt(a, b, 6);
    SumAt(a, b, 7);
  }

  lemma StoredExample()
    ensures Store32LE(0x8BA0D58A) + Store32LE(0xCC815F90) + Store32LE(0x27405081) + Store32LE(0x7194B24A)
         == HexBytes(0x8AD5A08B905F81CC815040274AB29471)
    ensures Store32LE(0x37B633A8) + Store32LE(0xA50DFDE3) + Store32LE(0xE2B8DB08) + Store32LE(0x46A6D1FD)
         == HexBytes(0xA833B637E3FD0DA508DBB8E2FDD1A646)
  {
  }

  lemma FirstEight(w: seq<bv32>)
    requires |w| == 16
    ensures w[..8] == [w[0], w[1], w[2], w[3], w[4], w[5], w[6], w[7]]
  {
  }

  lemma FirstBytes(st: Words16)
    ensures KeyStream(20, st, 0, 32) == BlockOf(20, st)[..32]
  {
    hide BlockOf, StateAt;
    assert StateAt(st, 0) == st by { NoStep(st); }
  }

  /** The one-time key of section 2.6.2. */
  lemma Section262()
    ensures OneTimeKey(InitialState(ExampleKey(), ExampleNonce())) ==
      HexBytes(0x8AD5A08B905F81CC815040274AB29471) + HexBytes(0xA833B637E3FD0DA508DBB8E2FDD1A646)
  {
    hide InitialState, DoubleRounds, AddWords, Serialize, KeyStream, Store32LE, HexBytes;
    var st: Words16 := [0x61707865, 0x3320646E, 0x79622D32, 0x6B206574, 0x83828180, 0x87868584, 0x8B8A8988, 0x8F8E8D8C,
                        0x93929190, 0x97969594, 0x9B9A9998, 0x9F9E9D9C, 0x00000000, 0x00000000, 0x03020100, 0x07060504];
    ExampleState();
    Rounds11To20();
    SumOfExample(DoubleRounds(st, 10), st);
    FirstBytes(st);
    FirstHalf(AddWords(DoubleRounds(st, 10), st));
    FirstEight(AddWords(DoubleRounds(st, 10), st));
    StoredExample();
  }
}
