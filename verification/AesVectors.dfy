/** Shape and published values that fix the parts of AES which the code and its specification share. */
module AesVectors {
  import opened Words
  import opened HexBlocks
  import opened AesTables
  import opened AesField
  import opened AesSpec
  import opened AesWords
  import opened Aes

  // ----- shape, for every input ------------------------------------------------------------------------

  /** RotWord, section 5.2: the bytes of a word from the second on, then the first. */
  lemma RotWordTurnsLeft(c: Col)
    ensures ColBytes(RotCol(c)) == ColBytes(c)[1..] + ColBytes(c)[..1]
  {
  }

  function ByteAt(s: State, row: nat, column: nat): bv8
    requires row < 4 && column < 4
  {
    ColBytes([s.c0, s.c1, s.c2, s.c3][column])[row]
  }

  /** ShiftRows, section 5.1.2: row r moves left by r places. */
  lemma ShiftRowsTurnsLeft(s: State, row: nat, column: nat)
    requires row < 4 && column < 4
    ensures ByteAt(ShiftRows(s), row, column) == ByteAt(s, row, (column + row) % 4)
  {
    match row
    case 0 =>
    case 1 =>
    case 2 =>
    case 3 =>
  }

  /** Byte i of a block is in row i mod 4 of column i / 4, section 3.4. */
  lemma BlockIsColumns(b: seq<bv8>, i: nat)
    requires |b| == 16 && i < 16
    ensures ByteAt(StateOf(b), i % 4, i / 4) == b[i]
  {
    match i / 4
    case 0 =>
    case 1 =>
    case 2 =>
    case 3 =>
  }

  /** Nr = Nk + 6, section 5. */
  lemma RoundCount(keyLen: nat)
    requires keyLen in {16, 24, 32}
    ensures RoundsFor(keyLen) == keyLen / 4 + 6
  {
  }

  // ----- Appendix A ---------------------------------------------------------------------------------------

  function ColFrom(x: bv128, shift: bv8): Col
    requires 24 <= shift < 128
  {
    Col(ByteFrom(x, shift), ByteFrom(x, shift - 8), ByteFrom(x, shift - 16), ByteFrom(x, shift - 24))
  }

  /** A state written as the number of its sixteen bytes. */
  function Hex(x: bv128): State {
    State(ColFrom(x, 120), ColFrom(x, 88), ColFrom(x, 56), ColFrom(x, 24))
  }

  lemma WordStep(key: seq<Col>, i: nat)
    requires |key| in {4, 6, 8} && i >= |key|
    ensures i % |key| == 0 ==>
      KeyWord(key, i) == XorCol(XorCol(SubCol(RotCol(KeyWord(key, i - 1))), Col(RconByte(i / |key|), 0, 0, 0)),
                                KeyWord(key, i - |key|))
    ensures i % |key| != 0 && !(|key| == 8 && i % |key| == 4) ==>
      KeyWord(key, i) == XorCol(KeyWord(key, i - 1), KeyWord(key, i - |key|))
    ensures |key| == 8 && i % |key| == 4 ==>
      KeyWord(key, i) == XorCol(SubCol(KeyWord(key, i - 1)), KeyWord(key, i - |key|))
  {
    hide SubCol, RotCol, XorCol, RconByte;
  }

  const KEY_128: seq<Col> := [
    Col(0x2B, 0x7E, 0x15, 0x16), Col(0x28, 0xAE, 0xD2, 0xA6),
    Col(0xAB, 0xF7, 0x15, 0x88), Col(0x09, 0xCF, 0x4F, 0x3C)
  ]
  const KEY_192: seq<Col> := [
    Col(0x8E, 0x73, 0xB0, 0xF7), Col(0xDA, 0x0E, 0x64, 0x52),
    Col(0xC8, 0x10, 0xF3, 0x2B), Col(0x80, 0x90, 0x79, 0xE5),
    Col(0x62, 0xF8, 0xEA, 0xD2), Col(0x52, 0x2C, 0x6B, 0x7B)
  ]
  const KEY_256: seq<Col> := [
    Col(0x60, 0x3D, 0xEB, 0x10), Col(0x15, 0xCA, 0x71, 0xBE),
    Col(0x2B, 0x73, 0xAE, 0xF0), Col(0x85, 0x7D, 0x77, 0x81),
    Col(0x1F, 0x35, 0x2C, 0x07), Col(0x3B, 0x61, 0x08, 0xD7),
    Col(0x2D, 0x98, 0x10, 0xA3), Col(0x09, 0x14, 0xDF, 0xF4)
  ]

  /** The first derived word of Appendices A.1, A.2 and A.3. */
  lemma FirstDerivedWords()
    ensures KeyWord(KEY_128, 4) == Col(0xA0, 0xFA, 0xFE, 0x17)
    ensures KeyWord(KEY_192, 6) == Col(0xFE, 0x0C, 0x91, 0xF7)
    ensures KeyWord(KEY_256, 8) == Col(0x9B, 0xA3, 0x54, 0x11)
  {
    WordStep(KEY_128, 4);
    WordStep(KEY_192, 6);
    WordStep(KEY_256, 8);
  }

  /** The word of Appendix A.3 that is substituted and not rotated. */
  lemma SubstitutedWord()
    ensures KeyWord(KEY_256, 12) == Col(0xA8, 0xB0, 0x9C, 0x1A)
  {
    FirstDerivedWords();
    WordStep(KEY_256, 9);
    WordStep(KEY_256, 10);
    WordStep(KEY_256, 11);
    WordStep(KEY_256, 12);
    hide KeyWord;
    assert KeyWord(KEY_256, 11) == Col(0x20, 0x67, 0xFC, 0xDE);
  }

  /** Round key r of a four-word key. */
  function RoundKey(key: seq<Col>, r: nat): State
    requires |key| == 4
  {
    State(KeyWord(key, 4 * r), KeyWord(key, 4 * r + 1), KeyWord(key, 4 * r + 2), KeyWord(key, 4 * r + 3))
  }

  /** The round key after k. */
  function NextKey(k: State, rcon: bv8): State {
    var w := XorCol(XorCol(SubCol(RotCol(k.c3)), Col(rcon, 0, 0, 0)), k.c0);
    var x := XorCol(w, k.c1);
    var y := XorCol(x, k.c2);
    State(w, x, y, XorCol(y, k.c3))
  }

  lemma QuarterOf(r: nat, j: nat)
    requires j < 4
    ensures (4 * r + 4 + j) % 4 == j && (4 * r + 4 + j) / 4 == r + 1
  {
  }

  /** Word 4 * r + j of a four-word key. */
  lemma RoundWord(key: seq<Col>, r: nat, j: nat)
    requires |key| == 4 && j < 4
    ensures j == 0 ==>
      KeyWord(key, 4 * r + 4) == XorCol(XorCol(SubCol(RotCol(KeyWord(key, 4 * r + 3))), Col(RconByte(r + 1), 0, 0, 0)),
                                        KeyWord(key, 4 * r))
    ensures j > 0 ==> KeyWord(key, 4 * r + 4 + j) == XorCol(KeyWord(key, 4 * r + 3 + j), KeyWord(key, 4 * r + j))
  {
    hide KeyWord, SubCol, RotCol, XorCol, RconByte;
    QuarterOf(r, j);
    WordStep(key, 4 * r + 4 + j);
  }

  lemma NextRoundKey(key: seq<Col>, r: nat)
    requires |key| == 4
    ensures RoundKey(key, r + 1) == NextKey(RoundKey(key, r), RconByte(r + 1))
  {
    hide KeyWord, SubCol, RotCol, XorCol, RconByte;
    RoundWord(key, r, 0);
    RoundWord(key, r, 1);
    RoundWord(key, r, 2);
    RoundWord(key, r, 3);
  }

  // ----- Appendix B -----------------------------------------------------------------------------------------

  /** The round that turns s into t under key k, by way of its substitution u. */
  predicate IsRound(s: State, u: State, k: State, t: State) {
    SubBytes(s) == u && AddKey(MixColumns(ShiftRows(u)), k) == t
  }

  lemma Keys1To3()
    ensures NextKey(Hex(0x2B7E151628AED2A6ABF7158809CF4F3C), 0x01) == Hex(0xA0FAFE1788542CB123A339392A6C7605)
    ensures NextKey(Hex(0xA0FAFE1788542CB123A339392A6C7605), 0x02) == Hex(0xF2C295F27A96B9435935807A7359F67F)
    ensures NextKey(Hex(0xF2C295F27A96B9435935807A7359F67F), 0x04) == Hex(0x3D80477D4716FE3E1E237E446D7A883B)
  {
  }

  lemma Keys4To6()
    ensures NextKey(Hex(0x3D80477D4716FE3E1E237E446D7A883B), 0x08) == Hex(0xEF44A541A8525B7FB671253BDB0BAD00)
    ensures NextKey(Hex(0xEF44A541A8525B7FB671253BDB0BAD00), 0x10) == Hex(0xD4D1C6F87C839D87CAF2B8BC11F915BC)
    ensures NextKey(Hex(0xD4D1C6F87C839D87CAF2B8BC11F915BC), 0x20) == Hex(0x6D88A37A110B3EFDDBF98641CA0093FD)
  {
  }

  lemma Keys7To8()
    ensures NextKey(Hex(0x6D88A37A110B3EFDDBF98641CA0093FD), 0x40) == Hex(0x4E54F70E5F5FC9F384A64FB24EA6DC4F)
    ensures NextKey(Hex(0x4E54F70E5F5FC9F384A64FB24EA6DC4F), 0x80) == Hex(0xEAD27321B58DBAD2312BF5607F8D292F)
  {
  }

  lemma Keys9To10()
    ensures NextKey(Hex(0xEAD27321B58DBAD2312BF5607F8D292F), 0x1B) == Hex(0xAC7766F319FADC2128D12941575C006E)
    ensures NextKey(Hex(0xAC7766F319FADC2128D12941575C006E), 0x36) == Hex(0xD014F9A8C9EE2589E13F0CC8B6630CA6)
  {
  }

  lemma Round1()
    ensures IsRound(Hex(0x193DE3BEA0F4E22B9AC68D2AE9F84808), Hex(0xD42711AEE0BF98F1B8B45DE51E415230),
                    Hex(0xA0FAFE1788542CB123A339392A6C7605), Hex(0xA49C7FF2689F352B6B5BEA43026A5049))
  {
  }

  lemma Round2()
    ensures IsRound(Hex(0xA49C7FF2689F352B6B5BEA43026A5049), Hex(0x49DED28945DB96F17F39871A7702533B),
                    Hex(0xF2C295F27A96B9435935807A7359F67F), Hex(0xAA8F5F0361DDE3EF82D24AD26832469A))
  {
  }

  lemma Round3()
    ensures IsRound(Hex(0xAA8F5F0361DDE3EF82D24AD26832469A), Hex(0xAC73CF7BEFC111DF13B5D6B545235AB8),
                    Hex(0x3D80477D4716FE3E1E237E446D7A883B), Hex(0x486C4EEE671D9D0D4DE3B138D65F58E7))
  {
  }

  lemma Round4()
    ensures IsRound(Hex(0x486C4EEE671D9D0D4DE3B138D65F58E7), Hex(0x52502F2885A45ED7E311C807F6CF6A94),
                    Hex(0xEF44A541A8525B7FB671253BDB0BAD00), Hex(0xE0927FE8C86363C0D9B1355085B8BE01))
  {
  }

  lemma Round5()
    ensures IsRound(Hex(0xE0927FE8C86363C0D9B1355085B8BE01), Hex(0xE14FD29BE8FBFBBA35C89653976CAE7C),
                    Hex(0xD4D1C6F87C839D87CAF2B8BC11F915BC), Hex(0xF1006F55C1924CEF7CC88B325DB5D50C))
  {
  }

  lemma Round6()
    ensures IsRound(Hex(0xF1006F55C1924CEF7CC88B325DB5D50C), Hex(0xA163A8FC784F29DF10E83D234CD503FE),
                    Hex(0x6D88A37A110B3EFDDBF98641CA0093FD), Hex(0x260E2E173D41B77DE86472A9FDD28B25))
  {
  }

  lemma Round7()
    ensures IsRound(Hex(0x260E2E173D41B77DE86472A9FDD28B25), Hex(0xF7AB31F02783A9FF9B4340D354B53D3F),
                    Hex(0x4E54F70E5F5FC9F384A64FB24EA6DC4F), Hex(0x5A4142B11949DC1FA3E019657A8C040C))
  {
  }

  lemma Round8()
    ensures IsRound(Hex(0x5A4142B11949DC1FA3E019657A8C040C), Hex(0xBE832CC8D43B86C00AE1D44DDA64F2FE),
                    Hex(0xEAD27321B58DBAD2312BF5607F8D292F), Hex(0xEA835CF00445332D655D98AD8596B0C5))
  {
  }

  lemma Round9()
    ensures IsRound(Hex(0xEA835CF00445332D655D98AD8596B0C5), Hex(0x87EC4A8CF26EC3D84D4C46959790E7A6),
                    Hex(0xAC7766F319FADC2128D12941575C006E), Hex(0xEB40F21E592E38848BA113E71BC342D2))
  {
  }

  lemma LastRound()
    ensures SubBytes(Hex(0xEB40F21E592E38848BA113E71BC342D2)) == Hex(0xE9098972CB31075F3D327D94AF2E2CB5)
    ensures AddKey(ShiftRows(Hex(0xE9098972CB31075F3D327D94AF2E2CB5)), Hex(0xD014F9A8C9EE2589E13F0CC8B6630CA6))
          == Hex(0x3925841D02DC09FBDC118597196A0B32)
    ensures AddKey(Hex(0x3243F6A8885A308D313198A2E0370734), Hex(0x2B7E151628AED2A6ABF7158809CF4F3C))
          == Hex(0x193DE3BEA0F4E22B9AC68D2AE9F84808)
  {
  }

  lemma FirstKey()
    ensures RoundKey(KEY_128, 0) == Hex(0x2B7E151628AED2A6ABF7158809CF4F3C)
  {
  }

  /** The eleven round keys of Appendix A.1. */
  lemma AppendixA1()
    ensures RoundKey(KEY_128, 0) == Hex(0x2B7E151628AED2A6ABF7158809CF4F3C)
    ensures RoundKey(KEY_128, 1) == Hex(0xA0FAFE1788542CB123A339392A6C7605)
    ensures RoundKey(KEY_128, 2) == Hex(0xF2C295F27A96B9435935807A7359F67F)
    ensures RoundKey(KEY_128, 3) == Hex(0x3D80477D4716FE3E1E237E446D7A883B)
    ensures RoundKey(KEY_128, 4) == Hex(0xEF44A541A8525B7FB671253BDB0BAD00)
    ensures RoundKey(KEY_128, 5) == Hex(0xD4D1C6F87C839D87CAF2B8BC11F915BC)
    ensures RoundKey(KEY_128, 6) == Hex(0x6D88A37A110B3EFDDBF98641CA0093FD)
    ensures RoundKey(KEY_128, 7) == Hex(0x4E54F70E5F5FC9F384A64FB24EA6DC4F)
    ensures RoundKey(KEY_128, 8) == Hex(0xEAD27321B58DBAD2312BF5607F8D292F)
    ensures RoundKey(KEY_128, 9) == Hex(0xAC7766F319FADC2128D12941575C006E)
    ensures RoundKey(KEY_128, 10) == Hex(0xD014F9A8C9EE2589E13F0CC8B6630CA6)
  {
    FirstKey();
    RconBytes();
    hide *;
    Keys1To3();
    Keys4To6();
    Keys7To8();
    Keys9To10();
    assert |KEY_128| == 4 by { KeyShape(); }
    NextRoundKey(KEY_128, 0);
    NextRoundKey(KEY_128, 1);
    NextRoundKey(KEY_128, 2);
    NextRoundKey(KEY_128, 3);
    NextRoundKey(KEY_128, 4);
    NextRoundKey(KEY_128, 5);
    NextRoundKey(KEY_128, 6);
    NextRoundKey(KEY_128, 7);
    NextRoundKey(KEY_128, 8);
    NextRoundKey(KEY_128, 9);
  }

  lemma KeyShape()
    ensures |KEY_128| == 4
  {
  }

  lemma StartRounds(s: State, keys: seq<State>)
    requires |keys| >= 2
    ensures Rounds(s, keys, 1) == AddKey(s, keys[0])
    ensures Cipher(s, keys) == AddKey(ShiftRows(SubBytes(Rounds(s, keys, |keys| - 1))), keys[|keys| - 1])
  {
    hide AddKey, ShiftRows, SubBytes, MixColumns;
  }

  lemma TakeRound(s: State, keys: seq<State>, r: nat, t: State, u: State, k: State, v: State)
    requires 1 <= r < |keys| && Rounds(s, keys, r) == t && keys[r] == k && IsRound(t, u, k, v)
    ensures Rounds(s, keys, r + 1) == v
  {
    hide AddKey, ShiftRows, SubBytes, MixColumns;
  }

  lemma ScheduleIsRoundKeys(key: seq<Col>, nr: nat, r: nat)
    requires |key| == 4 && r <= nr
    ensures Schedule(key, nr)[r] == RoundKey(key, r)
  {
    hide KeyWord;
  }

  /** The cipher example of Appendix B. */
  lemma AppendixB()
    ensures Cipher(Hex(0x3243F6A8885A308D313198A2E0370734), Schedule(KEY_128, 10))
          == Hex(0x3925841D02DC09FBDC118597196A0B32)
  {
    hide *;
    KeyShape();
    AppendixA1();
    LastRound();
    var s, keys := Hex(0x3243F6A8885A308D313198A2E0370734), Schedule(KEY_128, 10);
    StartRounds(s, keys);
    ScheduleIsRoundKeys(KEY_128, 10, 0);
    ScheduleIsRoundKeys(KEY_128, 10, 1);
    ScheduleIsRoundKeys(KEY_128, 10, 2);
    ScheduleIsRoundKeys(KEY_128, 10, 3);
    ScheduleIsRoundKeys(KEY_128, 10, 4);
    ScheduleIsRoundKeys(KEY_128, 10, 5);
    ScheduleIsRoundKeys(KEY_128, 10, 6);
    ScheduleIsRoundKeys(KEY_128, 10, 7);
    ScheduleIsRoundKeys(KEY_128, 10, 8);
    ScheduleIsRoundKeys(KEY_128, 10, 9);
    ScheduleIsRoundKeys(KEY_128, 10, 10);
    Round1();
    TakeRound(s, keys, 1, Hex(0x193DE3BEA0F4E22B9AC68D2AE9F84808), Hex(0xD42711AEE0BF98F1B8B45DE51E415230),
              Hex(0xA0FAFE1788542CB123A339392A6C7605), Hex(0xA49C7FF2689F352B6B5BEA43026A5049));
    Round2();
    TakeRound(s, keys, 2, Hex(0xA49C7FF2689F352B6B5BEA43026A5049), Hex(0x49DED28945DB96F17F39871A7702533B),
              Hex(0xF2C295F27A96B9435935807A7359F67F), Hex(0xAA8F5F0361DDE3EF82D24AD26832469A));
    Round3();
    TakeRound(s, keys, 3, Hex(0xAA8F5F0361DDE3EF82D24AD26832469A), Hex(0xAC73CF7BEFC111DF13B5D6B545235AB8),
              Hex(0x3D80477D4716FE3E1E237E446D7A883B), Hex(0x486C4EEE671D9D0D4DE3B138D65F58E7));
    Round4();
    TakeRound(s, keys, 4, Hex(0x486C4EEE671D9D0D4DE3B138D65F58E7), Hex(0x52502F2885A45ED7E311C807F6CF6A94),
              Hex(0xEF44A541A8525B7FB671253BDB0BAD00), Hex(0xE0927FE8C86363C0D9B1355085B8BE01));
    Round5();
    TakeRound(s, keys, 5, Hex(0xE0927FE8C86363C0D9B1355085B8BE01), Hex(0xE14FD29BE8FBFBBA35C89653976CAE7C),
              Hex(0xD4D1C6F87C839D87CAF2B8BC11F915BC), Hex(0xF1006F55C1924CEF7CC88B325DB5D50C));
    Round6();
    TakeRound(s, keys, 6, Hex(0xF1006F55C1924CEF7CC88B325DB5D50C), Hex(0xA163A8FC784F29DF10E83D234CD503FE),
              Hex(0x6D88A37A110B3EFDDBF98641CA0093FD), Hex(0x260E2E173D41B77DE86472A9FDD28B25));
    Round7();
    TakeRound(s, keys, 7, Hex(0x260E2E173D41B77DE86472A9FDD28B25), Hex(0xF7AB31F02783A9FF9B4340D354B53D3F),
              Hex(0x4E54F70E5F5FC9F384A64FB24EA6DC4F), Hex(0x5A4142B11949DC1FA3E019657A8C040C));
    Round8();
    TakeRound(s, keys, 8, Hex(0x5A4142B11949DC1FA3E019657A8C040C), Hex(0xBE832CC8D43B86C00AE1D44DDA64F2FE),
              Hex(0xEAD27321B58DBAD2312BF5607F8D292F), Hex(0xEA835CF00445332D655D98AD8596B0C5));
    Round9();
    TakeRound(s, keys, 9, Hex(0xEA835CF00445332D655D98AD8596B0C5), Hex(0x87EC4A8CF26EC3D84D4C46959790E7A6),
              Hex(0xAC7766F319FADC2128D12941575C006E), Hex(0xEB40F21E592E38848BA113E71BC342D2));
  }

  // ----- the example on a context ---------------------------------------------------------------------------

  lemma HexState(x: bv128)
    ensures StateOf(HexBytes(x)) == Hex(x)
  {
    hide ByteFrom;
  }

  lemma HexStateBytes(x: bv128)
    ensures Bytes(Hex(x)) == HexBytes(x)
  {
    hide ByteFrom;
  }

  lemma HexColumns(x: bv128)
    ensures KeyCols(HexBytes(x)) == [Hex(x).c0, Hex(x).c1, Hex(x).c2, Hex(x).c3]
  {
    hide ByteFrom;
  }

  lemma KeyIsHex()
    ensures KEY_128 == [Hex(0x2B7E151628AED2A6ABF7158809CF4F3C).c0, Hex(0x2B7E151628AED2A6ABF7158809CF4F3C).c1,
                        Hex(0x2B7E151628AED2A6ABF7158809CF4F3C).c2, Hex(0x2B7E151628AED2A6ABF7158809CF4F3C).c3]
  {
  }

  /** aesInit and aesEncryptBlock on the example. */
  method EncryptAppendixB() returns (output: seq<bv8>)
    ensures output == HexBytes(0x3925841D02DC09FBDC118597196A0B32)
  {
    hide *;
    var context := new AesContext();
    var status := context.Init(HexBytes(0x2B7E151628AED2A6ABF7158809CF4F3C));
    output := context.EncryptBlock(HexBytes(0x3243F6A8885A308D313198A2E0370734));
    HexColumns(0x2B7E151628AED2A6ABF7158809CF4F3C);
    HexState(0x3243F6A8885A308D313198A2E0370734);
    HexStateBytes(0x3925841D02DC09FBDC118597196A0B32);
    KeyIsHex();
    AppendixB();
    context.Shape(HexBytes(0x3243F6A8885A308D313198A2E0370734));
    assert RoundsFor(16) == 10 by { RoundCount(16); }
  }
}
