/** The S-boxes sb2 and sb4 of ARIA; sb1 and sb3 hold the same bytes as the S-boxes of AES. */
module AriaTables {
  import opened Words

  /** sb2 */
  function SB2(i: bv8): bv8 {
    ByteEntry(RowOf16(i >> 4,
        0xE24E54FC94C24ACC620D6A463C4D8BD1,
        0x5EFA64CBB497BE2BBC772E03D31959C1,
        0x1D06416B55F09969EA9C18AE63DFE7BB,
        0x007366FB964C85E43A0945AA0FEE10EB,
        0x2D7FF429ACCFAD918D78C895F92FCECD,
        0x087A88385C832A2847DBB8C793A41253,
        0xFF870E3136215848018E377432CAE9B1,
        0xB7AB0CD7C4564226079860D9B6B91140,
        0xEC208CBDA0C984044923F14F501F13DC,
        0xD8C09E57E3C37B653B028F3EE82592E5,
        0x15DDFD17A9BFD49A7EC53967FE769D43,
        0xA7E1D0F568F21B347005A38AD57986A8,
        0x30C6514B1EA627F635D26E2416825FDA,
        0xE675A2EF2CB21C9F5D6F800A72449B6C,
        0x900B5B337D5A52F361A1F7B0D63F7C6D,
        0xED14E0A53D22B3F889DE711AAFBAB581), i)
  }

  /** sb4 */
  function SB4(i: bv8): bv8 {
    ByteEntry(RowOf16(i >> 4,
        0x3068991B87B921785039DBE17209623C,
        0x3E7E5E8EF1A0CCA32A1DFBB6D620C48D,
        0x8165F589CB9D77C657435617D4401A4D,
        0xC0636CE3B7C8646A53AA38980CF49BED,
        0x7F2276AFDD3A0B58678806C3350D018B,
        0x8CC2E65F02247593661EE5E254D810CE,
        0x7AE8082C129732ABB4270A23DFEFCAD9,
        0xB8FADC316BD1AD1949BD5196EEE4A841,
        0xDAFFCD558636BE6152F8BB0E8248699A,
        0xE0479E5C044B34157926A7DE29AE92D7,
        0x84E9D2BA5DF3C5B0BFA43B7144462BFC,
        0xEB6FD5F614FE7C705A7DFD2F188316A5,
        0x911F059574A9C15B4A856D13074F4E45,
        0xB20FC91CA6BCEC73907BCF598FA1F92D,
        0xF2B10094379FD02E9C6E283F80F03DD3,
        0x258AB5E742B3C7EAF74C113303A2AC60), i)
  }

  lemma SB4Inverts(x: bv8)
    ensures SB4(SB2(x)) == x
  {
    var s, t := SB2(x), SB4(SB2(x));
  }

  lemma SB2Inverts(x: bv8)
    ensures SB2(SB4(x)) == x
  {
    var s, t := SB4(x), SB2(SB4(x));
  }
}
