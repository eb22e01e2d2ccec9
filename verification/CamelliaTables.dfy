/** The four S-boxes of Camellia, and how the last three come from the first: section 2.4.1 of RFC 3713. */
module CamelliaTables {
  import opened Words

  /** sbox1 */
  function SBox1(i: bv8): bv8 {
    ByteEntry(RowOf16(i >> 4,
        0x70822CECB327C0E5E4855735EA0CAE41,
        0x23EF6B934519A521ED0E4F4E1D6592BD,
        0x86B8AF8F7CEB1FCE3E30DC5F5EC50B1A,
        0xA6E139CAD5475D3DD9015AD651566C4D,
        0x8B0D9A66FBCCB02D74122B20F0B18499,
        0xDF4CCBC2347E76056DB7A931D11704D7,
        0x14583A61DE1B111C320F9C165318F222,
        0xFE44CFB2C3B57A912408E8A860FC6950,
        0xAAD0A07DA1896297545B1E95E0FF64D2,
        0x10C40048A3F775DB8A03E6DA093FDD94,
        0x875C8302CD4A90337367F6F39D7FBFE2,
        0x529BD826C837C63B81966F4B13BE632E,
        0xE979A78C9F6EBC8E29F5F9B62FFDB459,
        0x7898066AE74671BAD425AB4288A28DFA,
        0x7207B955F8EEAC0A36492A683C38F1A4,
        0x4028D37BBBC943C115E3ADF477C7809E), i)
  }

  /** sbox2 */
  function SBox2(i: bv8): bv8 {
    ByteEntry(RowOf16(i >> 4,
        0xE00558D9674E81CBC90BAE6AD5185D82,
        0x46DFD6278A324B42DB1C9E9C3ACA257B,
        0x0D715F1FF8D73E9D7C60B9BEBC8B1634,
        0x4DC37295AB8EBA7AB302B4ADA2ACD89A,
        0x171A35CCF799615AE8245640E1630933,
        0xBF98978568FCEC0ADA6F5362A32E08AF,
        0x28B074C2BD362238641E392CA630E544,
        0xFD889F65876BF4234810D151C0F9D2A0,
        0x55A141FA4313C42FA8B63C2BC1FFC8A5,
        0x2089009047EFEAB71506CDB5127EBB29,
        0x0FB807049B942166E6CEEDE73BFE7FC5,
        0xA437B14C916E8D76032DDE96267DC65C,
        0xD3F24F193FDC791D52EBF36D5EFB69B2,
        0xF0310CD4CF8CE275A94A578411451BF5,
        0xE40E73AAF1DD59146C9254D07870E349,
        0x8050A7F6779386832AC75BE9EE8F013D), i)
  }

  /** sbox3 */
  function SBox3(i: bv8): bv8 {
    ByteEntry(RowOf16(i >> 4,
        0x38411676D99360F272C2AB9A750657A0,
        0x91F7B5C9A28CD290F607A7278EB249DE,
        0x435CD7C73EF58F671F186EAF2FE2850D,
        0x53F09C65EAA3AE9EEC802D6BA82B36A6,
        0xC5864D33FD6658963A09951078D842CC,
        0xEF26E5611A3F3B82B6DBD498E88B02EB,
        0x0A2C1DB06F8D880E19874E0BA90C7911,
        0x7F22E759E1DA3DC812047454307EB428,
        0x556850BED0C431CB2AAD0FCA70FF3269,
        0x08620024D1FBBAED4581736D849FEE4A,
        0xC32EC101E6254899B9B37BF9CEBFDF71,
        0x29CD6C13649B639DC04BB7A5895FB117,
        0xF4BCD346CF375E4794FAFC5B97FE5AAC,
        0x3C4C0335F323B85D6A92D5214451C67D,
        0x3983DCAA7C7756051BA415341E1CF852,
        0x2014E9BDDDE4A1E08AF1D67ABBE3404F), i)
  }

  /** sbox4 */
  function SBox4(i: bv8): bv8 {
    ByteEntry(RowOf16(i >> 4,
        0x702CB3C0E457EAAE236B45A5ED4F1D92,
        0x86AF7C1F3EDC5E0BA639D55DD95A516C,
        0x8B9AFBB0742BF084DFCB34766DA9D104,
        0x143ADE11329C53F2FECFC37A24E86069,
        0xAAA0A162541EE0641000A3758AE609DD,
        0x8783CD9073F69DBF52D8C8C6816F1363,
        0xE9A79FBC29F92FB47806E771D4AB888D,
        0x72B9F8AC362A3CF140D3BB4315AD7780,
        0x82EC27E585350C41EF9319210E4E65BD,
        0xB88FEBCE305FC51AE1CA473D01D6564D,
        0x0D66CC2D1220B1994CC27E05B73117D7,
        0x58611B1C0F16182244B2B59108A8FC50,
        0xD07D89975B95FFD2C448F7DB03DA3F94,
        0x5C024A3367F37FE29B26373B964BBE2E,
        0x798C6E8EF5B6FD59986A46BA2542A2FA,
        0x0755EE0A496838A4287BC9C1E3F4C79E), i)
  }

  lemma SBox2Rotates(x: bv8)
    ensures SBox2(x) == Rol8(SBox1(x), 1)
  {
    var s, t := SBox2(x), Rol8(SBox1(x), 1);
  }

  lemma SBox3Rotates(x: bv8)
    ensures SBox3(x) == Rol8(SBox1(x), 7)
  {
    var s, t := SBox3(x), Rol8(SBox1(x), 7);
  }

  lemma SBox4Rotates(x: bv8)
    ensures SBox4(x) == SBox1(Rol8(x, 1))
  {
    var s, t := SBox4(x), SBox1(Rol8(x, 1));
  }
}
