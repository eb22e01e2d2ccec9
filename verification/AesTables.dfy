/** The constant tables of the AES implementation. */
module AesTables {
  import opened Words

  /** sbox */
  function SBox(i: bv8): bv8 {
    ByteEntry(RowOf16(i >> 4,
        0x637C777BF26B6FC53001672BFED7AB76,
        0xCA82C97DFA5947F0ADD4A2AF9CA472C0,
        0xB7FD9326363FF7CC34A5E5F171D83115,
        0x04C723C31896059A071280E2EB27B275,
        0x09832C1A1B6E5AA0523BD6B329E32F84,
        0x53D100ED20FCB15B6ACBBE394A4C58CF,
        0xD0EFAAFB434D338545F9027F503C9FA8,
        0x51A3408F929D38F5BCB6DA2110FFF3D2,
        0xCD0C13EC5F974417C4A77E3D645D1973,
        0x60814FDC222A908846EEB814DE5E0BDB,
        0xE0323A0A4906245CC2D3AC629195E479,
        0xE7C8376D8DD54EA96C56F4EA657AAE08,
        0xBA78252E1CA6B4C6E8DD741F4BBD8B8A,
        0x703EB5664803F60E613557B986C11D9E,
        0xE1F8981169D98E949B1E87E9CE5528DF,
        0x8CA1890DBFE6426841992D0FB054BB16), i)
  }

  /** isbox */
  function InvSBox(i: bv8): bv8 {
    ByteEntry(RowOf16(i >> 4,
        0x52096AD53036A538BF40A39E81F3D7FB,
        0x7CE339829B2FFF87348E4344C4DEE9CB,
        0x547B9432A6C2233DEE4C950B42FAC34E,
        0x082EA16628D924B2765BA2496D8BD125,
        0x72F8F66486689816D4A45CCC5D65B692,
        0x6C704850FDEDB9DA5E154657A78D9D84,
        0x90D8AB008CBCD30AF7E45805B8B34506,
        0xD02C1E8FCA3F0F02C1AFBD0301138A6B,
        0x3A9111414F67DCEA97F2CFCEF0B4E673,
        0x96AC7422E7AD3585E2F937E81C75DF6E,
        0x47F11A711D29C5896FB7620EAA18BE1B,
        0xFC563E4BC6D279209ADBC0FE78CD5AF4,
        0x1FDDA8338807C731B11210592780EC5F,
        0x60517FA919B54A0D2DE57A9F93C99CEF,
        0xA0E03B4DAE2AF5B0C8EBBB3C83539961,
        0x172B047EBA77D626E169146355210C7D), i)
  }

  /** te */
  function Te(i: bv8): bv32 {
    WordEntry(RowOf32(i >> 3,
        0xA56363C6847C7CF8997777EE8D7B7BF60DF2F2FFBD6B6BD6B16F6FDE54C5C591,
        0x5030306003010102A96767CE7D2B2B5619FEFEE762D7D7B5E6ABAB4D9A7676EC,
        0x45CACA8F9D82821F40C9C989877D7DFA15FAFAEFEB5959B2C947478E0BF0F0FB,
        0xECADAD4167D4D4B3FDA2A25FEAAFAF45BF9C9C23F7A4A453967272E45BC0C09B,
        0xC2B7B7751CFDFDE1AE93933D6A26264C5A36366C413F3F7E02F7F7F54FCCCC83,
        0x5C343468F4A5A55134E5E5D108F1F1F9937171E273D8D8AB533131623F15152A,
        0x0C04040852C7C795652323465EC3C39D28181830A19696370F05050AB59A9A2F,
        0x0907070E361212249B80801B3DE2E2DF26EBEBCD6927274ECDB2B27F9F7575EA,
        0x1B0909129E83831D742C2C582E1A1A342D1B1B36B26E6EDCEE5A5AB4FBA0A05B,
        0xF65252A44D3B3B7661D6D6B7CEB3B37D7B2929523EE3E3DD712F2F5E97848413,
        0xF55353A668D1D1B9000000002CEDEDC1602020401FFCFCE3C8B1B179ED5B5BB6,
        0xBE6A6AD446CBCB8DD9BEBE674B393972DE4A4A94D44C4C98E85858B04ACFCF85,
        0x6BD0D0BB2AEFEFC5E5AAAA4F16FBFBEDC5434386D74D4D9A5533336694858511,
        0xCF45458A10F9F9E906020204817F7FFEF05050A0443C3C78BA9F9F25E3A8A84B,
        0xF35151A2FEA3A35DC04040808A8F8F05AD92923FBC9D9D214838387004F5F5F1,
        0xDFBCBC63C1B6B67775DADAAF63212142301010201AFFFFE50EF3F3FD6DD2D2BF,
        0x4CCDCD81140C0C18351313262FECECC3E15F5FBEA2979735CC4444883917172E,
        0x57C4C493F2A7A755827E7EFC473D3D7AAC6464C8E75D5DBA2B191932957373E6,
        0xA06060C098818119D14F4F9E7FDCDCA3662222447E2A2A54AB90903B8388880B,
        0xCA46468C29EEEEC7D3B8B86B3C14142879DEDEA7E25E5EBC1D0B0B1676DBDBAD,
        0x3BE0E0DB563232644E3A3A741E0A0A14DB4949920A06060C6C242448E45C5CB8,
        0x5DC2C29F6ED3D3BDEFACAC43A66262C4A8919139A495953137E4E4D38B7979F2,
        0x32E7E7D543C8C88B5937376EB76D6DDA8C8D8D0164D5D5B1D24E4E9CE0A9A949,
        0xB46C6CD8FA5656AC07F4F4F325EAEACFAF6565CA8E7A7AF4E9AEAE4718080810,
        0xD5BABA6F887878F06F25254A722E2E5C241C1C38F1A6A657C7B4B47351C6C697,
        0x23E8E8CB7CDDDDA19C7474E8211F1F3EDD4B4B96DCBDBD61868B8B0D858A8A0F,
        0x907070E0423E3E7CC4B5B571AA6666CCD84848900503030601F6F6F7120E0E1C,
        0xA36161C25F35356AF95757AED0B9B9699186861758C1C199271D1D3AB99E9E27,
        0x38E1E1D913F8F8EBB398982B33111122BB6969D270D9D9A9898E8E07A7949433,
        0xB69B9B2D221E1E3C9287871520E9E9C949CECE87FF5555AA782828507ADFDFA5,
        0x8F8C8C03F8A1A15980898909170D0D1ADABFBF6531E6E6D7C6424284B86868D0,
        0xC3414182B0999929772D2D5A110F0F1ECBB0B07BFC5454A8D6BBBB6D3A16162C), i)
  }

  /** td */
  function Td(i: bv8): bv32 {
    WordEntry(RowOf32(i >> 3,
        0x50A7F4515365417EC3A4171A965E273ACB6BAB3BF1459D1FAB58FAAC9303E34B,
        0x55FA3020F66D76AD9176CC88254C02F5FCD7E54FD7CB2AC5804435268FA362B5,
        0x495AB1DE671BBA25980EEA45E1C0FE5D02752FC312F04C81A397468DC6F9D36B,
        0xE75F8F03959C9215EB7A6DBFDA5952952D83BED4D32174582969E04944C8C98E,
        0x6A89C27578798EF46B3E5899DD71B927B64FE1BE17AD88F066AC20C9B43ACE7D,
        0x184ADF6382311AE560335197457F5362E07764B184AE6BBB1CA081FE942B08F9,
        0x5868487019FD458F876CDE94B7F87B5223D373ABE2024B72578F1FE32AAB5566,
        0x0728EBB203C2B52F9A7BC586A50837D3F2872830B2A5BF23BA6A03025C8216ED,
        0x2B1CCF8A92B479A7F0F207F3A1E2694ECDF4DA65D5BE05061F6234D18AFEA6C4,
        0x9D532E34A055F3A232E18A0575EBF6A439EC830BAAEF6040069F715E51106EBD,
        0xF98A213E3D06DD96AE053EDD46BDE64DB58D5491055DC4716FD40604FF155060,
        0x24FB981997E9BDD6CC434089779ED967BD42E8B0888B8907385B19E7DBEEC879,
        0x470A7CA1E90F427CC91E84F8000000008386800948ED2B32AC70111E4E725A6C,
        0xFBFF0EFD5638850F1ED5AE3D27392D3664D90F0A21A65C68D1545B9B3A2E3624,
        0xB1670A0C0FE75793D296EEB49E919B1B4FC5C080A220DC61694B775A161A121C,
        0x0ABA93E2E52AA0C043E0223C1D171B120B0D090EADC78BF2B9A8B62DC8A91E14,
        0x8519F1574C0775AFBBDD99EEFD607FA39F2601F7BCF5725CC53B6644347EFB5B,
        0x7629438BDCC623CB68FCEDB663F1E4B8CADC31D710856342402297132011C684,
        0x7D244A85F83DBBD21132F9AE6DA129C74B2F9E1DF330B2DCEC52860DD0E3C177,
        0x6C16B32B99B970A9FA4894112264E947C48CFCA81A3FF0A0D82C7D56EF903322,
        0xC74E4987C1D138D9FEA2CA8C360BD498CF81F5A628DE7AA5268EB7DAA4BFAD3F,
        0xE49D3A2C0D9278509BCC5F6A62467E54C2138DF6E8B8D8905EF7392EF5AFC382,
        0xBE805D9F7C93D069A92DD56FB31225CF3B99ACC8A77D18106E639CE87BBB3BDB,
        0x097826CDF418596E01B79AECA89A4F83656E95E67EE6FFAA08CFBC21E6E815EF,
        0xD99BE7BACE366F4AD4099FEAD67CB029AFB2A43131233F2A3094A5C6C066A235,
        0x37BC4E74A6CA82FCB0D090E015D8A7334A9804F1F7DAEC410E50CD7F2FF69117,
        0x8DD64D764DB0EF43544DAACCDF0496E4E3B5D19E1B886A4CB81F2CC17F516546,
        0x04EA5E9D5D358C01737487FA2E410BFB5A1D67B352D2DB92335610E91347D66D,
        0x8C61D79A7A0CA1378E14F859893C13EBEE27A9CE35C961B7EDE51CE13CB1477A,
        0x59DFD29C3F73F25579CE1418BF37C773EACDF7535BAAFD5F146F3DDF86DB4478,
        0x81F3AFCA3EC468B92C3424385F40A3C272C31D160C25E2BC8B493C2841950DFF,
        0x7101A839DEB30C089CE4B4D890C156646184CB7B70B632D5745C6C484257B8D0), i)
  }
}
