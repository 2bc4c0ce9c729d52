/** The Huffman code of Appendix B of RFC 7541, as core/hpack.go and
    core/fp_huffman.go both list it, and why no code word begins another. */
module HuffmanCode {
  import opened BitStrings

  datatype Code = Code(code: nat, bits: nat)

  const EOS := 256

  /** Sixteen symbols a row; the end-of-string symbol stands alone. */
  function Row(r: nat): (row: seq<Code>)
    requires r <= 16
    ensures |row| == if r == 16 then 1 else 16
  {
    match r
    case 0 => [
      Code(0x1ff8, 13), Code(0x7fffd8, 23), Code(0xfffffe2, 28), Code(0xfffffe3, 28),
      Code(0xfffffe4, 28), Code(0xfffffe5, 28), Code(0xfffffe6, 28), Code(0xfffffe7, 28),
      Code(0xfffffe8, 28), Code(0xffffea, 24), Code(0x3ffffffc, 30), Code(0xfffffe9, 28),
      Code(0xfffffea, 28), Code(0x3ffffffd, 30), Code(0xfffffeb, 28), Code(0xfffffec, 28)]
    case 1 => [
      Code(0xfffffed, 28), Code(0xfffffee, 28), Code(0xfffffef, 28), Code(0xffffff0, 28),
      Code(0xffffff1, 28), Code(0xffffff2, 28), Code(0x3ffffffe, 30), Code(0xffffff3, 28),
      Code(0xffffff4, 28), Code(0xffffff5, 28), Code(0xffffff6, 28), Code(0xffffff7, 28),
      Code(0xffffff8, 28), Code(0xffffff9, 28), Code(0xffffffa, 28), Code(0xffffffb, 28)]
    case 2 => [
      Code(0x14, 6), Code(0x3f8, 10), Code(0x3f9, 10), Code(0xffa, 12),
      Code(0x1ff9, 13), Code(0x15, 6), Code(0xf8, 8), Code(0x7fa, 11),
      Code(0x3fa, 10), Code(0x3fb, 10), Code(0xf9, 8), Code(0x7fb, 11),
      Code(0xfa, 8), Code(0x16, 6), Code(0x17, 6), Code(0x18, 6)]
    case 3 => [
      Code(0x0, 5), Code(0x1, 5), Code(0x2, 5), Code(0x19, 6),
      Code(0x1a, 6), Code(0x1b, 6), Code(0x1c, 6), Code(0x1d, 6),
      Code(0x1e, 6), Code(0x1f, 6), Code(0x5c, 7), Code(0xfb, 8),
      Code(0x7ffc, 15), Code(0x20, 6), Code(0xffb, 12), Code(0x3fc, 10)]
    case 4 => [
      Code(0x1ffa, 13), Code(0x21, 6), Code(0x5d, 7), Code(0x5e, 7),
      Code(0x5f, 7), Code(0x60, 7), Code(0x61, 7), Code(0x62, 7),
      Code(0x63, 7), Code(0x64, 7), Code(0x65, 7), Code(0x66, 7),
      Code(0x67, 7), Code(0x68, 7), Code(0x69, 7), Code(0x6a, 7)]
    case 5 => [
      Code(0x6b, 7), Code(0x6c, 7), Code(0x6d, 7), Code(0x6e, 7),
      Code(0x6f, 7), Code(0x70, 7), Code(0x71, 7), Code(0x72, 7),
      Code(0xfc, 8), Code(0x73, 7), Code(0xfd, 8), Code(0x1ffb, 13),
      Code(0x7fff0, 19), Code(0x1ffc, 13), Code(0x3ffc, 14), Code(0x22, 6)]
    case 6 => [
      Code(0x7ffd, 15), Code(0x3, 5), Code(0x23, 6), Code(0x4, 5),
      Code(0x24, 6), Code(0x5, 5), Code(0x25, 6), Code(0x26, 6),
      Code(0x27, 6), Code(0x6, 5), Code(0x74, 7), Code(0x75, 7),
      Code(0x28, 6), Code(0x29, 6), Code(0x2a, 6), Code(0x7, 5)]
    case 7 => [
      Code(0x2b, 6), Code(0x76, 7), Code(0x2c, 6), Code(0x8, 5),
      Code(0x9, 5), Code(0x2d, 6), Code(0x77, 7), Code(0x78, 7),
      Code(0x79, 7), Code(0x7a, 7), Code(0x7b, 7), Code(0x7ffe, 15),
      Code(0x7fc, 11), Code(0x3ffd, 14), Code(0x1ffd, 13), Code(0xffffffc, 28)]
    case 8 => [
      Code(0xfffe6, 20), Code(0x3fffd2, 22), Code(0xfffe7, 20), Code(0xfffe8, 20),
      Code(0x3fffd3, 22), Code(0x3fffd4, 22), Code(0x3fffd5, 22), Code(0x7fffd9, 23),
      Code(0x3fffd6, 22), Code(0x7fffda, 23), Code(0x7fffdb, 23), Code(0x7fffdc, 23),
      Code(0x7fffdd, 23), Code(0x7fffde, 23), Code(0xffffeb, 24), Code(0x7fffdf, 23)]
    case 9 => [
      Code(0xffffec, 24), Code(0xffffed, 24), Code(0x3fffd7, 22), Code(0x7fffe0, 23),
      Code(0xffffee, 24), Code(0x7fffe1, 23), Code(0x7fffe2, 23), Code(0x7fffe3, 23),
      Code(0x7fffe4, 23), Code(0x1fffdc, 21), Code(0x3fffd8, 22), Code(0x7fffe5, 23),
      Code(0x3fffd9, 22), Code(0x7fffe6, 23), Code(0x7fffe7, 23), Code(0xffffef, 24)]
    case 10 => [
      Code(0x3fffda, 22), Code(0x1fffdd, 21), Code(0xfffe9, 20), Code(0x3fffdb, 22),
      Code(0x3fffdc, 22), Code(0x7fffe8, 23), Code(0x7fffe9, 23), Code(0x1fffde, 21),
      Code(0x7fffea, 23), Code(0x3fffdd, 22), Code(0x3fffde, 22), Code(0xfffff0, 24),
      Code(0x1fffdf, 21), Code(0x3fffdf, 22), Code(0x7fffeb, 23), Code(0x7fffec, 23)]
    case 11 => [
      Code(0x1fffe0, 21), Code(0x1fffe1, 21), Code(0x3fffe0, 22), Code(0x1fffe2, 21),
      Code(0x7fffed, 23), Code(0x3fffe1, 22), Code(0x7fffee, 23), Code(0x7fffef, 23),
      Code(0xfffea, 20), Code(0x3fffe2, 22), Code(0x3fffe3, 22), Code(0x3fffe4, 22),
      Code(0x7ffff0, 23), Code(0x3fffe5, 22), Code(0x3fffe6, 22), Code(0x7ffff1, 23)]
    case 12 => [
      Code(0x3ffffe0, 26), Code(0x3ffffe1, 26), Code(0xfffeb, 20), Code(0x7fff1, 19),
      Code(0x3fffe7, 22), Code(0x7ffff2, 23), Code(0x3fffe8, 22), Code(0x1ffffec, 25),
      Code(0x3ffffe2, 26), Code(0x3ffffe3, 26), Code(0x3ffffe4, 26), Code(0x7ffffde, 27),
      Code(0x7ffffdf, 27), Code(0x3ffffe5, 26), Code(0xfffff1, 24), Code(0x1ffffed, 25)]
    case 13 => [
      Code(0x7fff2, 19), Code(0x1fffe3, 21), Code(0x3ffffe6, 26), Code(0x7ffffe0, 27),
      Code(0x7ffffe1, 27), Code(0x3ffffe7, 26), Code(0x7ffffe2, 27), Code(0xfffff2, 24),
      Code(0x1fffe4, 21), Code(0x1fffe5, 21), Code(0x3ffffe8, 26), Code(0x3ffffe9, 26),
      Code(0xffffffd, 28), Code(0x7ffffe3, 27), Code(0x7ffffe4, 27), Code(0x7ffffe5, 27)]
    case 14 => [
      Code(0xfffec, 20), Code(0xfffff3, 24), Code(0xfffed, 20), Code(0x1fffe6, 21),
      Code(0x3fffe9, 22), Code(0x1fffe7, 21), Code(0x1fffe8, 21), Code(0x7ffff3, 23),
      Code(0x3fffea, 22), Code(0x3fffeb, 22), Code(0x1ffffee, 25), Code(0x1ffffef, 25),
      Code(0xfffff4, 24), Code(0xfffff5, 24), Code(0x3ffffea, 26), Code(0x7ffff4, 23)]
    case 15 => [
      Code(0x3ffffeb, 26), Code(0x7ffffe6, 27), Code(0x3ffffec, 26), Code(0x3ffffed, 26),
      Code(0x7ffffe7, 27), Code(0x7ffffe8, 27), Code(0x7ffffe9, 27), Code(0x7ffffea, 27),
      Code(0x7ffffeb, 27), Code(0xffffffe, 28), Code(0x7ffffec, 27), Code(0x7ffffed, 27),
      Code(0x7ffffee, 27), Code(0x7ffffef, 27), Code(0x7fffff0, 27), Code(0x3ffffee, 26)]
    case 16 => [Code(0x3fffffff, 30)]
  }

  function Entry(sym: nat): Code
    requires sym <= EOS
  {
    Row(sym / 16)[sym % 16]
  }

  /** The code word of a symbol. */
  function Word(sym: nat): (w: Bits)
    requires sym <= EOS
    ensures |w| == Entry(sym).bits
  {
    BitsOf(Entry(sym).code, Entry(sym).bits)
  }

  /** The words of one length are consecutive numbers: the first of them, how many
      there are, and how many words are shorter. */
  datatype Band = Band(first: nat, count: nat, shorter: nat)

  function Words(bits: nat): Band
    requires 5 <= bits <= 30
  {
    match bits
    case 5 => Band(0x0, 10, 0)
    case 6 => Band(0x14, 26, 10)
    case 7 => Band(0x5c, 32, 36)
    case 8 => Band(0xf8, 6, 68)
    case 9 => Band(0x1fc, 0, 74)
    case 10 => Band(0x3f8, 5, 74)
    case 11 => Band(0x7fa, 3, 79)
    case 12 => Band(0xffa, 2, 82)
    case 13 => Band(0x1ff8, 6, 84)
    case 14 => Band(0x3ffc, 2, 90)
    case 15 => Band(0x7ffc, 3, 92)
    case 16 => Band(0xfffe, 0, 95)
    case 17 => Band(0x1fffc, 0, 95)
    case 18 => Band(0x3fff8, 0, 95)
    case 19 => Band(0x7fff0, 3, 95)
    case 20 => Band(0xfffe6, 8, 98)
    case 21 => Band(0x1fffdc, 13, 106)
    case 22 => Band(0x3fffd2, 26, 119)
    case 23 => Band(0x7fffd8, 29, 145)
    case 24 => Band(0xffffea, 12, 174)
    case 25 => Band(0x1ffffec, 4, 186)
    case 26 => Band(0x3ffffe0, 15, 190)
    case 27 => Band(0x7ffffde, 19, 205)
    case 28 => Band(0xfffffe2, 29, 224)
    case 29 => Band(0x1ffffffe, 0, 253)
    case 30 => Band(0x3ffffffc, 4, 253)
  }

  /** All symbols in the order of their words. */
  function InOrder(r: nat): (row: seq<nat>)
    requires r <= 16
    ensures |row| == if r == 16 then 1 else 16
  {
    match r
    case 0 => [48, 49, 50, 97, 99, 101, 105, 111, 115, 116, 32, 37, 45, 46, 47, 51]
    case 1 => [52, 53, 54, 55, 56, 57, 61, 65, 95, 98, 100, 102, 103, 104, 108, 109]
    case 2 => [110, 112, 114, 117, 58, 66, 67, 68, 69, 70, 71, 72, 73, 74, 75, 76]
    case 3 => [77, 78, 79, 80, 81, 82, 83, 84, 85, 86, 87, 89, 106, 107, 113, 118]
    case 4 => [119, 120, 121, 122, 38, 42, 44, 59, 88, 90, 33, 34, 40, 41, 63, 39]
    case 5 => [43, 124, 35, 62, 0, 36, 64, 91, 93, 126, 94, 125, 60, 96, 123, 92]
    case 6 => [195, 208, 128, 130, 131, 162, 184, 194, 224, 226, 153, 161, 167, 172, 176, 177]
    case 7 => [179, 209, 216, 217, 227, 229, 230, 129, 132, 133, 134, 136, 146, 154, 156, 160]
    case 8 => [163, 164, 169, 170, 173, 178, 181, 185, 186, 187, 189, 190, 196, 198, 228, 232]
    case 9 => [233, 1, 135, 137, 138, 139, 140, 141, 143, 147, 149, 150, 151, 152, 155, 157]
    case 10 => [158, 165, 166, 168, 174, 175, 180, 182, 183, 188, 191, 197, 231, 239, 9, 142]
    case 11 => [144, 145, 148, 159, 171, 206, 215, 225, 236, 237, 199, 207, 234, 235, 192, 193]
    case 12 => [200, 201, 202, 205, 210, 213, 218, 219, 238, 240, 242, 243, 255, 203, 204, 211]
    case 13 => [212, 214, 221, 222, 223, 241, 244, 245, 246, 247, 248, 250, 251, 252, 253, 254]
    case 14 => [2, 3, 4, 5, 6, 7, 8, 11, 12, 14, 15, 16, 17, 18, 19, 20]
    case 15 => [21, 23, 24, 25, 26, 27, 28, 29, 30, 31, 127, 220, 249, 10, 13, 22]
    case 16 => [256]
  }

  /** The symbol's word stands in its band, and is the `k`-th in the order. */
  predicate InPlace(sym: nat, k: nat) {
    && sym <= EOS && k <= EOS
    && var e := Entry(sym);
       && 5 <= e.bits <= 30
       && var band := Words(e.bits);
          && band.first <= e.code < band.first + band.count
          && k == band.shorter + e.code - band.first
          && InOrder(k / 16)[k % 16] == sym
  }

  lemma Listed0()
    ensures InPlace(0, 84) && InPlace(1, 145) && InPlace(2, 224) && InPlace(3, 225) && InPlace(4, 226)
            && InPlace(5, 227) && InPlace(6, 228) && InPlace(7, 229)
  {
  }

  lemma Listed8()
    ensures InPlace(8, 230) && InPlace(9, 174) && InPlace(10, 253) && InPlace(11, 231) && InPlace(12, 232)
            && InPlace(13, 254) && InPlace(14, 233) && InPlace(15, 234)
  {
  }

  lemma Listed16()
    ensures InPlace(16, 235) && InPlace(17, 236) && InPlace(18, 237) && InPlace(19, 238) && InPlace(20, 239)
            && InPlace(21, 240) && InPlace(22, 255) && InPlace(23, 241)
  {
  }

  lemma Listed24()
    ensures InPlace(24, 242) && InPlace(25, 243) && InPlace(26, 244) && InPlace(27, 245) && InPlace(28, 246)
            && InPlace(29, 247) && InPlace(30, 248) && InPlace(31, 249)
  {
  }

  lemma Listed32()
    ensures InPlace(32, 10) && InPlace(33, 74) && InPlace(34, 75) && InPlace(35, 82) && InPlace(36, 85)
            && InPlace(37, 11) && InPlace(38, 68) && InPlace(39, 79)
  {
  }

  lemma Listed40()
    ensures InPlace(40, 76) && InPlace(41, 77) && InPlace(42, 69) && InPlace(43, 80) && InPlace(44, 70)
            && InPlace(45, 12) && InPlace(46, 13) && InPlace(47, 14)
  {
  }

  lemma Listed48()
    ensures InPlace(48, 0) && InPlace(49, 1) && InPlace(50, 2) && InPlace(51, 15) && InPlace(52, 16) && InPlace(53, 17)
            && InPlace(54, 18) && InPlace(55, 19)
  {
  }

  lemma Listed56()
    ensures InPlace(56, 20) && InPlace(57, 21) && InPlace(58, 36) && InPlace(59, 71) && InPlace(60, 92)
            && InPlace(61, 22) && InPlace(62, 83) && InPlace(63, 78)
  {
  }

  lemma Listed64()
    ensures InPlace(64, 86) && InPlace(65, 23) && InPlace(66, 37) && InPlace(67, 38) && InPlace(68, 39)
            && InPlace(69, 40) && InPlace(70, 41) && InPlace(71, 42)
  {
  }

  lemma Listed72()
    ensures InPlace(72, 43) && InPlace(73, 44) && InPlace(74, 45) && InPlace(75, 46) && InPlace(76, 47)
            && InPlace(77, 48) && InPlace(78, 49) && InPlace(79, 50)
  {
  }

  lemma Listed80()
    ensures InPlace(80, 51) && InPlace(81, 52) && InPlace(82, 53) && InPlace(83, 54) && InPlace(84, 55)
            && InPlace(85, 56) && InPlace(86, 57) && InPlace(87, 58)
  {
  }

  lemma Listed88()
    ensures InPlace(88, 72) && InPlace(89, 59) && InPlace(90, 73) && InPlace(91, 87) && InPlace(92, 95)
            && InPlace(93, 88) && InPlace(94, 90) && InPlace(95, 24)
  {
  }

  lemma Listed96()
    ensures InPlace(96, 93) && InPlace(97, 3) && InPlace(98, 25) && InPlace(99, 4) && InPlace(100, 26)
            && InPlace(101, 5) && InPlace(102, 27) && InPlace(103, 28)
  {
  }

  lemma Listed104()
    ensures InPlace(104, 29) && InPlace(105, 6) && InPlace(106, 60) && InPlace(107, 61) && InPlace(108, 30)
            && InPlace(109, 31) && InPlace(110, 32) && InPlace(111, 7)
  {
  }

  lemma Listed112()
    ensures InPlace(112, 33) && InPlace(113, 62) && InPlace(114, 34) && InPlace(115, 8) && InPlace(116, 9)
            && InPlace(117, 35) && InPlace(118, 63) && InPlace(119, 64)
  {
  }

  lemma Listed120()
    ensures InPlace(120, 65) && InPlace(121, 66) && InPlace(122, 67) && InPlace(123, 94) && InPlace(124, 81)
            && InPlace(125, 91) && InPlace(126, 89) && InPlace(127, 250)
  {
  }

  lemma Listed128()
    ensures InPlace(128, 98) && InPlace(129, 119) && InPlace(130, 99) && InPlace(131, 100) && InPlace(132, 120)
            && InPlace(133, 121) && InPlace(134, 122) && InPlace(135, 146)
  {
  }

  lemma Listed136()
    ensures InPlace(136, 123) && InPlace(137, 147) && InPlace(138, 148) && InPlace(139, 149) && InPlace(140, 150)
            && InPlace(141, 151) && InPlace(142, 175) && InPlace(143, 152)
  {
  }

  lemma Listed144()
    ensures InPlace(144, 176) && InPlace(145, 177) && InPlace(146, 124) && InPlace(147, 153) && InPlace(148, 178)
            && InPlace(149, 154) && InPlace(150, 155) && InPlace(151, 156)
  {
  }

  lemma Listed152()
    ensures InPlace(152, 157) && InPlace(153, 106) && InPlace(154, 125) && InPlace(155, 158) && InPlace(156, 126)
            && InPlace(157, 159) && InPlace(158, 160) && InPlace(159, 179)
  {
  }

  lemma Listed160()
    ensures InPlace(160, 127) && InPlace(161, 107) && InPlace(162, 101) && InPlace(163, 128) && InPlace(164, 129)
            && InPlace(165, 161) && InPlace(166, 162) && InPlace(167, 108)
  {
  }

  lemma Listed168()
    ensures InPlace(168, 163) && InPlace(169, 130) && InPlace(170, 131) && InPlace(171, 180) && InPlace(172, 109)
            && InPlace(173, 132) && InPlace(174, 164) && InPlace(175, 165)
  {
  }

  lemma Listed176()
    ensures InPlace(176, 110) && InPlace(177, 111) && InPlace(178, 133) && InPlace(179, 112) && InPlace(180, 166)
            && InPlace(181, 134) && InPlace(182, 167) && InPlace(183, 168)
  {
  }

  lemma Listed184()
    ensures InPlace(184, 102) && InPlace(185, 135) && InPlace(186, 136) && InPlace(187, 137) && InPlace(188, 169)
            && InPlace(189, 138) && InPlace(190, 139) && InPlace(191, 170)
  {
  }

  lemma Listed192()
    ensures InPlace(192, 190) && InPlace(193, 191) && InPlace(194, 103) && InPlace(195, 96) && InPlace(196, 140)
            && InPlace(197, 171) && InPlace(198, 141) && InPlace(199, 186)
  {
  }

  lemma Listed200()
    ensures InPlace(200, 192) && InPlace(201, 193) && InPlace(202, 194) && InPlace(203, 205) && InPlace(204, 206)
            && InPlace(205, 195) && InPlace(206, 181) && InPlace(207, 187)
  {
  }

  lemma Listed208()
    ensures InPlace(208, 97) && InPlace(209, 113) && InPlace(210, 196) && InPlace(211, 207) && InPlace(212, 208)
            && InPlace(213, 197) && InPlace(214, 209) && InPlace(215, 182)
  {
  }

  lemma Listed216()
    ensures InPlace(216, 114) && InPlace(217, 115) && InPlace(218, 198) && InPlace(219, 199) && InPlace(220, 251)
            && InPlace(221, 210) && InPlace(222, 211) && InPlace(223, 212)
  {
  }

  lemma Listed224()
    ensures InPlace(224, 104) && InPlace(225, 183) && InPlace(226, 105) && InPlace(227, 116) && InPlace(228, 142)
            && InPlace(229, 117) && InPlace(230, 118) && InPlace(231, 172)
  {
  }

  lemma Listed232()
    ensures InPlace(232, 143) && InPlace(233, 144) && InPlace(234, 188) && InPlace(235, 189) && InPlace(236, 184)
            && InPlace(237, 185) && InPlace(238, 200) && InPlace(239, 173)
  {
  }

  lemma Listed240()
    ensures InPlace(240, 201) && InPlace(241, 213) && InPlace(242, 202) && InPlace(243, 203) && InPlace(244, 214)
            && InPlace(245, 215) && InPlace(246, 216) && InPlace(247, 217)
  {
  }

  lemma Listed248()
    ensures InPlace(248, 218) && InPlace(249, 252) && InPlace(250, 219) && InPlace(251, 220) && InPlace(252, 221)
            && InPlace(253, 222) && InPlace(254, 223) && InPlace(255, 204)
    ensures InPlace(256, 256)
  {
  }

  lemma From0(sym: nat)
    requires 0 <= sym < 32
    ensures exists k :: InPlace(sym, k)
  {
    hide InPlace;
    if sym < 8 { Listed0(); }
    else if sym < 16 { Listed8(); }
    else if sym < 24 { Listed16(); }
    else if sym < 32 { Listed24(); }
  }

  lemma From32(sym: nat)
    requires 32 <= sym < 64
    ensures exists k :: InPlace(sym, k)
  {
    hide InPlace;
    if sym < 40 { Listed32(); }
    else if sym < 48 { Listed40(); }
    else if sym < 56 { Listed48(); }
    else if sym < 64 { Listed56(); }
  }

  lemma From64(sym: nat)
    requires 64 <= sym < 96
    ensures exists k :: InPlace(sym, k)
  {
    hide InPlace;
    if sym < 72 { Listed64(); }
    else if sym < 80 { Listed72(); }
    else if sym < 88 { Listed80(); }
    else if sym < 96 { Listed88(); }
  }

  lemma From96(sym: nat)
    requires 96 <= sym < 128
    ensures exists k :: InPlace(sym, k)
  {
    hide InPlace;
    if sym < 104 { Listed96(); }
    else if sym < 112 { Listed104(); }
    else if sym < 120 { Listed112(); }
    else if sym < 128 { Listed120(); }
  }

  lemma From128(sym: nat)
    requires 128 <= sym < 160
    ensures exists k :: InPlace(sym, k)
  {
    hide InPlace;
    if sym < 136 { Listed128(); }
    else if sym < 144 { Listed136(); }
    else if sym < 152 { Listed144(); }
    else if sym < 160 { Listed152(); }
  }

  lemma From160(sym: nat)
    requires 160 <= sym < 192
    ensures exists k :: InPlace(sym, k)
  {
    hide InPlace;
    if sym < 168 { Listed160(); }
    else if sym < 176 { Listed168(); }
    else if sym < 184 { Listed176(); }
    else if sym < 192 { Listed184(); }
  }

  lemma From192(sym: nat)
    requires 192 <= sym < 224
    ensures exists k :: InPlace(sym, k)
  {
    hide InPlace;
    if sym < 200 { Listed192(); }
    else if sym < 208 { Listed200(); }
    else if sym < 216 { Listed208(); }
    else if sym < 224 { Listed216(); }
  }

  lemma From224(sym: nat)
    requires 224 <= sym < 257
    ensures exists k :: InPlace(sym, k)
  {
    hide InPlace;
    if sym < 232 { Listed224(); }
    else if sym < 240 { Listed232(); }
    else if sym < 248 { Listed240(); }
    else if sym < 257 { Listed248(); }
  }

  lemma Listed(sym: nat)
    requires sym <= EOS
    ensures exists k :: InPlace(sym, k)
  {
    hide InPlace;
    if sym < 32 { From0(sym); }
    else if sym < 64 { From32(sym); }
    else if sym < 96 { From64(sym); }
    else if sym < 128 { From96(sym); }
    else if sym < 160 { From128(sym); }
    else if sym < 192 { From160(sym); }
    else if sym < 224 { From192(sym); }
    else if sym < 257 { From224(sym); }
  }

  // ----- No word begins another

  lemma Bounds(sym: nat)
    requires sym <= EOS
    ensures 5 <= Entry(sym).bits <= 30
    ensures var e, band := Entry(sym), Words(Entry(sym).bits);
            band.first <= e.code < band.first + band.count
  {
    hide Entry, Words, InOrder;
    Listed(sym);
    var k :| InPlace(sym, k);
  }

  lemma Distinct(s: nat, t: nat)
    requires s <= EOS && t <= EOS && Entry(s) == Entry(t)
    ensures s == t
  {
    hide Entry, Words, InOrder;
    Listed(s);
    Listed(t);
    var k :| InPlace(s, k);
    var l :| InPlace(t, l);
    assert k == l;
  }

  /** The next length begins where this one ends. */
  lemma NextBand(bits: nat)
    requires 5 <= bits < 30
    ensures Words(bits + 1).first == 2 * (Words(bits).first + Words(bits).count)
  {
  }

  lemma {:induction false} LaterBand(bits: nat, more: nat)
    requires 5 <= bits < more <= 30
    ensures Words(more).first >= (Words(bits).first + Words(bits).count) * Pow2(more - bits)
    decreases more
  {
    hide Words;
    NextBand(more - 1);
    if bits < more - 1 {
      LaterBand(bits, more - 1);
    }
    DoubleIt(Words(bits).first + Words(bits).count, more - 1 - bits);
  }

  lemma DoubleIt(x: nat, n: nat)
    ensures x * Pow2(n + 1) == 2 * (x * Pow2(n)) && x * Pow2(0) == x
  {
    var p := Pow2(n);
    assert x * (2 * p) == 2 * (x * p);
  }

  lemma {:induction false} BandFits(bits: nat)
    requires 5 <= bits <= 30
    ensures Words(bits).first + Words(bits).count <= Pow2(bits)
    decreases 30 - bits
  {
    if bits < 30 {
      NextBand(bits);
      BandFits(bits + 1);
    } else {
      Pow2Of30();
    }
  }

  /** The code is free of prefixes: a word that begins a word is that word. */
  lemma PrefixFree(s: nat, t: nat)
    requires s <= EOS && t <= EOS
    ensures Word(s) <= Word(t) ==> s == t
  {
    hide Entry, Words, BitsOf, Pow2;
    if Word(s) <= Word(t) {
      var d, e := Entry(s), Entry(t);
      Bounds(s);
      Bounds(t);
      BandFits(d.bits);
      BandFits(e.bits);
      var gap := e.bits - d.bits;
      BitsCut(e.code, e.bits, d.bits);
      assert BitsOf(e.code, e.bits)[..d.bits] == BitsOf(d.code, d.bits);
      TopBits(e.code, e.bits, gap);
      BitsInjective(d.code, e.code / Pow2(gap), d.bits);
      if gap > 0 {
        LaterBand(d.bits, e.bits);
        Above(d.code, Words(d.bits).first + Words(d.bits).count, e.code, Pow2(gap));
      } else {
        assert e.code / Pow2(0) == e.code by { WholeWord(e.code); }
        Distinct(s, t);
      }
    }
  }

  lemma WholeWord(v: nat)
    ensures v / Pow2(0) == v
  {
  }

  lemma TopBits(v: nat, n: nat, gap: nat)
    requires v < Pow2(n) && gap <= n
    ensures v / Pow2(gap) < Pow2(n - gap)
  {
    hide Pow2;
    Pow2Add(n - gap, gap);
    Quotient(v, Pow2(gap), Pow2(n - gap));
  }

  /** A number past the end of the shorter words does not begin with one. */
  lemma Above(code: nat, end: nat, long: nat, p: nat)
    requires p > 0 && code < end && long >= end * p
    ensures long / p > code
  {
    MulMonotone(code + 1, end, p);
    Quotient(long, p, code + 1);
  }

  /** The end-of-string word is all ones, so no other word is. */
  lemma NotAllOnes(sym: nat, n: nat)
    requires sym < EOS && n <= 30
    ensures Word(sym) != Ones(n)
  {
    hide BitsOf, Pow2;
    EosIsOnes();
    hide Entry;
    if Word(sym) == Ones(n) {
      assert Ones(n) <= Ones(30);
      PrefixFree(sym, EOS);
    }
  }

  lemma EosIsOnes()
    ensures Word(EOS) == Ones(30)
  {
    assert Entry(EOS) == Code(0x3fffffff, 30);
    Pow2Of30();
    OnesAre(30);
  }
}
