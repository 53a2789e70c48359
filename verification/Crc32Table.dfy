/** The constant table of src/storage/sstable.cpp is the generated one. */
module Crc32Table {
  import opened Words
  import opened Crc32

  const TABLE: seq<bv32> := seq(256, i requires 0 <= i < 256 => Word(i / 16, i % 16))

  /** Word k of row r, sixteen words a row. */
  function Word(r: nat, k: nat): bv32 {
    match r
    case 0 =>
      Pick(k, 0x0000_0000, 0x7707_3096, 0xEE0E_612C, 0x9909_51BA,
           0x076D_C419, 0x706A_F48F, 0xE963_A535, 0x9E64_95A3,
           0x0EDB_8832, 0x79DC_B8A4, 0xE0D5_E91E, 0x97D2_D988,
           0x09B6_4C2B, 0x7EB1_7CBD, 0xE7B8_2D07, 0x90BF_1D91)
    case 1 =>
      Pick(k, 0x1DB7_1064, 0x6AB0_20F2, 0xF3B9_7148, 0x84BE_41DE,
           0x1ADA_D47D, 0x6DDD_E4EB, 0xF4D4_B551, 0x83D3_85C7,
           0x136C_9856, 0x646B_A8C0, 0xFD62_F97A, 0x8A65_C9EC,
           0x1401_5C4F, 0x6306_6CD9, 0xFA0F_3D63, 0x8D08_0DF5)
    case 2 =>
      Pick(k, 0x3B6E_20C8, 0x4C69_105E, 0xD560_41E4, 0xA267_7172,
           0x3C03_E4D1, 0x4B04_D447, 0xD20D_85FD, 0xA50A_B56B,
           0x35B5_A8FA, 0x42B2_986C, 0xDBBB_C9D6, 0xACBC_F940,
           0x32D8_6CE3, 0x45DF_5C75, 0xDCD6_0DCF, 0xABD1_3D59)
    case 3 =>
      Pick(k, 0x26D9_30AC, 0x51DE_003A, 0xC8D7_5180, 0xBFD0_6116,
           0x21B4_F4B5, 0x56B3_C423, 0xCFBA_9599, 0xB8BD_A50F,
           0x2802_B89E, 0x5F05_8808, 0xC60C_D9B2, 0xB10B_E924,
           0x2F6F_7C87, 0x5868_4C11, 0xC161_1DAB, 0xB666_2D3D)
    case 4 =>
      Pick(k, 0x76DC_4190, 0x01DB_7106, 0x98D2_20BC, 0xEFD5_102A,
           0x71B1_8589, 0x06B6_B51F, 0x9FBF_E4A5, 0xE8B8_D433,
           0x7807_C9A2, 0x0F00_F934, 0x9609_A88E, 0xE10E_9818,
           0x7F6A_0DBB, 0x086D_3D2D, 0x9164_6C97, 0xE663_5C01)
    case 5 =>
      Pick(k, 0x6B6B_51F4, 0x1C6C_6162, 0x8565_30D8, 0xF262_004E,
           0x6C06_95ED, 0x1B01_A57B, 0x8208_F4C1, 0xF50F_C457,
           0x65B0_D9C6, 0x12B7_E950, 0x8BBE_B8EA, 0xFCB9_887C,
           0x62DD_1DDF, 0x15DA_2D49, 0x8CD3_7CF3, 0xFBD4_4C65)
    case 6 =>
      Pick(k, 0x4DB2_6158, 0x3AB5_51CE, 0xA3BC_0074, 0xD4BB_30E2,
           0x4ADF_A541, 0x3DD8_95D7, 0xA4D1_C46D, 0xD3D6_F4FB,
           0x4369_E96A, 0x346E_D9FC, 0xAD67_8846, 0xDA60_B8D0,
           0x4404_2D73, 0x3303_1DE5, 0xAA0A_4C5F, 0xDD0D_7CC9)
    case 7 =>
      Pick(k, 0x5005_713C, 0x2702_41AA, 0xBE0B_1010, 0xC90C_2086,
           0x5768_B525, 0x206F_85B3, 0xB966_D409, 0xCE61_E49F,
           0x5EDE_F90E, 0x29D9_C998, 0xB0D0_9822, 0xC7D7_A8B4,
           0x59B3_3D17, 0x2EB4_0D81, 0xB7BD_5C3B, 0xC0BA_6CAD)
    case 8 =>
      Pick(k, 0xEDB8_8320, 0x9ABF_B3B6, 0x03B6_E20C, 0x74B1_D29A,
           0xEAD5_4739, 0x9DD2_77AF, 0x04DB_2615, 0x73DC_1683,
           0xE363_0B12, 0x9464_3B84, 0x0D6D_6A3E, 0x7A6A_5AA8,
           0xE40E_CF0B, 0x9309_FF9D, 0x0A00_AE27, 0x7D07_9EB1)
    case 9 =>
      Pick(k, 0xF00F_9344, 0x8708_A3D2, 0x1E01_F268, 0x6906_C2FE,
           0xF762_575D, 0x8065_67CB, 0x196C_3671, 0x6E6B_06E7,
           0xFED4_1B76, 0x89D3_2BE0, 0x10DA_7A5A, 0x67DD_4ACC,
           0xF9B9_DF6F, 0x8EBE_EFF9, 0x17B7_BE43, 0x60B0_8ED5)
    case 10 =>
      Pick(k, 0xD6D6_A3E8, 0xA1D1_937E, 0x38D8_C2C4, 0x4FDF_F252,
           0xD1BB_67F1, 0xA6BC_5767, 0x3FB5_06DD, 0x48B2_364B,
           0xD80D_2BDA, 0xAF0A_1B4C, 0x3603_4AF6, 0x4104_7A60,
           0xDF60_EFC3, 0xA867_DF55, 0x316E_8EEF, 0x4669_BE79)
    case 11 =>
      Pick(k, 0xCB61_B38C, 0xBC66_831A, 0x256F_D2A0, 0x5268_E236,
           0xCC0C_7795, 0xBB0B_4703, 0x2202_16B9, 0x5505_262F,
           0xC5BA_3BBE, 0xB2BD_0B28, 0x2BB4_5A92, 0x5CB3_6A04,
           0xC2D7_FFA7, 0xB5D0_CF31, 0x2CD9_9E8B, 0x5BDE_AE1D)
    case 12 =>
      Pick(k, 0x9B64_C2B0, 0xEC63_F226, 0x756A_A39C, 0x026D_930A,
           0x9C09_06A9, 0xEB0E_363F, 0x7207_6785, 0x0500_5713,
           0x95BF_4A82, 0xE2B8_7A14, 0x7BB1_2BAE, 0x0CB6_1B38,
           0x92D2_8E9B, 0xE5D5_BE0D, 0x7CDC_EFB7, 0x0BDB_DF21)
    case 13 =>
      Pick(k, 0x86D3_D2D4, 0xF1D4_E242, 0x68DD_B3F8, 0x1FDA_836E,
           0x81BE_16CD, 0xF6B9_265B, 0x6FB0_77E1, 0x18B7_4777,
           0x8808_5AE6, 0xFF0F_6A70, 0x6606_3BCA, 0x1101_0B5C,
           0x8F65_9EFF, 0xF862_AE69, 0x616B_FFD3, 0x166C_CF45)
    case 14 =>
      Pick(k, 0xA00A_E278, 0xD70D_D2EE, 0x4E04_8354, 0x3903_B3C2,
           0xA767_2661, 0xD060_16F7, 0x4969_474D, 0x3E6E_77DB,
           0xAED1_6A4A, 0xD9D6_5ADC, 0x40DF_0B66, 0x37D8_3BF0,
           0xA9BC_AE53, 0xDEBB_9EC5, 0x47B2_CF7F, 0x30B5_FFE9)
    case _ =>
      Pick(k, 0xBDBD_F21C, 0xCABA_C28A, 0x53B3_9330, 0x24B4_A3A6,
           0xBAD0_3605, 0xCDD7_0693, 0x54DE_5729, 0x23D9_67BF,
           0xB366_7A2E, 0xC461_4AB8, 0x5D68_1B02, 0x2A6F_2B94,
           0xB40B_BE37, 0xC30C_8EA1, 0x5A05_DF1B, 0x2D02_EF8D)
  }

  function Pick(k: nat, w0: bv32, w1: bv32, w2: bv32, w3: bv32, w4: bv32, w5: bv32, w6: bv32, w7: bv32,
                w8: bv32, w9: bv32, w10: bv32, w11: bv32, w12: bv32, w13: bv32, w14: bv32, w15: bv32): bv32 {
    match k
    case 0 => w0
    case 1 => w1
    case 2 => w2
    case 3 => w3
    case 4 => w4
    case 5 => w5
    case 6 => w6
    case 7 => w7
    case 8 => w8
    case 9 => w9
    case 10 => w10
    case 11 => w11
    case 12 => w12
    case 13 => w13
    case 14 => w14
    case _ => w15
  }

  lemma ConstantTable()
    ensures IsTable(TABLE)
  {
    hide Steps, Word, Widen;
    forall i | 0 <= i < 256
      ensures TABLE[i] == Steps(Widen(i), 8)
    {
      WordAt(i / 16, i % 16);
      assert 16 * (i / 16) + i % 16 == i;
    }
  }

  lemma WordAt(r: nat, k: nat)
    requires r < 16 && k < 16
    ensures Word(r, k) == Steps(Widen(16 * r + k), 8)
  {
    hide Steps, Word, Widen;
    match r {
      case 0 => Row0(k);
      case 1 => Row1(k);
      case 2 => Row2(k);
      case 3 => Row3(k);
      case 4 => Row4(k);
      case 5 => Row5(k);
      case 6 => Row6(k);
      case 7 => Row7(k);
      case 8 => Row8(k);
      case 9 => Row9(k);
      case 10 => Row10(k);
      case 11 => Row11(k);
      case 12 => Row12(k);
      case 13 => Row13(k);
      case 14 => Row14(k);
      case _ => Row15(k);
    }
  }

  lemma Row0(k: nat)
    requires k < 16
    ensures Word(0, k) == Steps(Widen(0 + k), 8)
  {
    hide Steps, Widen;
    Computed0();
    Computed1();
  }

  lemma Computed0()
    ensures Steps(0, 8) == 0x0000_0000 && Steps(1, 8) == 0x7707_3096
    ensures Steps(2, 8) == 0xEE0E_612C && Steps(3, 8) == 0x9909_51BA
    ensures Steps(4, 8) == 0x076D_C419 && Steps(5, 8) == 0x706A_F48F
    ensures Steps(6, 8) == 0xE963_A535 && Steps(7, 8) == 0x9E64_95A3
    ensures Widen(0) == 0 && Widen(1) == 1 && Widen(2) == 2 && Widen(3) == 3
    ensures Widen(4) == 4 && Widen(5) == 5 && Widen(6) == 6 && Widen(7) == 7
  {
  }

  lemma Computed1()
    ensures Steps(8, 8) == 0x0EDB_8832 && Steps(9, 8) == 0x79DC_B8A4
    ensures Steps(10, 8) == 0xE0D5_E91E && Steps(11, 8) == 0x97D2_D988
    ensures Steps(12, 8) == 0x09B6_4C2B && Steps(13, 8) == 0x7EB1_7CBD
    ensures Steps(14, 8) == 0xE7B8_2D07 && Steps(15, 8) == 0x90BF_1D91
    ensures Widen(8) == 8 && Widen(9) == 9 && Widen(10) == 10 && Widen(11) == 11
    ensures Widen(12) == 12 && Widen(13) == 13 && Widen(14) == 14 && Widen(15) == 15
  {
  }

  lemma Row1(k: nat)
    requires k < 16
    ensures Word(1, k) == Steps(Widen(16 + k), 8)
  {
    hide Steps, Widen;
    Computed2();
    Computed3();
  }

  lemma Computed2()
    ensures Steps(16, 8) == 0x1DB7_1064 && Steps(17, 8) == 0x6AB0_20F2
    ensures Steps(18, 8) == 0xF3B9_7148 && Steps(19, 8) == 0x84BE_41DE
    ensures Steps(20, 8) == 0x1ADA_D47D && Steps(21, 8) == 0x6DDD_E4EB
    ensures Steps(22, 8) == 0xF4D4_B551 && Steps(23, 8) == 0x83D3_85C7
    ensures Widen(16) == 16 && Widen(17) == 17 && Widen(18) == 18 && Widen(19) == 19
    ensures Widen(20) == 20 && Widen(21) == 21 && Widen(22) == 22 && Widen(23) == 23
  {
  }

  lemma Computed3()
    ensures Steps(24, 8) == 0x136C_9856 && Steps(25, 8) == 0x646B_A8C0
    ensures Steps(26, 8) == 0xFD62_F97A && Steps(27, 8) == 0x8A65_C9EC
    ensures Steps(28, 8) == 0x1401_5C4F && Steps(29, 8) == 0x6306_6CD9
    ensures Steps(30, 8) == 0xFA0F_3D63 && Steps(31, 8) == 0x8D08_0DF5
    ensures Widen(24) == 24 && Widen(25) == 25 && Widen(26) == 26 && Widen(27) == 27
    ensures Widen(28) == 28 && Widen(29) == 29 && Widen(30) == 30 && Widen(31) == 31
  {
  }

  lemma Row2(k: nat)
    requires k < 16
    ensures Word(2, k) == Steps(Widen(32 + k), 8)
  {
    hide Steps, Widen;
    Computed4();
    Computed5();
  }

  lemma Computed4()
    ensures Steps(32, 8) == 0x3B6E_20C8 && Steps(33, 8) == 0x4C69_105E
    ensures Steps(34, 8) == 0xD560_41E4 && Steps(35, 8) == 0xA267_7172
    ensures Steps(36, 8) == 0x3C03_E4D1 && Steps(37, 8) == 0x4B04_D447
    ensures Steps(38, 8) == 0xD20D_85FD && Steps(39, 8) == 0xA50A_B56B
    ensures Widen(32) == 32 && Widen(33) == 33 && Widen(34) == 34 && Widen(35) == 35
    ensures Widen(36) == 36 && Widen(37) == 37 && Widen(38) == 38 && Widen(39) == 39
  {
  }

  lemma Computed5()
    ensures Steps(40, 8) == 0x35B5_A8FA && Steps(41, 8) == 0x42B2_986C
    ensures Steps(42, 8) == 0xDBBB_C9D6 && Steps(43, 8) == 0xACBC_F940
    ensures Steps(44, 8) == 0x32D8_6CE3 && Steps(45, 8) == 0x45DF_5C75
    ensures Steps(46, 8) == 0xDCD6_0DCF && Steps(47, 8) == 0xABD1_3D59
    ensures Widen(40) == 40 && Widen(41) == 41 && Widen(42) == 42 && Widen(43) == 43
    ensures Widen(44) == 44 && Widen(45) == 45 && Widen(46) == 46 && Widen(47) == 47
  {
  }

  lemma Row3(k: nat)
    requires k < 16
    ensures Word(3, k) == Steps(Widen(48 + k), 8)
  {
    hide Steps, Widen;
    Computed6();
    Computed7();
  }

  lemma Computed6()
    ensures Steps(48, 8) == 0x26D9_30AC && Steps(49, 8) == 0x51DE_003A
    ensures Steps(50, 8) == 0xC8D7_5180 && Steps(51, 8) == 0xBFD0_6116
    ensures Steps(52, 8) == 0x21B4_F4B5 && Steps(53, 8) == 0x56B3_C423
    ensures Steps(54, 8) == 0xCFBA_9599 && Steps(55, 8) == 0xB8BD_A50F
    ensures Widen(48) == 48 && Widen(49) == 49 && Widen(50) == 50 && Widen(51) == 51
    ensures Widen(52) == 52 && Widen(53) == 53 && Widen(54) == 54 && Widen(55) == 55
  {
  }

  lemma Computed7()
    ensures Steps(56, 8) == 0x2802_B89E && Steps(57, 8) == 0x5F05_8808
    ensures Steps(58, 8) == 0xC60C_D9B2 && Steps(59, 8) == 0xB10B_E924
    ensures Steps(60, 8) == 0x2F6F_7C87 && Steps(61, 8) == 0x5868_4C11
    ensures Steps(62, 8) == 0xC161_1DAB && Steps(63, 8) == 0xB666_2D3D
    ensures Widen(56) == 56 && Widen(57) == 57 && Widen(58) == 58 && Widen(59) == 59
    ensures Widen(60) == 60 && Widen(61) == 61 && Widen(62) == 62 && Widen(63) == 63
  {
  }

  lemma Row4(k: nat)
    requires k < 16
    ensures Word(4, k) == Steps(Widen(64 + k), 8)
  {
    hide Steps, Widen;
    Computed8();
    Computed9();
  }

  lemma Computed8()
    ensures Steps(64, 8) == 0x76DC_4190 && Steps(65, 8) == 0x01DB_7106
    ensures Steps(66, 8) == 0x98D2_20BC && Steps(67, 8) == 0xEFD5_102A
    ensures Steps(68, 8) == 0x71B1_8589 && Steps(69, 8) == 0x06B6_B51F
    ensures Steps(70, 8) == 0x9FBF_E4A5 && Steps(71, 8) == 0xE8B8_D433
    ensures Widen(64) == 64 && Widen(65) == 65 && Widen(66) == 66 && Widen(67) == 67
    ensures Widen(68) == 68 && Widen(69) == 69 && Widen(70) == 70 && Widen(71) == 71
  {
  }

  lemma Computed9()
    ensures Steps(72, 8) == 0x7807_C9A2 && Steps(73, 8) == 0x0F00_F934
    ensures Steps(74, 8) == 0x9609_A88E && Steps(75, 8) == 0xE10E_9818
    ensures Steps(76, 8) == 0x7F6A_0DBB && Steps(77, 8) == 0x086D_3D2D
    ensures Steps(78, 8) == 0x9164_6C97 && Steps(79, 8) == 0xE663_5C01
    ensures Widen(72) == 72 && Widen(73) == 73 && Widen(74) == 74 && Widen(75) == 75
    ensures Widen(76) == 76 && Widen(77) == 77 && Widen(78) == 78 && Widen(79) == 79
  {
  }

  lemma Row5(k: nat)
    requires k < 16
    ensures Word(5, k) == Steps(Widen(80 + k), 8)
  {
    hide Steps, Widen;
    Computed10();
    Computed11();
  }

  lemma Computed10()
    ensures Steps(80, 8) == 0x6B6B_51F4 && Steps(81, 8) == 0x1C6C_6162
    ensures Steps(82, 8) == 0x8565_30D8 && Steps(83, 8) == 0xF262_004E
    ensures Steps(84, 8) == 0x6C06_95ED && Steps(85, 8) == 0x1B01_A57B
    ensures Steps(86, 8) == 0x8208_F4C1 && Steps(87, 8) == 0xF50F_C457
    ensures Widen(80) == 80 && Widen(81) == 81 && Widen(82) == 82 && Widen(83) == 83
    ensures Widen(84) == 84 && Widen(85) == 85 && Widen(86) == 86 && Widen(87) == 87
  {
  }

  lemma Computed11()
    ensures Steps(88, 8) == 0x65B0_D9C6 && Steps(89, 8) == 0x12B7_E950
    ensures Steps(90, 8) == 0x8BBE_B8EA && Steps(91, 8) == 0xFCB9_887C
    ensures Steps(92, 8) == 0x62DD_1DDF && Steps(93, 8) == 0x15DA_2D49
    ensures Steps(94, 8) == 0x8CD3_7CF3 && Steps(95, 8) == 0xFBD4_4C65
    ensures Widen(88) == 88 && Widen(89) == 89 && Widen(90) == 90 && Widen(91) == 91
    ensures Widen(92) == 92 && Widen(93) == 93 && Widen(94) == 94 && Widen(95) == 95
  {
  }

  lemma Row6(k: nat)
    requires k < 16
    ensures Word(6, k) == Steps(Widen(96 + k), 8)
  {
    hide Steps, Widen;
    Computed12();
    Computed13();
  }

  lemma Computed12()
    ensures Steps(96, 8) == 0x4DB2_6158 && Steps(97, 8) == 0x3AB5_51CE
    ensures Steps(98, 8) == 0xA3BC_0074 && Steps(99, 8) == 0xD4BB_30E2
    ensures Steps(100, 8) == 0x4ADF_A541 && Steps(101, 8) == 0x3DD8_95D7
    ensures Steps(102, 8) == 0xA4D1_C46D && Steps(103, 8) == 0xD3D6_F4FB
    ensures Widen(96) == 96 && Widen(97) == 97 && Widen(98) == 98 && Widen(99) == 99
    ensures Widen(100) == 100 && Widen(101) == 101 && Widen(102) == 102 && Widen(103) == 103
  {
  }

  lemma Computed13()
    ensures Steps(104, 8) == 0x4369_E96A && Steps(105, 8) == 0x346E_D9FC
    ensures Steps(106, 8) == 0xAD67_8846 && Steps(107, 8) == 0xDA60_B8D0
    ensures Steps(108, 8) == 0x4404_2D73 && Steps(109, 8) == 0x3303_1DE5
    ensures Steps(110, 8) == 0xAA0A_4C5F && Steps(111, 8) == 0xDD0D_7CC9
    ensures Widen(104) == 104 && Widen(105) == 105 && Widen(106) == 106 && Widen(107) == 107
    ensures Widen(108) == 108 && Widen(109) == 109 && Widen(110) == 110 && Widen(111) == 111
  {
  }

  lemma Row7(k: nat)
    requires k < 16
    ensures Word(7, k) == Steps(Widen(112 + k), 8)
  {
    hide Steps, Widen;
    Computed14();
    Computed15();
  }

  lemma Computed14()
    ensures Steps(112, 8) == 0x5005_713C && Steps(113, 8) == 0x2702_41AA
    ensures Steps(114, 8) == 0xBE0B_1010 && Steps(115, 8) == 0xC90C_2086
    ensures Steps(116, 8) == 0x5768_B525 && Steps(117, 8) == 0x206F_85B3
    ensures Steps(118, 8) == 0xB966_D409 && Steps(119, 8) == 0xCE61_E49F
    ensures Widen(112) == 112 && Widen(113) == 113 && Widen(114) == 114 && Widen(115) == 115
    ensures Widen(116) == 116 && Widen(117) == 117 && Widen(118) == 118 && Widen(119) == 119
  {
  }

  lemma Computed15()
    ensures Steps(120, 8) == 0x5EDE_F90E && Steps(121, 8) == 0x29D9_C998
    ensures Steps(122, 8) == 0xB0D0_9822 && Steps(123, 8) == 0xC7D7_A8B4
    ensures Steps(124, 8) == 0x59B3_3D17 && Steps(125, 8) == 0x2EB4_0D81
    ensures Steps(126, 8) == 0xB7BD_5C3B && Steps(127, 8) == 0xC0BA_6CAD
    ensures Widen(120) == 120 && Widen(121) == 121 && Widen(122) == 122 && Widen(123) == 123
    ensures Widen(124) == 124 && Widen(125) == 125 && Widen(126) == 126 && Widen(127) == 127
  {
  }

  lemma Row8(k: nat)
    requires k < 16
    ensures Word(8, k) == Steps(Widen(128 + k), 8)
  {
    hide Steps, Widen;
    Computed16();
    Computed17();
  }

  lemma Computed16()
    ensures Steps(128, 8) == 0xEDB8_8320 && Steps(129, 8) == 0x9ABF_B3B6
    ensures Steps(130, 8) == 0x03B6_E20C && Steps(131, 8) == 0x74B1_D29A
    ensures Steps(132, 8) == 0xEAD5_4739 && Steps(133, 8) == 0x9DD2_77AF
    ensures Steps(134, 8) == 0x04DB_2615 && Steps(135, 8) == 0x73DC_1683
    ensures Widen(128) == 128 && Widen(129) == 129 && Widen(130) == 130 && Widen(131) == 131
    ensures Widen(132) == 132 && Widen(133) == 133 && Widen(134) == 134 && Widen(135) == 135
  {
  }

  lemma Computed17()
    ensures Steps(136, 8) == 0xE363_0B12 && Steps(137, 8) == 0x9464_3B84
    ensures Steps(138, 8) == 0x0D6D_6A3E && Steps(139, 8) == 0x7A6A_5AA8
    ensures Steps(140, 8) == 0xE40E_CF0B && Steps(141, 8) == 0x9309_FF9D
    ensures Steps(142, 8) == 0x0A00_AE27 && Steps(143, 8) == 0x7D07_9EB1
    ensures Widen(136) == 136 && Widen(137) == 137 && Widen(138) == 138 && Widen(139) == 139
    ensures Widen(140) == 140 && Widen(141) == 141 && Widen(142) == 142 && Widen(143) == 143
  {
  }

  lemma Row9(k: nat)
    requires k < 16
    ensures Word(9, k) == Steps(Widen(144 + k), 8)
  {
    hide Steps, Widen;
    Computed18();
    Computed19();
  }

  lemma Computed18()
    ensures Steps(144, 8) == 0xF00F_9344 && Steps(145, 8) == 0x8708_A3D2
    ensures Steps(146, 8) == 0x1E01_F268 && Steps(147, 8) == 0x6906_C2FE
    ensures Steps(148, 8) == 0xF762_575D && Steps(149, 8) == 0x8065_67CB
    ensures Steps(150, 8) == 0x196C_3671 && Steps(151, 8) == 0x6E6B_06E7
    ensures Widen(144) == 144 && Widen(145) == 145 && Widen(146) == 146 && Widen(147) == 147
    ensures Widen(148) == 148 && Widen(149) == 149 && Widen(150) == 150 && Widen(151) == 151
  {
  }

  lemma Computed19()
    ensures Steps(152, 8) == 0xFED4_1B76 && Steps(153, 8) == 0x89D3_2BE0
    ensures Steps(154, 8) == 0x10DA_7A5A && Steps(155, 8) == 0x67DD_4ACC
    ensures Steps(156, 8) == 0xF9B9_DF6F && Steps(157, 8) == 0x8EBE_EFF9
    ensures Steps(158, 8) == 0x17B7_BE43 && Steps(159, 8) == 0x60B0_8ED5
    ensures Widen(152) == 152 && Widen(153) == 153 && Widen(154) == 154 && Widen(155) == 155
    ensures Widen(156) == 156 && Widen(157) == 157 && Widen(158) == 158 && Widen(159) == 159
  {
  }

  lemma Row10(k: nat)
    requires k < 16
    ensures Word(10, k) == Steps(Widen(160 + k), 8)
  {
    hide Steps, Widen;
    Computed20();
    Computed21();
  }

  lemma Computed20()
    ensures Steps(160, 8) == 0xD6D6_A3E8 && Steps(161, 8) == 0xA1D1_937E
    ensures Steps(162, 8) == 0x38D8_C2C4 && Steps(163, 8) == 0x4FDF_F252
    ensures Steps(164, 8) == 0xD1BB_67F1 && Steps(165, 8) == 0xA6BC_5767
    ensures Steps(166, 8) == 0x3FB5_06DD && Steps(167, 8) == 0x48B2_364B
    ensures Widen(160) == 160 && Widen(161) == 161 && Widen(162) == 162 && Widen(163) == 163
    ensures Widen(164) == 164 && Widen(165) == 165 && Widen(166) == 166 && Widen(167) == 167
  {
  }

  lemma Computed21()
    ensures Steps(168, 8) == 0xD80D_2BDA && Steps(169, 8) == 0xAF0A_1B4C
    ensures Steps(170, 8) == 0x3603_4AF6 && Steps(171, 8) == 0x4104_7A60
    ensures Steps(172, 8) == 0xDF60_EFC3 && Steps(173, 8) == 0xA867_DF55
    ensures Steps(174, 8) == 0x316E_8EEF && Steps(175, 8) == 0x4669_BE79
    ensures Widen(168) == 168 && Widen(169) == 169 && Widen(170) == 170 && Widen(171) == 171
    ensures Widen(172) == 172 && Widen(173) == 173 && Widen(174) == 174 && Widen(175) == 175
  {
  }

  lemma Row11(k: nat)
    requires k < 16
    ensures Word(11, k) == Steps(Widen(176 + k), 8)
  {
    hide Steps, Widen;
    Computed22();
    Computed23();
  }

  lemma Computed22()
    ensures Steps(176, 8) == 0xCB61_B38C && Steps(177, 8) == 0xBC66_831A
    ensures Steps(178, 8) == 0x256F_D2A0 && Steps(179, 8) == 0x5268_E236
    ensures Steps(180, 8) == 0xCC0C_7795 && Steps(181, 8) == 0xBB0B_4703
    ensures Steps(182, 8) == 0x2202_16B9 && Steps(183, 8) == 0x5505_262F
    ensures Widen(176) == 176 && Widen(177) == 177 && Widen(178) == 178 && Widen(179) == 179
    ensures Widen(180) == 180 && Widen(181) == 181 && Widen(182) == 182 && Widen(183) == 183
  {
  }

  lemma Computed23()
    ensures Steps(184, 8) == 0xC5BA_3BBE && Steps(185, 8) == 0xB2BD_0B28
    ensures Steps(186, 8) == 0x2BB4_5A92 && Steps(187, 8) == 0x5CB3_6A04
    ensures Steps(188, 8) == 0xC2D7_FFA7 && Steps(189, 8) == 0xB5D0_CF31
    ensures Steps(190, 8) == 0x2CD9_9E8B && Steps(191, 8) == 0x5BDE_AE1D
    ensures Widen(184) == 184 && Widen(185) == 185 && Widen(186) == 186 && Widen(187) == 187
    ensures Widen(188) == 188 && Widen(189) == 189 && Widen(190) == 190 && Widen(191) == 191
  {
  }

  lemma Row12(k: nat)
    requires k < 16
    ensures Word(12, k) == Steps(Widen(192 + k), 8)
  {
    hide Steps, Widen;
    Computed24();
    Computed25();
  }

  lemma Computed24()
    ensures Steps(192, 8) == 0x9B64_C2B0 && Steps(193, 8) == 0xEC63_F226
    ensures Steps(194, 8) == 0x756A_A39C && Steps(195, 8) == 0x026D_930A
    ensures Steps(196, 8) == 0x9C09_06A9 && Steps(197, 8) == 0xEB0E_363F
    ensures Steps(198, 8) == 0x7207_6785 && Steps(199, 8) == 0x0500_5713
    ensures Widen(192) == 192 && Widen(193) == 193 && Widen(194) == 194 && Widen(195) == 195
    ensures Widen(196) == 196 && Widen(197) == 197 && Widen(198) == 198 && Widen(199) == 199
  {
  }

  lemma Computed25()
    ensures Steps(200, 8) == 0x95BF_4A82 && Steps(201, 8) == 0xE2B8_7A14
    ensures Steps(202, 8) == 0x7BB1_2BAE && Steps(203, 8) == 0x0CB6_1B38
    ensures Steps(204, 8) == 0x92D2_8E9B && Steps(205, 8) == 0xE5D5_BE0D
    ensures Steps(206, 8) == 0x7CDC_EFB7 && Steps(207, 8) == 0x0BDB_DF21
    ensures Widen(200) == 200 && Widen(201) == 201 && Widen(202) == 202 && Widen(203) == 203
    ensures Widen(204) == 204 && Widen(205) == 205 && Widen(206) == 206 && Widen(207) == 207
  {
  }

  lemma Row13(k: nat)
    requires k < 16
    ensures Word(13, k) == Steps(Widen(208 + k), 8)
  {
    hide Steps, Widen;
    Computed26();
    Computed27();
  }

  lemma Computed26()
    ensures Steps(208, 8) == 0x86D3_D2D4 && Steps(209, 8) == 0xF1D4_E242
    ensures Steps(210, 8) == 0x68DD_B3F8 && Steps(211, 8) == 0x1FDA_836E
    ensures Steps(212, 8) == 0x81BE_16CD && Steps(213, 8) == 0xF6B9_265B
    ensures Steps(214, 8) == 0x6FB0_77E1 && Steps(215, 8) == 0x18B7_4777
    ensures Widen(208) == 208 && Widen(209) == 209 && Widen(210) == 210 && Widen(211) == 211
    ensures Widen(212) == 212 && Widen(213) == 213 && Widen(214) == 214 && Widen(215) == 215
  {
  }

  lemma Computed27()
    ensures Steps(216, 8) == 0x8808_5AE6 && Steps(217, 8) == 0xFF0F_6A70
    ensures Steps(218, 8) == 0x6606_3BCA && Steps(219, 8) == 0x1101_0B5C
    ensures Steps(220, 8) == 0x8F65_9EFF && Steps(221, 8) == 0xF862_AE69
    ensures Steps(222, 8) == 0x616B_FFD3 && Steps(223, 8) == 0x166C_CF45
    ensures Widen(216) == 216 && Widen(217) == 217 && Widen(218) == 218 && Widen(219) == 219
    ensures Widen(220) == 220 && Widen(221) == 221 && Widen(222) == 222 && Widen(223) == 223
  {
  }

  lemma Row14(k: nat)
    requires k < 16
    ensures Word(14, k) == Steps(Widen(224 + k), 8)
  {
    hide Steps, Widen;
    Computed28();
    Computed29();
  }

  lemma Computed28()
    ensures Steps(224, 8) == 0xA00A_E278 && Steps(225, 8) == 0xD70D_D2EE
    ensures Steps(226, 8) == 0x4E04_8354 && Steps(227, 8) == 0x3903_B3C2
    ensures Steps(228, 8) == 0xA767_2661 && Steps(229, 8) == 0xD060_16F7
    ensures Steps(230, 8) == 0x4969_474D && Steps(231, 8) == 0x3E6E_77DB
    ensures Widen(224) == 224 && Widen(225) == 225 && Widen(226) == 226 && Widen(227) == 227
    ensures Widen(228) == 228 && Widen(229) == 229 && Widen(230) == 230 && Widen(231) == 231
  {
  }

  lemma Computed29()
    ensures Steps(232, 8) == 0xAED1_6A4A && Steps(233, 8) == 0xD9D6_5ADC
    ensures Steps(234, 8) == 0x40DF_0B66 && Steps(235, 8) == 0x37D8_3BF0
    ensures Steps(236, 8) == 0xA9BC_AE53 && Steps(237, 8) == 0xDEBB_9EC5
    ensures Steps(238, 8) == 0x47B2_CF7F && Steps(239, 8) == 0x30B5_FFE9
    ensures Widen(232) == 232 && Widen(233) == 233 && Widen(234) == 234 && Widen(235) == 235
    ensures Widen(236) == 236 && Widen(237) == 237 && Widen(238) == 238 && Widen(239) == 239
  {
  }

  lemma Row15(k: nat)
    requires k < 16
    ensures Word(15, k) == Steps(Widen(240 + k), 8)
  {
    hide Steps, Widen;
    Computed30();
    Computed31();
  }

  lemma Computed30()
    ensures Steps(240, 8) == 0xBDBD_F21C && Steps(241, 8) == 0xCABA_C28A
    ensures Steps(242, 8) == 0x53B3_9330 && Steps(243, 8) == 0x24B4_A3A6
    ensures Steps(244, 8) == 0xBAD0_3605 && Steps(245, 8) == 0xCDD7_0693
    ensures Steps(246, 8) == 0x54DE_5729 && Steps(247, 8) == 0x23D9_67BF
    ensures Widen(240) == 240 && Widen(241) == 241 && Widen(242) == 242 && Widen(243) == 243
    ensures Widen(244) == 244 && Widen(245) == 245 && Widen(246) == 246 && Widen(247) == 247
  {
  }

  lemma Computed31()
    ensures Steps(248, 8) == 0xB366_7A2E && Steps(249, 8) == 0xC461_4AB8
    ensures Steps(250, 8) == 0x5D68_1B02 && Steps(251, 8) == 0x2A6F_2B94
    ensures Steps(252, 8) == 0xB40B_BE37 && Steps(253, 8) == 0xC30C_8EA1
    ensures Steps(254, 8) == 0x5A05_DF1B && Steps(255, 8) == 0x2D02_EF8D
    ensures Widen(248) == 248 && Widen(249) == 249 && Widen(250) == 250 && Widen(251) == 251
    ensures Widen(252) == 252 && Widen(253) == 253 && Widen(254) == 254 && Widen(255) == 255
  {
  }
}
