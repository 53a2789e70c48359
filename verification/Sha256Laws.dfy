/** The words and functions of sections 4.1.2, 4.2.2 and 5.3.3 of FIPS 180-4 by what they are: bits taken
    from given places, and the roots of primes. */
module Sha256Laws {
  import opened Words
  import opened Sha256
  import opened Primes

  // ---- bit by bit ----

  /** Bit i of a word, bit 0 the lowest. */
  function BitOf(x: bv32, i: bv32): bool {
    i < 32 && (x >> i) & 1 == 1
  }

  /** Where x has a one the choice takes the bit of y, elsewhere that of z. */
  lemma Choice(x: bv32, y: bv32, z: bv32)
    ensures x & Ch(x, y, z) == x & y
    ensures !x & Ch(x, y, z) == !x & z
  {
    ChoiceOff(x, y, z);
  }

  lemma ChoiceOff(x: bv32, y: bv32, z: bv32)
    ensures !x & Ch(x, y, z) == !x & z
  {
  }

  /** Where x and y agree the majority is theirs, elsewhere z decides. */
  lemma Majority(x: bv32, y: bv32, z: bv32)
    ensures !(x ^ y) & Maj(x, y, z) == !(x ^ y) & x
    ensures (x ^ y) & Maj(x, y, z) == (x ^ y) & z
  {
    MajoritySplit(x, y, z);
  }

  lemma MajoritySplit(x: bv32, y: bv32, z: bv32)
    ensures (x ^ y) & Maj(x, y, z) == (x ^ y) & z
  {
  }

  lemma ThreeBits(a: bv32, b: bv32, c: bv32, i: bv32)
    ensures BitOf(a ^ b ^ c, i) == ((BitOf(a, i) != BitOf(b, i)) != BitOf(c, i))
  {
  }

  lemma XorBits(a: bv32, b: bv32, c: bv32, i: bv32)
    ensures BitOf(Xor3(a, b, c), i) == ((BitOf(a, i) != BitOf(b, i)) != BitOf(c, i))
  {
    hide BitOf;
    ThreeBits(a, b, c, i);
  }

  lemma BigSigma0Bit(x: bv32, i: bv32)
    requires i < 32
    ensures BitOf(BigSigma0(x), i)
         == ((BitOf(x, (i + 2) % 32) != BitOf(x, (i + 13) % 32)) != BitOf(x, (i + 22) % 32))
  {
    hide BitOf, RotR, Xor3;
    Rotated2(x, i);
    Rotated13(x, i);
    Rotated22(x, i);
    XorBits(RotR(x, 2), RotR(x, 13), RotR(x, 22), i);
  }

  lemma BigSigma1Bit(x: bv32, i: bv32)
    requires i < 32
    ensures BitOf(BigSigma1(x), i)
         == ((BitOf(x, (i + 6) % 32) != BitOf(x, (i + 11) % 32)) != BitOf(x, (i + 25) % 32))
  {
    hide BitOf, RotR, Xor3;
    Rotated6(x, i);
    Rotated11(x, i);
    Rotated25(x, i);
    XorBits(RotR(x, 6), RotR(x, 11), RotR(x, 25), i);
  }

  lemma SmallSigma0Bit(x: bv32, i: bv32)
    requires i < 32
    ensures BitOf(SmallSigma0(x), i)
         == ((BitOf(x, (i + 7) % 32) != BitOf(x, (i + 18) % 32)) != (i < 29 && BitOf(x, i + 3)))
  {
    hide BitOf, RotR, Xor3;
    Rotated7(x, i);
    Rotated18(x, i);
    Shifted3(x, i);
    XorBits(RotR(x, 7), RotR(x, 18), x >> 3, i);
  }

  lemma SmallSigma1Bit(x: bv32, i: bv32)
    requires i < 32
    ensures BitOf(SmallSigma1(x), i)
         == ((BitOf(x, (i + 17) % 32) != BitOf(x, (i + 19) % 32)) != (i < 22 && BitOf(x, i + 10)))
  {
    hide BitOf, RotR, Xor3;
    Rotated17(x, i);
    Rotated19(x, i);
    Shifted10(x, i);
    XorBits(RotR(x, 17), RotR(x, 19), x >> 10, i);
  }

  lemma Rotated2(x: bv32, i: bv32)
    requires i < 32
    ensures BitOf(RotR(x, 2), i) == BitOf(x, (i + 2) % 32)
  {
  }

  lemma Rotated6(x: bv32, i: bv32)
    requires i < 32
    ensures BitOf(RotR(x, 6), i) == BitOf(x, (i + 6) % 32)
  {
  }

  lemma Rotated7(x: bv32, i: bv32)
    requires i < 32
    ensures BitOf(RotR(x, 7), i) == BitOf(x, (i + 7) % 32)
  {
  }

  lemma Rotated11(x: bv32, i: bv32)
    requires i < 32
    ensures BitOf(RotR(x, 11), i) == BitOf(x, (i + 11) % 32)
  {
  }

  lemma Rotated13(x: bv32, i: bv32)
    requires i < 32
    ensures BitOf(RotR(x, 13), i) == BitOf(x, (i + 13) % 32)
  {
  }

  lemma Rotated17(x: bv32, i: bv32)
    requires i < 32
    ensures BitOf(RotR(x, 17), i) == BitOf(x, (i + 17) % 32)
  {
  }

  lemma Rotated18(x: bv32, i: bv32)
    requires i < 32
    ensures BitOf(RotR(x, 18), i) == BitOf(x, (i + 18) % 32)
  {
  }

  lemma Rotated19(x: bv32, i: bv32)
    requires i < 32
    ensures BitOf(RotR(x, 19), i) == BitOf(x, (i + 19) % 32)
  {
  }

  lemma Rotated22(x: bv32, i: bv32)
    requires i < 32
    ensures BitOf(RotR(x, 22), i) == BitOf(x, (i + 22) % 32)
  {
  }

  lemma Rotated25(x: bv32, i: bv32)
    requires i < 32
    ensures BitOf(RotR(x, 25), i) == BitOf(x, (i + 25) % 32)
  {
  }

  lemma Shifted3(x: bv32, i: bv32)
    requires i < 32
    ensures BitOf(x >> 3, i) == (i < 29 && BitOf(x, i + 3))
  {
  }

  lemma Shifted10(x: bv32, i: bv32)
    requires i < 32
    ensures BitOf(x >> 10, i) == (i < 22 && BitOf(x, i + 10))
  {
  }

  // ---- the constants ----

  /** The first 64 primes. */
  function Prime(t: nat): nat
    requires t < 64
  {
    match t / 8
    case 0 => Pick(t % 8, 2, 3, 5, 7, 11, 13, 17, 19)
    case 1 => Pick(t % 8, 23, 29, 31, 37, 41, 43, 47, 53)
    case 2 => Pick(t % 8, 59, 61, 67, 71, 73, 79, 83, 89)
    case 3 => Pick(t % 8, 97, 101, 103, 107, 109, 113, 127, 131)
    case 4 => Pick(t % 8, 137, 139, 149, 151, 157, 163, 167, 173)
    case 5 => Pick(t % 8, 179, 181, 191, 193, 197, 199, 211, 223)
    case 6 => Pick(t % 8, 227, 229, 233, 239, 241, 251, 257, 263)
    case _ => Pick(t % 8, 269, 271, 277, 281, 283, 293, 307, 311)
  }

  lemma Entries0()
    ensures Prime(0) == 2 && Prime(1) == 3 && Prime(2) == 5 && Prime(3) == 7
    ensures Constant(0) == 0x428a2f98 && Constant(1) == 0x71374491 && Constant(2) == 0xb5c0fbcf && Constant(3) == 0xe9b5dba5
  {
  }

  lemma Entries1()
    ensures Prime(4) == 11 && Prime(5) == 13 && Prime(6) == 17 && Prime(7) == 19
    ensures Constant(4) == 0x3956c25b && Constant(5) == 0x59f111f1 && Constant(6) == 0x923f82a4 && Constant(7) == 0xab1c5ed5
  {
  }

  lemma Entries2()
    ensures Prime(8) == 23 && Prime(9) == 29 && Prime(10) == 31 && Prime(11) == 37
    ensures Constant(8) == 0xd807aa98 && Constant(9) == 0x12835b01 && Constant(10) == 0x243185be && Constant(11) == 0x550c7dc3
  {
  }

  lemma Entries3()
    ensures Prime(12) == 41 && Prime(13) == 43 && Prime(14) == 47 && Prime(15) == 53
    ensures Constant(12) == 0x72be5d74 && Constant(13) == 0x80deb1fe && Constant(14) == 0x9bdc06a7 && Constant(15) == 0xc19bf174
  {
  }

  lemma Entries4()
    ensures Prime(16) == 59 && Prime(17) == 61 && Prime(18) == 67 && Prime(19) == 71
    ensures Constant(16) == 0xe49b69c1 && Constant(17) == 0xefbe4786 && Constant(18) == 0x0fc19dc6 && Constant(19) == 0x240ca1cc
  {
  }

  lemma Entries5()
    ensures Prime(20) == 73 && Prime(21) == 79 && Prime(22) == 83 && Prime(23) == 89
    ensures Constant(20) == 0x2de92c6f && Constant(21) == 0x4a7484aa && Constant(22) == 0x5cb0a9dc && Constant(23) == 0x76f988da
  {
  }

  lemma Entries6()
    ensures Prime(24) == 97 && Prime(25) == 101 && Prime(26) == 103 && Prime(27) == 107
    ensures Constant(24) == 0x983e5152 && Constant(25) == 0xa831c66d && Constant(26) == 0xb00327c8 && Constant(27) == 0xbf597fc7
  {
  }

  lemma Entries7()
    ensures Prime(28) == 109 && Prime(29) == 113 && Prime(30) == 127 && Prime(31) == 131
    ensures Constant(28) == 0xc6e00bf3 && Constant(29) == 0xd5a79147 && Constant(30) == 0x06ca6351 && Constant(31) == 0x14292967
  {
  }

  lemma Entries8()
    ensures Prime(32) == 137 && Prime(33) == 139 && Prime(34) == 149 && Prime(35) == 151
    ensures Constant(32) == 0x27b70a85 && Constant(33) == 0x2e1b2138 && Constant(34) == 0x4d2c6dfc && Constant(35) == 0x53380d13
  {
  }

  lemma Entries9()
    ensures Prime(36) == 157 && Prime(37) == 163 && Prime(38) == 167 && Prime(39) == 173
    ensures Constant(36) == 0x650a7354 && Constant(37) == 0x766a0abb && Constant(38) == 0x81c2c92e && Constant(39) == 0x92722c85
  {
  }

  lemma Entries10()
    ensures Prime(40) == 179 && Prime(41) == 181 && Prime(42) == 191 && Prime(43) == 193
    ensures Constant(40) == 0xa2bfe8a1 && Constant(41) == 0xa81a664b && Constant(42) == 0xc24b8b70 && Constant(43) == 0xc76c51a3
  {
  }

  lemma Entries11()
    ensures Prime(44) == 197 && Prime(45) == 199 && Prime(46) == 211 && Prime(47) == 223
    ensures Constant(44) == 0xd192e819 && Constant(45) == 0xd6990624 && Constant(46) == 0xf40e3585 && Constant(47) == 0x106aa070
  {
  }

  lemma Entries12()
    ensures Prime(48) == 227 && Prime(49) == 229 && Prime(50) == 233 && Prime(51) == 239
    ensures Constant(48) == 0x19a4c116 && Constant(49) == 0x1e376c08 && Constant(50) == 0x2748774c && Constant(51) == 0x34b0bcb5
  {
  }

  lemma Entries13()
    ensures Prime(52) == 241 && Prime(53) == 251 && Prime(54) == 257 && Prime(55) == 263
    ensures Constant(52) == 0x391c0cb3 && Constant(53) == 0x4ed8aa4a && Constant(54) == 0x5b9cca4f && Constant(55) == 0x682e6ff3
  {
  }

  lemma Entries14()
    ensures Prime(56) == 269 && Prime(57) == 271 && Prime(58) == 277 && Prime(59) == 281
    ensures Constant(56) == 0x748f82ee && Constant(57) == 0x78a5636f && Constant(58) == 0x84c87814 && Constant(59) == 0x8cc70208
  {
  }

  lemma Entries15()
    ensures Prime(60) == 283 && Prime(61) == 293 && Prime(62) == 307 && Prime(63) == 311
    ensures Constant(60) == 0x90befffa && Constant(61) == 0xa4506ceb && Constant(62) == 0xbef9a3f7 && Constant(63) == 0xc67178f2
  {
  }

  lemma Group0(t: nat)
    requires 0 <= t < 4
    ensures EntryOk(t)
  {
    hide CubeRootBits, Prime, Constant;
    Entries0();
    Entries1();
    Sieve0(2);
    Sieve0(3);
    Sieve0(5);
    Sieve0(7);
    CubeRoot(2, 1, 0x428a2f98, 0x428a2f98);
    CubeRoot(3, 1, 0x71374491, 0x71374491);
    CubeRoot(5, 1, 0xb5c0fbcf, 0xb5c0fbcf);
    CubeRoot(7, 1, 0xe9b5dba5, 0xe9b5dba5);
  }

  lemma Group1(t: nat)
    requires 4 <= t < 8
    ensures EntryOk(t)
  {
    hide CubeRootBits, Prime, Constant;
    Entries1();
    Entries2();
    Sieve1(11);
    Sieve1(13);
    Sieve1(17);
    Sieve1(19);
    CubeRoot(11, 2, 0x3956c25b, 0x3956c25b);
    CubeRoot(13, 2, 0x59f111f1, 0x59f111f1);
    CubeRoot(17, 2, 0x923f82a4, 0x923f82a4);
    CubeRoot(19, 2, 0xab1c5ed5, 0xab1c5ed5);
  }

  lemma Group2(t: nat)
    requires 8 <= t < 12
    ensures EntryOk(t)
  {
    hide CubeRootBits, Prime, Constant;
    Entries2();
    Entries3();
    Sieve2(23);
    Sieve2(29);
    Sieve2(31);
    Sieve2(37);
    CubeRoot(23, 2, 0xd807aa98, 0xd807aa98);
    CubeRoot(29, 3, 0x12835b01, 0x12835b01);
    CubeRoot(31, 3, 0x243185be, 0x243185be);
    CubeRoot(37, 3, 0x550c7dc3, 0x550c7dc3);
  }

  lemma Group3(t: nat)
    requires 12 <= t < 16
    ensures EntryOk(t)
  {
    hide CubeRootBits, Prime, Constant;
    Entries3();
    Entries4();
    Sieve3(41);
    Sieve3(43);
    Sieve3(47);
    Sieve3(53);
    CubeRoot(41, 3, 0x72be5d74, 0x72be5d74);
    CubeRoot(43, 3, 0x80deb1fe, 0x80deb1fe);
    CubeRoot(47, 3, 0x9bdc06a7, 0x9bdc06a7);
    CubeRoot(53, 3, 0xc19bf174, 0xc19bf174);
  }

  lemma Group4(t: nat)
    requires 16 <= t < 20
    ensures EntryOk(t)
  {
    hide CubeRootBits, Prime, Constant;
    Entries4();
    Entries5();
    Sieve4(59);
    Sieve4(61);
    Sieve4(67);
    Sieve4(71);
    CubeRoot(59, 3, 0xe49b69c1, 0xe49b69c1);
    CubeRoot(61, 3, 0xefbe4786, 0xefbe4786);
    CubeRoot(67, 4, 0x0fc19dc6, 0x0fc19dc6);
    CubeRoot(71, 4, 0x240ca1cc, 0x240ca1cc);
  }

  lemma Group5(t: nat)
    requires 20 <= t < 24
    ensures EntryOk(t)
  {
    hide CubeRootBits, Prime, Constant;
    Entries5();
    Entries6();
    Sieve5(73);
    Sieve5(79);
    Sieve5(83);
    Sieve5(89);
    CubeRoot(73, 4, 0x2de92c6f, 0x2de92c6f);
    CubeRoot(79, 4, 0x4a7484aa, 0x4a7484aa);
    CubeRoot(83, 4, 0x5cb0a9dc, 0x5cb0a9dc);
    CubeRoot(89, 4, 0x76f988da, 0x76f988da);
  }

  lemma Group6(t: nat)
    requires 24 <= t < 28
    ensures EntryOk(t)
  {
    hide CubeRootBits, Prime, Constant;
    Entries6();
    Entries7();
    Sieve6(97);
    Sieve6(101);
    Sieve6(103);
    Sieve6(107);
    CubeRoot(97, 4, 0x983e5152, 0x983e5152);
    CubeRoot(101, 4, 0xa831c66d, 0xa831c66d);
    CubeRoot(103, 4, 0xb00327c8, 0xb00327c8);
    CubeRoot(107, 4, 0xbf597fc7, 0xbf597fc7);
  }

  lemma Group7(t: nat)
    requires 28 <= t < 32
    ensures EntryOk(t)
  {
    hide CubeRootBits, Prime, Constant;
    Entries7();
    Entries8();
    Sieve7(109);
    Sieve7(113);
    Sieve7(127);
    Sieve7(131);
    CubeRoot(109, 4, 0xc6e00bf3, 0xc6e00bf3);
    CubeRoot(113, 4, 0xd5a79147, 0xd5a79147);
    CubeRoot(127, 5, 0x06ca6351, 0x06ca6351);
    CubeRoot(131, 5, 0x14292967, 0x14292967);
  }

  lemma Group8(t: nat)
    requires 32 <= t < 36
    ensures EntryOk(t)
  {
    hide CubeRootBits, Prime, Constant;
    Entries8();
    Entries9();
    Sieve8(137);
    Sieve8(139);
    Sieve8(149);
    Sieve8(151);
    CubeRoot(137, 5, 0x27b70a85, 0x27b70a85);
    CubeRoot(139, 5, 0x2e1b2138, 0x2e1b2138);
    CubeRoot(149, 5, 0x4d2c6dfc, 0x4d2c6dfc);
    CubeRoot(151, 5, 0x53380d13, 0x53380d13);
  }

  lemma Group9(t: nat)
    requires 36 <= t < 40
    ensures EntryOk(t)
  {
    hide CubeRootBits, Prime, Constant;
    Entries9();
    Entries10();
    Sieve9(157);
    Sieve9(163);
    Sieve9(167);
    Sieve9(173);
    CubeRoot(157, 5, 0x650a7354, 0x650a7354);
    CubeRoot(163, 5, 0x766a0abb, 0x766a0abb);
    CubeRoot(167, 5, 0x81c2c92e, 0x81c2c92e);
    CubeRoot(173, 5, 0x92722c85, 0x92722c85);
  }

  lemma Group10(t: nat)
    requires 40 <= t < 44
    ensures EntryOk(t)
  {
    hide CubeRootBits, Prime, Constant;
    Entries10();
    Entries11();
    Sieve10(179);
    Sieve10(181);
    Sieve10(191);
    Sieve10(193);
    CubeRoot(179, 5, 0xa2bfe8a1, 0xa2bfe8a1);
    CubeRoot(181, 5, 0xa81a664b, 0xa81a664b);
    CubeRoot(191, 5, 0xc24b8b70, 0xc24b8b70);
    CubeRoot(193, 5, 0xc76c51a3, 0xc76c51a3);
  }

  lemma Group11(t: nat)
    requires 44 <= t < 48
    ensures EntryOk(t)
  {
    hide CubeRootBits, Prime, Constant;
    Entries11();
    Entries12();
    Sieve11(197);
    Sieve11(199);
    Sieve11(211);
    Sieve11(223);
    CubeRoot(197, 5, 0xd192e819, 0xd192e819);
    CubeRoot(199, 5, 0xd6990624, 0xd6990624);
    CubeRoot(211, 5, 0xf40e3585, 0xf40e3585);
    CubeRoot(223, 6, 0x106aa070, 0x106aa070);
  }

  lemma Group12(t: nat)
    requires 48 <= t < 52
    ensures EntryOk(t)
  {
    hide CubeRootBits, Prime, Constant;
    Entries12();
    Entries13();
    Sieve12(227);
    Sieve12(229);
    Sieve12(233);
    Sieve12(239);
    CubeRoot(227, 6, 0x19a4c116, 0x19a4c116);
    CubeRoot(229, 6, 0x1e376c08, 0x1e376c08);
    CubeRoot(233, 6, 0x2748774c, 0x2748774c);
    CubeRoot(239, 6, 0x34b0bcb5, 0x34b0bcb5);
  }

  lemma Group13(t: nat)
    requires 52 <= t < 56
    ensures EntryOk(t)
  {
    hide CubeRootBits, Prime, Constant;
    Entries13();
    Entries14();
    Sieve13(241);
    Sieve13(251);
    Sieve13(257);
    Sieve13(263);
    CubeRoot(241, 6, 0x391c0cb3, 0x391c0cb3);
    CubeRoot(251, 6, 0x4ed8aa4a, 0x4ed8aa4a);
    CubeRoot(257, 6, 0x5b9cca4f, 0x5b9cca4f);
    CubeRoot(263, 6, 0x682e6ff3, 0x682e6ff3);
  }

  lemma Group14(t: nat)
    requires 56 <= t < 60
    ensures EntryOk(t)
  {
    hide CubeRootBits, Prime, Constant;
    Entries14();
    Entries15();
    Sieve14(269);
    Sieve14(271);
    Sieve14(277);
    Sieve14(281);
    CubeRoot(269, 6, 0x748f82ee, 0x748f82ee);
    CubeRoot(271, 6, 0x78a5636f, 0x78a5636f);
    CubeRoot(277, 6, 0x84c87814, 0x84c87814);
    CubeRoot(281, 6, 0x8cc70208, 0x8cc70208);
  }

  lemma Group15(t: nat)
    requires 60 <= t < 64
    ensures EntryOk(t)
  {
    hide CubeRootBits, Prime, Constant;
    Entries15();
    Sieve15(283);
    Sieve15(293);
    Sieve15(307);
    Sieve15(311);
    CubeRoot(283, 6, 0x90befffa, 0x90befffa);
    CubeRoot(293, 6, 0xa4506ceb, 0xa4506ceb);
    CubeRoot(307, 6, 0xbef9a3f7, 0xbef9a3f7);
    CubeRoot(311, 6, 0xc67178f2, 0xc67178f2);
  }

  /** What is to be shown of the t-th prime and the t-th constant. */
  ghost predicate EntryOk(t: nat) {
    && t < 64
    && Prime(t) < 312 && Sieved(Prime(t)) && CubeRootBits(Prime(t), Constant(t))
    && (t < 63 ==> Prime(t) < Prime(t + 1))
  }

  lemma EntryAt(t: nat)
    requires t < 64
    ensures EntryOk(t)
  {
    hide EntryOk;
    if t < 32 {
      if t < 16 {
        if t < 8 {
          if t < 4 {
            Group0(t);
          } else {
            Group1(t);
          }
        } else {
          if t < 12 {
            Group2(t);
          } else {
            Group3(t);
          }
        }
      } else {
        if t < 24 {
          if t < 20 {
            Group4(t);
          } else {
            Group5(t);
          }
        } else {
          if t < 28 {
            Group6(t);
          } else {
            Group7(t);
          }
        }
      }
    } else {
      if t < 48 {
        if t < 40 {
          if t < 36 {
            Group8(t);
          } else {
            Group9(t);
          }
        } else {
          if t < 44 {
            Group10(t);
          } else {
            Group11(t);
          }
        }
      } else {
        if t < 56 {
          if t < 52 {
            Group12(t);
          } else {
            Group13(t);
          }
        } else {
          if t < 60 {
            Group14(t);
          } else {
            Group15(t);
          }
        }
      }
    }
  }

  lemma Listed(n: nat)
    requires n < 312 && Sieved(n)
    ensures exists t :: 0 <= t < 64 && Prime(t) == n
  {
    hide Prime, Constant;
    if n < 137 {
      if n < 59 {
        if n < 23 {
          if n < 11 {
            Entries0(); Sieve0(n);
          } else {
            Entries1(); Sieve1(n);
          }
        } else {
          if n < 41 {
            Entries2(); Sieve2(n);
          } else {
            Entries3(); Sieve3(n);
          }
        }
      } else {
        if n < 97 {
          if n < 73 {
            Entries4(); Sieve4(n);
          } else {
            Entries5(); Sieve5(n);
          }
        } else {
          if n < 109 {
            Entries6(); Sieve6(n);
          } else {
            Entries7(); Sieve7(n);
          }
        }
      }
    } else {
      if n < 227 {
        if n < 179 {
          if n < 157 {
            Entries8(); Sieve8(n);
          } else {
            Entries9(); Sieve9(n);
          }
        } else {
          if n < 197 {
            Entries10(); Sieve10(n);
          } else {
            Entries11(); Sieve11(n);
          }
        }
      } else {
        if n < 269 {
          if n < 241 {
            Entries12(); Sieve12(n);
          } else {
            Entries13(); Sieve13(n);
          }
        } else {
          if n < 283 {
            Entries14(); Sieve14(n);
          } else {
            Entries15(); Sieve15(n);
          }
        }
      }
    }
  }

  /** They are the primes below 312, in order. */
  lemma FirstPrimes(n: nat)
    ensures forall t :: 0 <= t < 63 ==> Prime(t) < Prime(t + 1)
    ensures n < 312 ==> (IsPrime(n) <==> exists t :: 0 <= t < 64 && Prime(t) == n)
    ensures forall t :: 0 <= t < 64 ==> Prime(t) < 312
  {
    hide IsPrime, Prime, CubeRootBits;
    forall t | 0 <= t < 64
      ensures t < 63 ==> Prime(t) < Prime(t + 1)
      ensures Prime(t) < 312 && Sieved(Prime(t))
    {
      EntryAt(t);
    }
    if n < 312 {
      SievedIsPrime(n);
      if Sieved(n) {
        Listed(n);
      }
    }
  }

  /** c is the first 32 bits behind the point of the square root of p. */
  ghost predicate SquareRootBits(p: nat, c: bv32) {
    exists whole: nat :: IsSquareRoot(p, whole * TWO_32 + c as int)
  }

  /** x is the square root of p times 2^32, rounded down. */
  predicate IsSquareRoot(p: nat, x: nat) {
    x * x <= p * TWO_64 < (x + 1) * (x + 1)
  }

  /** The same for the cube root. */
  ghost predicate CubeRootBits(p: nat, c: bv32) {
    exists whole: nat :: IsCubeRoot(p, whole * TWO_32 + c as int)
  }

  predicate IsCubeRoot(p: nat, x: nat) {
    x * x * x <= p * (TWO_32 * TWO_64) < (x + 1) * (x + 1) * (x + 1)
  }

  lemma SquareRoot(p: nat, whole: nat, c: bv32, n: nat)
    requires c as int == n && IsSquareRoot(p, whole * TWO_32 + n)
    ensures SquareRootBits(p, c)
  {
  }

  lemma CubeRoot(p: nat, whole: nat, c: bv32, n: nat)
    requires c as int == n && IsCubeRoot(p, whole * TWO_32 + n)
    ensures CubeRootBits(p, c)
  {
  }

  lemma Initial()
    ensures |H0| == 8
    ensures H0[0] == 0x6a09e667 && H0[1] == 0xbb67ae85 && H0[2] == 0x3c6ef372 && H0[3] == 0xa54ff53a
    ensures H0[4] == 0x510e527f && H0[5] == 0x9b05688c && H0[6] == 0x1f83d9ab && H0[7] == 0x5be0cd19
  {
  }

  /** The initial hash value is made of the square roots of the first eight primes. */
  lemma SquareRoots()
    ensures |H0| == 8
    ensures SquareRootBits(Prime(0), H0[0]) && SquareRootBits(Prime(1), H0[1])
    ensures SquareRootBits(Prime(2), H0[2]) && SquareRootBits(Prime(3), H0[3])
    ensures SquareRootBits(Prime(4), H0[4]) && SquareRootBits(Prime(5), H0[5])
    ensures SquareRootBits(Prime(6), H0[6]) && SquareRootBits(Prime(7), H0[7])
  {
    hide SquareRootBits, Prime, H0;
    Initial();
    Entries0();
    Entries1();
    FirstSquareRoots();
  }

  lemma FirstSquareRoots()
    ensures SquareRootBits(2, 0x6a09e667)
    ensures SquareRootBits(3, 0xbb67ae85)
    ensures SquareRootBits(5, 0x3c6ef372)
    ensures SquareRootBits(7, 0xa54ff53a)
    ensures SquareRootBits(11, 0x510e527f)
    ensures SquareRootBits(13, 0x9b05688c)
    ensures SquareRootBits(17, 0x1f83d9ab)
    ensures SquareRootBits(19, 0x5be0cd19)
  {
    hide SquareRootBits;
    SquareRoot(2, 1, 0x6a09e667, 0x6a09e667);
    SquareRoot(3, 1, 0xbb67ae85, 0xbb67ae85);
    SquareRoot(5, 2, 0x3c6ef372, 0x3c6ef372);
    SquareRoot(7, 2, 0xa54ff53a, 0xa54ff53a);
    SquareRoot(11, 3, 0x510e527f, 0x510e527f);
    SquareRoot(13, 3, 0x9b05688c, 0x9b05688c);
    SquareRoot(17, 4, 0x1f83d9ab, 0x1f83d9ab);
    SquareRoot(19, 4, 0x5be0cd19, 0x5be0cd19);
  }

  /** The 64 constants are made of the cube roots of the first 64 primes. */
  lemma CubeRoots()
    ensures forall t :: 0 <= t < 64 ==> CubeRootBits(Prime(t), Constant(t))
  {
    hide CubeRootBits, Prime, Constant;
    forall t | 0 <= t < 64
      ensures CubeRootBits(Prime(t), Constant(t))
    {
      EntryAt(t);
    }
  }

  // ---- the text ----

  /** The number a text of hexadecimal digits denotes. */
  function HexValue(s: string): nat {
    if s == "" then 0 else HexValue(s[..|s| - 1]) * 16 + DigitValue(s[|s| - 1])
  }
  function DigitValue(c: char): nat {
    if '0' <= c <= '9' then c as int - '0' as int else if 'a' <= c <= 'f' then c as int - 'a' as int + 10 else 16
  }
  lemma DigitBack(d: nat)
    requires d < 16
    ensures DigitValue(HEX_DIGITS[d]) == d
  {
    assert HEX_DIGITS[0] == '0' && HEX_DIGITS[1] == '1' && HEX_DIGITS[2] == '2' && HEX_DIGITS[3] == '3';
    assert HEX_DIGITS[4] == '4' && HEX_DIGITS[5] == '5' && HEX_DIGITS[6] == '6' && HEX_DIGITS[7] == '7';
    assert HEX_DIGITS[8] == '8' && HEX_DIGITS[9] == '9' && HEX_DIGITS[10] == 'a' && HEX_DIGITS[11] == 'b';
    assert HEX_DIGITS[12] == 'c' && HEX_DIGITS[13] == 'd' && HEX_DIGITS[14] == 'e' && HEX_DIGITS[15] == 'f';
  }
  lemma {:induction false} HexWordBack(x: nat, n: nat)
    ensures HexValue(HexWord(x, n)) == x % Pow2(4 * n)
    decreases n
  {
    if n > 0 {
      HexWordBack(x / 16, n - 1);
      DigitBack(x % 16);
      assert HexWord(x, n)[..n - 1] == HexWord(x / 16, n - 1);
      SixteenMod(x, Pow2(4 * (n - 1)));
      Pow2Add(4, 4 * (n - 1));
      assert Pow2(4) == 16;
      assert 4 + 4 * (n - 1) == 4 * n;
    }
  }

  lemma SixteenMod(x: nat, p: nat)
    requires p >= 1
    ensures x % (16 * p) == x % 16 + 16 * ((x / 16) % p)
  {
    var q, r := (x / 16) / p, (x / 16) % p;
    assert x / 16 == q * p + r;
    assert x == q * (16 * p) + (x % 16 + 16 * r);
    RemainderUnique(x, 16 * p, q, x % 16 + 16 * r);
  }
  lemma WordFits(x: bv32)
    ensures 0 <= x as int < TWO_32
  {
  }

  lemma WordText(x: bv32)
    ensures HexValue(HexWord(x as nat, 8)) == x as int
  {
    hide HexValue, HexWord;
    WordFits(x);
    NumberText(x as nat);
  }

  lemma NumberText(n: nat)
    requires n < TWO_32
    ensures HexValue(HexWord(n, 8)) == n
  {
    hide HexValue, HexWord, Pow2;
    Pow2Values();
    HexWordBack(n, 8);
  }

  lemma HexSnoc(front: seq<bv32>, x: bv32)
    ensures Hex(front + [x]) == Hex(front) + HexWord(x as nat, 8)
  {
    hide HexWord;
    assert (front + [x])[..|front|] == front;
  }

  lemma NoText()
    ensures Hex([]) == ""
  {
  }

  /** Every eight characters of the text denote their word. */
  lemma {:induction false} HexBack(words: seq<bv32>)
    ensures |Hex(words)| == 8 * |words|
    ensures forall i :: 0 <= i < |words| ==> HexValue(Hex(words)[8 * i..8 * i + 8]) == words[i] as int
    decreases |words|
  {
    hide HexWord, HexValue, Hex;
    if words == [] {
      NoText();
    } else {
      var n := |words| - 1;
      var front, last := words[..n], words[n];
      assert words == front + [last];
      HexBack(front);
      HexSnoc(front, last);
      WordText(last);
      forall i | 0 <= i < |words|
        ensures HexValue(Hex(words)[8 * i..8 * i + 8]) == words[i] as int
      {
        if i < n {
          assert Hex(words)[8 * i..8 * i + 8] == Hex(front)[8 * i..8 * i + 8];
        } else {
          assert Hex(words)[8 * n..8 * n + 8] == HexWord(last as nat, 8);
        }
      }
    }
  }
}
