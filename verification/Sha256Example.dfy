/** The digest of "abc", the example of FIPS 180-4, computed step by step. */
module Sha256Example {
  import opened Words
  import opened Sha256
  import opened Sha256Laws

  const ABC: seq<byte> := [0x61, 0x62, 0x63]

  lemma AbcPadded()
    ensures |Padded(ABC)| == 64
    ensures Padded(ABC)[0] == 0x61 && Padded(ABC)[1] == 0x62 && Padded(ABC)[2] == 0x63 && Padded(ABC)[3] == 0x80
    ensures forall i :: 4 <= i < 63 ==> Padded(ABC)[i] == 0
    ensures Padded(ABC)[63] == 24
  {
    hide BigEndian;
    assert ZeroCount(3) == 52;
    LengthOf24();
  }

  lemma LengthOf24()
    ensures BigEndian(24, 8) == [0, 0, 0, 0, 0, 0, 0, 24]
  {
    assert BigEndian(0, 0) == [] && BigEndian(0, 1) == [0] && BigEndian(0, 2) == [0, 0];
    assert BigEndian(0, 4) == [0, 0, 0, 0];
    assert BigEndian(0, 7) == [0, 0, 0, 0, 0, 0, 0];
  }

  // ---- the message schedule ----

  lemma BlockWords()
    ensures WordOf(0x61, 0x62, 0x63, 0x80) == 0x61626380 && WordOf(0, 0, 0, 0) == 0 && WordOf(0, 0, 0, 24) == 24
  {
  }

  /** The words of the block itself. */
  lemma FirstWords(b: Block, t: nat)
    requires t < 16 && b == Padded(ABC)
    ensures Schedule(b, t) == if t == 0 then 0x61626380 else if t == 15 then 24 else 0
  {
    hide WordOf, Padded, Schedule;
    AbcPadded();
    BlockWords();
    ScheduleFirst(b, t);
  }

  lemma Xored(a: bv32, b: bv32, c: bv32)
    ensures Xor3(a, b, c) == a ^ b ^ c
  {
  }

  lemma Rotate2(x: bv32)
    ensures RotR(x, 2) == (x >> 2) | (x << 30)
  {
  }

  lemma Rotate6(x: bv32)
    ensures RotR(x, 6) == (x >> 6) | (x << 26)
  {
  }

  lemma Rotate7(x: bv32)
    ensures RotR(x, 7) == (x >> 7) | (x << 25)
  {
  }

  lemma Rotate11(x: bv32)
    ensures RotR(x, 11) == (x >> 11) | (x << 21)
  {
  }

  lemma Rotate13(x: bv32)
    ensures RotR(x, 13) == (x >> 13) | (x << 19)
  {
  }

  lemma Rotate17(x: bv32)
    ensures RotR(x, 17) == (x >> 17) | (x << 15)
  {
  }

  lemma Rotate18(x: bv32)
    ensures RotR(x, 18) == (x >> 18) | (x << 14)
  {
  }

  lemma Rotate19(x: bv32)
    ensures RotR(x, 19) == (x >> 19) | (x << 13)
  {
  }

  lemma Rotate22(x: bv32)
    ensures RotR(x, 22) == (x >> 22) | (x << 10)
  {
  }

  lemma Rotate25(x: bv32)
    ensures RotR(x, 25) == (x >> 25) | (x << 7)
  {
  }

  lemma SmallSigma0Is(x: bv32, a: bv32, b: bv32, c: bv32, p: bv32)
    requires a == (x >> 7) | (x << 25) && b == (x >> 18) | (x << 14) && c == x >> 3
    requires p == a ^ b ^ c
    ensures SmallSigma0(x) == p
  {
    hide RotR, Xor3;
    Rotate7(x);
    Rotate18(x);
    Xored(a, b, c);
  }

  lemma SmallSigma1Is(x: bv32, a: bv32, b: bv32, c: bv32, p: bv32)
    requires a == (x >> 17) | (x << 15) && b == (x >> 19) | (x << 13) && c == x >> 10
    requires p == a ^ b ^ c
    ensures SmallSigma1(x) == p
  {
    hide RotR, Xor3;
    Rotate17(x);
    Rotate19(x);
    Xored(a, b, c);
  }

  lemma BigSigma0Is(x: bv32, a: bv32, b: bv32, c: bv32, p: bv32)
    requires a == (x >> 2) | (x << 30) && b == (x >> 13) | (x << 19) && c == (x >> 22) | (x << 10)
    requires p == a ^ b ^ c
    ensures BigSigma0(x) == p
  {
    hide RotR, Xor3;
    Rotate2(x);
    Rotate13(x);
    Rotate22(x);
    Xored(a, b, c);
  }

  lemma BigSigma1Is(x: bv32, a: bv32, b: bv32, c: bv32, p: bv32)
    requires a == (x >> 6) | (x << 26) && b == (x >> 11) | (x << 21) && c == (x >> 25) | (x << 7)
    requires p == a ^ b ^ c
    ensures BigSigma1(x) == p
  {
    hide RotR, Xor3;
    Rotate6(x);
    Rotate11(x);
    Rotate25(x);
    Xored(a, b, c);
  }

  lemma Summed(x: bv32, y: bv32, z: bv32, u: bv32)
    ensures Sum4(x, y, z, u) == x + y + z + u
  {
  }

  /** One more word w from the words u, x, y and z before it and the sigmas p and q. */
  lemma Mixed(b: Block, t: nat, u: bv32, x: bv32, y: bv32, z: bv32, p: bv32, q: bv32, w: bv32)
    requires 16 <= t < 64
    requires Schedule(b, t - 2) == u && Schedule(b, t - 7) == x && Schedule(b, t - 15) == y && Schedule(b, t - 16) == z
    requires SmallSigma1(u) == p && SmallSigma0(y) == q && w == p + x + q + z
    ensures Schedule(b, t) == w
  {
    hide Schedule, SmallSigma0, SmallSigma1, Sum4;
    Summed(p, x, q, z);
    ScheduleNext(b, t);
  }

  lemma Words2(b: Block)
    requires b == Padded(ABC)
    ensures Schedule(b, 16) == 0x61626380 && Schedule(b, 17) == 0x000f0000
    ensures Schedule(b, 18) == 0x7da86405 && Schedule(b, 19) == 0x600003c6
    ensures Schedule(b, 20) == 0x3e9d7b78 && Schedule(b, 21) == 0x0183fc00
    ensures Schedule(b, 22) == 0x12dcbfdb && Schedule(b, 23) == 0xe2e2c38e
  {
    hide Schedule, Padded, SmallSigma0, SmallSigma1;
    FirstWords(b, 0);
    FirstWords(b, 1);
    FirstWords(b, 2);
    FirstWords(b, 3);
    FirstWords(b, 4);
    FirstWords(b, 5);
    FirstWords(b, 6);
    FirstWords(b, 7);
    FirstWords(b, 8);
    FirstWords(b, 9);
    FirstWords(b, 10);
    FirstWords(b, 11);
    FirstWords(b, 12);
    FirstWords(b, 13);
    FirstWords(b, 14);
    FirstWords(b, 15);
    SmallSigma1Is(0x00000000, 0x00000000, 0x00000000, 0x00000000, 0x00000000);
    SmallSigma0Is(0x00000000, 0x00000000, 0x00000000, 0x00000000, 0x00000000);
    Mixed(b, 16, 0x00000000, 0x00000000, 0x00000000, 0x61626380, 0x00000000, 0x00000000, 0x61626380);
    SmallSigma1Is(0x00000018, 0x000c0000, 0x00030000, 0x00000000, 0x000f0000);
    SmallSigma0Is(0x00000000, 0x00000000, 0x00000000, 0x00000000, 0x00000000);
    Mixed(b, 17, 0x00000018, 0x00000000, 0x00000000, 0x00000000, 0x000f0000, 0x00000000, 0x000f0000);
    SmallSigma1Is(0x61626380, 0x31c030b1, 0x4c700c2c, 0x00185898, 0x7da86405);
    SmallSigma0Is(0x00000000, 0x00000000, 0x00000000, 0x00000000, 0x00000000);
    Mixed(b, 18, 0x61626380, 0x00000000, 0x00000000, 0x00000000, 0x7da86405, 0x00000000, 0x7da86405);
    SmallSigma1Is(0x000f0000, 0x80000007, 0xe0000001, 0x000003c0, 0x600003c6);
    SmallSigma0Is(0x00000000, 0x00000000, 0x00000000, 0x00000000, 0x00000000);
    Mixed(b, 19, 0x000f0000, 0x00000000, 0x00000000, 0x00000000, 0x600003c6, 0x00000000, 0x600003c6);
    SmallSigma1Is(0x7da86405, 0x3202bed4, 0x0c80afb5, 0x001f6a19, 0x3e9d7b78);
    SmallSigma0Is(0x00000000, 0x00000000, 0x00000000, 0x00000000, 0x00000000);
    Mixed(b, 20, 0x7da86405, 0x00000000, 0x00000000, 0x00000000, 0x3e9d7b78, 0x00000000, 0x3e9d7b78);
    SmallSigma1Is(0x600003c6, 0x01e33000, 0x0078cc00, 0x00180000, 0x0183fc00);
    SmallSigma0Is(0x00000000, 0x00000000, 0x00000000, 0x00000000, 0x00000000);
    Mixed(b, 21, 0x600003c6, 0x00000000, 0x00000000, 0x00000000, 0x0183fc00, 0x00000000, 0x0183fc00);
    SmallSigma1Is(0x3e9d7b78, 0xbdbc1f4e, 0xaf6f07d3, 0x000fa75e, 0x12dcbfc3);
    SmallSigma0Is(0x00000000, 0x00000000, 0x00000000, 0x00000000, 0x00000000);
    Mixed(b, 22, 0x3e9d7b78, 0x00000018, 0x00000000, 0x00000000, 0x12dcbfc3, 0x00000000, 0x12dcbfdb);
    SmallSigma1Is(0x0183fc00, 0xfe0000c1, 0x7f800030, 0x000060ff, 0x8180600e);
    SmallSigma0Is(0x00000000, 0x00000000, 0x00000000, 0x00000000, 0x00000000);
    Mixed(b, 23, 0x0183fc00, 0x61626380, 0x00000000, 0x00000000, 0x8180600e, 0x00000000, 0xe2e2c38e);
  }

  lemma Words3(b: Block)
    requires b == Padded(ABC)
    ensures Schedule(b, 24) == 0xc8215c1a && Schedule(b, 25) == 0xb73679a2
    ensures Schedule(b, 26) == 0xe5bc3909 && Schedule(b, 27) == 0x32663c5b
    ensures Schedule(b, 28) == 0x9d209d67 && Schedule(b, 29) == 0xec8726cb
    ensures Schedule(b, 30) == 0x702138a4 && Schedule(b, 31) == 0xd3b7973b
  {
    hide Schedule, Padded, SmallSigma0, SmallSigma1;
    FirstWords(b, 8);
    FirstWords(b, 9);
    FirstWords(b, 10);
    FirstWords(b, 11);
    FirstWords(b, 12);
    FirstWords(b, 13);
    FirstWords(b, 14);
    FirstWords(b, 15);
    Words2(b);
    SmallSigma1Is(0x12dcbfdb, 0x5fed896e, 0x97fb625b, 0x0004b72f, 0xc8125c1a);
    SmallSigma0Is(0x00000000, 0x00000000, 0x00000000, 0x00000000, 0x00000000);
    Mixed(b, 24, 0x12dcbfdb, 0x000f0000, 0x00000000, 0x00000000, 0xc8125c1a, 0x00000000, 0xc8215c1a);
    SmallSigma1Is(0xe2e2c38e, 0x61c77171, 0x5871dc5c, 0x0038b8b0, 0x398e159d);
    SmallSigma0Is(0x00000000, 0x00000000, 0x00000000, 0x00000000, 0x00000000);
    Mixed(b, 25, 0xe2e2c38e, 0x7da86405, 0x00000000, 0x00000000, 0x398e159d, 0x00000000, 0xb73679a2);
    SmallSigma1Is(0xc8215c1a, 0xae0d6410, 0x2b835904, 0x00320857, 0x85bc3543);
    SmallSigma0Is(0x00000000, 0x00000000, 0x00000000, 0x00000000, 0x00000000);
    Mixed(b, 26, 0xc8215c1a, 0x600003c6, 0x00000000, 0x00000000, 0x85bc3543, 0x00000000, 0xe5bc3909);
    SmallSigma1Is(0xb73679a2, 0x3cd15b9b, 0xcf3456e6, 0x002dcd9e, 0xf3c8c0e3);
    SmallSigma0Is(0x00000000, 0x00000000, 0x00000000, 0x00000000, 0x00000000);
    Mixed(b, 27, 0xb73679a2, 0x3e9d7b78, 0x00000000, 0x00000000, 0xf3c8c0e3, 0x00000000, 0x32663c5b);
    SmallSigma1Is(0xe5bc3909, 0x1c84f2de, 0x87213cb7, 0x00396f0e, 0x9b9ca167);
    SmallSigma0Is(0x00000000, 0x00000000, 0x00000000, 0x00000000, 0x00000000);
    Mixed(b, 28, 0xe5bc3909, 0x0183fc00, 0x00000000, 0x00000000, 0x9b9ca167, 0x00000000, 0x9d209d67);
    SmallSigma1Is(0x32663c5b, 0x1e2d9933, 0xc78b664c, 0x000c998f, 0xd9aa66f0);
    SmallSigma0Is(0x00000000, 0x00000000, 0x00000000, 0x00000000, 0x00000000);
    Mixed(b, 29, 0x32663c5b, 0x12dcbfdb, 0x00000000, 0x00000000, 0xd9aa66f0, 0x00000000, 0xec8726cb);
    SmallSigma1Is(0x9d209d67, 0x4eb3ce90, 0x13acf3a4, 0x00274827, 0x5d387513);
    SmallSigma0Is(0x00000018, 0x30000000, 0x00060000, 0x00000003, 0x30060003);
    Mixed(b, 30, 0x9d209d67, 0xe2e2c38e, 0x00000018, 0x00000000, 0x5d387513, 0x30060003, 0x702138a4);
    SmallSigma1Is(0xec8726cb, 0x9365f643, 0xe4d97d90, 0x003b21c9, 0x7787aa1a);
    SmallSigma0Is(0x61626380, 0x00c2c4c7, 0x98e01858, 0x0c2c4c70, 0x940e90ef);
    Mixed(b, 31, 0xec8726cb, 0xc8215c1a, 0x61626380, 0x00000018, 0x7787aa1a, 0x940e90ef, 0xd3b7973b);
  }

  lemma Words4(b: Block)
    requires b == Padded(ABC)
    ensures Schedule(b, 32) == 0x93f5997f && Schedule(b, 33) == 0x3b68ba73
    ensures Schedule(b, 34) == 0xaff4ffc1 && Schedule(b, 35) == 0xf10a5c62
    ensures Schedule(b, 36) == 0x0a8b3996 && Schedule(b, 37) == 0x72af830a
    ensures Schedule(b, 38) == 0x9409e33e && Schedule(b, 39) == 0x24641522
  {
    hide Schedule, Padded, SmallSigma0, SmallSigma1;
    Words2(b);
    Words3(b);
    SmallSigma1Is(0x702138a4, 0x9c523810, 0x27148e04, 0x001c084e, 0xbb5abe5a);
    SmallSigma0Is(0x000f0000, 0x00001e00, 0xc0000003, 0x0001e000, 0xc001fe03);
    Mixed(b, 32, 0x702138a4, 0xb73679a2, 0x000f0000, 0x61626380, 0xbb5abe5a, 0xc001fe03, 0x93f5997f);
    SmallSigma1Is(0xd3b7973b, 0xcb9de9db, 0xf2e77a76, 0x0034ede5, 0x394e7e48);
    SmallSigma0Is(0x7da86405, 0x0afb50c8, 0x19015f6a, 0x0fb50c80, 0x1c4f0322);
    Mixed(b, 33, 0xd3b7973b, 0xe5bc3909, 0x7da86405, 0x000f0000, 0x394e7e48, 0x1c4f0322, 0x3b68ba73);
    SmallSigma1Is(0x93f5997f, 0xccbfc9fa, 0xb32ff27e, 0x0024fd66, 0x7fb4c6e2);
    SmallSigma0Is(0x600003c6, 0x8cc00007, 0x00f19800, 0x0c000078, 0x8031987f);
    Mixed(b, 34, 0x93f5997f, 0x32663c5b, 0x600003c6, 0x7da86405, 0x7fb4c6e2, 0x8031987f, 0xaff4ffc1);
    SmallSigma1Is(0x3b68ba73, 0x5d399db4, 0x174e676d, 0x000eda2e, 0x4a7920f7);
    SmallSigma0Is(0x3e9d7b78, 0xf07d3af6, 0x5ede0fa7, 0x07d3af6f, 0xa9709a3e);
    Mixed(b, 35, 0x3b68ba73, 0x9d209d67, 0x3e9d7b78, 0x600003c6, 0x4a7920f7, 0xa9709a3e, 0xf10a5c62);
    SmallSigma1Is(0xaff4ffc1, 0x7fe0d7fa, 0x9ff835fe, 0x002bfd3f, 0xe0331f3b);
    SmallSigma0Is(0x0183fc00, 0x000307f8, 0xff000060, 0x00307f80, 0xff337818);
    Mixed(b, 36, 0xaff4ffc1, 0xec8726cb, 0x0183fc00, 0x3e9d7b78, 0xe0331f3b, 0xff337818, 0x0a8b3996);
    SmallSigma1Is(0xf10a5c62, 0x2e317885, 0x4b8c5e21, 0x003c4297, 0x65816433);
    SmallSigma0Is(0x12dcbfdb, 0xb625b97f, 0x2ff6c4b7, 0x025b97fb, 0x9b88ea33);
    Mixed(b, 37, 0xf10a5c62, 0x702138a4, 0x12dcbfdb, 0x0183fc00, 0x65816433, 0x9b88ea33, 0x72af830a);
    SmallSigma1Is(0x0a8b3996, 0x9ccb0545, 0x6732c151, 0x0002a2ce, 0xfbfb66da);
    SmallSigma0Is(0xe2e2c38e, 0x1dc5c587, 0xb0e3b8b8, 0x1c5c5871, 0xb17a254e);
    Mixed(b, 38, 0x0a8b3996, 0xd3b7973b, 0xe2e2c38e, 0x12dcbfdb, 0xfbfb66da, 0xb17a254e, 0x9409e33e);
    SmallSigma1Is(0x72af830a, 0xc1853957, 0xf0614e55, 0x001cabe0, 0x31f8dce2);
    SmallSigma0Is(0xc8215c1a, 0x359042b8, 0x5706b208, 0x19042b83, 0x7b92db33);
    Mixed(b, 39, 0x72af830a, 0x93f5997f, 0xc8215c1a, 0xe2e2c38e, 0x31f8dce2, 0x7b92db33, 0x24641522);
  }

  lemma Words5(b: Block)
    requires b == Padded(ABC)
    ensures Schedule(b, 40) == 0x9f47bf94 && Schedule(b, 41) == 0xf0a64f5a
    ensures Schedule(b, 42) == 0x3e246a79 && Schedule(b, 43) == 0x27333ba3
    ensures Schedule(b, 44) == 0x0c4763f2 && Schedule(b, 45) == 0x840abf27
    ensures Schedule(b, 46) == 0x7a290d5d && Schedule(b, 47) == 0x065c43da
  {
    hide Schedule, Padded, SmallSigma0, SmallSigma1;
    Words3(b);
    Words4(b);
    SmallSigma1Is(0x9409e33e, 0xf19f4a04, 0x3c67d281, 0x00250278, 0xcddd9afd);
    SmallSigma0Is(0xb73679a2, 0x456e6cf3, 0x9e68adcd, 0x16e6cf34, 0xcde00e0a);
    Mixed(b, 40, 0x9409e33e, 0x3b68ba73, 0xb73679a2, 0xc8215c1a, 0xcddd9afd, 0xcde00e0a, 0x9f47bf94);
    SmallSigma1Is(0x24641522, 0x0a911232, 0x82a4448c, 0x00091905, 0x883c4fbb);
    SmallSigma0Is(0xe5bc3909, 0x13cb7872, 0x0e42796f, 0x1cb78721, 0x013e863c);
    Mixed(b, 41, 0x24641522, 0xaff4ffc1, 0xe5bc3909, 0xb73679a2, 0x883c4fbb, 0x013e863c, 0xf0a64f5a);
    SmallSigma1Is(0x9f47bf94, 0xdfca4fa3, 0xf7f293e8, 0x0027d1ef, 0x281f0da4);
    SmallSigma0Is(0x32663c5b, 0xb664cc78, 0x8f16cc99, 0x064cc78b, 0x3f3ec76a);
    Mixed(b, 42, 0x9f47bf94, 0xf10a5c62, 0x32663c5b, 0xe5bc3909, 0x281f0da4, 0x3f3ec76a, 0x3e246a79);
    SmallSigma1Is(0xf0a64f5a, 0x27ad7853, 0xc9eb5e14, 0x003c2993, 0xee7a0fd4);
    SmallSigma0Is(0x9d209d67, 0xcf3a413a, 0x2759e748, 0x13a413ac, 0xfbc7b5de);
    Mixed(b, 43, 0xf0a64f5a, 0x0a8b3996, 0x9d209d67, 0x32663c5b, 0xee7a0fd4, 0xfbc7b5de, 0x27333ba3);
    SmallSigma1Is(0x3e246a79, 0x353c9f12, 0x8d4f27c4, 0x000f891a, 0xb87c31cc);
    SmallSigma0Is(0xec8726cb, 0x97d90e4d, 0xc9b2fb21, 0x1d90e4d9, 0x43fb11b5);
    Mixed(b, 44, 0x3e246a79, 0x72af830a, 0xec8726cb, 0x9d209d67, 0xb87c31cc, 0x43fb11b5, 0x0c4763f2);
    SmallSigma1Is(0x27333ba3, 0x9dd19399, 0x677464e6, 0x0009ccce, 0xfaac3bb1);
    SmallSigma0Is(0x702138a4, 0x48e04271, 0x4e291c08, 0x0e042714, 0x08cd796d);
    Mixed(b, 45, 0x27333ba3, 0x9409e33e, 0x702138a4, 0xec8726cb, 0xfaac3bb1, 0x08cd796d, 0x840abf27);
    SmallSigma1Is(0x0c4763f2, 0xb1f90623, 0xec7e4188, 0x000311d8, 0x5d845673);
    SmallSigma0Is(0xd3b7973b, 0x77a76f2e, 0xe5cef4ed, 0x1a76f2e7, 0x881f6924);
    Mixed(b, 46, 0x0c4763f2, 0x24641522, 0xd3b7973b, 0x702138a4, 0x5d845673, 0x881f6924, 0x7a290d5d);
    SmallSigma1Is(0x840abf27, 0x5f93c205, 0x57e4f081, 0x002102af, 0x0856302b);
    SmallSigma0Is(0x93f5997f, 0xff27eb32, 0x665fe4fd, 0x127eb32f, 0x8b06bce0);
    Mixed(b, 47, 0x840abf27, 0x9f47bf94, 0x93f5997f, 0xd3b7973b, 0x0856302b, 0x8b06bce0, 0x065c43da);
  }

  lemma Words6(b: Block)
    requires b == Padded(ABC)
    ensures Schedule(b, 48) == 0xfb3e89cb && Schedule(b, 49) == 0xcc7617db
    ensures Schedule(b, 50) == 0xb9e66c34 && Schedule(b, 51) == 0xa9993667
    ensures Schedule(b, 52) == 0x84badedd && Schedule(b, 53) == 0xc21462bc
    ensures Schedule(b, 54) == 0x1487472c && Schedule(b, 55) == 0xb20f7a99
  {
    hide Schedule, Padded, SmallSigma0, SmallSigma1;
    Words4(b);
    Words5(b);
    SmallSigma1Is(0x7a290d5d, 0x86aebd14, 0x21abaf45, 0x001e8a43, 0xa71b9812);
    SmallSigma0Is(0x3b68ba73, 0xe676d174, 0x2e9cceda, 0x076d174e, 0xcf8708e0);
    Mixed(b, 48, 0x7a290d5d, 0xf0a64f5a, 0x3b68ba73, 0x93f5997f, 0xa71b9812, 0xcf8708e0, 0xfb3e89cb);
    SmallSigma1Is(0x065c43da, 0x21ed032e, 0x887b40cb, 0x00019710, 0xa997d4f5);
    SmallSigma0Is(0xaff4ffc1, 0x835fe9ff, 0x3ff06bfd, 0x15fe9ff8, 0xa9511dfa);
    Mixed(b, 49, 0x065c43da, 0x3e246a79, 0xaff4ffc1, 0x3b68ba73, 0xa997d4f5, 0xa9511dfa, 0xcc7617db);
    SmallSigma1Is(0xfb3e89cb, 0x44e5fd9f, 0xd1397f67, 0x003ecfa2, 0x95e24d5a);
    SmallSigma0Is(0xf10a5c62, 0xc5e214b8, 0x9718bc42, 0x1e214b8c, 0x4cdbe376);
    Mixed(b, 50, 0xfb3e89cb, 0x27333ba3, 0xf10a5c62, 0xaff4ffc1, 0x95e24d5a, 0x4cdbe376, 0xb9e66c34);
    SmallSigma1Is(0xcc7617db, 0x0bede63b, 0xc2fb798e, 0x00331d85, 0xc9258230);
    SmallSigma0Is(0x0a8b3996, 0x2c151673, 0xce6582a2, 0x01516732, 0xe321f3e3);
    Mixed(b, 51, 0xcc7617db, 0x0c4763f2, 0x0a8b3996, 0xf10a5c62, 0xc9258230, 0xe321f3e3, 0xa9993667);
    SmallSigma1Is(0xb9e66c34, 0x361a5cf3, 0xcd86973c, 0x002e799b, 0xfbb2b254);
    SmallSigma0Is(0x72af830a, 0x14e55f06, 0xe0c29cab, 0x0e55f061, 0xfa7233cc);
    Mixed(b, 52, 0xb9e66c34, 0x840abf27, 0x72af830a, 0x0a8b3996, 0xfbb2b254, 0xfa7233cc, 0x84badedd);
    SmallSigma1Is(0xa9993667, 0x9b33d4cc, 0x26ccf533, 0x002a664d, 0xbdd547b2);
    SmallSigma0Is(0x9409e33e, 0x7d2813c6, 0x78cfa502, 0x12813c67, 0x17668aa3);
    Mixed(b, 53, 0xa9993667, 0x7a290d5d, 0x9409e33e, 0x72af830a, 0xbdd547b2, 0x17668aa3, 0xc21462bc);
    SmallSigma1Is(0x84badedd, 0x6f6ec25d, 0x5bdbb097, 0x00212eb7, 0x34945c7d);
    SmallSigma0Is(0x24641522, 0x4448c82a, 0x05488919, 0x048c82a4, 0x458cc397);
    Mixed(b, 54, 0x84badedd, 0x065c43da, 0x24641522, 0x9409e33e, 0x34945c7d, 0x458cc397, 0x1487472c);
    SmallSigma1Is(0xc21462bc, 0x315e610a, 0x8c579842, 0x00308518, 0xbd397c50);
    SmallSigma0Is(0x9f47bf94, 0x293e8f7f, 0xefe527d1, 0x13e8f7f2, 0xd5335f5c);
    Mixed(b, 55, 0xc21462bc, 0xfb3e89cb, 0x9f47bf94, 0x24641522, 0xbd397c50, 0xd5335f5c, 0xb20f7a99);
  }

  lemma Words7(b: Block)
    requires b == Padded(ABC)
    ensures Schedule(b, 56) == 0xef57b9cd && Schedule(b, 57) == 0xebe6b238
    ensures Schedule(b, 58) == 0x9fe3095e && Schedule(b, 59) == 0x78bc8d4b
    ensures Schedule(b, 60) == 0xa43fcf15 && Schedule(b, 61) == 0x668b2ff8
    ensures Schedule(b, 62) == 0xeeaba2cc && Schedule(b, 63) == 0x12b1edeb
  {
    hide Schedule, Padded, SmallSigma0, SmallSigma1;
    Words5(b);
    Words6(b);
    SmallSigma1Is(0x1487472c, 0xa3960a43, 0xe8e58290, 0x000521d1, 0x4b76a902);
    SmallSigma0Is(0xf0a64f5a, 0xb5e14c9e, 0x93d6bc29, 0x1e14c9eb, 0x3823395c);
    Mixed(b, 56, 0x1487472c, 0xcc7617db, 0xf0a64f5a, 0x9f47bf94, 0x4b76a902, 0x3823395c, 0xef57b9cd);
    SmallSigma1Is(0xb20f7a99, 0xbd4cd907, 0xef533641, 0x002c83de, 0x52336c98);
    SmallSigma0Is(0x3e246a79, 0xf27c48d4, 0x1a9e4f89, 0x07c48d4f, 0xef268a12);
    Mixed(b, 57, 0xb20f7a99, 0xb9e66c34, 0x3e246a79, 0xf0a64f5a, 0x52336c98, 0xef268a12, 0xebe6b238);
    SmallSigma1Is(0xef57b9cd, 0xdce6f7ab, 0xf739bdea, 0x003bd5ee, 0x2be49faf);
    SmallSigma0Is(0x27333ba3, 0x464e6677, 0xcee8c9cc, 0x04e66774, 0x8c40c8cf);
    Mixed(b, 58, 0xef57b9cd, 0xa9993667, 0x27333ba3, 0x3e246a79, 0x2be49faf, 0x8c40c8cf, 0x9fe3095e);
    SmallSigma1Is(0xebe6b238, 0x591c75f3, 0xd6471d7c, 0x003af9ac, 0x8f619123);
    SmallSigma0Is(0x0c4763f2, 0xe4188ec7, 0xd8fc8311, 0x0188ec7e, 0x3d6ce1a8);
    Mixed(b, 59, 0xebe6b238, 0x84badedd, 0x0c4763f2, 0x27333ba3, 0x8f619123, 0x3d6ce1a8, 0x78bc8d4b);
    SmallSigma1Is(0x9fe3095e, 0x84af4ff1, 0x612bd3fc, 0x0027f8c2, 0xe5a364cf);
    SmallSigma0Is(0x840abf27, 0x4f08157e, 0xafc9e102, 0x108157e4, 0xf040a398);
    Mixed(b, 60, 0x9fe3095e, 0xc21462bc, 0x840abf27, 0x0c4763f2, 0xe5a364cf, 0xf040a398, 0xa43fcf15);
    SmallSigma1Is(0x78bc8d4b, 0x46a5bc5e, 0x91a96f17, 0x001e2f23, 0xd712fc6a);
    SmallSigma0Is(0x7a290d5d, 0xbaf4521a, 0x43575e8a, 0x0f4521ab, 0xf6e62d3b);
    Mixed(b, 61, 0x78bc8d4b, 0x1487472c, 0x7a290d5d, 0x840abf27, 0xd712fc6a, 0xf6e62d3b, 0x668b2ff8);
    SmallSigma1Is(0xa43fcf15, 0xe78ad21f, 0xf9e2b487, 0x00290ff3, 0x1e41696b);
    SmallSigma0Is(0x065c43da, 0xb40cb887, 0x10f68197, 0x00cb887b, 0xa431b16b);
    Mixed(b, 62, 0xa43fcf15, 0xb20f7a99, 0x065c43da, 0x7a290d5d, 0x1e41696b, 0xa431b16b, 0xeeaba2cc);
    SmallSigma1Is(0x668b2ff8, 0x97fc3345, 0x65ff0cd1, 0x0019a2cb, 0xf21a9d5f);
    SmallSigma0Is(0xfb3e89cb, 0x97f67d13, 0xa272fecf, 0x1f67d139, 0x2ae352e5);
    Mixed(b, 63, 0x668b2ff8, 0xef57b9cd, 0xfb3e89cb, 0x065c43da, 0xf21a9d5f, 0x2ae352e5, 0x12b1edeb);
  }

  // ---- the rounds ----

  lemma RoundsNext(v: Vars, b: Block, t: nat)
    requires t < 64
    ensures Rounds(v, b, t + 1) == Round(Rounds(v, b, t), Constant(t), Schedule(b, t))
  {
    hide Round, Constant, Schedule;
  }

  lemma Plus(x: bv32, y: bv32)
    ensures Add(x, y) == x + y
  {
  }

  /** x, y, z and s are the sums as they grow. */
  lemma Temp1Is(e: bv32, f: bv32, g: bv32, h: bv32, k: bv32, w: bv32,
                p: bv32, r: bv32, x: bv32, y: bv32, z: bv32, s: bv32)
    requires BigSigma1(e) == p && r == (e & f) ^ (!e & g)
    requires x == h + p && y == x + r && z == y + k && s == z + w
    ensures Temp1(e, f, g, h, k, w) == s
  {
    hide BigSigma1, Add;
    Plus(h, p);
    Plus(x, r);
    Plus(y, k);
    Plus(z, w);
  }

  lemma Temp2Is(a: bv32, b: bv32, c: bv32, q: bv32, r: bv32, s: bv32)
    requires BigSigma0(a) == q && r == (a & b) ^ (a & c) ^ (b & c) && s == q + r
    ensures Temp2(a, b, c) == s
  {
    hide BigSigma0, Add;
    Plus(q, r);
  }

  /** One more round, with the two temporary words p and q and the new words x and y. */
  lemma Turned(b: Block, t: nat, k: bv32, w: bv32, v: Vars, p: bv32, q: bv32, x: bv32, y: bv32)
    requires t < 64 && Constant(t) == k && Schedule(b, t) == w && Rounds(Start(H0), b, t) == v
    requires Temp1(v.e, v.f, v.g, v.h, k, w) == p && Temp2(v.a, v.b, v.c) == q
    requires x == p + q && y == v.d + p
    ensures Rounds(Start(H0), b, t + 1) == Vars(x, v.a, v.b, v.c, y, v.e, v.f, v.g)
  {
    hide Schedule, Constant, Rounds, Start, Temp1, Temp2, Add;
    Plus(p, q);
    Plus(v.d, p);
    RoundsNext(Start(H0), b, t);
  }

  lemma Turns0(b: Block)
    ensures Rounds(Start(H0), b, 0) == Vars(0x6a09e667, 0xbb67ae85, 0x3c6ef372, 0xa54ff53a, 0x510e527f, 0x9b05688c, 0x1f83d9ab, 0x5be0cd19)
  {
  }

  lemma Turns1(b: Block)
    requires b == Padded(ABC)
    ensures Rounds(Start(H0), b, 4)
         == Vars(0xd550f666, 0xc8c347a7, 0x5a6ad9ad, 0x5d6aebcd,
                 0x24e00850, 0xf92939eb, 0x78ce7989, 0xfa2a4622)
  {
    hide Rounds, Start, Schedule, Constant, Padded, BigSigma0, BigSigma1, Temp1, Temp2;
    Turns0(b);
    Entries0();
    FirstWords(b, 0);
    FirstWords(b, 1);
    FirstWords(b, 2);
    FirstWords(b, 3);
    BigSigma1Is(0x510e527f, 0xfd443949, 0x4fea21ca, 0x87293fa8, 0x3587272b);
    BigSigma0Is(0x6a09e667, 0xda827999, 0x333b504f, 0x27999da8, 0xce20b47e);
    Temp1Is(0x510e527f, 0x9b05688c, 0x1f83d9ab, 0x5be0cd19, 0x428a2f98, 0x61626380,
            0x3587272b, 0x1f85c98c, 0x9167f444, 0xb0edbdd0, 0xf377ed68, 0x54da50e8);
    Temp2Is(0x6a09e667, 0xbb67ae85, 0x3c6ef372, 0xce20b47e, 0x3a6fe667, 0x08909ae5);
    Turned(b, 0, 0x428a2f98, 0x61626380,
           Vars(0x6a09e667, 0xbb67ae85, 0x3c6ef372, 0xa54ff53a, 0x510e527f, 0x9b05688c, 0x1f83d9ab, 0x5be0cd19),
           0x54da50e8, 0x08909ae5, 0x5d6aebcd, 0xfa2a4622);
    BigSigma1Is(0xfa2a4622, 0x8be8a918, 0xc45f4548, 0x1523117d, 0x5a94fd2d);
    BigSigma0Is(0x5d6aebcd, 0x575abaf3, 0x5e6aeb57, 0xabaf3575, 0xa29f64d1);
    Temp1Is(0xfa2a4622, 0x510e527f, 0x9b05688c, 0x1f83d9ab, 0x71374491, 0x00000000,
            0x5a94fd2d, 0x510f6aae, 0x7a18d6d8, 0xcb284186, 0x3c5f8617, 0x3c5f8617);
    Temp2Is(0x5d6aebcd, 0x6a09e667, 0xbb67ae85, 0xa29f64d1, 0x7b6beec5, 0x1e0b5396);
    Turned(b, 1, 0x71374491, 0x00000000,
           Vars(0x5d6aebcd, 0x6a09e667, 0xbb67ae85, 0x3c6ef372, 0xfa2a4622, 0x510e527f, 0x9b05688c, 0x1f83d9ab),
           0x3c5f8617, 0x1e0b5396, 0x5a6ad9ad, 0x78ce7989);
    BigSigma1Is(0x78ce7989, 0x25e339e6, 0x312f19cf, 0x673cc4bc, 0x73f0e495);
    BigSigma0Is(0x5a6ad9ad, 0x569ab66b, 0xcd6ad356, 0xab66b569, 0x3096d054);
    Temp1Is(0x78ce7989, 0xfa2a4622, 0x510e527f, 0x9b05688c, 0xb5c0fbcf, 0x00000000,
            0x73f0e495, 0x790a4276, 0x0ef64d21, 0x88008f97, 0x3dc18b66, 0x3dc18b66);
    Temp2Is(0x5a6ad9ad, 0x5d6aebcd, 0x6a09e667, 0x3096d054, 0x5a6aebed, 0x8b01bc41);
    Turned(b, 2, 0xb5c0fbcf, 0x00000000,
           Vars(0x5a6ad9ad, 0x5d6aebcd, 0x6a09e667, 0xbb67ae85, 0x78ce7989, 0xfa2a4622, 0x510e527f, 0x9b05688c),
           0x3dc18b66, 0x8b01bc41, 0xc8c347a7, 0xf92939eb);
    BigSigma1Is(0xf92939eb, 0xafe4a4e7, 0x3d7f2527, 0x949cf5fc, 0x0607743c);
    BigSigma0Is(0xc8c347a7, 0xf230d1e9, 0x3d3e461a, 0x0d1e9f23, 0xc21008d0);
    Temp1Is(0xf92939eb, 0x78ce7989, 0xfa2a4622, 0x510e527f, 0xe9b5dba5, 0x00000000,
            0x0607743c, 0x7a0a7f89, 0x5715c6bb, 0xd1204644, 0xbad621e9, 0xbad621e9);
    Temp2Is(0xc8c347a7, 0x5a6ad9ad, 0x5d6aebcd, 0xc21008d0, 0x586acbad, 0x1a7ad47d);
    Turned(b, 3, 0xe9b5dba5, 0x00000000,
           Vars(0xc8c347a7, 0x5a6ad9ad, 0x5d6aebcd, 0x6a09e667, 0xf92939eb, 0x78ce7989, 0xfa2a4622, 0x510e527f),
           0xbad621e9, 0x1a7ad47d, 0xd550f666, 0x24e00850);
  }

  lemma Turns2(b: Block)
    requires b == Padded(ABC)
    ensures Rounds(Start(H0), b, 8)
         == Vars(0x85a07b5f, 0xe5030380, 0x2b4209f5, 0x04409a6a,
                 0x0c657a79, 0x9b27a401, 0x714260ad, 0x43ada245)
  {
    hide Rounds, Start, Schedule, Constant, Padded, BigSigma0, BigSigma1, Temp1, Temp2;
    Turns1(b);
    Entries1();
    FirstWords(b, 4);
    FirstWords(b, 5);
    FirstWords(b, 6);
    FirstWords(b, 7);
    BigSigma1Is(0x24e00850, 0x40938021, 0x0a049c01, 0x70042812, 0x3a933432);
    BigSigma0Is(0xd550f666, 0xb5543d99, 0xb336aa87, 0x43d99b55, 0x45bb0c4b);
    Temp1Is(0x24e00850, 0xf92939eb, 0x78ce7989, 0xfa2a4622, 0x3956c25b, 0x00000000,
            0x3a933432, 0x782e79c9, 0x34bd7a54, 0xacebf41d, 0xe642b678, 0xe642b678);
    Temp2Is(0xd550f666, 0xc8c347a7, 0x5a6ad9ad, 0x45bb0c4b, 0xd842d7a7, 0x1dfde3f2);
    Turned(b, 4, 0x3956c25b, 0x00000000,
           Vars(0xd550f666, 0xc8c347a7, 0x5a6ad9ad, 0x5d6aebcd, 0x24e00850, 0xf92939eb, 0x78ce7989, 0xfa2a4622),
           0xe642b678, 0x1dfde3f2, 0x04409a6a, 0x43ada245);
    BigSigma1Is(0x43ada245, 0x150eb689, 0x48a875b4, 0xd6d122a1, 0x8b77e19c);
    BigSigma0Is(0x04409a6a, 0x8110269a, 0xd3502204, 0x0269a811, 0x5029ac8f);
    Temp1Is(0x43ada245, 0x24e00850, 0xf92939eb, 0x78ce7989, 0x59f111f1, 0x00000000,
            0x8b77e19c, 0xb8a019ea, 0x04465b25, 0xbce6750f, 0x16d78700, 0x16d78700);
    Temp2Is(0x04409a6a, 0xd550f666, 0xc8c347a7, 0x5029ac8f, 0xc440d666, 0x146a82f5);
    Turned(b, 5, 0x59f111f1, 0x00000000,
           Vars(0x04409a6a, 0xd550f666, 0xc8c347a7, 0x5a6ad9ad, 0x43ada245, 0x24e00850, 0xf92939eb, 0x78ce7989),
           0x16d78700, 0x146a82f5, 0x2b4209f5, 0x714260ad);
    BigSigma1Is(0x714260ad, 0xb5c50982, 0x15ae284c, 0xa13056b8, 0x015b7776);
    BigSigma0Is(0x2b4209f5, 0x4ad0827d, 0x4fa95a10, 0x0827d4ad, 0x0d5e0cc0);
    Temp1Is(0x714260ad, 0x43ada245, 0x24e00850, 0xf92939eb, 0x923f82a4, 0x00000000,
            0x015b7776, 0x45a02855, 0xfa84b161, 0x4024d9b6, 0xd2645c5a, 0xd2645c5a);
    Temp2Is(0x2b4209f5, 0x04409a6a, 0xd550f666, 0x0d5e0cc0, 0x05409a66, 0x129ea726);
    Turned(b, 6, 0x923f82a4, 0x00000000,
           Vars(0x2b4209f5, 0x04409a6a, 0xd550f666, 0xc8c347a7, 0x714260ad, 0x43ada245, 0x24e00850, 0xf92939eb),
           0xd2645c5a, 0x129ea726, 0xe5030380, 0x9b27a401);
    BigSigma1Is(0x9b27a401, 0x066c9e90, 0x803364f4, 0x93d200cd, 0x158dfaa9);
    BigSigma0Is(0xe5030380, 0x3940c0e0, 0x1c072818, 0x0c0e0394, 0x2949eb6c);
    Temp1Is(0x9b27a401, 0x714260ad, 0x43ada245, 0x24e00850, 0xab1c5ed5, 0x00000000,
            0x158dfaa9, 0x518a2245, 0x3a6e02f9, 0x8bf8253e, 0x37148413, 0x37148413);
    Temp2Is(0xe5030380, 0x2b4209f5, 0x04409a6a, 0x2949eb6c, 0x25420be0, 0x4e8bf74c);
    Turned(b, 7, 0xab1c5ed5, 0x00000000,
           Vars(0xe5030380, 0x2b4209f5, 0x04409a6a, 0xd550f666, 0x9b27a401, 0x714260ad, 0x43ada245, 0x24e00850),
           0x37148413, 0x4e8bf74c, 0x85a07b5f, 0x0c657a79);
  }

  lemma Turns3(b: Block)
    requires b == Padded(ABC)
    ensures Rounds(Start(H0), b, 12)
         == Vars(0xf71fc5a9, 0x4798a3f4, 0x8c87346b, 0x8e04ecb9,
                 0x816fd6e9, 0x436b23e8, 0x1cc92596, 0x32ca2d8c)
  {
    hide Rounds, Start, Schedule, Constant, Padded, BigSigma0, BigSigma1, Temp1, Temp2;
    Turns2(b);
    Entries2();
    FirstWords(b, 8);
    FirstWords(b, 9);
    FirstWords(b, 10);
    FirstWords(b, 11);
    BigSigma1Is(0x0c657a79, 0xe43195e9, 0x4f218caf, 0x32bd3c86, 0x99ad25c0);
    BigSigma0Is(0x85a07b5f, 0xe1681ed7, 0xdafc2d03, 0x81ed7e16, 0xba794dc2);
    Temp1Is(0x0c657a79, 0x9b27a401, 0x714260ad, 0x43ada245, 0xd807aa98, 0x00000000,
            0x99ad25c0, 0x79272085, 0xdd5ac805, 0x5681e88a, 0x2e899322, 0x2e899322);
    Temp2Is(0x85a07b5f, 0xe5030380, 0x2b4209f5, 0xba794dc2, 0xa5020bd5, 0x5f7b5997);
    Turned(b, 8, 0xd807aa98, 0x00000000,
           Vars(0x85a07b5f, 0xe5030380, 0x2b4209f5, 0x04409a6a, 0x0c657a79, 0x9b27a401, 0x714260ad, 0x43ada245),
           0x2e899322, 0x5f7b5997, 0x8e04ecb9, 0x32ca2d8c);
    BigSigma1Is(0x32ca2d8c, 0x30cb28b6, 0xb1865945, 0x6516c619, 0xe45bb7ea);
    BigSigma0Is(0x8e04ecb9, 0x63813b2e, 0x65cc7027, 0x13b2e638, 0x15ffad31);
    Temp1Is(0x32ca2d8c, 0x0c657a79, 0x9b27a401, 0x714260ad, 0x12835b01, 0x00000000,
            0xe45bb7ea, 0x8965a809, 0x559e1897, 0xdf03c0a0, 0xf1871ba1, 0xf1871ba1);
    Temp2Is(0x8e04ecb9, 0x85a07b5f, 0xe5030380, 0x15ffad31, 0x85006b99, 0x9b0018ca);
    Turned(b, 9, 0x12835b01, 0x00000000,
           Vars(0x8e04ecb9, 0x85a07b5f, 0xe5030380, 0x2b4209f5, 0x32ca2d8c, 0x0c657a79, 0x9b27a401, 0x714260ad),
           0xf1871ba1, 0x9b0018ca, 0x8c87346b, 0x1cc92596);
    BigSigma1Is(0x1cc92596, 0x58732496, 0xb2c39924, 0x6492cb0e, 0x8e2276bc);
    BigSigma0Is(0x8c87346b, 0xe321cd1a, 0xa35c6439, 0x1cd1ae32, 0x5cac0711);
    Temp1Is(0x1cc92596, 0x32ca2d8c, 0x0c657a79, 0x9b27a401, 0x243185be, 0x00000000,
            0x8e2276bc, 0x10ec7fed, 0x294a1abd, 0x3a369aaa, 0x5e682068, 0x5e682068);
    Temp2Is(0x8c87346b, 0x8e04ecb9, 0x85a07b5f, 0x5cac0711, 0x8c847c7b, 0xe930838c);
    Turned(b, 10, 0x243185be, 0x00000000,
           Vars(0x8c87346b, 0x8e04ecb9, 0x85a07b5f, 0xe5030380, 0x1cc92596, 0x32ca2d8c, 0x0c657a79, 0x9b27a401),
           0x5e682068, 0xe930838c, 0x4798a3f4, 0x436b23e8);
    BigSigma1Is(0x436b23e8, 0xa10dac8f, 0x7d086d64, 0xb591f421, 0x699435ca);
    BigSigma0Is(0x4798a3f4, 0x11e628fd, 0x1fa23cc5, 0x628fd11e, 0x6ccbc526);
    Temp1Is(0x436b23e8, 0x1cc92596, 0x32ca2d8c, 0x0c657a79, 0x550c7dc3, 0x00000000,
            0x699435ca, 0x30c92d84, 0x75f9b043, 0xa6c2ddc7, 0xfbcf5b8a, 0xfbcf5b8a);
    Temp2Is(0x4798a3f4, 0x8c87346b, 0x8e04ecb9, 0x6ccbc526, 0x8e84a4f9, 0xfb506a1f);
    Turned(b, 11, 0x550c7dc3, 0x00000000,
           Vars(0x4798a3f4, 0x8c87346b, 0x8e04ecb9, 0x85a07b5f, 0x436b23e8, 0x1cc92596, 0x32ca2d8c, 0x0c657a79),
           0xfbcf5b8a, 0xfb506a1f, 0xf71fc5a9, 0x816fd6e9);
  }

  lemma Turns4(b: Block)
    requires b == Padded(ABC)
    ensures Rounds(Start(H0), b, 16)
         == Vars(0xb0fa238e, 0xc0645fde, 0xd932eb16, 0x87912990,
                 0x07590dcd, 0x0b92f20c, 0x745a48de, 0x1e578218)
  {
    hide Rounds, Start, Schedule, Constant, Padded, BigSigma0, BigSigma1, Temp1, Temp2;
    Turns3(b);
    Entries3();
    FirstWords(b, 12);
    FirstWords(b, 13);
    FirstWords(b, 14);
    FirstWords(b, 15);
    BigSigma1Is(0x816fd6e9, 0xa605bf5b, 0xdd302dfa, 0xb7eb74c0, 0xccdee661);
    BigSigma0Is(0xf71fc5a9, 0x7dc7f16a, 0x2d4fb8fe, 0x7f16a7dc, 0x2f9eee48);
    Temp1Is(0x816fd6e9, 0x436b23e8, 0x1cc92596, 0x32ca2d8c, 0x72be5d74, 0x00000000,
            0xccdee661, 0x1deb23fe, 0xffa913ed, 0x1d9437eb, 0x9052955f, 0x9052955f);
    Temp2Is(0xf71fc5a9, 0x4798a3f4, 0x8c87346b, 0x2f9eee48, 0xc79fa5e9, 0xf73e9431);
    Turned(b, 12, 0x72be5d74, 0x00000000,
           Vars(0xf71fc5a9, 0x4798a3f4, 0x8c87346b, 0x8e04ecb9, 0x816fd6e9, 0x436b23e8, 0x1cc92596, 0x32ca2d8c),
           0x9052955f, 0xf73e9431, 0x87912990, 0x1e578218);
    BigSigma1Is(0x1e578218, 0x60795e08, 0x4303caf0, 0x2bc10c0f, 0x08bb98f7);
    BigSigma0Is(0x87912990, 0x21e44a64, 0x4c843c89, 0x44a6421e, 0x29c634f3);
    Temp1Is(0x1e578218, 0x816fd6e9, 0x436b23e8, 0x1cc92596, 0x80deb1fe, 0x00000000,
            0x08bb98f7, 0x416fa3e8, 0x2584be8d, 0x66f46275, 0xe7d31473, 0xe7d31473);
    Temp2Is(0x87912990, 0xf71fc5a9, 0x4798a3f4, 0x29c634f3, 0xc799a1b0, 0xf15fd6a3);
    Turned(b, 13, 0x80deb1fe, 0x00000000,
           Vars(0x87912990, 0xf71fc5a9, 0x4798a3f4, 0x8c87346b, 0x1e578218, 0x816fd6e9, 0x436b23e8, 0x1cc92596),
           0xe7d31473, 0xf15fd6a3, 0xd932eb16, 0x745a48de);
    BigSigma1Is(0x745a48de, 0x79d16923, 0x1bce8b49, 0x2d246f3a, 0x4f3b8d50);
    BigSigma0Is(0xd932eb16, 0xb64cbac5, 0x58b6c997, 0xcbac5b64, 0x25562836);
    Temp1Is(0x745a48de, 0x1e578218, 0x816fd6e9, 0x436b23e8, 0x9bdc06a7, 0x00000000,
            0x4f3b8d50, 0x95779639, 0x92a6b138, 0x281e4771, 0xc3fa4e18, 0xc3fa4e18);
    Temp2Is(0xd932eb16, 0x87912990, 0xf71fc5a9, 0x25562836, 0xd713e990, 0xfc6a11c6);
    Turned(b, 14, 0x9bdc06a7, 0x00000000,
           Vars(0xd932eb16, 0x87912990, 0xf71fc5a9, 0x4798a3f4, 0x745a48de, 0x1e578218, 0x816fd6e9, 0x436b23e8),
           0xc3fa4e18, 0xfc6a11c6, 0xc0645fde, 0x0b92f20c);
    BigSigma1Is(0x0b92f20c, 0x302e4bc8, 0x4181725e, 0xc9790605, 0xb8d63f93);
    BigSigma0Is(0xc0645fde, 0xb01917f7, 0xfef60322, 0x917f7b01, 0xdf906fd4);
    Temp1Is(0x0b92f20c, 0x745a48de, 0x1e578218, 0x816fd6e9, 0xc19bf174, 0x00000018,
            0xb8d63f93, 0x1457401c, 0x3a46167c, 0x4e9d5698, 0x1039480c, 0x10394824);
    Temp2Is(0xc0645fde, 0xd932eb16, 0x87912990, 0xdf906fd4, 0xc1306b96, 0xa0c0db6a);
    Turned(b, 15, 0xc19bf174, 0x00000018,
           Vars(0xc0645fde, 0xd932eb16, 0x87912990, 0xf71fc5a9, 0x0b92f20c, 0x745a48de, 0x1e578218, 0x816fd6e9),
           0x10394824, 0xa0c0db6a, 0xb0fa238e, 0x07590dcd);
  }

  lemma Turns5(b: Block)
    requires b == Padded(ABC)
    ensures Rounds(Start(H0), b, 20)
         == Vars(0xe1f20c33, 0xfe777bbf, 0xc2fbd9d1, 0x21da9a9b,
                 0xb0638179, 0xcc899961, 0x846ee454, 0x8034229c)
  {
    hide Rounds, Start, Schedule, Constant, Padded, BigSigma0, BigSigma1, Temp1, Temp2;
    Turns4(b);
    Entries4();
    Words2(b);
    BigSigma1Is(0x07590dcd, 0x341d6437, 0xb9a0eb21, 0xac86e683, 0x213b6995);
    BigSigma0Is(0xb0fa238e, 0xac3e88e3, 0x1c7587d1, 0xe88e3ac3, 0x58c535f1);
    Temp1Is(0x07590dcd, 0x0b92f20c, 0x745a48de, 0x1e578218, 0xe49b69c1, 0x61626380,
            0x213b6995, 0x7312401e, 0x3f92ebad, 0xb2a52bcb, 0x9740958c, 0xf8a2f90c);
    Temp2Is(0xb0fa238e, 0xc0645fde, 0xd932eb16, 0x58c535f1, 0xd0726b9e, 0x2937a18f);
    Turned(b, 16, 0xe49b69c1, 0x61626380,
           Vars(0xb0fa238e, 0xc0645fde, 0xd932eb16, 0x87912990, 0x07590dcd, 0x0b92f20c, 0x745a48de, 0x1e578218),
           0xf8a2f90c, 0x2937a18f, 0x21da9a9b, 0x8034229c);
    BigSigma1Is(0x8034229c, 0x7200d08a, 0x53900684, 0x1a114e40, 0x3b81984e);
    BigSigma0Is(0x21da9a9b, 0xc876a6a6, 0xd4d90ed4, 0x6a6a6c87, 0x76c5c4f5);
    Temp1Is(0x8034229c, 0x07590dcd, 0x0b92f20c, 0x745a48de, 0xefbe4786, 0x000f0000,
            0x3b81984e, 0x0b92d08c, 0xafdbe12c, 0xbb6eb1b8, 0xab2cf93e, 0xab3bf93e);
    Temp2Is(0x21da9a9b, 0xb0fa238e, 0xc0645fde, 0x76c5c4f5, 0xa0fa1b9e, 0x17bfe093);
    Turned(b, 17, 0xefbe4786, 0x000f0000,
           Vars(0x21da9a9b, 0xb0fa238e, 0xc0645fde, 0xd932eb16, 0x8034229c, 0x07590dcd, 0x0b92f20c, 0x745a48de),
           0xab3bf93e, 0x17bfe093, 0xc2fbd9d1, 0x846ee454);
    BigSigma1Is(0x846ee454, 0x5211bb91, 0x8a908ddc, 0x37722a42, 0xeff31c0f);
    BigSigma0Is(0xc2fbd9d1, 0x70bef674, 0xce8e17de, 0xef67470b, 0x5157a6a1);
    Temp1Is(0x846ee454, 0x8034229c, 0x07590dcd, 0x0b92f20c, 0x0fc19dc6, 0x7da86405,
            0xeff31c0f, 0x8335299d, 0xfb860e1b, 0x7ebb37b8, 0x8e7cd57e, 0x0c253983);
    Temp2Is(0xc2fbd9d1, 0x21da9a9b, 0xb0fa238e, 0x5157a6a1, 0xa0fa9b9b, 0xf252423c);
    Turned(b, 18, 0x0fc19dc6, 0x7da86405,
           Vars(0xc2fbd9d1, 0x21da9a9b, 0xb0fa238e, 0xc0645fde, 0x846ee454, 0x8034229c, 0x07590dcd, 0x0b92f20c),
           0x0c253983, 0xf252423c, 0xfe777bbf, 0xcc899961);
    BigSigma1Is(0xcc899961, 0x87322665, 0x2c399133, 0x44ccb0e6, 0xefc707b0);
    BigSigma0Is(0xfe777bbf, 0xff9ddeef, 0xddfff3bb, 0xddeefff9, 0xff8cd2ad);
    Temp1Is(0xcc899961, 0x846ee454, 0x8034229c, 0x07590dcd, 0x240ca1cc, 0x600003c6,
            0xefc707b0, 0x843ca2dc, 0xf720157d, 0x7b5cb859, 0x9f695a25, 0xff695deb);
    Temp2Is(0xfe777bbf, 0xc2fbd9d1, 0x21da9a9b, 0xff8cd2ad, 0xe2fbdb9b, 0xe288ae48);
    Turned(b, 19, 0x240ca1cc, 0x600003c6,
           Vars(0xfe777bbf, 0xc2fbd9d1, 0x21da9a9b, 0xb0fa238e, 0xcc899961, 0x846ee454, 0x8034229c, 0x07590dcd),
           0xff695deb, 0xe288ae48, 0xe1f20c33, 0xb0638179);
  }

  lemma Turns6(b: Block)
    requires b == Padded(ABC)
    ensures Rounds(Start(H0), b, 24)
         == Vars(0xc5d53d8d, 0xa7a3623f, 0xc2606d6d, 0x9dc68b63,
                 0xaa47c347, 0x49f5114a, 0xe1257970, 0x8ada8930)
  {
    hide Rounds, Start, Schedule, Constant, Padded, BigSigma0, BigSigma1, Temp1, Temp2;
    Turns5(b);
    Entries5();
    Words2(b);
    BigSigma1Is(0xb0638179, 0xe6c18e05, 0x2f360c70, 0x31c0bcd8, 0xf8373ead);
    BigSigma0Is(0xe1f20c33, 0xf87c830c, 0x619f0f90, 0xc830cf87, 0x51d3431b);
    Temp1Is(0xb0638179, 0xcc899961, 0x846ee454, 0x8034229c, 0x2de92c6f, 0x3e9d7b78,
            0xf8373ead, 0x840de565, 0x786b6149, 0xfc7946ae, 0x2a62731d, 0x68ffee95);
    Temp2Is(0xe1f20c33, 0xfe777bbf, 0xc2fbd9d1, 0x51d3431b, 0xe2f359b3, 0x34c69cce);
    Turned(b, 20, 0x2de92c6f, 0x3e9d7b78,
           Vars(0xe1f20c33, 0xfe777bbf, 0xc2fbd9d1, 0x21da9a9b, 0xb0638179, 0xcc899961, 0x846ee454, 0x8034229c),
           0x68ffee95, 0x34c69cce, 0x9dc68b63, 0x8ada8930);
    BigSigma1Is(0x8ada8930, 0xc22b6a24, 0x26115b51, 0x6d449845, 0x897ea930);
    BigSigma0Is(0x9dc68b63, 0xe771a2d8, 0x5b1cee34, 0x1a2d8e77, 0xa640c29b);
    Temp1Is(0x8ada8930, 0xb0638179, 0xcc899961, 0x846ee454, 0x4a7484aa, 0x0183fc00,
            0x897ea930, 0xc4439171, 0x0ded8d84, 0xd2311ef5, 0x1ca5a39f, 0x1e299f9f);
    Temp2Is(0x9dc68b63, 0xe1f20c33, 0xfe777bbf, 0xa640c29b, 0xfdf60b33, 0xa436cdce);
    Turned(b, 21, 0x4a7484aa, 0x0183fc00,
           Vars(0x9dc68b63, 0xe1f20c33, 0xfe777bbf, 0xc2fbd9d1, 0x8ada8930, 0xb0638179, 0xcc899961, 0x846ee454),
           0x1e299f9f, 0xa436cdce, 0xc2606d6d, 0xe1257970);
    BigSigma1Is(0xe1257970, 0xc38495e5, 0x2e1c24af, 0x92bcb870, 0x7f24093a);
    BigSigma0Is(0xc2606d6d, 0x70981b5b, 0x6b6e1303, 0x81b5b709, 0x9a43bf51);
    Temp1Is(0xe1257970, 0x8ada8930, 0xb0638179, 0xcc899961, 0x5cb0a9dc, 0x12dcbfdb,
            0x7f24093a, 0x90428939, 0x4bada29b, 0xdbf02bd4, 0x38a0d5b0, 0x4b7d958b);
    Temp2Is(0xc2606d6d, 0x9dc68b63, 0xe1f20c33, 0x9a43bf51, 0xc1e20d63, 0x5c25ccb4);
    Turned(b, 22, 0x5cb0a9dc, 0x12dcbfdb,
           Vars(0xc2606d6d, 0x9dc68b63, 0xe1f20c33, 0xfe777bbf, 0xe1257970, 0x8ada8930, 0xb0638179, 0xcc899961),
           0x4b7d958b, 0x5c25ccb4, 0xa7a3623f, 0x49f5114a);
    BigSigma1Is(0x49f5114a, 0x2927d445, 0x29493ea2, 0xfa88a524, 0xfae64fc3);
    BigSigma0Is(0xa7a3623f, 0xe9e8d88f, 0x11fd3d1b, 0x8d88fe9e, 0x759d1b0a);
    Temp1Is(0x49f5114a, 0xe1257970, 0x8ada8930, 0xb0638179, 0x76f988da, 0xe2e2c38e,
            0xfae64fc3, 0xc32f9970, 0xab49d13c, 0x6e796aac, 0xe572f386, 0xc855b714);
    Temp2Is(0xa7a3623f, 0xc2606d6d, 0x9dc68b63, 0x759d1b0a, 0x87e26b6f, 0xfd7f8679);
    Turned(b, 23, 0x76f988da, 0xe2e2c38e,
           Vars(0xa7a3623f, 0xc2606d6d, 0x9dc68b63, 0xe1f20c33, 0x49f5114a, 0xe1257970, 0x8ada8930, 0xb0638179),
           0xc855b714, 0xfd7f8679, 0xc5d53d8d, 0xaa47c347);
  }

  lemma Turns7(b: Block)
    requires b == Padded(ABC)
    ensures Rounds(Start(H0), b, 28)
         == Vars(0x77d37528, 0xb62ec4bc, 0xcde8037d, 0x1c2c2838,
                 0xedffbff8, 0xc74c6516, 0x14383d8e, 0x2823ef91)
  {
    hide Rounds, Start, Schedule, Constant, Padded, BigSigma0, BigSigma1, Temp1, Temp2;
    Turns6(b);
    Entries6();
    Words3(b);
    BigSigma1Is(0xaa47c347, 0x1ea91f0d, 0x68f548f8, 0x23e1a3d5, 0x55bdf420);
    BigSigma0Is(0xc5d53d8d, 0x71754f63, 0xec6e2ea9, 0x54f63717, 0xc9ed56dd);
    Temp1Is(0xaa47c347, 0x49f5114a, 0xe1257970, 0x8ada8930, 0x983e5152, 0xc8215c1a,
            0x55bdf420, 0x49653972, 0xe0987d50, 0x29fdb6c2, 0xc23c0814, 0x8a5d642e);
    Temp2Is(0xc5d53d8d, 0xa7a3623f, 0xc2606d6d, 0xc9ed56dd, 0xc7e16d2d, 0x91cec40a);
    Turned(b, 24, 0x983e5152, 0xc8215c1a,
           Vars(0xc5d53d8d, 0xa7a3623f, 0xc2606d6d, 0x9dc68b63, 0xaa47c347, 0x49f5114a, 0xe1257970, 0x8ada8930),
           0x8a5d642e, 0x91cec40a, 0x1c2c2838, 0x2823ef91);
    BigSigma1Is(0x2823ef91, 0x44a08fbe, 0xf225047d, 0x11f7c894, 0xa7724357);
    BigSigma0Is(0x1c2c2838, 0x070b0a0e, 0x41c0e161, 0xb0a0e070, 0xf66b0b1f);
    Temp1Is(0x2823ef91, 0xaa47c347, 0x49f5114a, 0xe1257970, 0xa831c66d, 0xb73679a2,
            0xa7724357, 0x69d7d34b, 0x8897bcc7, 0xf26f9012, 0x9aa1567f, 0x51d7d021);
    Temp2Is(0x1c2c2838, 0xc5d53d8d, 0xa7a3623f, 0xf66b0b1f, 0x85a5283d, 0x7c10335c);
    Turned(b, 25, 0xa831c66d, 0xb73679a2,
           Vars(0x1c2c2838, 0xc5d53d8d, 0xa7a3623f, 0xc2606d6d, 0x2823ef91, 0xaa47c347, 0x49f5114a, 0xe1257970),
           0x51d7d021, 0x7c10335c, 0xcde8037d, 0x14383d8e);
    BigSigma1Is(0x14383d8e, 0x3850e0f6, 0xb1c28707, 0x1c1ec70a, 0x958ca0fb);
    BigSigma0Is(0xcde8037d, 0x737a00df, 0x1bee6f40, 0xa00df737, 0xc89998a8);
    Temp1Is(0x14383d8e, 0x2823ef91, 0xaa47c347, 0x49f5114a, 0xb00327c8, 0xe5bc3909,
            0x958ca0fb, 0xaa67efc1, 0xdf81b245, 0x89e9a206, 0x39ecc9ce, 0x1fa902d7);
    Temp2Is(0xcde8037d, 0x1c2c2838, 0xc5d53d8d, 0xc89998a8, 0xcdec293d, 0x9685c1e5);
    Turned(b, 26, 0xb00327c8, 0xe5bc3909,
           Vars(0xcde8037d, 0x1c2c2838, 0xc5d53d8d, 0xa7a3623f, 0x14383d8e, 0x2823ef91, 0xaa47c347, 0x49f5114a),
           0x1fa902d7, 0x9685c1e5, 0xb62ec4bc, 0xc74c6516);
    BigSigma1Is(0xc74c6516, 0x5b1d3194, 0xa2d8e98c, 0xa6328b63, 0x5ff7537b);
    BigSigma0Is(0xb62ec4bc, 0x2d8bb12f, 0x25e5b176, 0xbb12f2d8, 0xb37cf281);
    Temp1Is(0xc74c6516, 0x14383d8e, 0x2823ef91, 0xaa47c347, 0xbf597fc7, 0x32663c5b,
            0x5ff7537b, 0x2c2baf87, 0x0a3f16c2, 0x366ac649, 0xf5c44610, 0x282a826b);
    Temp2Is(0xb62ec4bc, 0xcde8037d, 0x1c2c2838, 0xb37cf281, 0x9c2c003c, 0x4fa8f2bd);
    Turned(b, 27, 0xbf597fc7, 0x32663c5b,
           Vars(0xb62ec4bc, 0xcde8037d, 0x1c2c2838, 0xc5d53d8d, 0xc74c6516, 0x14383d8e, 0x2823ef91, 0xaa47c347),
           0x282a826b, 0x4fa8f2bd, 0x77d37528, 0xedffbff8);
  }

  lemma Turns8(b: Block)
    requires b == Padded(ABC)
    ensures Rounds(Start(H0), b, 32)
         == Vars(0x73b33bf5, 0xea992a22, 0xa0060b30, 0x363482c9,
                 0xba591112, 0x0109ab3a, 0xade79437, 0x6112a3b7)
  {
    hide Rounds, Start, Schedule, Constant, Padded, BigSigma0, BigSigma1, Temp1, Temp2;
    Turns7(b);
    Entries7();
    Words3(b);
    BigSigma1Is(0xedffbff8, 0xe3b7feff, 0xff1dbff7, 0xffdffc76, 0xe375bd7e);
    BigSigma0Is(0x77d37528, 0x1df4dd4a, 0xa943be9b, 0x4dd4a1df, 0xf963c20e);
    Temp1Is(0xedffbff8, 0xc74c6516, 0x14383d8e, 0x2823ef91, 0xc6e00bf3, 0x9d209d67,
            0xe375bd7e, 0xd54c2516, 0x0b99ad0f, 0xe0e5d225, 0xa7c5de18, 0x44e67b7f);
    Temp2Is(0x77d37528, 0xb62ec4bc, 0xcde8037d, 0xf963c20e, 0xf7ea453c, 0xf14e074a);
    Turned(b, 28, 0xc6e00bf3, 0x9d209d67,
           Vars(0x77d37528, 0xb62ec4bc, 0xcde8037d, 0x1c2c2838, 0xedffbff8, 0xc74c6516, 0x14383d8e, 0x2823ef91),
           0x44e67b7f, 0xf14e074a, 0x363482c9, 0x6112a3b7);
    BigSigma1Is(0x6112a3b7, 0xdd844a8e, 0x76ec2254, 0x8951dbb0, 0x2239b36a);
    BigSigma0Is(0x363482c9, 0x4d8d20b2, 0x1649b1a4, 0xd20b24d8, 0x89cfb5ce);
    Temp1Is(0x6112a3b7, 0xedffbff8, 0xc74c6516, 0x14383d8e, 0xd5a79147, 0xec8726cb,
            0x2239b36a, 0xe75ee7b0, 0x3671f0f8, 0x1dd0d8a8, 0xf37869ef, 0xdfff90ba);
    Temp2Is(0x363482c9, 0x77d37528, 0xb62ec4bc, 0x89cfb5ce, 0x3636c4a8, 0xc0067a76);
    Turned(b, 29, 0xd5a79147, 0xec8726cb,
           Vars(0x363482c9, 0x77d37528, 0xb62ec4bc, 0xcde8037d, 0x6112a3b7, 0xedffbff8, 0xc74c6516, 0x14383d8e),
           0xdfff90ba, 0xc0067a76, 0xa0060b30, 0xade79437);
    BigSigma1Is(0xade79437, 0xdeb79e50, 0x86f5bcf2, 0xf3ca1bd6, 0xab883974);
    BigSigma0Is(0xa0060b30, 0x280182cc, 0x59850030, 0x182cc280, 0x69a8407c);
    Temp1Is(0xade79437, 0x6112a3b7, 0xedffbff8, 0xc74c6516, 0x06ca6351, 0x702138a4,
            0xab883974, 0x611aabff, 0x72d49e8a, 0xd3ef4a89, 0xdab9adda, 0x4adae67e);
    Temp2Is(0xa0060b30, 0x363482c9, 0x77d37528, 0x69a8407c, 0x36160328, 0x9fbe43a4);
    Turned(b, 30, 0x06ca6351, 0x702138a4,
           Vars(0xa0060b30, 0x363482c9, 0x77d37528, 0xb62ec4bc, 0xade79437, 0x6112a3b7, 0xedffbff8, 0xc74c6516),
           0x4adae67e, 0x9fbe43a4, 0xea992a22, 0x0109ab3a);
    BigSigma1Is(0x0109ab3a, 0xe80426ac, 0x67402135, 0x84d59d00, 0x0b919a99);
    BigSigma0Is(0xea992a22, 0xbaa64a88, 0x511754c9, 0x64a88baa, 0x8f1995eb);
    Temp1Is(0x0109ab3a, 0xade79437, 0x6112a3b7, 0xedffbff8, 0x14292967, 0xd3b7973b,
            0x0b919a99, 0x611380b7, 0xf9915a91, 0x5aa4db48, 0x6ece04af, 0x42859bea);
    Temp2Is(0xea992a22, 0xa0060b30, 0x363482c9, 0x8f1995eb, 0xa2140a20, 0x312da00b);
    Turned(b, 31, 0x14292967, 0xd3b7973b,
           Vars(0xea992a22, 0xa0060b30, 0x363482c9, 0x77d37528, 0x0109ab3a, 0xade79437, 0x6112a3b7, 0xedffbff8),
           0x42859bea, 0x312da00b, 0x73b33bf5, 0xba591112);
  }

  lemma Turns9(b: Block)
    requires b == Padded(ABC)
    ensures Rounds(Start(H0), b, 36)
         == Vars(0x65a0cfe4, 0xa9a7738c, 0xfe604df5, 0x98e12507,
                 0xf4b002d6, 0x085f3833, 0x59249dd3, 0x9cd9f5f6)
  {
    hide Rounds, Start, Schedule, Constant, Padded, BigSigma0, BigSigma1, Temp1, Temp2;
    Turns8(b);
    Entries8();
    Words4(b);
    BigSigma1Is(0xba591112, 0x4ae96444, 0x22574b22, 0x2c88895d, 0x4436a63b);
    BigSigma0Is(0x73b33bf5, 0x5ceccefd, 0xdfab9d99, 0xccefd5ce, 0x4fa886aa);
    Temp1Is(0xba591112, 0x0109ab3a, 0xade79437, 0x6112a3b7, 0x27b70a85, 0x93f5997f,
            0x4436a63b, 0x05af8537, 0xa54949f2, 0xaaf8cf29, 0xd2afd9ae, 0x66a5732d);
    Temp2Is(0x73b33bf5, 0xea992a22, 0xa0060b30, 0x4fa886aa, 0xe2932b30, 0x323bb1da);
    Turned(b, 32, 0x27b70a85, 0x93f5997f,
           Vars(0x73b33bf5, 0xea992a22, 0xa0060b30, 0x363482c9, 0xba591112, 0x0109ab3a, 0xade79437, 0x6112a3b7),
           0x66a5732d, 0x323bb1da, 0x98e12507, 0x9cd9f5f6);
    BigSigma1Is(0x9cd9f5f6, 0xda7367d7, 0xbed39b3e, 0x6cfafb4e, 0x085a07a7);
    BigSigma0Is(0x98e12507, 0xe6384941, 0x283cc709, 0x84941e63, 0x4a90902b);
    Temp1Is(0x9cd9f5f6, 0xba591112, 0x0109ab3a, 0xade79437, 0x2e1b2138, 0x3b68ba73,
            0x085a07a7, 0x99591b1a, 0xb6419bde, 0x4f9ab6f8, 0x7db5d830, 0xb91e92a3);
    Temp2Is(0x98e12507, 0x73b33bf5, 0xea992a22, 0x4a90902b, 0xfab12b27, 0x4541bb52);
    Turned(b, 33, 0x2e1b2138, 0x3b68ba73,
           Vars(0x98e12507, 0x73b33bf5, 0xea992a22, 0xa0060b30, 0x9cd9f5f6, 0xba591112, 0x0109ab3a, 0xade79437),
           0xb91e92a3, 0x4541bb52, 0xfe604df5, 0x59249dd3);
    BigSigma1Is(0x59249dd3, 0x4d649277, 0xba6b2493, 0x924ee9ac, 0x65415f48);
    BigSigma0Is(0xfe604df5, 0x7f98137d, 0x6faff302, 0x8137d7f9, 0x91003786);
    Temp1Is(0x59249dd3, 0x9cd9f5f6, 0xba591112, 0x0109ab3a, 0x4d2c6dfc, 0xaff4ffc1,
            0x65415f48, 0xba5995d2, 0x664b0a82, 0x20a4a054, 0x6dd10e50, 0x1dc60e11);
    Temp2Is(0xfe604df5, 0x98e12507, 0x73b33bf5, 0x91003786, 0xfae12df5, 0x8be1657b);
    Turned(b, 34, 0x4d2c6dfc, 0xaff4ffc1,
           Vars(0xfe604df5, 0x98e12507, 0x73b33bf5, 0xea992a22, 0x59249dd3, 0x9cd9f5f6, 0xba591112, 0x0109ab3a),
           0x1dc60e11, 0x8be1657b, 0xa9a7738c, 0x085f3833);
    BigSigma1Is(0x085f3833, 0xcc217ce0, 0x06610be7, 0x2f9c1984, 0xe5dc6e83);
    BigSigma0Is(0xa9a7738c, 0x2a69dce3, 0x9c654d3b, 0x9dce32a6, 0x2bc2a37e);
    Temp1Is(0x085f3833, 0x59249dd3, 0x9cd9f5f6, 0xba591112, 0x53380d13, 0xf10a5c62,
            0xe5dc6e83, 0x9c84ddd7, 0xa0357f95, 0x3cba5d6c, 0x8ff26a7f, 0x80fcc6e1);
    Temp2Is(0xa9a7738c, 0xfe604df5, 0x98e12507, 0x2bc2a37e, 0xb8e16585, 0xe4a40903);
    Turned(b, 35, 0x53380d13, 0xf10a5c62,
           Vars(0xa9a7738c, 0xfe604df5, 0x98e12507, 0x73b33bf5, 0x085f3833, 0x59249dd3, 0x9cd9f5f6, 0xba591112),
           0x80fcc6e1, 0xe4a40903, 0x65a0cfe4, 0xf4b002d6);
  }

  lemma Turns10(b: Block)
    requires b == Padded(ABC)
    ensures Rounds(Start(H0), b, 40)
         == Vars(0x79ea687a, 0x6dc57a8a, 0x34df1604, 0x41a65cb1,
                 0x1efbc0a0, 0xf0781bc8, 0xa507a53d, 0x0772a26b)
  {
    hide Rounds, Start, Schedule, Constant, Padded, BigSigma0, BigSigma1, Temp1, Temp2;
    Turns9(b);
    Entries9();
    Words4(b);
    BigSigma1Is(0xf4b002d6, 0x5bd2c00b, 0x5ade9600, 0x58016b7a, 0x590d3d71);
    BigSigma0Is(0x65a0cfe4, 0x196833f9, 0x7f232d06, 0x833f9196, 0xe5748f69);
    Temp1Is(0xf4b002d6, 0x085f3833, 0x59249dd3, 0x9cd9f5f6, 0x650a7354, 0x0a8b3996,
            0x590d3d71, 0x09149d13, 0xf5e73367, 0xfefbd07a, 0x640643ce, 0x6e917d64);
    Temp2Is(0x65a0cfe4, 0xa9a7738c, 0xfe604df5, 0xe5748f69, 0xeda04fe4, 0xd314df4d);
    Turned(b, 36, 0x650a7354, 0x0a8b3996,
           Vars(0x65a0cfe4, 0xa9a7738c, 0xfe604df5, 0x98e12507, 0xf4b002d6, 0x085f3833, 0x59249dd3, 0x9cd9f5f6),
           0x6e917d64, 0xd314df4d, 0x41a65cb1, 0x0772a26b);
    BigSigma1Is(0x0772a26b, 0xac1dca89, 0x4d60ee54, 0xb9513583, 0x582c115e);
    BigSigma0Is(0x41a65cb1, 0x5069972c, 0xe58a0d32, 0x9972c506, 0x2c915f18);
    Temp1Is(0x0772a26b, 0xf4b002d6, 0x085f3833, 0x59249dd3, 0x766a0abb, 0x72af830a,
            0x582c115e, 0x0c3d1a52, 0xb150af31, 0xbd8dc983, 0x33f7d43e, 0xa6a75748);
    Temp2Is(0x41a65cb1, 0x65a0cfe4, 0xa9a7738c, 0x2c915f18, 0x61a65fa4, 0x8e37bebc);
    Turned(b, 37, 0x766a0abb, 0x72af830a,
           Vars(0x41a65cb1, 0x65a0cfe4, 0xa9a7738c, 0xfe604df5, 0x0772a26b, 0xf4b002d6, 0x085f3833, 0x59249dd3),
           0xa6a75748, 0x8e37bebc, 0x34df1604, 0xa507a53d);
    BigSigma1Is(0xa507a53d, 0xf6941e94, 0xa7b4a0f4, 0x83d29ed2, 0xd2f220b2);
    BigSigma0Is(0x34df1604, 0x0d37c581, 0xb021a6f8, 0x7c5810d3, 0xc14e73aa);
    Temp1Is(0xa507a53d, 0x0772a26b, 0xf4b002d6, 0x085f3833, 0x81c2c92e, 0x9409e33e,
            0xd2f220b2, 0x55b2a2eb, 0xdb5158e5, 0x3103fbd0, 0xb2c6c4fe, 0x46d0a83c);
    Temp2Is(0x34df1604, 0x41a65cb1, 0x65a0cfe4, 0xc14e73aa, 0x65a65ea4, 0x26f4d24e);
    Turned(b, 38, 0x81c2c92e, 0x9409e33e,
           Vars(0x34df1604, 0x41a65cb1, 0x65a0cfe4, 0xa9a7738c, 0xa507a53d, 0x0772a26b, 0xf4b002d6, 0x085f3833),
           0x46d0a83c, 0x26f4d24e, 0x6dc57a8a, 0xf0781bc8);
    BigSigma1Is(0xf0781bc8, 0x23c1e06f, 0x791e0f03, 0x3c0de478, 0x66d20b14);
    BigSigma0Is(0x6dc57a8a, 0x9b715ea2, 0xd4536e2b, 0x15ea29b7, 0x5ac8193e);
    Temp1Is(0xf0781bc8, 0xa507a53d, 0x0772a26b, 0xf4b002d6, 0x92722c85, 0x24641522,
            0x66d20b14, 0xa702a12b, 0x5b820dea, 0x0284af15, 0x94f6db9a, 0xb95af0bc);
    Temp2Is(0x6dc57a8a, 0x34df1604, 0x41a65cb1, 0x5ac8193e, 0x65c75e80, 0xc08f77be);
    Turned(b, 39, 0x92722c85, 0x24641522,
           Vars(0x6dc57a8a, 0x34df1604, 0x41a65cb1, 0x65a0cfe4, 0xf0781bc8, 0xa507a53d, 0x0772a26b, 0xf4b002d6),
           0xb95af0bc, 0xc08f77be, 0x79ea687a, 0x1efbc0a0);
  }

  lemma Turns11(b: Block)
    requires b == Padded(ABC)
    ensures Rounds(Start(H0), b, 44)
         == Vars(0x9d4baf93, 0x17aa0dfe, 0xdf46652f, 0xd6670766,
                 0xfda24c2e, 0xdecd4715, 0x838b2711, 0x26352d63)
  {
    hide Rounds, Start, Schedule, Constant, Padded, BigSigma0, BigSigma1, Temp1, Temp2;
    Turns10(b);
    Entries10();
    Words5(b);
    BigSigma1Is(0x1efbc0a0, 0x807bef02, 0x1403df78, 0x7de0500f, 0xe9986075);
    BigSigma0Is(0x79ea687a, 0x9e7a9a1e, 0x43d3cf53, 0xa9a1e9e7, 0x7408bcaa);
    Temp1Is(0x1efbc0a0, 0xf0781bc8, 0xa507a53d, 0x0772a26b, 0xa2bfe8a1, 0x9f47bf94,
            0xe9986075, 0xb17c259d, 0xf10b02e0, 0xa287287d, 0x4547111e, 0xe48ed0b2);
    Temp2Is(0x79ea687a, 0x6dc57a8a, 0x34df1604, 0x7408bcaa, 0x7dcf7a0a, 0xf1d836b4);
    Turned(b, 40, 0xa2bfe8a1, 0x9f47bf94,
           Vars(0x79ea687a, 0x6dc57a8a, 0x34df1604, 0x41a65cb1, 0x1efbc0a0, 0xf0781bc8, 0xa507a53d, 0x0772a26b),
           0xe48ed0b2, 0xf1d836b4, 0xd6670766, 0x26352d63);
    BigSigma1Is(0x26352d63, 0x8c98d4b5, 0xac64c6a5, 0x1a96b193, 0x3a6aa383);
    BigSigma0Is(0xd6670766, 0xb599c1d9, 0x3b36b338, 0x9c1d9b59, 0x12b2e9b8);
    Temp1Is(0x26352d63, 0x1efbc0a0, 0xf0781bc8, 0xa507a53d, 0xa81a664b, 0xf0a64f5a,
            0x3a6aa383, 0xd67912a8, 0xdf7248c0, 0xb5eb5b68, 0x5e05c1b3, 0x4eac110d);
    Temp2Is(0xd6670766, 0x79ea687a, 0x6dc57a8a, 0x12b2e9b8, 0x7de76a6a, 0x909a5422);
    Turned(b, 41, 0xa81a664b, 0xf0a64f5a,
           Vars(0xd6670766, 0x79ea687a, 0x6dc57a8a, 0x34df1604, 0x26352d63, 0x1efbc0a0, 0xf0781bc8, 0xa507a53d),
           0x4eac110d, 0x909a5422, 0xdf46652f, 0x838b2711);
    BigSigma1Is(0x838b2711, 0x460e2c9c, 0xe2307164, 0xc59388c1, 0x61add539);
    BigSigma0Is(0xdf46652f, 0xf7d1994b, 0x297efa33, 0x1994bf7d, 0xc73bdc05);
    Temp1Is(0x838b2711, 0x26352d63, 0x1efbc0a0, 0xf0781bc8, 0xc24b8b70, 0x3e246a79,
            0x61add539, 0x1e71e5a1, 0x5225f101, 0x7097d6a2, 0x32e36212, 0x7107cc8b);
    Temp2Is(0xdf46652f, 0xd6670766, 0x79ea687a, 0xc73bdc05, 0xdf66656e, 0xa6a24173);
    Turned(b, 42, 0xc24b8b70, 0x3e246a79,
           Vars(0xdf46652f, 0xd6670766, 0x79ea687a, 0x6dc57a8a, 0x838b2711, 0x26352d63, 0x1efbc0a0, 0xf0781bc8),
           0x7107cc8b, 0xa6a24173, 0x17aa0dfe, 0xdecd4715);
    BigSigma1Is(0xdecd4715, 0x577b351c, 0xe2bbd9a8, 0x66a38aef, 0xd363665b);
    BigSigma0Is(0x17aa0dfe, 0x85ea837f, 0x6ff0bd50, 0xa837f85e, 0x422dc671);
    Temp1Is(0xdecd4715, 0x838b2711, 0x26352d63, 0x1efbc0a0, 0xc76c51a3, 0x27333ba3,
            0xd363665b, 0xa2b92f73, 0xf25f26fb, 0x9518566e, 0x5c84a811, 0x83b7e3b4);
    Temp2Is(0x17aa0dfe, 0xdf46652f, 0xd6670766, 0x422dc671, 0xd766056e, 0x1993cbdf);
    Turned(b, 43, 0xc76c51a3, 0x27333ba3,
           Vars(0x17aa0dfe, 0xdf46652f, 0xd6670766, 0x79ea687a, 0xdecd4715, 0x838b2711, 0x26352d63, 0x1efbc0a0),
           0x83b7e3b4, 0x1993cbdf, 0x9d4baf93, 0xfda24c2e);
  }

  lemma Turns12(b: Block)
    requires b == Padded(ABC)
    ensures Rounds(Start(H0), b, 48)
         == Vars(0x4172328d, 0xa14c14b0, 0x72ab4b91, 0x26628815,
                 0xfecf0bc6, 0xd57b94a9, 0xb7755da1, 0xa80f11f0)
  {
    hide Rounds, Start, Schedule, Constant, Padded, BigSigma0, BigSigma1, Temp1, Temp2;
    Turns11(b);
    Entries11();
    Words5(b);
    BigSigma1Is(0xfda24c2e, 0xbbf68930, 0x85dfb449, 0xd126177e, 0xef0f2a07);
    BigSigma0Is(0x9d4baf93, 0xe752ebe4, 0x7c9cea5d, 0x2ebe4e75, 0xb5704fcc);
    Temp1Is(0xfda24c2e, 0xdecd4715, 0x838b2711, 0x26352d63, 0xd192e819, 0x0c4763f2,
            0xef0f2a07, 0xde896715, 0x1544576a, 0xf3cdbe7f, 0xc560a698, 0xd1a80a8a);
    Temp2Is(0x9d4baf93, 0x17aa0dfe, 0xdf46652f, 0xb5704fcc, 0x9f4a2dbf, 0x54ba7d8b);
    Turned(b, 44, 0xd192e819, 0x0c4763f2,
           Vars(0x9d4baf93, 0x17aa0dfe, 0xdf46652f, 0xd6670766, 0xfda24c2e, 0xdecd4715, 0x838b2711, 0x26352d63),
           0xd1a80a8a, 0x54ba7d8b, 0x26628815, 0xa80f11f0);
    BigSigma1Is(0xa80f11f0, 0xc2a03c47, 0x3e1501e2, 0x0788f854, 0xfb3dc5f1);
    BigSigma0Is(0x26628815, 0x4998a205, 0x40a93314, 0x8a205499, 0x8311c588);
    Temp1Is(0xa80f11f0, 0xfda24c2e, 0xdecd4715, 0x838b2711, 0xd6990624, 0x840abf27,
            0xfb3dc5f1, 0xfec24625, 0x7ec8ed02, 0x7d8b3327, 0x5424394b, 0xd82ef872);
    Temp2Is(0x26628815, 0x9d4baf93, 0x17aa0dfe, 0x8311c588, 0x176a8d97, 0x9a7c531f);
    Turned(b, 45, 0xd6990624, 0x840abf27,
           Vars(0x26628815, 0x9d4baf93, 0x17aa0dfe, 0xdf46652f, 0xa80f11f0, 0xfda24c2e, 0xdecd4715, 0x838b2711),
           0xd82ef872, 0x9a7c531f, 0x72ab4b91, 0xb7755da1);
    BigSigma1Is(0xb7755da1, 0x86ddd576, 0xb436eeab, 0xbaaed0db, 0x8845eb06);
    BigSigma0Is(0x72ab4b91, 0x5caad2e4, 0x5c8b955a, 0xad2e45ca, 0xad0f0274);
    Temp1Is(0xb7755da1, 0xa80f11f0, 0xfda24c2e, 0xdecd4715, 0xf40e3585, 0x7a290d5d,
            0x8845eb06, 0xe88711ae, 0x6713321b, 0x4f9a43c9, 0x43a8794e, 0xbdd186ab);
    Temp2Is(0x72ab4b91, 0x26628815, 0x9d4baf93, 0xad0f0274, 0x366b8b91, 0xe37a8e05);
    Turned(b, 46, 0xf40e3585, 0x7a290d5d,
           Vars(0x72ab4b91, 0x26628815, 0x9d4baf93, 0x17aa0dfe, 0xb7755da1, 0xa80f11f0, 0xfda24c2e, 0xdecd4715),
           0xbdd186ab, 0xe37a8e05, 0xa14c14b0, 0xd57b94a9);
    BigSigma1Is(0xd57b94a9, 0xa755ee52, 0x953aaf72, 0xbdca54ea, 0x8fa515ca);
    BigSigma0Is(0xa14c14b0, 0x2853052c, 0xa5850a60, 0x3052c285, 0xbd84cdc9);
    Temp1Is(0xd57b94a9, 0xb7755da1, 0xa80f11f0, 0xfda24c2e, 0x106aa070, 0x065c43da,
            0x8fa515ca, 0xbd7515f1, 0x8d4761f8, 0x4abc77e9, 0x5b271859, 0x61835c33);
    Temp2Is(0xa14c14b0, 0x72ab4b91, 0x26628815, 0xbd84cdc9, 0x226a0891, 0xdfeed65a);
    Turned(b, 47, 0x106aa070, 0x065c43da,
           Vars(0xa14c14b0, 0x72ab4b91, 0x26628815, 0x9d4baf93, 0xd57b94a9, 0xb7755da1, 0xa80f11f0, 0xfda24c2e),
           0x61835c33, 0xdfeed65a, 0x4172328d, 0xfecf0bc6);
  }

  lemma Turns13(b: Block)
    requires b == Padded(ABC)
    ensures Rounds(Start(H0), b, 52)
         == Vars(0x886e7a22, 0x7a0508a1, 0xf11bfaa8, 0x05757ceb,
                 0x49231c1e, 0x52f1ccf7, 0x6e5c390c, 0xbd714038)
  {
    hide Rounds, Start, Schedule, Constant, Padded, BigSigma0, BigSigma1, Temp1, Temp2;
    Turns12(b);
    Entries12();
    Words6(b);
    BigSigma1Is(0xfecf0bc6, 0x1bfb3c2f, 0x78dfd9e1, 0x6785e37f, 0x04a106b1);
    BigSigma0Is(0x4172328d, 0x505c8ca3, 0x946a0b91, 0xc8ca3505, 0x0cfcb237);
    Temp1Is(0xfecf0bc6, 0xd57b94a9, 0xb7755da1, 0xa80f11f0, 0x19a4c116, 0xfb3e89cb,
            0x04a106b1, 0xd57b54a1, 0xacb018a1, 0x822b6d42, 0x9bd02e58, 0x970eb823);
    Temp2Is(0x4172328d, 0xa14c14b0, 0x72ab4b91, 0x0cfcb237, 0x616a1291, 0x6e66c4c8);
    Turned(b, 48, 0x19a4c116, 0xfb3e89cb,
           Vars(0x4172328d, 0xa14c14b0, 0x72ab4b91, 0x26628815, 0xfecf0bc6, 0xd57b94a9, 0xb7755da1, 0xa80f11f0),
           0x970eb823, 0x6e66c4c8, 0x05757ceb, 0xbd714038);
    BigSigma1Is(0xbd714038, 0xe2f5c500, 0x0717ae28, 0xb8a01c5e, 0x5d427776);
    BigSigma0Is(0x05757ceb, 0xc15d5f3a, 0xe7582bab, 0xd5f3ac15, 0xf3f6d884);
    Temp1Is(0xbd714038, 0xfecf0bc6, 0xd57b94a9, 0xb7755da1, 0x1e376c08, 0xcc7617db,
            0x5d427776, 0xfc4b9481, 0x14b7d517, 0x11036998, 0x2f3ad5a0, 0xfbb0ed7b);
    Temp2Is(0x05757ceb, 0x4172328d, 0xa14c14b0, 0xf3f6d884, 0x017434a9, 0xf56b0d2d);
    Turned(b, 49, 0x1e376c08, 0xcc7617db,
           Vars(0x05757ceb, 0x4172328d, 0xa14c14b0, 0x72ab4b91, 0xbd714038, 0xfecf0bc6, 0xd57b94a9, 0xb7755da1),
           0xfbb0ed7b, 0xf56b0d2d, 0xf11bfaa8, 0x6e5c390c);
    BigSigma1Is(0x6e5c390c, 0x31b970e4, 0x218dcb87, 0x2e1c8637, 0x3e283d54);
    BigSigma0Is(0xf11bfaa8, 0x3c46feaa, 0xd54788df, 0x6feaa3c4, 0x86ebd5b1);
    Temp1Is(0x6e5c390c, 0xbd714038, 0xfecf0bc6, 0xd57b94a9, 0x2748774c, 0xb9e66c34,
            0x3e283d54, 0xbcd302ca, 0x13a3d1fd, 0xd076d4c7, 0xf7bf4c13, 0xb1a5b847);
    Temp2Is(0xf11bfaa8, 0x05757ceb, 0x4172328d, 0x86ebd5b1, 0x41737aa9, 0xc85f505a);
    Turned(b, 50, 0x2748774c, 0xb9e66c34,
           Vars(0xf11bfaa8, 0x05757ceb, 0x4172328d, 0xa14c14b0, 0x6e5c390c, 0xbd714038, 0xfecf0bc6, 0xd57b94a9),
           0xb1a5b847, 0xc85f505a, 0x7a0508a1, 0x52f1ccf7);
    BigSigma1Is(0x52f1ccf7, 0xdd4bc733, 0x9eea5e39, 0x78e67ba9, 0x3b47e2a3);
    BigSigma0Is(0x7a0508a1, 0x5e814228, 0x450bd028, 0x142285e8, 0x0fa817e8);
    Temp1Is(0x52f1ccf7, 0x6e5c390c, 0xbd714038, 0xfecf0bc6, 0x34b0bcb5, 0xa9993667,
            0x3b47e2a3, 0xef50080c, 0x3a16ee69, 0x2966f675, 0x5e17b32a, 0x07b0e991);
    Temp2Is(0x7a0508a1, 0xf11bfaa8, 0x05757ceb, 0x0fa817e8, 0x711578a9, 0x80bd9091);
    Turned(b, 51, 0x34b0bcb5, 0xa9993667,
           Vars(0x7a0508a1, 0xf11bfaa8, 0x05757ceb, 0x4172328d, 0x52f1ccf7, 0x6e5c390c, 0xbd714038, 0xfecf0bc6),
           0x07b0e991, 0x80bd9091, 0x886e7a22, 0x49231c1e);
  }

  lemma Turns14(b: Block)
    requires b == Padded(ABC)
    ensures Rounds(Start(H0), b, 56)
         == Vars(0x38cc9913, 0x3ec45cdb, 0xf5702fdb, 0x101fd28f,
                 0x54cb266b, 0xe50e1b4f, 0x9f4787c3, 0x529e7d00)
  {
    hide Rounds, Start, Schedule, Constant, Padded, BigSigma0, BigSigma1, Temp1, Temp2;
    Turns13(b);
    Entries13();
    Words6(b);
    BigSigma1Is(0x49231c1e, 0x79248c70, 0x83c92463, 0x918e0f24, 0x6b63a737);
    BigSigma0Is(0x886e7a22, 0xa21b9e88, 0xd1144373, 0xb9e88a21, 0xcae757da);
    Temp1Is(0x49231c1e, 0x52f1ccf7, 0x6e5c390c, 0xbd714038, 0x391c0cb3, 0x84badedd,
            0x6b63a737, 0x667d2d16, 0x28d4e76f, 0x8f521485, 0xc86e2138, 0x4d290015);
    Temp2Is(0x886e7a22, 0x7a0508a1, 0xf11bfaa8, 0xcae757da, 0xf80f7aa0, 0xc2f6d27a);
    Turned(b, 52, 0x391c0cb3, 0x84badedd,
           Vars(0x886e7a22, 0x7a0508a1, 0xf11bfaa8, 0x05757ceb, 0x49231c1e, 0x52f1ccf7, 0x6e5c390c, 0xbd714038),
           0x4d290015, 0xc2f6d27a, 0x101fd28f, 0x529e7d00);
    BigSigma1Is(0x529e7d00, 0x014a79f4, 0xa00a53cf, 0x4f3e8029, 0xee7eaa12);
    BigSigma0Is(0x101fd28f, 0xc407f4a3, 0x947880fe, 0x7f4a3c40, 0x2f35481d);
    Temp1Is(0x529e7d00, 0x49231c1e, 0x52f1ccf7, 0x6e5c390c, 0x4ed8aa4a, 0xc21462bc,
            0xee7eaa12, 0x40639cf7, 0x5cdae31e, 0x9d3e8015, 0xec172a5f, 0xae2b8d1b);
    Temp2Is(0x101fd28f, 0x886e7a22, 0x7a0508a1, 0x2f35481d, 0x180f5aa3, 0x4744a2c0);
    Turned(b, 53, 0x4ed8aa4a, 0xc21462bc,
           Vars(0x101fd28f, 0x886e7a22, 0x7a0508a1, 0xf11bfaa8, 0x529e7d00, 0x49231c1e, 0x52f1ccf7, 0x6e5c390c),
           0xae2b8d1b, 0x4744a2c0, 0xf5702fdb, 0x9f4787c3);
    BigSigma1Is(0x9f4787c3, 0x0e7d1e1f, 0xf873e8f0, 0xa3c3e1cf, 0x55cd1720);
    BigSigma0Is(0xf5702fdb, 0xfd5c0bf6, 0x7edfab81, 0xc0bf6fd5, 0x433ccfa2);
    Temp1Is(0x9f4787c3, 0x529e7d00, 0x49231c1e, 0x52f1ccf7, 0x5b9cca4f, 0x1487472c,
            0x55cd1720, 0x52261d1c, 0xa8bee417, 0xfae50133, 0x5681cb82, 0x6b0912ae);
    Temp2Is(0xf5702fdb, 0x101fd28f, 0x886e7a22, 0x433ccfa2, 0x907e7a8b, 0xd3bb4a2d);
    Turned(b, 54, 0x5b9cca4f, 0x1487472c,
           Vars(0xf5702fdb, 0x101fd28f, 0x886e7a22, 0x7a0508a1, 0x9f4787c3, 0x529e7d00, 0x49231c1e, 0x52f1ccf7),
           0x6b0912ae, 0xd3bb4a2d, 0x3ec45cdb, 0xe50e1b4f);
    BigSigma1Is(0xe50e1b4f, 0x3f94386d, 0x69fca1c3, 0x870da7f2, 0xd1653e5c);
    BigSigma0Is(0x3ec45cdb, 0xcfb11736, 0xe6d9f622, 0x11736cfb, 0x381b8def);
    Temp1Is(0xe50e1b4f, 0x9f4787c3, 0x529e7d00, 0x49231c1e, 0x682e6ff3, 0xb20f7a99,
            0xd1653e5c, 0x97966743, 0x1a885a7a, 0xb21ec1bd, 0x1a4d31b0, 0xcc5cac49);
    Temp2Is(0x3ec45cdb, 0xf5702fdb, 0x101fd28f, 0x381b8def, 0x34545edb, 0x6c6fecca);
    Turned(b, 55, 0x682e6ff3, 0xb20f7a99,
           Vars(0x3ec45cdb, 0xf5702fdb, 0x101fd28f, 0x886e7a22, 0xe50e1b4f, 0x9f4787c3, 0x529e7d00, 0x49231c1e),
           0xcc5cac49, 0x6c6fecca, 0x38cc9913, 0x54cb266b);
  }

  lemma Turns15(b: Block)
    requires b == Padded(ABC)
    ensures Rounds(Start(H0), b, 60)
         == Vars(0xb6ae8fff, 0xffb70472, 0xc062d46f, 0xfcd1887b,
                 0xb21bad3d, 0x6d83bfc6, 0x7e44008e, 0x9b5e906c)
  {
    hide Rounds, Start, Schedule, Constant, Padded, BigSigma0, BigSigma1, Temp1, Temp2;
    Turns14(b);
    Entries14();
    Words7(b);
    BigSigma1Is(0x54cb266b, 0xad532c99, 0xcd6a9964, 0x659335aa, 0x05aa8057);
    BigSigma0Is(0x38cc9913, 0xce332644, 0xc899c664, 0x32644ce3, 0x34ceacc3);
    Temp1Is(0x54cb266b, 0xe50e1b4f, 0x9f4787c3, 0x529e7d00, 0x748f82ee, 0xef57b9cd,
            0x05aa8057, 0xcf0e83cb, 0x5848fd57, 0x27578122, 0x9be70410, 0x8b3ebddd);
    Temp2Is(0x38cc9913, 0x3ec45cdb, 0xf5702fdb, 0x34ceacc3, 0x3cc41ddb, 0x7192ca9e);
    Turned(b, 56, 0x748f82ee, 0xef57b9cd,
           Vars(0x38cc9913, 0x3ec45cdb, 0xf5702fdb, 0x101fd28f, 0x54cb266b, 0xe50e1b4f, 0x9f4787c3, 0x529e7d00),
           0x8b3ebddd, 0x7192ca9e, 0xfcd1887b, 0x9b5e906c);
    BigSigma1Is(0x9b5e906c, 0xb26d7a41, 0x0d936bd2, 0xaf48364d, 0x10b627de);
    BigSigma0Is(0xfcd1887b, 0xff34621e, 0x43dfe68c, 0x4621eff3, 0xfaca6b61);
    Temp1Is(0x9b5e906c, 0x54cb266b, 0xe50e1b4f, 0x9f4787c3, 0x78a5636f, 0xebe6b238,
            0x10b627de, 0x744a0b6b, 0xaffdafa1, 0x2447bb0c, 0x9ced1e7b, 0x88d3d0b3);
    Temp2Is(0xfcd1887b, 0x38cc9913, 0x3ec45cdb, 0xfaca6b61, 0x3cc4985b, 0x378f03bc);
    Turned(b, 57, 0x78a5636f, 0xebe6b238,
           Vars(0xfcd1887b, 0x38cc9913, 0x3ec45cdb, 0xf5702fdb, 0x9b5e906c, 0x54cb266b, 0xe50e1b4f, 0x9f4787c3),
           0x88d3d0b3, 0x378f03bc, 0xc062d46f, 0x7e44008e);
    BigSigma1Is(0x7e44008e, 0x39f91002, 0x11cfc880, 0x2200473f, 0x0a369fbd);
    BigSigma0Is(0xc062d46f, 0xf018b51b, 0xa37e0316, 0x8b51bf01, 0xd837090c);
    Temp1Is(0x7e44008e, 0x9b5e906c, 0x54cb266b, 0xe50e1b4f, 0x84c87814, 0x9fe3095e,
            0x0a369fbd, 0x1acf266d, 0xef44bb0c, 0x0a13e179, 0x8edc598d, 0x2ebf62eb);
    Temp2Is(0xc062d46f, 0xfcd1887b, 0x38cc9913, 0xd837090c, 0xf8c0987b, 0xd0f7a187);
    Turned(b, 58, 0x84c87814, 0x9fe3095e,
           Vars(0xc062d46f, 0xfcd1887b, 0x38cc9913, 0x3ec45cdb, 0x7e44008e, 0x9b5e906c, 0x54cb266b, 0xe50e1b4f),
           0x2ebf62eb, 0xd0f7a187, 0xffb70472, 0x6d83bfc6);
    BigSigma1Is(0x6d83bfc6, 0x19b60eff, 0xf8cdb077, 0xc1dfe336, 0x20a45dbe);
    BigSigma0Is(0xffb70472, 0xbfedc11c, 0x2397fdb8, 0xdc11cbfe, 0x406bf75a);
    Temp1Is(0x6d83bfc6, 0x7e44008e, 0x9b5e906c, 0x54cb266b, 0x8cc70208, 0x78bc8d4b,
            0x20a45dbe, 0xfe5c00ae, 0x756f8429, 0x73cb84d7, 0x009286df, 0x794f142a);
    Temp2Is(0xffb70472, 0xc062d46f, 0xfcd1887b, 0x406bf75a, 0xfcf3847b, 0x3d5f7bd5);
    Turned(b, 59, 0x8cc70208, 0x78bc8d4b,
           Vars(0xffb70472, 0xc062d46f, 0xfcd1887b, 0x38cc9913, 0x6d83bfc6, 0x7e44008e, 0x9b5e906c, 0x54cb266b),
           0x794f142a, 0x3d5f7bd5, 0xb6ae8fff, 0xb21bad3d);
  }

  lemma Turns16(b: Block)
    requires b == Padded(ABC)
    ensures Rounds(Start(H0), b, 64)
         == Vars(0x506e3058, 0xd39a2165, 0x04d24d6c, 0xb85e2ce9,
                 0x5ef50f24, 0xfb121210, 0x948d25b6, 0x961f4894)
  {
    hide Rounds, Start, Schedule, Constant, Padded, BigSigma0, BigSigma1, Temp1, Temp2;
    Turns15(b);
    Entries15();
    Words7(b);
    BigSigma1Is(0xb21bad3d, 0xf6c86eb4, 0xa7b64375, 0x0dd69ed9, 0x5ca8b318);
    BigSigma0Is(0xb6ae8fff, 0xedaba3ff, 0x7ffdb574, 0xba3ffeda, 0x2869e851);
    Temp1Is(0xb21bad3d, 0x6d83bfc6, 0x7e44008e, 0x9b5e906c, 0x90befffa, 0xa43fcf15,
            0x5ca8b318, 0x6c47ad86, 0xf8074384, 0x644ef10a, 0xf50df104, 0x994dc019);
    Temp2Is(0xb6ae8fff, 0xffb70472, 0xc062d46f, 0x2869e851, 0xf6a6847f, 0x1f106cd0);
    Turned(b, 60, 0x90befffa, 0xa43fcf15,
           Vars(0xb6ae8fff, 0xffb70472, 0xc062d46f, 0xfcd1887b, 0xb21bad3d, 0x6d83bfc6, 0x7e44008e, 0x9b5e906c),
           0x994dc019, 0x1f106cd0, 0xb85e2ce9, 0x961f4894);
    BigSigma1Is(0x961f4894, 0x52587d22, 0x1292c3e9, 0x0fa44a4b, 0x4f6ef480);
    BigSigma0Is(0xb85e2ce9, 0x6e178b3a, 0x674dc2f1, 0x78b3a6e1, 0x71e9ef2a);
    Temp1Is(0x961f4894, 0xb21bad3d, 0x6d83bfc6, 0x7e44008e, 0xa4506ceb, 0x668b2ff8,
            0x4f6ef480, 0xfb9bbf56, 0xcdb2f50e, 0xc94eb464, 0x6d9f214f, 0xd42a5147);
    Temp2Is(0xb85e2ce9, 0xb6ae8fff, 0xffb70472, 0x71e9ef2a, 0xbebe0cfb, 0x30a7fc25);
    Turned(b, 61, 0xa4506ceb, 0x668b2ff8,
           Vars(0xb85e2ce9, 0xb6ae8fff, 0xffb70472, 0xc062d46f, 0x961f4894, 0xb21bad3d, 0x6d83bfc6, 0x7e44008e),
           0xd42a5147, 0x30a7fc25, 0x04d24d6c, 0x948d25b6);
    BigSigma1Is(0x948d25b6, 0xda523496, 0xb6d291a4, 0x4692db4a, 0x2a127e78);
    BigSigma0Is(0x04d24d6c, 0x0134935b, 0x6b602692, 0x4935b013, 0x236105da);
    Temp1Is(0x948d25b6, 0x961f4894, 0xb21bad3d, 0x6d83bfc6, 0xbef9a3f7, 0xeeaba2cc,
            0x2a127e78, 0xb61f889d, 0x97963e3e, 0x4db5c6db, 0x0caf6ad2, 0xfb5b0d9e);
    Temp2Is(0x04d24d6c, 0xb85e2ce9, 0xb6ae8fff, 0x236105da, 0xb4de0ded, 0xd83f13c7);
    Turned(b, 62, 0xbef9a3f7, 0xeeaba2cc,
           Vars(0x04d24d6c, 0xb85e2ce9, 0xb6ae8fff, 0xffb70472, 0x948d25b6, 0x961f4894, 0xb21bad3d, 0x6d83bfc6),
           0xfb5b0d9e, 0xd83f13c7, 0xd39a2165, 0xfb121210);
    BigSigma1Is(0xfb121210, 0x43ec4848, 0x421f6242, 0x8909087d, 0x88fa2277);
    BigSigma0Is(0xd39a2165, 0x74e68859, 0x0b2e9cd1, 0x6885974e, 0x174d83c6);
    Temp1Is(0xfb121210, 0x948d25b6, 0x961f4894, 0xb21bad3d, 0xc67178f2, 0x12b1edeb,
            0x88fa2277, 0x940d4894, 0x3b15cfb4, 0xcf231848, 0x9594913a, 0xa8467f25);
    Temp2Is(0xd39a2165, 0x04d24d6c, 0xb85e2ce9, 0x174d83c6, 0x90da2d6d, 0xa827b133);
    Turned(b, 63, 0xc67178f2, 0x12b1edeb,
           Vars(0xd39a2165, 0x04d24d6c, 0xb85e2ce9, 0xb6ae8fff, 0xfb121210, 0x948d25b6, 0x961f4894, 0xb21bad3d),
           0xa8467f25, 0xa827b133, 0x506e3058, 0x5ef50f24);
  }

  lemma Added()
    ensures Add(0x6a09e667, 0x506e3058) == 0xba7816bf
    ensures Add(0xbb67ae85, 0xd39a2165) == 0x8f01cfea
    ensures Add(0x3c6ef372, 0x04d24d6c) == 0x414140de
    ensures Add(0xa54ff53a, 0xb85e2ce9) == 0x5dae2223
    ensures Add(0x510e527f, 0x5ef50f24) == 0xb00361a3
    ensures Add(0x9b05688c, 0xfb121210) == 0x96177a9c
    ensures Add(0x1f83d9ab, 0x948d25b6) == 0xb410ff61
    ensures Add(0x5be0cd19, 0x961f4894) == 0xf20015ad
  {
  }

  lemma OneBlock(b: Block)
    ensures HashOf(b) == Sums(H0, Rounds(Start(H0), b, 64))
  {
    hide Rounds, Start, Sums, Schedule;
    FullBlock(b);
    assert b[..|b| - 64] == [] && b[|b| - 64..] == b;
    NothingHashed();
  }

  lemma AbcWords()
    ensures |Padded(ABC)| == 64
    ensures HashOf(Padded(ABC)) == [0xba7816bf, 0x8f01cfea, 0x414140de, 0x5dae2223,
                                    0xb00361a3, 0x96177a9c, 0xb410ff61, 0xf20015ad]
  {
    hide Padded, Rounds, Start, Add, HashOf;
    AbcPadded();
    OneBlock(Padded(ABC));
    Turns16(Padded(ABC));
    Added();
  }

  lemma WordTextAt(words: seq<bv32>, i: nat, from: nat)
    requires i < |words| && from == 8 * i
    ensures |Hex(words)| == 8 * |words|
    ensures HexValue(Hex(words)[from..from + 8]) == words[i] as int
  {
    hide Hex, HexValue;
    HexBack(words);
  }

  /** "abc" has the digest the standard gives. */
  lemma AbcDigest()
    ensures |Padded(ABC)| % 64 == 0
    ensures var text := Hex(HashOf(Padded(ABC)));
      && |text| == 64
      && HexValue(text[0..8]) == 0xba7816bf
      && HexValue(text[8..16]) == 0x8f01cfea
      && HexValue(text[16..24]) == 0x414140de
      && HexValue(text[24..32]) == 0x5dae2223
      && HexValue(text[32..40]) == 0xb00361a3
      && HexValue(text[40..48]) == 0x96177a9c
      && HexValue(text[48..56]) == 0xb410ff61
      && HexValue(text[56..64]) == 0xf20015ad
  {
    hide Padded, HashOf, Hex, HexValue;
    AbcWords();
    var words := HashOf(Padded(ABC));
    WordTextAt(words, 0, 0);
    WordTextAt(words, 1, 8);
    WordTextAt(words, 2, 16);
    WordTextAt(words, 3, 24);
    WordTextAt(words, 4, 32);
    WordTextAt(words, 5, 40);
    WordTextAt(words, 6, 48);
    WordTextAt(words, 7, 56);
  }
}
