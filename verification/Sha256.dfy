/** The streaming SHA-256 of the user store (src/auth/auth_manager.cpp) against the hash of
    FIPS 180-4: the padding of section 5.1.1 and the computation of section 6.2.2. */
module Sha256 {
  import opened Words

  type Block = s: seq<byte> | |s| == 64 witness seq(64, _ => 0)

  // ---- section 4.1.2: the functions on words ----

  function RotR(x: bv32, n: bv6): bv32
    requires n <= 32
  {
    (x >> n) | (x << (32 - n))
  }

  function Ch(x: bv32, y: bv32, z: bv32): bv32 { (x & y) ^ (!x & z) }

  function Maj(x: bv32, y: bv32, z: bv32): bv32 { (x & y) ^ (x & z) ^ (y & z) }

  function Xor3(x: bv32, y: bv32, z: bv32): bv32 { x ^ y ^ z }

  function BigSigma0(x: bv32): bv32 { Xor3(RotR(x, 2), RotR(x, 13), RotR(x, 22)) }

  function BigSigma1(x: bv32): bv32 { Xor3(RotR(x, 6), RotR(x, 11), RotR(x, 25)) }

  function SmallSigma0(x: bv32): bv32 { Xor3(RotR(x, 7), RotR(x, 18), x >> 3) }

  function SmallSigma1(x: bv32): bv32 { Xor3(RotR(x, 17), RotR(x, 19), x >> 10) }

  function Sum4(x: bv32, y: bv32, z: bv32, u: bv32): bv32 { x + y + z + u }

  function Add(x: bv32, y: bv32): bv32 { x + y }

  /** Four bytes, the first one the highest. */
  function WordOf(b0: byte, b1: byte, b2: byte, b3: byte): bv32 {
    (b0 as bv32 << 24) | (b1 as bv32 << 16) | (b2 as bv32 << 8) | b3 as bv32
  }

  const H0: seq<bv32> := [
    0x6a09e667, 0xbb67ae85, 0x3c6ef372, 0xa54ff53a, 0x510e527f, 0x9b05688c, 0x1f83d9ab, 0x5be0cd19
  ]

  function Pick<T>(k: nat, w0: T, w1: T, w2: T, w3: T, w4: T, w5: T, w6: T, w7: T): T {
    match k
    case 0 => w0
    case 1 => w1
    case 2 => w2
    case 3 => w3
    case 4 => w4
    case 5 => w5
    case 6 => w6
    case _ => w7
  }

  /** K of section 4.2.2. */
  function Constant(t: nat): bv32
    requires t < 64
  {
    match t / 8
    case 0 =>
      Pick(t % 8, 0x428a2f98, 0x71374491, 0xb5c0fbcf, 0xe9b5dba5,
           0x3956c25b, 0x59f111f1, 0x923f82a4, 0xab1c5ed5)
    case 1 =>
      Pick(t % 8, 0xd807aa98, 0x12835b01, 0x243185be, 0x550c7dc3,
           0x72be5d74, 0x80deb1fe, 0x9bdc06a7, 0xc19bf174)
    case 2 =>
      Pick(t % 8, 0xe49b69c1, 0xefbe4786, 0x0fc19dc6, 0x240ca1cc,
           0x2de92c6f, 0x4a7484aa, 0x5cb0a9dc, 0x76f988da)
    case 3 =>
      Pick(t % 8, 0x983e5152, 0xa831c66d, 0xb00327c8, 0xbf597fc7,
           0xc6e00bf3, 0xd5a79147, 0x06ca6351, 0x14292967)
    case 4 =>
      Pick(t % 8, 0x27b70a85, 0x2e1b2138, 0x4d2c6dfc, 0x53380d13,
           0x650a7354, 0x766a0abb, 0x81c2c92e, 0x92722c85)
    case 5 =>
      Pick(t % 8, 0xa2bfe8a1, 0xa81a664b, 0xc24b8b70, 0xc76c51a3,
           0xd192e819, 0xd6990624, 0xf40e3585, 0x106aa070)
    case 6 =>
      Pick(t % 8, 0x19a4c116, 0x1e376c08, 0x2748774c, 0x34b0bcb5,
           0x391c0cb3, 0x4ed8aa4a, 0x5b9cca4f, 0x682e6ff3)
    case _ =>
      Pick(t % 8, 0x748f82ee, 0x78a5636f, 0x84c87814, 0x8cc70208,
           0x90befffa, 0xa4506ceb, 0xbef9a3f7, 0xc67178f2)
  }

  // ---- section 6.2.2: the hash computation ----

  /** W of step 1. */
  function Schedule(block: Block, t: nat): bv32
    requires t < 64
    decreases t
  {
    if t < 16 then WordOf(block[4 * t], block[4 * t + 1], block[4 * t + 2], block[4 * t + 3])
    else Sum4(SmallSigma1(Schedule(block, t - 2)), Schedule(block, t - 7),
              SmallSigma0(Schedule(block, t - 15)), Schedule(block, t - 16))
  }

  datatype Vars = Vars(a: bv32, b: bv32, c: bv32, d: bv32, e: bv32, f: bv32, g: bv32, h: bv32)

  function Temp1(e: bv32, f: bv32, g: bv32, h: bv32, k: bv32, w: bv32): bv32 {
    Add(Add(Add(Add(h, BigSigma1(e)), Ch(e, f, g)), k), w)
  }

  function Temp2(a: bv32, b: bv32, c: bv32): bv32 {
    Add(BigSigma0(a), Maj(a, b, c))
  }

  /** One turn of step 3. */
  function Round(v: Vars, k: bv32, w: bv32): Vars {
    var t1, t2 := Temp1(v.e, v.f, v.g, v.h, k, w), Temp2(v.a, v.b, v.c);
    Vars(Add(t1, t2), v.a, v.b, v.c, Add(v.d, t1), v.e, v.f, v.g)
  }

  function Rounds(v: Vars, block: Block, t: nat): Vars
    requires t <= 64
  {
    if t == 0 then v else Round(Rounds(v, block, t - 1), Constant(t - 1), Schedule(block, t - 1))
  }

  type Hash = s: seq<bv32> | |s| == 8 witness H0

  function Start(h: Hash): Vars {
    Vars(h[0], h[1], h[2], h[3], h[4], h[5], h[6], h[7])
  }

  /** Step 4. */
  function Compress(h: Hash, block: Block): Hash {
    Sums(h, Rounds(Start(h), block, 64))
  }

  function Sums(h: Hash, v: Vars): Hash {
    [Add(h[0], v.a), Add(h[1], v.b), Add(h[2], v.c), Add(h[3], v.d),
     Add(h[4], v.e), Add(h[5], v.f), Add(h[6], v.g), Add(h[7], v.h)]
  }

  /** The hash after all blocks of s. */
  function HashOf(s: seq<byte>): Hash
    requires |s| % 64 == 0
    decreases |s|
  {
    if s == [] then H0 else Compress(HashOf(s[..|s| - 64]), s[|s| - 64..])
  }

  // ---- section 5.1.1: padding ----

  function ZeroBytes(n: nat): (s: seq<byte>)
    ensures |s| == n
  {
    seq(n, _ => 0)
  }

  /** Eight bytes of a number modulo 2^64, the highest first. */
  function BigEndian(x: nat, n: nat): (s: seq<byte>)
    ensures |s| == n
  {
    if n == 0 then [] else BigEndian(x / 256, n - 1) + [x % 256]
  }

  function FromBigEndian(s: seq<byte>): nat {
    if s == [] then 0 else FromBigEndian(s[..|s| - 1]) * 256 + s[|s| - 1]
  }

  /** How many zeros follow the first padding byte. */
  function ZeroCount(length: nat): (zeros: nat)
    ensures zeros < 64 && ZerosFit(length, zeros)
  {
    (55 - length as int) % 64
  }

  function Field(length: nat): (s: seq<byte>)
    ensures |s| == 8
  {
    BigEndian(8 * length % TWO_64, 8)
  }

  function Padded(m: seq<byte>): (s: seq<byte>)
    ensures |s| == WithZeros(|m|, ZeroCount(|m|))
  {
    m + [0x80] + ZeroBytes(ZeroCount(|m|)) + Field(|m|)
  }

  /** The length of a message, its padding and its length field. */
  function WithZeros(length: nat, zeros: nat): nat {
    length + 1 + zeros + 8
  }

  predicate ZerosFit(length: nat, zeros: nat) {
    WithZeros(length, zeros) % 64 == 0
  }

  /** The rule of the standard, which covers messages below 2^64 bits: a one bit, the fewest zeros that
      make the length come out, and the length in bits. */
  ghost predicate IsPadding(s: seq<byte>, m: seq<byte>) {
    exists zeros: nat, field: seq<byte> ::
      && s == m + [0x80] + ZeroBytes(zeros) + field
      && |field| == 8 && FromBigEndian(field) == 8 * |m|
      && ZerosFit(|m|, zeros)
      && (forall fewer: nat :: fewer < zeros ==> !ZerosFit(|m|, fewer))
  }

  lemma {:induction false} BigEndianRoundTrip(x: nat, n: nat)
    ensures FromBigEndian(BigEndian(x, n)) == x % Pow2(8 * n)
    decreases n
  {
    hide FromBigEndian, BigEndian, Pow2;
    if n == 0 {
      NoBytes(x);
    } else {
      BigEndianRoundTrip(x / 256, n - 1);
      BigEndianStep(x, n);
      OneByteMore(x, n);
    }
  }

  lemma NoBytes(x: nat)
    ensures FromBigEndian(BigEndian(x, 0)) == 0 && Pow2(8 * 0) == 1
  {
  }

  lemma OneByteMore(x: nat, n: nat)
    requires n > 0
    ensures x % Pow2(8 * n) == x / 256 % Pow2(8 * (n - 1)) * 256 + x % 256
  {
    hide Pow2;
    Pow2Add(8, 8 * (n - 1));
    Pow2Values();
    assert 8 + 8 * (n - 1) == 8 * n;
    ByteMod(x, Pow2(8 * (n - 1)));
  }

  lemma BigEndianStep(x: nat, n: nat)
    requires n > 0
    ensures FromBigEndian(BigEndian(x, n)) == FromBigEndian(BigEndian(x / 256, n - 1)) * 256 + x % 256
  {
    assert BigEndian(x, n)[..n - 1] == BigEndian(x / 256, n - 1);
  }

  lemma {:induction false} BigEndianUnique(a: seq<byte>, b: seq<byte>)
    requires |a| == |b| && FromBigEndian(a) == FromBigEndian(b)
    ensures a == b
    decreases |a|
  {
    if a != [] {
      var n := |a| - 1;
      RemainderUnique(FromBigEndian(a), 256, FromBigEndian(a[..n]), a[n]);
      RemainderUnique(FromBigEndian(b), 256, FromBigEndian(b[..n]), b[n]);
      BigEndianUnique(a[..n], b[..n]);
      assert a == a[..n] + [a[n]] && b == b[..n] + [b[n]];
    }
  }

  lemma LengthField(length: nat)
    requires 8 * length < TWO_64
    ensures FromBigEndian(Field(length)) == 8 * length
  {
    hide BigEndian, FromBigEndian;
    Pow2Values();
    BigEndianRoundTrip(8 * length % TWO_64, 8);
  }

  /** The count is the least one, and 64 apart from the next. */
  lemma LeastZeros(length: nat, zeros: nat)
    requires ZerosFit(length, zeros)
    requires forall fewer: nat :: fewer < zeros ==> !ZerosFit(length, fewer)
    ensures zeros == ZeroCount(length)
  {
    assert ZerosFit(length, ZeroCount(length));
  }

  lemma NoFewer(length: nat, fewer: nat)
    requires fewer < ZeroCount(length)
    ensures !ZerosFit(length, fewer)
  {
  }

  /** Exactly one string is a padding of a message the standard covers. */
  lemma PaddingRule(m: seq<byte>, s: seq<byte>)
    requires 8 * |m| < TWO_64
    ensures IsPadding(s, m) <==> s == Padded(m)
  {
    hide WithZeros, ZerosFit, ZeroCount, Field, FromBigEndian, ZeroBytes;
    LengthField(|m|);
    if s == Padded(m) {
      forall fewer: nat | fewer < ZeroCount(|m|)
        ensures !ZerosFit(|m|, fewer)
      {
        NoFewer(|m|, fewer);
      }
    }
    if IsPadding(s, m) {
      var zeros: nat, field: seq<byte> :|
        && s == m + [0x80] + ZeroBytes(zeros) + field
        && |field| == 8 && FromBigEndian(field) == 8 * |m|
        && ZerosFit(|m|, zeros)
        && (forall fewer: nat :: fewer < zeros ==> !ZerosFit(|m|, fewer));
      BigEndianUnique(field, Field(|m|));
      LeastZeros(|m|, zeros);
    }
  }

  /** Different messages have different paddings. */
  lemma PaddingInjective(a: seq<byte>, b: seq<byte>)
    requires 8 * |a| < TWO_64 && 8 * |b| < TWO_64 && Padded(a) == Padded(b)
    ensures a == b
  {
    hide Field, ZeroCount, WithZeros, FromBigEndian, ZeroBytes;
    LengthField(|a|);
    LengthField(|b|);
    var s, n := Padded(a), |Padded(a)|;
    assert s[n - 8..] == Field(|a|);
    assert s[n - 8..] == Field(|b|);
    assert s[..|a|] == a && s[..|b|] == b;
  }

  lemma TimesEight(length: nat)
    ensures length % TWO_64 * 8 % TWO_64 == 8 * length % TWO_64
  {
  }

  lemma CountBytes(length: nat, more: nat)
    ensures (length % TWO_64 + more) % TWO_64 == (length + more) % TWO_64
  {
    ModPlus(length % TWO_64 + more, length / TWO_64);
  }

  lemma ModPlus(x: nat, q: nat)
    ensures (q * TWO_64 + x) % TWO_64 == x % TWO_64
  {
    RemainderUnique(q * TWO_64 + x, TWO_64, q + x / TWO_64, x % TWO_64);
  }

  /** Byte i of a number, counted from the lowest: a shift and a mask. */
  function ByteAt(x: nat, i: nat): byte {
    x / Pow2(8 * i) % 256
  }

  lemma {:induction false} BigEndianAt(x: nat, n: nat, i: nat)
    requires i < n
    ensures BigEndian(x, n)[i] == ByteAt(x, n - 1 - i)
    decreases n
  {
    if i < n - 1 {
      BigEndianAt(x / 256, n - 1, i);
      var k := n - 2 - i;
      Pow2Values();
      Pow2Add(8, 8 * k);
      DivDiv(x, 256, Pow2(8 * k));
    } else {
      assert Pow2(0) == 1;
    }
  }

  lemma NothingHashed()
    ensures HashOf([]) == H0
  {
  }

  lemma FullBlock(s: seq<byte>)
    requires |s| >= 64 && |s| % 64 == 0
    ensures HashOf(s) == Compress(HashOf(s[..|s| - 64]), s[|s| - 64..])
  {
  }

  // ---- the result as text ----

  const HEX_DIGITS := "0123456789abcdef"

  function HexWord(x: nat, n: nat): (s: string)
    ensures |s| == n
  {
    if n == 0 then [] else HexWord(x / 16, n - 1) + [HEX_DIGITS[x % 16]]
  }

  /** Every word as eight lower-case digits. */
  function Hex(words: seq<bv32>): string {
    if words == [] then [] else Hex(words[..|words| - 1]) + HexWord(words[|words| - 1] as nat, 8)
  }

  lemma FirstZero(length: nat)
    ensures ToGo(length % 64 + 1) == ZeroCount(length)
  {
  }

  /** Zeros still to come before the length field. */
  function ToGo(count: nat): nat {
    if count <= 56 then 56 - count else if count <= 120 then 120 - count else 0
  }

  // ---- the streaming class ----

  lemma ScheduleFirst(block: Block, t: nat)
    requires t < 16
    ensures Schedule(block, t) == WordOf(block[4 * t], block[4 * t + 1], block[4 * t + 2], block[4 * t + 3])
  {
    hide WordOf;
  }

  lemma ScheduleNext(block: Block, t: nat)
    requires 16 <= t < 64
    ensures Schedule(block, t) == Sum4(SmallSigma1(Schedule(block, t - 2)), Schedule(block, t - 7),
                                       SmallSigma0(Schedule(block, t - 15)), Schedule(block, t - 16))
  {
    hide WordOf, Sum4, SmallSigma0, SmallSigma1;
  }

  /** The class adds the four terms of the schedule in another order than the standard. */
  lemma Reordered(a: bv32, b: bv32, c: bv32, d: bv32)
    ensures Sum4(a, b, c, d) == Sum4(d, c, b, a)
  {
  }

  /** message is history: every byte passed to Update. */
  class SHA256 {
    const h: array<bv32>
    const data: array<byte>
    var count: nat
    var messageBytes: uint64
    ghost var message: seq<byte>

    /** The arrays hold the state after the bytes of s: whole blocks are in the hash, the rest waits. */
    ghost predicate Absorbed(s: seq<byte>)
      reads this`count, h, data
    {
      && h.Length == 8 && data.Length == 64
      && count <= 64 && count <= |s| && (|s| - count) % 64 == 0
      && h[..] == HashOf(s[..|s| - count])
      && data[..count] == s[|s| - count..]
    }

    ghost predicate Valid()
      reads this, h, data
    {
      Absorbed(message) && count < 64 && messageBytes == |message| % TWO_64
    }

    constructor ()
      ensures Valid() && message == [] && fresh(h) && fresh(data)
    {
      h := new bv32[8](i requires 0 <= i < 8 => H0[i]);
      data := new byte[64](_ => 0);
      count, messageBytes, message := 0, 0, [];
      new;
      assert h[..] == H0;
      NothingHashed();
    }

    method Update(input: seq<byte>)
      requires Valid()
      modifies this, h, data
      ensures Valid() && message == old(message) + input
    {
      hide Absorbed, HashOf;
      assert message + input[..0] == message;
      for i := 0 to |input|
        invariant Absorbed(old(message) + input[..i]) && count < 64
        invariant messageBytes == old(messageBytes) && message == old(message)
      {
        assert old(message) + input[..i + 1] == old(message) + input[..i] + [input[i]];
        Put(input[i], old(message) + input[..i]);
        if count == 64 {
          Process(old(message) + input[..i + 1]);
        }
      }
      assert input[..|input|] == input;
      CountBytes(|message|, |input|);
      messageBytes := (messageBytes + |input|) % TWO_64;
      message := message + input;
    }

    /** ProcessBlock, after which nothing waits. */
    method Process(ghost s: seq<byte>)
      requires Absorbed(s) && count == 64
      modifies this`count, h
      ensures Absorbed(s) && count == 0
    {
      hide Compress;
      FullBlock(s);
      assert data[..] == data[..64];
      ProcessBlock();
      count := 0;
      assert s[..|s|] == s;
    }

    method Put(b: byte, ghost s: seq<byte>)
      requires Absorbed(s) && count < 64
      modifies this`count, data
      ensures Absorbed(s + [b]) && count == old(count) + 1
    {
      data[count] := b;
      count := count + 1;
      assert (s + [b])[..|s| + 1 - count] == s[..|s| + 1 - count];
      assert data[..count] == data[..count - 1] + [b];
    }

    /** Puts the block in the data array into the hash. */
    method ProcessBlock()
      requires h.Length == 8 && data.Length == 64
      modifies h
      ensures h[..] == Compress(old(h[..]), data[..])
    {
      hide Start, Rounds, Add;
      ghost var was := h[..];
      var w := Expand();
      var v := Turn(w);
      AddTo(v);
    }

    method AddTo(v: Vars)
      requires h.Length == 8
      modifies h
      ensures h[..] == Sums(old(h[..]), v)
    {
      hide Add;
      h[0], h[1], h[2], h[3] := Add(h[0], v.a), Add(h[1], v.b), Add(h[2], v.c), Add(h[3], v.d);
      h[4], h[5], h[6], h[7] := Add(h[4], v.e), Add(h[5], v.f), Add(h[6], v.g), Add(h[7], v.h);
    }

    method Expand() returns (w: array<bv32>)
      requires data.Length == 64
      ensures fresh(w) && w.Length == 64 && forall t :: 0 <= t < 64 ==> w[t] == Schedule(data[..], t)
    {
      hide WordOf, Sum4, SmallSigma0, SmallSigma1, Schedule;
      ghost var block := data[..];
      w := new bv32[64];
      for i := 0 to 16
        invariant forall t :: 0 <= t < i ==> w[t] == Schedule(block, t)
      {
        ScheduleFirst(block, i);
        w[i] := WordOf(data[4 * i], data[4 * i + 1], data[4 * i + 2], data[4 * i + 3]);
      }
      for i := 16 to 64
        invariant forall t :: 0 <= t < i ==> w[t] == Schedule(block, t)
      {
        var s0, s1 := SmallSigma0(w[i - 15]), SmallSigma1(w[i - 2]);
        ScheduleNext(block, i);
        Reordered(w[i - 16], s0, w[i - 7], s1);
        w[i] := Sum4(w[i - 16], s0, w[i - 7], s1);
      }
    }

    method Turn(w: array<bv32>) returns (v: Vars)
      requires h.Length == 8 && data.Length == 64
      requires w.Length == 64 && forall t :: 0 <= t < 64 ==> w[t] == Schedule(data[..], t)
      ensures v == Rounds(Start(h[..]), data[..], 64)
    {
      hide Temp1, Temp2, Add, Schedule, Constant;
      var va, vb, vc, vd, ve, vf, vg, vh := h[0], h[1], h[2], h[3], h[4], h[5], h[6], h[7];
      for i := 0 to 64
        invariant Vars(va, vb, vc, vd, ve, vf, vg, vh) == Rounds(Start(h[..]), data[..], i)
      {
        var temp1, temp2 := Temp1(ve, vf, vg, vh, Constant(i), w[i]), Temp2(va, vb, vc);
        vh := vg; vg := vf; vf := ve; ve := Add(vd, temp1);
        vd := vc; vc := vb; vb := va; va := Add(temp1, temp2);
      }
      v := Vars(va, vb, vc, vd, ve, vf, vg, vh);
    }

    lemma WaitingBytes()
      requires Valid()
      ensures count == |message| % 64
    {
      hide HashOf;
    }

    /** Pads what was absorbed and returns the hash in hexadecimal. */
    method Digest() returns (r: string)
      requires Valid()
      modifies this, h, data
      ensures r == Hex(HashOf(Padded(old(message))))
    {
      hide HashOf, Absorbed, ZeroCount, WithZeros, BigEndian, Hex;
      ghost var m := message;
      var bits := messageBytes * 8 % TWO_64;
      TimesEight(|m|);
      WaitingBytes();
      Put(0x80, m);
      PutZeros(m);
      PutLength(bits, m + [0x80] + ZeroBytes(ZeroCount(|m|)));
      Process(Padded(m));
      AllAbsorbed(Padded(m));
      r := HashText();
    }

    lemma AllAbsorbed(s: seq<byte>)
      requires Absorbed(s) && count == 0
      ensures |s| % 64 == 0 && h.Length == 8 && h[..] == HashOf(s)
    {
      hide HashOf;
      assert s[..|s|] == s;
    }

    method HashText() returns (r: string)
      requires h.Length == 8
      ensures r == Hex(h[..])
    {
      hide HexWord;
      r := "";
      for i := 0 to 8
        invariant r == Hex(h[..i])
      {
        assert h[..i + 1][..i] == h[..i];
        r := r + HexWord(h[i] as nat, 8);
      }
      assert h[..8] == h[..];
    }

    method PutZeros(ghost m: seq<byte>)
      requires Absorbed(m + [0x80]) && 0 < count == |m| % 64 + 1
      modifies this`count, h, data
      ensures Absorbed(m + [0x80] + ZeroBytes(ZeroCount(|m|))) && count == 56
    {
      hide Absorbed, HashOf, Compress, WithZeros;
      ghost var s := m + [0x80];
      FirstZero(|m|);
      ghost var zeros := 0;
      while count != 56
        invariant s == m + [0x80] + ZeroBytes(zeros)
        invariant Absorbed(s) && count <= 64 && ToGo(count) + zeros == ZeroCount(|m|)
        decreases ToGo(count)
      {
        if count == 64 {
          Process(s);
        }
        Put(0, s);
        assert ZeroBytes(zeros + 1) == ZeroBytes(zeros) + [0];
        s, zeros := s + [0], zeros + 1;
      }
    }

    method PutLength(bits: uint64, ghost before: seq<byte>)
      requires Absorbed(before) && count == 56
      modifies this`count, data
      ensures Absorbed(before + BigEndian(bits, 8)) && count == 64
    {
      hide Absorbed, HashOf, ByteAt, BigEndian;
      ghost var s := before;
      for i := 0 to 8
        invariant s == before + BigEndian(bits, 8)[..i]
        invariant Absorbed(s) && count == 56 + i
      {
        BigEndianAt(bits, 8, i);
        assert BigEndian(bits, 8)[..i + 1] == BigEndian(bits, 8)[..i] + [BigEndian(bits, 8)[i]];
        Put(ByteAt(bits, 7 - i), s);
        s := s + [ByteAt(bits, 7 - i)];
      }
      assert BigEndian(bits, 8)[..8] == BigEndian(bits, 8);
    }
  }

  /** The source's HashPassword: two updates, the salt first. */
  method HashPassword(password: seq<byte>, salt: seq<byte>) returns (r: string)
    ensures r == Hex(HashOf(Padded(salt + password)))
  {
    hide *;
    var sha := new SHA256();
    sha.Update(salt);
    assert [] + salt == salt;
    sha.Update(password);
    r := sha.Digest();
  }

  /** However a message is cut into updates, the digest is the hash of the whole message. */
  method HashParts(parts: seq<seq<byte>>) returns (r: string)
    ensures r == Hex(HashOf(Padded(Joined(parts))))
  {
    hide *;
    var sha := new SHA256();
    JoinedNone();
    for i := 0 to |parts|
      invariant sha.Valid() && sha.message == Joined(parts[..i]) && fresh(sha) && fresh(sha.h) && fresh(sha.data)
    {
      JoinedNext(parts, i);
      sha.Update(parts[i]);
    }
    assert parts[..|parts|] == parts;
    r := sha.Digest();
  }

  lemma JoinedNone()
    ensures Joined([]) == []
  {
  }

  lemma JoinedNext(parts: seq<seq<byte>>, i: nat)
    requires i < |parts|
    ensures Joined(parts[..i + 1]) == Joined(parts[..i]) + parts[i]
  {
    assert parts[..i + 1][..i] == parts[..i];
  }

  function Joined(parts: seq<seq<byte>>): seq<byte> {
    if parts == [] then [] else Joined(parts[..|parts| - 1]) + parts[|parts| - 1]
  }
}
