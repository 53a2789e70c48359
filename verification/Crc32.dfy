/** CRC-32 (src/storage/wal.cpp and src/storage/sstable.cpp).

    The reference is bit-serial division by the reflected polynomial, section 8 of RFC 1952: the
    message enters the register one bit at a time, least significant bit of each byte first. Both
    files compute it a byte at a time from a table of 256 words. */
module Crc32 {
  import opened Words

  const ONES: bv32 := 0xFFFF_FFFF

  // ---- the reference ----

  /** One step of the division; 0xEDB88320 is the reflected polynomial. */
  function Step(crc: bv32): bv32 {
    if crc & 1 == 1 then (crc >> 1) ^ 0xEDB88320 else crc >> 1
  }

  function Steps(crc: bv32, n: nat): bv32
    decreases n
  {
    if n == 0 then crc else Steps(Step(crc), n - 1)
  }

  /** `a ^ b`, named so that a proof can treat it as a plain function; likewise for the next two. */
  function Xor(a: bv32, b: bv32): bv32 {
    a ^ b
  }

  function Bit(b: bool): bv32 {
    if b then 1 else 0
  }

  function Widen(b: byte): bv32 {
    b as bv32
  }

  function FeedBit(crc: bv32, bit: bool): bv32 {
    Step(Xor(crc, Bit(bit)))
  }

  function FeedBits(crc: bv32, bits: seq<bool>): bv32
    decreases |bits|
  {
    if bits == [] then crc else FeedBits(FeedBit(crc, bits[0]), bits[1..])
  }

  /** The CRC-32 of a message. */
  function BitSerial(data: seq<byte>): bv32 {
    FeedBits(ONES, Unpack(data)) ^ ONES
  }

  // ---- algebra of one step ----

  function Odd(x: bv32): bool {
    x & 1 == 1
  }

  function Half(x: bv32): bv32 {
    x >> 1
  }

  function Feedback(odd: bool): bv32 {
    if odd then 0xEDB88320 else 0
  }

  lemma StepAsXor(x: bv32)
    ensures Step(x) == Xor(Half(x), Feedback(Odd(x)))
  {
    if x & 1 == 1 {
    } else {
      assert (x >> 1) ^ 0 == x >> 1;
    }
  }

  lemma HalfEven(x: bv32, z: bv32)
    requires z & 1 == 0
    ensures Half(Xor(x, z)) == Xor(Half(x), Half(z)) && Odd(Xor(x, z)) == Odd(x)
  {
  }

  lemma XorSwap(a: bv32, b: bv32, c: bv32)
    ensures Xor(Xor(a, b), c) == Xor(Xor(a, c), b)
  {
    hide Xor;
    XorAssoc(a, b, c);
    XorAssoc(a, c, b);
    XorComm(b, c);
  }

  lemma XorComm(a: bv32, b: bv32)
    ensures Xor(a, b) == Xor(b, a)
  {
  }

  /** Bits above the lowest one only move down. */
  lemma StepEven(x: bv32, z: bv32)
    requires z & 1 == 0
    ensures Step(Xor(x, z)) == Xor(Step(x), Half(z))
  {
    hide Step, Xor, Half, Odd;
    StepAsXor(x);
    StepAsXor(Xor(x, z));
    HalfEven(x, z);
    XorSwap(Half(x), Half(z), Feedback(Odd(x)));
  }

  lemma StepInjective(x: bv32, y: bv32)
    requires Step(x) == Step(y)
    ensures x == y
  {
  }

  lemma {:induction false} StepsInjective(x: bv32, y: bv32, n: nat)
    requires Steps(x, n) == Steps(y, n)
    ensures x == y
    decreases n
  {
    if n > 0 {
      StepsInjective(Step(x), Step(y), n - 1);
      StepInjective(x, y);
    }
  }

  function ShiftDown(z: bv32, n: nat): bv32
    decreases n
  {
    if n == 0 then z else ShiftDown(Half(z), n - 1)
  }

  /** The lowest n bits of z are clear. */
  predicate LowClear(z: bv32, n: nat)
    decreases n
  {
    n == 0 || (z & 1 == 0 && LowClear(Half(z), n - 1))
  }

  /** Bits above the lowest n only move down over n steps. */
  lemma {:induction false} StepsHighBits(x: bv32, z: bv32, n: nat)
    requires LowClear(z, n)
    ensures Steps(Xor(x, z), n) == Xor(Steps(x, n), ShiftDown(z, n))
    decreases n
  {
    hide Step, Xor, Half;
    if n > 0 {
      StepEven(x, z);
      StepsHighBits(Step(x), Half(z), n - 1);
    }
  }

  lemma EightStepsHighBits(x: bv32, y: bv32)
    ensures Steps(Xor(x, y << 8), 8) == Xor(Steps(x, 8), y & 0x00FF_FFFF)
  {
    hide Steps, Xor, LowClear, ShiftDown;
    Shifted8(y);
    StepsHighBits(x, y << 8, 8);
  }

  lemma Shifted8(y: bv32)
    ensures LowClear(y << 8, 8) && ShiftDown(y << 8, 8) == y & 0x00FF_FFFF
  {
  }

  // ---- a byte at a time ----

  lemma {:induction false} StepsAdd(x: bv32, m: nat, n: nat)
    ensures Steps(x, m + n) == Steps(Steps(x, m), n)
    decreases m
  {
    hide Step;
    if m > 0 {
      StepsAdd(Step(x), m - 1, n);
    }
  }

  /** Feeding the bits of a byte one by one is adding the byte first and stepping eight times. */
  lemma {:induction false} FeedByteBits(crc: bv32, b: byte, n: nat)
    requires b < Pow2(n)
    ensures FeedBits(crc, ToBits(b, n)) == Steps(Xor(crc, Widen(b)), n)
    decreases n
  {
    hide FeedBit, Xor, Widen, Step;
    if n == 0 {
      AddZero(crc);
    } else {
      var half: byte := b / 2;
      FirstBit(crc, b);
      assert ToBits(b, n)[1..] == ToBits(half, n - 1);
      FeedByteBits(FeedBit(crc, b % 2 == 1), half, n - 1);
    }
  }

  lemma FirstBit(crc: bv32, b: byte)
    ensures Xor(FeedBit(crc, b % 2 == 1), Widen(b / 2)) == Step(Xor(crc, Widen(b)))
  {
    hide Step, Xor, Widen, Bit, Half;
    HalfByte(b);
    AddFirstBit(crc, Widen(b));
  }

  lemma AddFirstBit(crc: bv32, w: bv32)
    ensures Xor(Step(Xor(crc, w & 1)), Half(w)) == Step(Xor(crc, w))
  {
    hide Step, Xor, Half;
    SplitLowBit(crc, w);
    StepEven(Xor(crc, w & 1), w & 0xFFFF_FFFE);
  }

  lemma SplitLowBit(crc: bv32, w: bv32)
    ensures Xor(crc, w) == Xor(Xor(crc, w & 1), w & 0xFFFF_FFFE)
    ensures (w & 0xFFFF_FFFE) & 1 == 0 && Half(w & 0xFFFF_FFFE) == Half(w)
  {
  }

  lemma AddZero(crc: bv32)
    ensures Xor(crc, Widen(0)) == crc
  {
  }

  lemma HalfByte(b: byte)
    ensures Widen(b / 2) == Half(Widen(b)) && Bit(b % 2 == 1) == Widen(b) & 1
  {
    UpperBits(b);
    LowestBit(b);
  }

  lemma UpperBits(b: byte)
    ensures (b / 2) as bv32 == (b as bv32) >> 1
  {
  }

  lemma LowestBit(b: byte)
    ensures (b as bv32) & 1 == if b % 2 == 1 then 1 else 0
  {
  }

  function FeedByte(crc: bv32, b: byte): bv32 {
    Steps(Xor(crc, Widen(b)), 8)
  }

  function FeedBytes(crc: bv32, data: seq<byte>): bv32
    decreases |data|
  {
    if data == [] then crc else FeedBytes(FeedByte(crc, data[0]), data[1..])
  }

  lemma {:induction false} FeedBitsConcat(crc: bv32, a: seq<bool>, b: seq<bool>)
    ensures FeedBits(crc, a + b) == FeedBits(FeedBits(crc, a), b)
    decreases |a|
  {
    hide FeedBit;
    if a == [] {
      assert a + b == b;
    } else {
      assert (a + b)[0] == a[0] && (a + b)[1..] == a[1..] + b;
      FeedBitsConcat(FeedBit(crc, a[0]), a[1..], b);
    }
  }

  lemma {:induction false} BytesAreBits(crc: bv32, data: seq<byte>)
    ensures FeedBytes(crc, data) == FeedBits(crc, Unpack(data))
    decreases |data|
  {
    hide FeedByte, ToBits, FeedBits;
    if data == [] {
      NoBits(crc);
    } else {
      ByteIsBits(crc, data[0]);
      FeedBitsConcat(crc, ToBits(data[0], 8), Unpack(data[1..]));
      BytesAreBits(FeedByte(crc, data[0]), data[1..]);
    }
  }

  lemma ByteIsBits(crc: bv32, b: byte)
    ensures FeedByte(crc, b) == FeedBits(crc, ToBits(b, 8))
  {
    hide Steps, FeedBits, ToBits, Xor, Widen;
    Pow2Values();
    FeedByteBits(crc, b, 8);
  }

  lemma NoBits(crc: bv32)
    ensures FeedBits(crc, []) == crc
  {
  }

  lemma {:induction false} FeedBytesConcat(crc: bv32, a: seq<byte>, b: seq<byte>)
    ensures FeedBytes(crc, a + b) == FeedBytes(FeedBytes(crc, a), b)
    decreases |a|
  {
    hide FeedByte;
    if a == [] {
      assert a + b == b;
    } else {
      assert (a + b)[0] == a[0] && (a + b)[1..] == a[1..] + b;
      FeedBytesConcat(FeedByte(crc, a[0]), a[1..], b);
    }
  }

  lemma FeedNext(crc: bv32, data: seq<byte>, i: nat)
    requires i < |data|
    ensures FeedBytes(crc, data[i..]) == FeedBytes(FeedByte(crc, data[i]), data[i + 1..])
  {
  }

  lemma FedAll(crc: bv32, data: seq<byte>)
    ensures FeedBytes(crc, data[|data|..]) == crc && data[0..] == data
  {
  }

  // ---- the table ----

  /** The table that both files use. */
  ghost predicate IsTable(table: seq<bv32>) {
    |table| == 256 && forall i :: 0 <= i < 256 ==> table[i] == Steps(Widen(i), 8)
  }

  function Low(x: bv32): bv32 {
    x & 0xFF
  }

  function High(x: bv32): bv32 {
    x >> 8
  }

  function LowByte(x: bv32): (i: int)
    ensures 0 <= i < 256
  {
    (x & 0xFF) as int
  }

  lemma LowByteWord(x: bv32)
    ensures Widen(LowByte(x)) == Low(x)
  {
    WordAndBack(x & 0xFF);
  }

  lemma WordAndBack(x: bv32)
    ensures (x as int) as bv32 == x
  {
  }

  /** `table[(crc ^ b) & 0xFF] ^ (crc >> 8)` */
  function TableStep(table: seq<bv32>, crc: bv32, b: byte): bv32
    requires |table| == 256
  {
    Xor(table[LowByte(Xor(crc, Widen(b)))], High(crc))
  }

  lemma TableStepIsByte(table: seq<bv32>, crc: bv32, b: byte)
    requires IsTable(table)
    ensures TableStep(table, crc, b) == FeedByte(crc, b)
  {
    hide Steps, Xor, Widen, LowByte, High, Low, IsTable;
    var x := Xor(crc, Widen(b));
    TableAt(table, x);
    HighPart(crc, b);
    EightSteps(x);
  }

  lemma TableAt(table: seq<bv32>, x: bv32)
    requires IsTable(table)
    ensures table[LowByte(x)] == Steps(Low(x), 8)
  {
    hide Steps, LowByte, Low, Widen;
    LowByteWord(x);
  }

  lemma EightSteps(x: bv32)
    ensures Steps(x, 8) == Xor(Steps(Low(x), 8), High(x))
  {
    hide Steps, Xor, Low;
    SplitByte(x);
    EightStepsHighBits(Low(x), High(x));
  }

  lemma SplitByte(x: bv32)
    ensures x == Xor(Low(x), High(x) << 8)
    ensures High(x) & 0x00FF_FFFF == High(x)
  {
  }

  lemma HighPart(crc: bv32, b: byte)
    ensures High(Xor(crc, Widen(b))) == High(crc)
  {
    hide Xor, High;
    assert Widen(b) <= 0xFF;
    NoHighPart(crc, Widen(b));
  }

  lemma NoHighPart(crc: bv32, b: bv32)
    requires b <= 0xFF
    ensures High(Xor(crc, b)) == High(crc)
  {
  }

  lemma OneStep(crc: bv32, n: nat)
    requires n > 0
    ensures Steps(crc, n) == Steps(Step(crc), n - 1)
    ensures Step(crc) == if crc & 1 == 1 then (crc >> 1) ^ 0xEDB88320 else crc >> 1
  {
  }

  lemma NoStep(crc: bv32)
    ensures Steps(crc, 0) == crc
  {
  }

  /** The write-ahead log generates its table. */
  method InitCrc32(table: array<bv32>)
    requires table.Length == 256
    modifies table
    ensures IsTable(table[..])
  {
    hide Steps, Step, Widen;
    for i := 0 to 256
      invariant forall k :: 0 <= k < i ==> table[k] == Steps(Widen(k), 8)
    {
      var crc := Widen(i);
      for j := 0 to 8
        invariant Steps(crc, 8 - j) == Steps(Widen(i), 8)
        invariant forall k :: 0 <= k < i ==> table[k] == Steps(Widen(k), 8)
      {
        OneStep(crc, 8 - j);
        if crc & 1 == 1 {
          crc := (crc >> 1) ^ 0xEDB88320;
        } else {
          crc := crc >> 1;
        }
      }
      NoStep(crc);
      table[i] := crc;
    }
  }

  /** The loop body of every pass. */
  method Feed(table: seq<bv32>, crc: bv32, data: seq<byte>) returns (r: bv32)
    requires IsTable(table)
    ensures r == FeedBytes(crc, data)
  {
    assert |table| == 256;
    hide IsTable, FeedByte, FeedBytes, TableStep;
    r := crc;
    FedAll(crc, data);
    for i := 0 to |data|
      invariant FeedBytes(r, data[i..]) == FeedBytes(crc, data)
    {
      TableStepIsByte(table, r, data[i]);
      FeedNext(r, data, i);
      r := TableStep(table, r, data[i]);
    }
    FedAll(r, data);
  }

  /** One pass over a message. */
  method Checksum(table: seq<bv32>, data: seq<byte>) returns (r: bv32)
    requires IsTable(table)
    ensures r == BitSerial(data)
  {
    hide FeedBytes, FeedBits;
    var crc := Feed(table, ONES, data);
    BytesAreBits(ONES, data);
    r := crc ^ ONES;
  }

  const CHUNK: nat := 65536

  /** A pass over the first dataLen bytes of a file in chunks of 64 KB. */
  method ChunkedChecksum(table: seq<bv32>, file: seq<byte>, dataLen: nat) returns (r: bv32)
    requires IsTable(table) && dataLen <= |file|
    ensures r == BitSerial(file[..dataLen])
  {
    hide IsTable, FeedBytes, FeedBits;
    var crc := ONES;
    var remaining: nat := dataLen;
    FedAll(ONES, file[..dataLen]);
    while remaining > 0
      invariant remaining <= dataLen
      invariant FeedBytes(crc, file[dataLen - remaining..dataLen]) == FeedBytes(ONES, file[..dataLen])
    {
      var pos := dataLen - remaining;
      var bytes := if remaining < CHUNK then remaining else CHUNK;
      var chunk := file[pos..pos + bytes];
      FeedBytesConcat(crc, chunk, file[pos + bytes..dataLen]);
      assert chunk + file[pos + bytes..dataLen] == file[pos..dataLen];
      crc := Feed(table, crc, chunk);
      remaining := remaining - bytes;
    }
    assert file[dataLen..dataLen] == [];
    FedAll(crc, []);
    BytesAreBits(ONES, file[..dataLen]);
    r := crc ^ ONES;
  }

  // ---- damage inside four consecutive bytes ----

  lemma FeedByteInjective(x: bv32, y: bv32, b: byte)
    requires FeedByte(x, b) == FeedByte(y, b)
    ensures x == y
  {
    hide Steps, Xor, Widen;
    StepsInjective(Xor(x, Widen(b)), Xor(y, Widen(b)), 8);
    XorInjective(x, y, Widen(b));
  }

  lemma XorInjective(x: bv32, y: bv32, z: bv32)
    ensures Xor(x, z) == Xor(y, z) ==> x == y
    ensures Xor(z, x) == Xor(z, y) ==> x == y
  {
  }

  lemma {:induction false} FeedBytesInjective(x: bv32, y: bv32, data: seq<byte>)
    requires FeedBytes(x, data) == FeedBytes(y, data)
    ensures x == y
    decreases |data|
  {
    hide FeedByte;
    if data != [] {
      FeedBytesInjective(FeedByte(x, data[0]), FeedByte(y, data[0]), data[1..]);
      FeedByteInjective(x, y, data[0]);
    }
  }

  function Up8(x: bv32): bv32 {
    x << 8
  }

  /** Bytes as a little-endian word. */
  function LittleEndian(data: seq<byte>): bv32 {
    if data == [] then 0 else Xor(Widen(data[0]), Up8(LittleEndian(data[1..])))
  }

  /** x is a word of at most n bytes, n <= 3. */
  predicate Fits(x: bv32, n: nat) {
    match n
    case 0 => x == 0
    case 1 => x <= 0xFF
    case 2 => x <= 0xFFFF
    case _ => x <= 0x00FF_FFFF
  }

  lemma OneMoreByte(b: byte, x: bv32, n: nat)
    requires n < 3 && Fits(x, n)
    ensures Fits(Xor(Widen(b), Up8(x)), n + 1)
  {
    assert Widen(b) <= 0xFF;
    JoinFits(Widen(b), x, n);
  }

  lemma JoinFits(w: bv32, x: bv32, n: nat)
    requires w <= 0xFF && n < 3 && Fits(x, n)
    ensures Fits(Xor(w, Up8(x)), n + 1)
  {
  }

  lemma {:induction false} LittleEndianFits(data: seq<byte>)
    requires |data| <= 3
    ensures Fits(LittleEndian(data), |data|)
    decreases |data|
  {
    hide Xor, Up8, Widen;
    if data != [] {
      LittleEndianFits(data[1..]);
      OneMoreByte(data[0], LittleEndian(data[1..]), |data| - 1);
    }
  }

  lemma Mask24(x: bv32, n: nat)
    requires n <= 3 && Fits(x, n)
    ensures x & 0x00FF_FFFF == x
  {
  }

  lemma XorAssoc(a: bv32, b: bv32, c: bv32)
    ensures Xor(a, Xor(b, c)) == Xor(Xor(a, b), c)
  {
  }

  lemma XorZero(a: bv32)
    ensures Xor(a, 0) == a
  {
  }

  /** Up to four bytes may be added to the register all at once. */
  lemma {:induction false} FeedWord(crc: bv32, data: seq<byte>)
    requires |data| <= 4
    ensures FeedBytes(crc, data) == Steps(Xor(crc, LittleEndian(data)), 8 * |data|)
    decreases |data|
  {
    hide Xor, Up8, Widen, Steps, Fits;
    if data == [] {
      XorZero(crc);
      NoStep(crc);
    } else {
      var rest := data[1..];
      var y, x := LittleEndian(rest), Xor(crc, Widen(data[0]));
      FeedWord(FeedByte(crc, data[0]), rest);
      LittleEndianFits(rest);
      Mask24(y, |rest|);
      XorAssoc(crc, Widen(data[0]), Up8(y));
      EightStepsShifted(x, y);
      StepsAdd(Xor(crc, LittleEndian(data)), 8, 8 * |rest|);
    }
  }

  lemma EightStepsShifted(x: bv32, y: bv32)
    ensures Steps(Xor(x, Up8(y)), 8) == Xor(Steps(x, 8), y & 0x00FF_FFFF)
  {
    hide Xor, Steps;
    EightStepsHighBits(x, y);
  }

  lemma {:induction false} LittleEndianInjective(a: seq<byte>, b: seq<byte>)
    requires |a| == |b| <= 4 && LittleEndian(a) == LittleEndian(b)
    ensures a == b
    decreases |a|
  {
    hide Xor, Up8, Widen, Fits;
    if a != [] {
      LittleEndianFits(a[1..]);
      LittleEndianFits(b[1..]);
      SplitWord(a[0], LittleEndian(a[1..]), b[0], LittleEndian(b[1..]), |a| - 1);
      LittleEndianInjective(a[1..], b[1..]);
      assert a == [a[0]] + a[1..] && b == [b[0]] + b[1..];
    }
  }

  lemma SplitWord(b: byte, x: bv32, c: byte, y: bv32, n: nat)
    requires n <= 3 && Fits(x, n) && Fits(y, n)
    requires Xor(Widen(b), Up8(x)) == Xor(Widen(c), Up8(y))
    ensures b == c && x == y
  {
    hide Fits, Xor, Up8, Widen;
    Mask24(x, n);
    Mask24(y, n);
    SmallByte(b);
    SmallByte(c);
    SplitParts(Widen(b), x, Widen(c), y);
    SameByte(b, c);
  }

  lemma SplitParts(v: bv32, x: bv32, w: bv32, y: bv32)
    requires x & 0x00FF_FFFF == x && y & 0x00FF_FFFF == y
    requires Xor(v, Up8(x)) == Xor(w, Up8(y))
    ensures v <= 0xFF && w <= 0xFF ==> v == w && x == y
  {
  }

  lemma SmallByte(b: byte)
    ensures Widen(b) <= 0xFF
  {
  }

  lemma {:induction false} SameByte(b: byte, c: byte)
    requires Widen(b) == Widen(c)
    ensures b == c
    decreases b + c
  {
    hide Widen, Half;
    if b + c > 0 {
      HalfByte(b);
      HalfByte(c);
      SameByte(b / 2, c / 2);
      assert Bit(b % 2 == 1) == Bit(c % 2 == 1);
    }
  }

  /** Two messages that differ only inside four consecutive bytes have different checksums. */
  lemma BurstDetected(before: seq<byte>, a: seq<byte>, b: seq<byte>, after: seq<byte>)
    requires |a| == |b| <= 4 && a != b
    ensures BitSerial(before + a + after) != BitSerial(before + b + after)
  {
    hide *;
    if BitSerial(before + a + after) == BitSerial(before + b + after) {
      var x, y := FeedBytes(ONES, before + a + after), FeedBytes(ONES, before + b + after);
      Finish(before + a + after);
      Finish(before + b + after);
      XorInjective(x, y, ONES);
      FeedBytesConcat(ONES, before + a, after);
      FeedBytesConcat(ONES, before + b, after);
      FeedBytesConcat(ONES, before, a);
      FeedBytesConcat(ONES, before, b);
      var c := FeedBytes(ONES, before);
      FeedBytesInjective(FeedBytes(c, a), FeedBytes(c, b), after);
      FeedWord(c, a);
      FeedWord(c, b);
      StepsInjective(Xor(c, LittleEndian(a)), Xor(c, LittleEndian(b)), 8 * |a|);
      XorInjective(LittleEndian(a), LittleEndian(b), c);
      LittleEndianInjective(a, b);
      assert false;
    }
  }

  lemma Finish(data: seq<byte>)
    ensures BitSerial(data) == Xor(FeedBytes(ONES, data), ONES)
  {
    BytesAreBits(ONES, data);
  }
}
