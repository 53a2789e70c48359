/** XOR-compressed values (src/storage/compressor.cpp).

    A value is a double (its 64-bit pattern), a 64-bit integer or a string. A two-bit tag gives the
    type. Numbers are XORed with the previous number of the same type, and only the window of the
    result between its leading and its trailing zeros is stored. Strings go to a side buffer. */
module ValueCodec {
  import opened Words
  import opened BitBuffer

  datatype Value = Double(bits: uint64) | Int64(i: int64) | Str(s: seq<byte>)

  // ---- word arithmetic ----

  function XorBits(a: seq<bool>, b: seq<bool>): (r: seq<bool>)
    requires |a| == |b|
    ensures |r| == |a|
  {
    seq(|a|, i requires 0 <= i < |a| => a[i] != b[i])
  }

  /** `a ^ b` */
  function Xor64(a: uint64, b: uint64): uint64 {
    Pow2Values();
    FromBits(XorBits(ToBits(a, 64), ToBits(b, 64)))
  }

  lemma XorBitsUndone(x: seq<bool>, y: seq<bool>)
    requires |x| == |y|
    ensures XorBits(y, XorBits(x, y)) == x
    ensures XorBits(x, y) == Zeros(|x|) <==> x == y
  {
  }

  lemma XorUndone(a: uint64, b: uint64)
    ensures Xor64(b, Xor64(a, b)) == a
    ensures Xor64(a, b) == 0 <==> a == b
  {
    hide ToBits, FromBits, XorBits, Pow2;
    Pow2Values();
    var x, y := ToBits(a, 64), ToBits(b, 64);
    XorBitsUndone(x, y);
    BitsOfValue(XorBits(x, y));
    BitsRoundTrip(a, 64);
    BitsRoundTrip(b, 64);
    ZeroBits(64);
    BitsRoundTrip(0, 64);
  }

  lemma {:induction false} ZeroBits(n: nat)
    ensures ToBits(0, n) == Zeros(n)
  {
    if n > 0 {
      ZeroBits(n - 1);
    }
  }

  function BitLength(x: nat): (n: nat)
    ensures x < Pow2(n) && (x > 0 ==> n > 0 && Pow2(n - 1) <= x)
  {
    if x == 0 then 0 else 1 + BitLength(x / 2)
  }

  lemma {:induction false} BitLengthBound(x: nat, n: nat)
    requires x < Pow2(n)
    ensures BitLength(x) <= n
  {
    if x > 0 {
      BitLengthBound(x / 2, n - 1);
    }
  }

  /** The number of zero bits above the highest one of x. */
  function LeadingZeros(x: uint64): (n: nat)
    ensures n <= 64 && x < Pow2(64 - n) && (x != 0 ==> n < 64 && Pow2(63 - n) <= x)
  {
    Pow2Values();
    BitLengthBound(x, 64);
    64 - BitLength(x)
  }

  /** The number of zero bits below the lowest one of x > 0. */
  function LowZeros(x: nat): (n: nat)
    requires x > 0
    ensures x % Pow2(n) == 0 && x / Pow2(n) % 2 == 1
  {
    if x % 2 == 1 then 0
    else
      var n := LowZeros(x / 2);
      DivDiv(x, 2, Pow2(n));
      HalveMod(x, Pow2(n));
      n + 1
  }

  function TrailingZeros(x: uint64): nat {
    if x == 0 then 64 else LowZeros(x)
  }

  /** The window between the zeros begins and ends with a set bit, holds the stored bits, and
      shifting them back restores the word. */
  lemma Window(x: uint64)
    requires x != 0
    ensures var lead, trail := LeadingZeros(x), TrailingZeros(x);
            && lead + trail < 64
            && x / Pow2(trail) < Pow2(64 - lead - trail)
            && (x / Pow2(trail)) * Pow2(trail) == x
            && Pow2(63 - lead) <= x && x / Pow2(trail) % 2 == 1
  {
    hide LowZeros, BitLength, Pow2;
    var lead, trail := LeadingZeros(x), TrailingZeros(x);
    var p := Pow2(trail);
    var y := x / p;
    assert x == y * p + x % p;
    Grows(p, y);
    if lead + trail >= 64 {
      Pow2Monotone(64 - lead, trail);
      assert false;
    }
    Pow2Add(64 - lead - trail, trail);
    Cancel(y, Pow2(64 - lead - trail), p);
  }

  lemma Grows(a: nat, b: nat)
    requires b > 0
    ensures a <= a * b && a <= b * a
  {
  }

  lemma Cancel(a: nat, b: nat, c: nat)
    requires a * c < b * c
    ensures a < b
  {
  }

  lemma {:induction false} Pow2Monotone(m: nat, n: nat)
    requires m <= n
    ensures Pow2(m) <= Pow2(n)
  {
    Pow2Add(m, n - m);
    assert Pow2(m) * 1 <= Pow2(m) * Pow2(n - m);
  }

  /** `x << k`. A shift by a negative count, which only a damaged block asks for, has no meaning in
      the original and is taken modulo 64. */
  function Shl64(x: uint64, k: int): uint64 {
    (x * Pow2(k % 64)) % TWO_64
  }

  // ---- the code as a function ----

  /** The predecessors: nothing yet, or the last double and the last integer. */
  datatype Prev = Prev(first: bool, double: uint64, integer: int64)

  const START := Prev(true, 0, 0)

  function XorCode(w: uint64, prev: uint64): (bs: seq<bool>)
    ensures |bs| >= 1
  {
    hide Pow2, LeadingZeros, TrailingZeros;
    var x := Xor64(w, prev);
    if x == 0 then [false]
    else
      Window(x);
      var lead, trail := LeadingZeros(x), TrailingZeros(x);
      var m := 64 - lead - trail;
      [true] + ToBits(lead, 6) + ToBits(if m == 64 then 0 else m, 6) + ToBits(x / Pow2(trail), m)
  }

  /** The bits of x from its lowest set bit, number low, to its highest, number high. */
  predicate Spans(x: nat, high: nat, low: nat) {
    Pow2(high) <= x < Pow2(high + 1) && x % Pow2(low) == 0 && x / Pow2(low) % 2 == 1
  }

  lemma SpanUnique(x: nat, high: nat, low: nat, h: nat, l: nat)
    requires Spans(x, high, low) && Pow2(h) <= x < Pow2(h + 1) && x % Pow2(l) == 0
    ensures h == high && l <= low && (x / Pow2(l) % 2 == 1 ==> l == low)
  {
    hide Pow2;
    if h < high { Pow2Monotone(h + 1, high); }
    if high < h { Pow2Monotone(high + 1, h); }
    if low < l { OddBelow(x, low, l); }
    if l < low && x / Pow2(l) % 2 == 1 { OddBelow(x, l, low); }
  }

  /** A higher power of two does not divide x. */
  lemma OddBelow(x: nat, low: nat, more: nat)
    requires low < more && x % Pow2(more) == 0
    ensures x / Pow2(low) % 2 == 0
  {
    hide Pow2;
    var a, b, q := Pow2(low), Pow2(more - low - 1), x / Pow2(more);
    Pow2Add(low, more - low);
    Doubled(more - low);
    assert x == q * (a * (2 * b)) + 0;
    Regroup(q, a, b);
    EvenQuotient(x, a, q * b);
  }

  lemma Doubled(n: nat)
    requires n > 0
    ensures Pow2(n) == 2 * Pow2(n - 1)
  {
  }

  lemma EvenQuotient(x: nat, a: nat, n: nat)
    requires a > 0 && x == 2 * n * a
    ensures x / a % 2 == 0
  {
    RemainderUnique(x, a, 2 * n, 0);
  }

  lemma Regroup(q: nat, a: nat, b: nat)
    ensures q * (a * (2 * b)) == 2 * (q * b) * a
  {
  }

  /** The code of a changed number has 13 bits more than there are from its lowest changed bit to its
      highest. */
  lemma XorCodeLength(w: uint64, prev: uint64, high: nat, low: nat)
    requires Spans(Xor64(w, prev), high, low)
    ensures |XorCode(w, prev)| == 13 + (high - low + 1)
  {
    hide Pow2, LeadingZeros, TrailingZeros, Xor64, ToBits;
    var x := Xor64(w, prev);
    assert x != 0;
    Window(x);
    SpanUnique(x, high, low, 63 - LeadingZeros(x), TrailingZeros(x));
  }

  function NumberCode(first: bool, w: uint64, prev: uint64): (bs: seq<bool>)
    ensures |bs| >= 1
  {
    if first then ToBits(w, 64) else XorCode(w, prev)
  }

  function ValueCode(p: Prev, v: Value): (bs: seq<bool>)
    ensures |bs| >= 3
  {
    match v
    case Double(w) => [false, false] + NumberCode(p.first, w, p.double)
    case Int64(i) => [false, true] + NumberCode(p.first, ToU64(i), ToU64(p.integer))
    case Str(s) => [true, false] + ToBits(|s| % TWO_32, 32)
  }

  function Next(p: Prev, v: Value): Prev {
    match v
    case Double(w) => if p.first then Prev(false, w, 0) else p.(double := w)
    case Int64(i) => if p.first then Prev(false, 0, i) else p.(integer := i)
    case Str(_) => if p.first then Prev(false, 0, 0) else p
  }

  function EncodeAll(p: Prev, vs: seq<Value>): (bs: seq<bool>)
    ensures |bs| >= 3 * |vs|
    decreases |vs|
  {
    if vs == [] then [] else ValueCode(p, vs[0]) + EncodeAll(Next(p, vs[0]), vs[1..])
  }

  function AllStrings(vs: seq<Value>): seq<byte> {
    if vs == [] then [] else (if vs[0].Str? then vs[0].s else []) + AllStrings(vs[1..])
  }

  // ---- the encoder ----

  class ValueEncoder {
    var buffer: seq<byte>
    var stringData: seq<byte>
    var prevBits: uint64
    var prevInt: int64
    var first: bool
    var writeBytePos: nat
    var writeBitPos: nat

    ghost function Bits(): seq<bool>
      reads this`buffer, this`writeBytePos, this`writeBitPos
    {
      Unpack(buffer)[..if 8 * writeBytePos + writeBitPos <= 8 * |buffer|
                       then 8 * writeBytePos + writeBitPos else 8 * |buffer|]
    }

    ghost function Predecessors(): Prev
      reads this
    {
      Prev(first, prevBits, prevInt)
    }

    ghost predicate Valid()
      reads this`buffer, this`writeBytePos, this`writeBitPos
    {
      Holds(buffer, writeBytePos, writeBitPos, Bits())
    }

    constructor ()
      ensures Valid() && Bits() == [] && stringData == [] && Predecessors() == START
    {
      buffer, stringData, prevBits, prevInt, first := [], [], 0, 0, true;
      writeBytePos, writeBitPos := 0, 0;
    }

    method WriteBits(value: nat, n: nat)
      requires Valid()
      modifies this`buffer, this`writeBytePos, this`writeBitPos
      ensures Valid() && Bits() == old(Bits()) + ToBits(value, n)
    {
      hide Unpack, ToBits;
      ghost var bits := Bits();
      buffer, writeBytePos, writeBitPos := AppendBits(buffer, value, n, writeBytePos, writeBitPos, bits);
      assert Bits() == bits + ToBits(value, n);
    }

    method WriteBit(bit: bool)
      requires Valid()
      modifies this`buffer, this`writeBytePos, this`writeBitPos
      ensures Valid() && Bits() == old(Bits()) + [bit]
    {
      hide Unpack;
      ghost var bits := Bits();
      buffer, writeBytePos, writeBitPos := AppendBit(buffer, bit, writeBytePos, writeBitPos, bits);
      assert Bits() == bits + [bit];
    }

    method WriteXor(w: uint64, prev: uint64)
      requires Valid()
      modifies this`buffer, this`writeBytePos, this`writeBitPos
      ensures Valid() && Bits() == old(Bits()) + XorCode(w, prev)
    {
      hide Unpack, ToBits, LeadingZeros, TrailingZeros, Xor64, Bits, Valid, Pow2;
      var x := Xor64(w, prev);
      if x == 0 {
        WriteBit(false);
      } else {
        Window(x);
        WriteBit(true);
        var lead, trail := LeadingZeros(x), TrailingZeros(x);
        var m := 64 - lead - trail;
        var mv := if m == 64 then 0 else m;
        WriteBits(lead, 6);
        WriteBits(mv, 6);
        WriteBits(x / Pow2(trail), m);
        Join4(old(Bits()), [true], ToBits(lead, 6), ToBits(mv, 6), ToBits(x / Pow2(trail), m));
      }
    }

    method Encode(v: Value)
      requires Valid()
      modifies this
      ensures Valid() && Predecessors() == Next(old(Predecessors()), v)
      ensures Bits() == old(Bits()) + ValueCode(old(Predecessors()), v)
      ensures stringData == old(stringData) + if v.Str? then v.s else []
    {
      hide Unpack, ToBits, XorCode, Bits, Valid;
      ghost var bits, p := Bits(), Predecessors();
      match v {
        case Double(w) =>
          WriteBit(false);
          WriteBit(false);
          if first {
            WriteBits(w, 64);
            prevInt := 0;
            first := false;
          } else {
            WriteXor(w, prevBits);
          }
          prevBits := w;
          Join3(bits, false, false, NumberCode(p.first, w, p.double));
        case Int64(i) =>
          WriteBit(false);
          WriteBit(true);
          if first {
            WriteBits(ToU64(i), 64);
            prevBits := 0;
            first := false;
          } else {
            WriteXor(ToU64(i), ToU64(prevInt));
          }
          prevInt := i;
          Join3(bits, false, true, NumberCode(p.first, ToU64(i), ToU64(p.integer)));
        case Str(s) =>
          WriteBit(true);
          WriteBit(false);
          WriteBits(|s| % TWO_32, 32);
          stringData := stringData + s;
          if first {
            prevBits, prevInt, first := 0, 0, false;
          }
          Join3(bits, true, false, ToBits(|s| % TWO_32, 32));
      }
    }
  }

  lemma Join3(a: seq<bool>, b: bool, c: bool, d: seq<bool>)
    ensures a + [b] + [c] + d == a + ([b, c] + d)
  {
  }

  lemma Nest4(a: bool, b: seq<bool>, c: seq<bool>, d: seq<bool>, e: seq<bool>)
    ensures var s := ([a] + b + c + d) + e;
            First(s) == a && Rest(s) == b + (c + (d + e))
  {
  }

  lemma Join4(a: seq<bool>, b: seq<bool>, c: seq<bool>, d: seq<bool>, e: seq<bool>)
    ensures a + b + c + d + e == a + (b + c + d + e)
  {
  }

  // ---- the decoder as a function on the unread bits ----

  /** The next number XORed with prev, and the bits after its code. */
  function DecodeXor(s: seq<bool>, prev: uint64): (r: (uint64, seq<bool>))
    ensures |r.1| <= |s|
  {
    if !First(s) then (prev, Rest(s))
    else
      var s1 := Rest(s);
      var lead, meaningful := FromBits(Take(s1, 6)), FromBits(Take(Drop(s1, 6), 6));
      var mv := if meaningful == 0 then 64 else meaningful;
      var s2 := Drop(Drop(s1, 6), 6);
      (Unwindow(prev, lead, mv, FromBits(Take(s2, mv))), Drop(s2, mv))
  }

  function Unwindow(prev: uint64, lead: nat, mv: nat, v: nat): uint64 {
    var xv := v % TWO_64;
    if mv == 64 then Xor64(prev, xv) else Xor64(prev, Shl64(xv, 64 - lead - mv))
  }

  function DecodeNumber(s: seq<bool>, first: bool, prev: uint64): (r: (uint64, seq<bool>))
    ensures |r.1| <= |s|
  {
    if first then (Word64(s), Drop(s, 64)) else DecodeXor(s, prev)
  }

  /** The string of length n at an offset of the string buffer, or the empty string when the buffer
      is too short. */
  function StringAt(strings: seq<byte>, offset: nat, n: nat): seq<byte> {
    if offset + n <= |strings| then strings[offset..offset + n] else []
  }

  /** The next value, the bits after its code, and the length it takes from the string buffer. */
  function DecodeValue(s: seq<bool>, p: Prev, strings: seq<byte>, offset: nat): (r: (Value, seq<bool>, nat))
    ensures s != [] ==> |r.1| < |s|
  {
    var s1 := Rest(Rest(s));
    if First(s) && !First(Rest(s)) then
      var n := FromBits(Take(s1, 32));
      (Str(StringAt(strings, offset, n)), Drop(s1, 32), n)
    else if !First(s) && !First(Rest(s)) then
      var (w, rest) := DecodeNumber(s1, p.first, p.double);
      (Double(w), rest, 0)
    else
      var (w, rest) := DecodeNumber(s1, p.first, ToU64(p.integer));
      (Int64(FromU64(w)), rest, 0)
  }

  function DecodeFrom(s: seq<bool>, p: Prev, strings: seq<byte>, offset: nat, remaining: Option<nat>): seq<Value>
    decreases |s|
  {
    if s == [] || remaining == Some(0) then []
    else
      var (v, rest, n) := DecodeValue(s, p, strings, offset);
      [v] + DecodeFrom(rest, Next(p, v), strings, offset + n, Minus(remaining, 1))
  }

  lemma DecodeStep(s: seq<bool>, p: Prev, strings: seq<byte>, offset: nat, remaining: Option<nat>)
    requires s != [] && remaining != Some(0)
    ensures var (v, rest, n) := DecodeValue(s, p, strings, offset);
            DecodeFrom(s, p, strings, offset, remaining) ==
            [v] + DecodeFrom(rest, Next(p, v), strings, offset + n, Minus(remaining, 1))
  {
    hide DecodeValue;
  }

  lemma DecodeStop(s: seq<bool>, p: Prev, strings: seq<byte>, offset: nat, remaining: Option<nat>)
    requires s == [] || remaining == Some(0)
    ensures DecodeFrom(s, p, strings, offset, remaining) == []
  {
  }

  lemma ValueDecoded(s: seq<bool>, p: Prev, strings: seq<byte>, offset: nat)
    ensures var hi, lo, s1 := First(s), First(Rest(s)), Rest(Rest(s));
            var n := FromBits(Take(s1, 32));
            var d := DecodeNumber(s1, p.first, if hi || lo then ToU64(p.integer) else p.double);
            DecodeValue(s, p, strings, offset) ==
            if hi && !lo then (Str(StringAt(strings, offset, n)), Drop(s1, 32), n)
            else (if hi || lo then Int64(FromU64(d.0)) else Double(d.0), d.1, 0)
  {
  }

  /** A count of 0 means unknown. */
  function Limit(count: nat): Option<nat> {
    if count == 0 then None else Some(count)
  }

  function DecodeAll(data: seq<byte>, strings: seq<byte>, count: nat): seq<Value> {
    DecodeFrom(Unpack(data), START, strings, 0, Limit(count))
  }

  // ---- the decoder ----

  method ReadXor(data: seq<byte>, bytePos: nat, bitPos: nat, prev: uint64)
    returns (w: uint64, bp: nat, bitp: nat)
    requires Cursor(data, bytePos, bitPos)
    ensures Cursor(data, bp, bitp)
    ensures bp < |data| <==> Unread(data, bp, bitp) != []
    ensures (w, Unread(data, bp, bitp)) == DecodeXor(Unread(data, bytePos, bitPos), prev)
  {
    hide Unpack, FromBits, Take, Drop, Xor64, Shl64, Pow2, Unread;
    var bit: bool;
    bit, bp, bitp := ReadBit(data, bytePos, bitPos);
    if !bit {
      w := prev;
    } else {
      var lead: nat, meaningful: nat, v: nat;
      lead, bp, bitp := ReadBits(data, bp, bitp, 6);
      meaningful, bp, bitp := ReadBits(data, bp, bitp, 6);
      var mv := if meaningful == 0 then 64 else meaningful;
      v, bp, bitp := ReadBits(data, bp, bitp, mv);
      var xv := v % TWO_64;
      w := if mv == 64 then Xor64(prev, xv) else Xor64(prev, Shl64(xv, 64 - lead - mv));
    }
  }

  method ReadNumber(data: seq<byte>, bytePos: nat, bitPos: nat, first: bool, prev: uint64)
    returns (w: uint64, bp: nat, bitp: nat)
    requires Cursor(data, bytePos, bitPos)
    ensures Cursor(data, bp, bitp)
    ensures bp < |data| <==> Unread(data, bp, bitp) != []
    ensures (w, Unread(data, bp, bitp)) == DecodeNumber(Unread(data, bytePos, bitPos), first, prev)
  {
    hide Unpack, Unread, Word64, DecodeXor;
    if first {
      w, bp, bitp := ReadWord64(data, bytePos, bitPos);
    } else {
      w, bp, bitp := ReadXor(data, bytePos, bitPos, prev);
    }
  }

  method ReadValue(data: seq<byte>, bytePos: nat, bitPos: nat, p: Prev, strings: seq<byte>, offset: nat)
    returns (v: Value, bp: nat, bitp: nat, length: nat)
    requires Cursor(data, bytePos, bitPos)
    ensures Cursor(data, bp, bitp)
    ensures bp < |data| <==> Unread(data, bp, bitp) != []
    ensures (v, Unread(data, bp, bitp), length) == DecodeValue(Unread(data, bytePos, bitPos), p, strings, offset)
  {
    hide Unpack, FromBits, DecodeValue, DecodeNumber, Take, Drop, StringAt, Unread;
    ValueDecoded(Unread(data, bytePos, bitPos), p, strings, offset);
    var hi, lo: bool;
    var w: uint64;
    hi, bp, bitp := ReadBit(data, bytePos, bitPos);
    lo, bp, bitp := ReadBit(data, bp, bitp);
    if hi && !lo {
      length, bp, bitp := ReadBits(data, bp, bitp, 32);
      v := Str(StringAt(strings, offset, length));
    } else if !hi && !lo {
      w, bp, bitp := ReadNumber(data, bp, bitp, p.first, p.double);
      v, length := Double(w), 0;
    } else {
      w, bp, bitp := ReadNumber(data, bp, bitp, p.first, ToU64(p.integer));
      v, length := Int64(FromU64(w)), 0;
    }
  }

  method Decode(data: seq<byte>, strings: seq<byte>, count: nat) returns (result: seq<Value>)
    ensures result == DecodeAll(data, strings, count)
  {
    hide Unpack, FromBits, DecodeFrom, DecodeValue;
    result := [];
    var bp: nat, bitp: nat, offset: nat := 0, 0, 0;
    var remaining := Limit(count);
    var firstVal := true;
    var prevDouble: uint64, prevInt: int64 := 0, 0;
    ghost var s := Unpack(data);
    while remaining != Some(0) && bp < |data|
      invariant Cursor(data, bp, bitp) && s == Unread(data, bp, bitp)
      invariant bp < |data| <==> s != []
      invariant firstVal ==> prevDouble == 0 && prevInt == 0
      invariant result + DecodeFrom(s, Prev(firstVal, prevDouble, prevInt), strings, offset, remaining)
             == DecodeAll(data, strings, count)
      decreases |s|
    {
      ghost var before, p := result, Prev(firstVal, prevDouble, prevInt);
      DecodeStep(s, p, strings, offset, remaining);
      s := DecodeValue(s, p, strings, offset).1;
      var v: Value, length: nat;
      v, bp, bitp, length := ReadValue(data, bp, bitp, Prev(firstVal, prevDouble, prevInt), strings, offset);
      result := result + [v];
      offset := offset + length;
      match v {
        case Double(w) => prevDouble := w;
        case Int64(i) => prevInt := i;
        case Str(_) =>
      }
      firstVal := false;
      remaining := Minus(remaining, 1);
      AppendConcat(before, v, DecodeFrom(s, Prev(firstVal, prevDouble, prevInt), strings, offset, remaining));
    }
    DecodeStop(s, Prev(firstVal, prevDouble, prevInt), strings, offset, remaining);
  }

  // ---- decoding what was encoded ----

  lemma XorRoundTrip(w: uint64, prev: uint64, tail: seq<bool>)
    ensures DecodeXor(XorCode(w, prev) + tail, prev) == (w, tail)
  {
    hide ToBits, FromBits, Take, Drop, Xor64, Unwindow, Pow2, LeadingZeros, TrailingZeros;
    var x := Xor64(w, prev);
    XorUndone(w, prev);
    if x == 0 {
      assert XorCode(w, prev) + tail == [false] + tail;
    } else {
      Window(x);
      var lead, trail := LeadingZeros(x), TrailingZeros(x);
      var m := 64 - lead - trail;
      var mv := if m == 64 then 0 else m;
      var a, b, c := ToBits(lead, 6), ToBits(mv, 6), ToBits(x / Pow2(trail), m);
      Nest4(true, a, b, c, tail);
      TakeDropConcat(a, b + (c + tail));
      TakeDropConcat(b, c + tail);
      TakeDropConcat(c, tail);
      Pow2Values();
      BitsRoundTrip(lead, 6);
      BitsRoundTrip(mv, 6);
      BitsRoundTrip(x / Pow2(trail), m);
      WindowUndone(prev, x);
    }
  }

  /** Moving the stored window back to its place restores the XOR. */
  lemma WindowUndone(prev: uint64, x: uint64)
    requires x != 0
    ensures var lead, trail := LeadingZeros(x), TrailingZeros(x);
            lead + trail < 64 && Unwindow(prev, lead, 64 - lead - trail, x / Pow2(trail)) == Xor64(prev, x)
  {
    hide LeadingZeros, TrailingZeros, Xor64, Pow2, Unwindow;
    Window(x);
    var lead, trail := LeadingZeros(x), TrailingZeros(x);
    Grows(x / Pow2(trail), Pow2(trail));
    UnwindowAt(prev, lead, trail, x / Pow2(trail));
  }

  lemma UnwindowAt(prev: uint64, lead: nat, trail: nat, v: nat)
    requires lead + trail < 64 && v < TWO_64 && v * Pow2(trail) < TWO_64
    ensures Unwindow(prev, lead, 64 - lead - trail, v) == Xor64(prev, v * Pow2(trail))
  {
    hide Xor64, Pow2;
    Pow2Values();
    assert v % TWO_64 == v;
    if lead + trail > 0 {
      assert (64 - lead - (64 - lead - trail)) % 64 == trail;
    }
  }

  /** A bit string that the decoder takes, whatever follows, for w after prev. */
  ghost predicate IsXorCode(s: seq<bool>, w: uint64, prev: uint64) {
    forall tail :: DecodeXor(s + tail, prev) == (w, tail)
  }

  /** The encoder writes one of these strings, and none of them is shorter. */
  lemma ShortestXorCode(s: seq<bool>, w: uint64, prev: uint64)
    ensures IsXorCode(XorCode(w, prev), w, prev)
    ensures IsXorCode(s, w, prev) ==> |XorCode(w, prev)| <= |s|
  {
    hide DecodeXor, XorCode;
    forall tail
      ensures DecodeXor(XorCode(w, prev) + tail, prev) == (w, tail)
    {
      XorRoundTrip(w, prev, tail);
    }
    if IsXorCode(s, w, prev) {
      assert DecodeXor(s + [true], prev) == (w, [true]);
      NotShorter(s, w, prev);
    }
  }

  lemma NotShorter(s: seq<bool>, w: uint64, prev: uint64)
    requires DecodeXor(s + [true], prev) == (w, [true])
    ensures |XorCode(w, prev)| <= |s|
  {
    hide Pow2, Xor64, FromBits, ToBits, Unwindow, LeadingZeros, TrailingZeros;
    XorUndone(w, prev);
    XorUndone(prev, w);
    var t := s + [true];
    if First(t) {
      var s1 := Rest(t);
      var lead, meaningful := FromBits(Take(s1, 6)), FromBits(Take(Drop(s1, 6), 6));
      var mv := if meaningful == 0 then 64 else meaningful;
      var s2 := Drop(Drop(s1, 6), 6);
      Pow2Values();
      assert |s| == 13 + mv;
      UnwindowSpan(prev, lead, mv, FromBits(Take(s2, mv)));
      XorSame(w, prev);
      var x := Xor64(w, prev);
      if x != 0 {
        Window(x);
        NarrowWindow(x, ShiftOf(lead, mv), mv);
      }
    }
  }

  lemma XorSame(a: uint64, b: uint64)
    ensures Xor64(a, b) == Xor64(b, a)
  {
    assert XorBits(ToBits(a, 64), ToBits(b, 64)) == XorBits(ToBits(b, 64), ToBits(a, 64));
  }

  /** How far the decoder moves a window up. */
  function ShiftOf(lead: int, mv: int): (k: nat)
    ensures k < 64
  {
    if mv == 64 then 0 else (64 - lead - mv) % 64
  }

  /** What the decoder makes of a window of mv bits differs from prev only there. */
  lemma UnwindowSpan(prev: uint64, lead: nat, mv: nat, v: nat)
    requires mv <= 64 && v < Pow2(mv)
    ensures var x := Xor64(prev, Unwindow(prev, lead, mv, v));
            var k := ShiftOf(lead, mv);
            x < Pow2(k + mv) && x % Pow2(k) == 0
  {
    hide Pow2, Xor64;
    Pow2Values();
    Pow2Monotone(mv, 64);
    var k := ShiftOf(lead, mv);
    var x := v * Pow2(k) % TWO_64;
    assert Pow2(0) == 1;
    assert Unwindow(prev, lead, mv, v) == Xor64(prev, x);
    XorUndone(x, prev);
    XorSame(x, prev);
    XorSame(prev, Unwindow(prev, lead, mv, v));
    Pow2Add(mv, k);
    Pow2Add(64 - k, k);
    ShiftedWindow(v, Pow2(mv), Pow2(k), Pow2(64 - k));
  }

  lemma ShiftedWindow(v: nat, m: nat, k: nat, rest: nat)
    requires v < m && k > 0 && rest * k == TWO_64
    ensures v * k % TWO_64 < m * k && v * k % TWO_64 % k == 0
  {
    var q := v * k / TWO_64;
    assert v * k < m * k by { Scaled(v, m, k); }
    assert v * k % TWO_64 == v * k - q * (rest * k);
    assert v * k - q * (rest * k) == (v - q * rest) * k by { Difference(v, q, rest, k); }
    RemainderUnique(v * k % TWO_64, k, v - q * rest, 0);
  }

  lemma Scaled(a: nat, b: nat, c: nat)
    requires a < b && c > 0
    ensures a * c < b * c
  {
  }

  lemma Difference(v: int, q: int, rest: int, k: int)
    ensures v * k - q * (rest * k) == (v - q * rest) * k
  {
    assert q * (rest * k) == q * rest * k;
  }

  /** No window that holds all set bits of x is narrower than the encoder's. */
  lemma NarrowWindow(x: uint64, k: nat, mv: nat)
    requires x != 0 && x < Pow2(k + mv) && x % Pow2(k) == 0
    ensures LeadingZeros(x) + TrailingZeros(x) < 64 && 64 - LeadingZeros(x) - TrailingZeros(x) <= mv
  {
    hide Pow2, LeadingZeros, TrailingZeros;
    Window(x);
    var lead, trail := LeadingZeros(x), TrailingZeros(x);
    if k + mv < 64 - lead {
      Pow2Monotone(k + mv, 63 - lead);
    }
    if trail < k {
      OddBelow(x, trail, k);
    }
  }

  lemma NumberRoundTrip(first: bool, w: uint64, prev: uint64, tail: seq<bool>)
    ensures DecodeNumber(NumberCode(first, w, prev) + tail, first, prev) == (w, tail)
  {
    hide ToBits, FromBits, XorCode, DecodeXor;
    if first {
      TakeDropConcat(ToBits(w, 64), tail);
      Pow2Values();
      BitsRoundTrip(w, 64);
    } else {
      XorRoundTrip(w, prev, tail);
    }
  }

  /** What a value becomes when its string is looked up in the given string buffer. */
  function Looked(v: Value, strings: seq<byte>, offset: nat): Value {
    if v.Str? then Str(StringAt(strings, offset, |v.s| % TWO_32)) else v
  }

  function Length(v: Value): nat {
    if v.Str? then |v.s| % TWO_32 else 0
  }

  lemma ValueRoundTrip(p: Prev, v: Value, tail: seq<bool>, strings: seq<byte>, offset: nat)
    ensures DecodeValue(ValueCode(p, v) + tail, p, strings, offset)
         == (Looked(v, strings, offset), tail, Length(v))
  {
    hide ToBits, FromBits, NumberCode, DecodeNumber, Take, Drop, StringAt;
    var s := ValueCode(p, v) + tail;
    ValueDecoded(s, p, strings, offset);
    match v {
      case Double(w) =>
        var code := NumberCode(p.first, w, p.double);
        Head2(false, false, code, tail);
        NumberRoundTrip(p.first, w, p.double, tail);
      case Int64(i) =>
        var code := NumberCode(p.first, ToU64(i), ToU64(p.integer));
        Head2(false, true, code, tail);
        NumberRoundTrip(p.first, ToU64(i), ToU64(p.integer), tail);
        SignedRoundTrip(i);
      case Str(t) =>
        var code := ToBits(|t| % TWO_32, 32);
        Head2(true, false, code, tail);
        TakeDropConcat(code, tail);
        Pow2Values();
        BitsRoundTrip(|t| % TWO_32, 32);
    }
  }

  lemma Head2(a: bool, b: bool, code: seq<bool>, tail: seq<bool>)
    ensures var s := [a, b] + code + tail;
            First(s) == a && First(Rest(s)) == b && Rest(Rest(s)) == code + tail
  {
  }

  /** What a list of values becomes when its strings are looked up in the given string buffer. */
  function LookedAll(vs: seq<Value>, strings: seq<byte>, offset: nat): (r: seq<Value>)
    ensures |r| == |vs|
    decreases |vs|
  {
    if vs == [] then []
    else [Looked(vs[0], strings, offset)] + LookedAll(vs[1..], strings, offset + Length(vs[0]))
  }

  function TotalLength(vs: seq<Value>): nat {
    if vs == [] then 0 else Length(vs[0]) + TotalLength(vs[1..])
  }

  function PrevAfter(p: Prev, vs: seq<Value>): Prev
    decreases |vs|
  {
    if vs == [] then p else PrevAfter(Next(p, vs[0]), vs[1..])
  }

  lemma {:induction false} DecodeEncoded(p: Prev, vs: seq<Value>, tail: seq<bool>, strings: seq<byte>,
                                         offset: nat, remaining: Option<nat>)
    requires remaining.Some? ==> remaining.value >= |vs|
    ensures DecodeFrom(EncodeAll(p, vs) + tail, p, strings, offset, remaining)
         == LookedAll(vs, strings, offset)
          + DecodeFrom(tail, PrevAfter(p, vs), strings, offset + TotalLength(vs), Minus(remaining, |vs|))
    decreases |vs|
  {
    hide DecodeFrom, DecodeValue, ValueCode, Looked, Length, Next, Minus;
    var s := EncodeAll(p, vs) + tail;
    if vs == [] {
      assert s == tail;
      MinusAgain(remaining, 0, 0);
    } else {
      MinusAgain(remaining, 1, |vs| - 1);
      var v, rest := vs[0], EncodeAll(Next(p, vs[0]), vs[1..]) + tail;
      assert s == ValueCode(p, v) + rest;
      ValueRoundTrip(p, v, rest, strings, offset);
      DecodeStep(s, p, strings, offset, remaining);
      NextLooked(p, v, strings, offset);
      DecodeEncoded(Next(p, v), vs[1..], tail, strings, offset + Length(v), Minus(remaining, 1));
    }
  }

  lemma NextLooked(p: Prev, v: Value, strings: seq<byte>, offset: nat)
    ensures Next(p, Looked(v, strings, offset)) == Next(p, v)
  {
  }

  ghost predicate ShortStrings(vs: seq<Value>) {
    forall v :: v in vs && v.Str? ==> |v.s| < TWO_32
  }

  /** Strings are found again in the buffer that holds them all in order. */
  lemma {:induction false} LookedExact(vs: seq<Value>, before: seq<byte>)
    requires ShortStrings(vs)
    ensures LookedAll(vs, before + AllStrings(vs), |before|) == vs
    decreases |vs|
  {
    if vs != [] {
      var v := vs[0];
      var here := if v.Str? then v.s else [];
      assert before + AllStrings(vs) == (before + here) + AllStrings(vs[1..]);
      LookedExact(vs[1..], before + here);
      assert (before + AllStrings(vs))[|before|..|before| + |here|] == here;
      assert Length(v) == |here|;
      assert Looked(v, before + AllStrings(vs), |before|) == v;
    }
  }

  /** ... and only strings shorter than 2^32 bytes are. */
  lemma {:induction false} LookedShort(vs: seq<Value>, strings: seq<byte>, offset: nat)
    requires LookedAll(vs, strings, offset) == vs
    ensures ShortStrings(vs)
    decreases |vs|
  {
    if vs != [] {
      var v := vs[0];
      assert Looked(v, strings, offset) == v;
      assert LookedAll(vs, strings, offset)[1..] == LookedAll(vs[1..], strings, offset + Length(v));
      LookedShort(vs[1..], strings, offset + Length(v));
      forall u | u in vs && u.Str?
        ensures |u.s| < TWO_32
      {
        assert u == v || u in vs[1..];
      }
    }
  }

  lemma LookedIff(vs: seq<Value>)
    ensures LookedAll(vs, AllStrings(vs), 0) == vs <==> ShortStrings(vs)
  {
    hide LookedAll, AllStrings, ShortStrings;
    if LookedAll(vs, AllStrings(vs), 0) == vs {
      LookedShort(vs, AllStrings(vs), 0);
    }
    if ShortStrings(vs) {
      LookedExact(vs, []);
      assert [] + AllStrings(vs) == AllStrings(vs);
    }
  }

  /** The bytes of an encoded list: its code, padded with zeros to a whole byte. */
  ghost predicate Encoded(data: seq<byte>, vs: seq<Value>) {
    Unpack(data) == EncodeAll(START, vs) + Zeros(PadLength(|EncodeAll(START, vs)|))
  }

  /** Decoding with the count: the values, with their strings looked up. */
  lemma CountedValues(data: seq<byte>, vs: seq<Value>, strings: seq<byte>)
    requires Encoded(data, vs)
    ensures DecodeAll(data, strings, |vs|) == LookedAll(vs, strings, 0)
  {
    hide DecodeFrom, EncodeAll, LookedAll, PrevAfter, TotalLength, PadLength;
    var tail := Zeros(PadLength(|EncodeAll(START, vs)|));
    var n := 0 + TotalLength(vs);
    if vs == [] {
      NoValues(data, strings);
    } else {
      DecodeEncoded(START, vs, tail, strings, 0, Some(|vs|));
      DecodeStop(tail, PrevAfter(START, vs), strings, n, Some(0));
    }
  }

  lemma NoValues(data: seq<byte>, strings: seq<byte>)
    requires Encoded(data, [])
    ensures DecodeAll(data, strings, 0) == LookedAll([], strings, 0)
  {
    DecodeStop(Unpack(data), START, strings, 0, None);
  }

  /** Any mixture of doubles, integers and strings decodes to itself exactly when every string is
      shorter than 2^32 bytes. */
  lemma ValuesRoundTrip(data: seq<byte>, vs: seq<Value>)
    requires Encoded(data, vs)
    ensures DecodeAll(data, AllStrings(vs), |vs|) == vs <==> ShortStrings(vs)
  {
    hide *;
    CountedValues(data, vs, AllStrings(vs));
    LookedIff(vs);
  }

  /** A value as it comes back from a block whose string buffer was dropped. */
  function WithoutString(v: Value): Value {
    if v.Str? then Str([]) else v
  }

  lemma {:induction false} LookedInNothing(vs: seq<Value>, offset: nat, i: nat)
    requires i < |vs|
    ensures LookedAll(vs, [], offset)[i] == WithoutString(vs[i])
    decreases |vs|
  {
    if i > 0 {
      LookedInNothing(vs[1..], offset + Length(vs[0]), i - 1);
    }
  }

  /** Padding decodes as repetitions of the last double, one for every three bits begun. */
  lemma {:induction false} DecodeZeros(k: nat, p: Prev, strings: seq<byte>, offset: nat)
    requires !p.first
    ensures DecodeFrom(Zeros(k), p, strings, offset, None) == seq((k + 2) / 3, _ => Double(p.double))
  {
    hide DecodeFrom, FromBits, Take;
    if k == 0 {
      DecodeStop(Zeros(0), p, strings, offset, None);
    } else {
      var k' := if k <= 3 then 0 else k - 3;
      assert Rest(Rest(Rest(Zeros(k)))) == Zeros(k');
      DecodeStep(Zeros(k), p, strings, offset, None);
      DecodeZeros(k', p, strings, offset);
    }
  }

  /** Decoding without the count and without the strings: the values, then the padding. */
  lemma UncountedValues(data: seq<byte>, vs: seq<Value>)
    requires vs != [] && Encoded(data, vs)
    ensures var k := (PadLength(|EncodeAll(START, vs)|) + 2) / 3;
            var extra := Double(PrevAfter(START, vs).double);
            && k <= 3
            && DecodeAll(data, [], 0) == LookedAll(vs, [], 0) + seq(k, _ => extra)
  {
    hide DecodeFrom, EncodeAll, LookedAll, PrevAfter;
    var n := PadLength(|EncodeAll(START, vs)|);
    DecodeEncoded(START, vs, Zeros(n), [], 0, None);
    NotFirst(START, vs);
    DecodeZeros(n, PrevAfter(START, vs), [], TotalLength(vs));
  }

  lemma {:induction false} NotFirst(p: Prev, vs: seq<Value>)
    ensures vs != [] || !p.first ==> !PrevAfter(p, vs).first
    decreases |vs|
  {
    if vs != [] {
      NotFirst(Next(p, vs[0]), vs[1..]);
    }
  }
}
