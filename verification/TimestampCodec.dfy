/** Delta-of-delta timestamps (src/storage/compressor.cpp).

    The first timestamp is stored in 64 bits; every later one as the difference between two
    successive deltas, in a variable-length code whose longest form keeps 32 bits. Timestamps and
    deltas are mathematical integers. */
module TimestampCodec {
  import opened Words
  import opened BitBuffer

  // ---- the code as a function ----

  /** Which of the five forms holds a delta-of-delta. */
  function Form(dd: int): (f: nat)
    ensures f <= 4
  {
    if dd == 0 then 0
    else if -63 <= dd <= 64 then 1
    else if -255 <= dd <= 256 then 2
    else if -2047 <= dd <= 2048 then 3
    else 4
  }

  function Tag(form: nat): (bs: seq<bool>)
    requires form <= 4
    ensures 0 < |bs| <= 4
  {
    match form
    case 0 => [false]
    case 1 => [true, false]
    case 2 => [true, true, false]
    case 3 => [true, true, true, false]
    case _ => [true, true, true, true]
  }

  function Width(form: nat): nat {
    match form
    case 0 => 0
    case 1 => 7
    case 2 => 9
    case 3 => 12
    case _ => 32
  }

  function Payload(dd: int): nat {
    match Form(dd)
    case 0 => 0
    case 1 => dd + 63
    case 2 => dd + 255
    case 3 => dd + 2047
    case _ => ToU64(dd)
  }

  /** The bits of one delta-of-delta. */
  function DeltaCode(dd: int): (bs: seq<bool>)
    ensures |bs| > 0
  {
    Tag(Form(dd)) + ToBits(Payload(dd), Width(Form(dd)))
  }

  function EncodeRest(prevTs: int, prevDelta: int, tss: seq<int>): (bs: seq<bool>)
    ensures |bs| >= |tss|
    decreases |tss|
  {
    if tss == [] then []
    else
      var delta := tss[0] - prevTs;
      DeltaCode(delta - prevDelta) + EncodeRest(tss[0], delta, tss[1..])
  }

  function EncodeAll(tss: seq<int>): seq<bool> {
    if tss == [] then [] else ToBits(ToU64(tss[0]), 64) + EncodeRest(tss[0], 0, tss[1..])
  }

  // ---- the encoder ----

  class TimestampCompressor {
    var buffer: seq<byte>
    var prevTs: int
    var prevDelta: int
    var first: bool
    var writeBytePos: nat
    var writeBitPos: nat

    /** The bits written so far. */
    ghost function Bits(): seq<bool>
      reads this
    {
      Unpack(buffer)[..if 8 * writeBytePos + writeBitPos <= 8 * |buffer|
                       then 8 * writeBytePos + writeBitPos else 8 * |buffer|]
    }

    ghost predicate Valid()
      reads this
    {
      && Holds(buffer, writeBytePos, writeBitPos, Bits())
      && (first ==> Bits() == [] && prevTs == 0 && prevDelta == 0)
    }

    constructor ()
      ensures Valid() && first && Bits() == []
    {
      buffer, prevTs, prevDelta, first, writeBytePos, writeBitPos := [], 0, 0, true, 0, 0;
    }

    method Reset()
      modifies this
      ensures Valid() && first && Bits() == []
    {
      buffer, prevTs, prevDelta, first, writeBytePos, writeBitPos := [], 0, 0, true, 0, 0;
    }

    method Encode(ts: int)
      requires Valid()
      modifies this
      ensures Valid() && !first && prevTs == ts
      ensures old(first) ==> Bits() == ToBits(ToU64(ts), 64) && prevDelta == 0
      ensures !old(first) ==>
                && prevDelta == ts - old(prevTs)
                && Bits() == old(Bits()) + DeltaCode(prevDelta - old(prevDelta))
    {
      hide Unpack, ToBits, DeltaCode;
      ghost var bits := Bits();
      var buf, bp, bitp := buffer, writeBytePos, writeBitPos;
      if first {
        buf, bp, bitp := AppendBits(buf, ToU64(ts), 64, 0, 0, []);
        assert [] + ToBits(ToU64(ts), 64) == ToBits(ToU64(ts), 64);
        Keep(buf, bp, bitp, ToBits(ToU64(ts), 64));
        prevDelta := 0;
      } else {
        var delta := ts - prevTs;
        buf, bp, bitp := AppendDelta(buf, delta - prevDelta, bp, bitp, bits);
        Keep(buf, bp, bitp, bits + DeltaCode(delta - prevDelta));
        prevDelta := delta;
      }
      buffer, writeBytePos, writeBitPos := buf, bp, bitp;
      prevTs, first := ts, false;
    }
  }

  lemma Keep(buf: seq<byte>, bytePos: nat, bitPos: nat, bits: seq<bool>)
    requires Holds(buf, bytePos, bitPos, bits)
    ensures 8 * bytePos + bitPos <= 8 * |buf| && Unpack(buf)[..8 * bytePos + bitPos] == bits
  {
  }

  method AppendTagged(buf: seq<byte>, tag: nat, tagBits: nat, value: nat, n: nat,
                      bytePos: nat, bitPos: nat, ghost bits: seq<bool>)
    returns (buf': seq<byte>, bytePos': nat, bitPos': nat)
    requires Holds(buf, bytePos, bitPos, bits)
    ensures Holds(buf', bytePos', bitPos', bits + (ToBits(tag, tagBits) + ToBits(value, n)))
  {
    buf', bytePos', bitPos' := AppendBits(buf, tag, tagBits, bytePos, bitPos, bits);
    buf', bytePos', bitPos' := AppendBits(buf', value, n, bytePos', bitPos', bits + ToBits(tag, tagBits));
    assert bits + ToBits(tag, tagBits) + ToBits(value, n) == bits + (ToBits(tag, tagBits) + ToBits(value, n));
  }

  method AppendDelta(buf: seq<byte>, dd: int, bytePos: nat, bitPos: nat, ghost bits: seq<bool>)
    returns (buf': seq<byte>, bytePos': nat, bitPos': nat)
    requires Holds(buf, bytePos, bitPos, bits)
    ensures Holds(buf', bytePos', bitPos', bits + DeltaCode(dd))
  {
    hide ToBits, Unpack;
    TagValues();
    if dd == 0 {
      buf', bytePos', bitPos' := AppendBit(buf, false, bytePos, bitPos, bits);
    } else if -63 <= dd <= 64 {
      buf', bytePos', bitPos' := AppendTagged(buf, 0x1, 2, dd + 63, 7, bytePos, bitPos, bits);
    } else if -255 <= dd <= 256 {
      buf', bytePos', bitPos' := AppendTagged(buf, 0x3, 3, dd + 255, 9, bytePos, bitPos, bits);
    } else if -2047 <= dd <= 2048 {
      buf', bytePos', bitPos' := AppendTagged(buf, 0x7, 4, dd + 2047, 12, bytePos, bitPos, bits);
    } else {
      buf', bytePos', bitPos' := AppendTagged(buf, 0xF, 4, ToU64(dd), 32, bytePos, bitPos, bits);
    }
  }

  lemma TagValues()
    ensures ToBits(0x1, 2) == Tag(1) && ToBits(0x3, 3) == Tag(2)
    ensures ToBits(0x7, 4) == Tag(3) && ToBits(0xF, 4) == Tag(4)
    ensures DeltaCode(0) == [false]
  {
  }

  // ---- the decoder as a function on the unread bits ----

  /** The low 32 bits of d as a signed integer: what the longest code preserves of d. */
  function Signed32(v: nat): int {
    var w := v % TWO_32;
    if w < TWO_31 then w else w - TWO_32
  }

  /** The form of the next code, and the bits after its tag. */
  function DecodeForm(s: seq<bool>): (r: (nat, seq<bool>))
    ensures r.0 <= 4 && |r.1| <= |s| && (s != [] ==> |r.1| < |s|)
  {
    var s1 := Rest(s);
    var s2 := Rest(s1);
    var s3 := Rest(s2);
    if !First(s) then (0, s1)
    else if !First(s1) then (1, s2)
    else if !First(s2) then (2, s3)
    else if !First(s3) then (3, Rest(s3))
    else (4, Rest(s3))
  }

  function DeltaOf(form: nat, v: nat): int {
    match form
    case 1 => v - 63
    case 2 => v - 255
    case 3 => v - 2047
    case _ => Signed32(v)
  }

  /** The next delta, and the bits after its code. */
  function DecodeDelta(s: seq<bool>, prevDelta: int): (r: (int, seq<bool>))
    ensures s != [] ==> |r.1| < |s|
  {
    var (form, rest) := DecodeForm(s);
    if form == 0 then (prevDelta, rest)
    else (prevDelta + DeltaOf(form, FromBits(Take(rest, Width(form)))), Drop(rest, Width(form)))
  }

  /** The timestamps after the first; `remaining` is None when the count is unknown. */
  function DecodeRest(s: seq<bool>, prevTs: int, prevDelta: int, remaining: Option<nat>): seq<int>
    decreases |s|
  {
    if s == [] || remaining == Some(0) then []
    else
      var (delta, rest) := DecodeDelta(s, prevDelta);
      [prevTs + delta] + DecodeRest(rest, prevTs + delta, delta, Minus(remaining, 1))
  }

  lemma DecodeStop(s: seq<bool>, prevTs: int, prevDelta: int, remaining: Option<nat>)
    requires s == [] || remaining == Some(0)
    ensures DecodeRest(s, prevTs, prevDelta, remaining) == []
  {
  }

  lemma DecodeStep(s: seq<bool>, prevTs: int, prevDelta: int, remaining: Option<nat>)
    requires s != [] && remaining != Some(0)
    ensures DecodeRest(s, prevTs, prevDelta, remaining)
         == [prevTs + DecodeDelta(s, prevDelta).0]
          + DecodeRest(DecodeDelta(s, prevDelta).1, prevTs + DecodeDelta(s, prevDelta).0,
                       DecodeDelta(s, prevDelta).0, Minus(remaining, 1))
  {
  }

  function DecodeAll(data: seq<byte>, count: nat): seq<int> {
    if data == [] then []
    else
      var s := Unpack(data);
      var t := FromU64(Word64(s));
      [t] + DecodeRest(Drop(s, 64), t, 0, AfterFirst(count))
  }

  /** How many timestamps follow the first; a count of 0 means unknown. */
  function AfterFirst(count: nat): Option<nat> {
    if count == 0 then None else var left: nat := count - 1; Some(left)
  }

  lemma FormDecoded(s: seq<bool>, form: nat, rest: seq<bool>, prevDelta: int)
    requires form <= 4 && DecodeForm(s) == (form, rest)
    ensures DecodeDelta(s, prevDelta)
         == if form == 0 then (prevDelta, rest)
            else (prevDelta + DeltaOf(form, FromBits(Take(rest, Width(form)))), Drop(rest, Width(form)))
  {
  }

  method DecodeOne(data: seq<byte>, bytePos: nat, bitPos: nat, prevDelta: int)
    returns (delta: int, bp: nat, bitp: nat)
    requires Cursor(data, bytePos, bitPos)
    ensures Cursor(data, bp, bitp)
    ensures bp < |data| <==> Unread(data, bp, bitp) != []
    ensures (delta, Unread(data, bp, bitp)) == DecodeDelta(Unread(data, bytePos, bitPos), prevDelta)
  {
    hide FromBits, Unpack, DecodeDelta, Take, Drop, Signed32, Unread;
    ghost var s := Unread(data, bytePos, bitPos);
    var b0, b1, b2, b3: bool;
    var v: nat;
    b0, bp, bitp := ReadBit(data, bytePos, bitPos);
    if !b0 {
      FormDecoded(s, 0, Unread(data, bp, bitp), prevDelta);
      delta := prevDelta;
    } else {
      b1, bp, bitp := ReadBit(data, bp, bitp);
      if !b1 {
        FormDecoded(s, 1, Unread(data, bp, bitp), prevDelta);
        v, bp, bitp := ReadBits(data, bp, bitp, 7);
        delta := prevDelta + v - 63;
      } else {
        b2, bp, bitp := ReadBit(data, bp, bitp);
        if !b2 {
          FormDecoded(s, 2, Unread(data, bp, bitp), prevDelta);
          v, bp, bitp := ReadBits(data, bp, bitp, 9);
          delta := prevDelta + v - 255;
        } else {
          b3, bp, bitp := ReadBit(data, bp, bitp);
          if !b3 {
            FormDecoded(s, 3, Unread(data, bp, bitp), prevDelta);
            v, bp, bitp := ReadBits(data, bp, bitp, 12);
            delta := prevDelta + v - 2047;
          } else {
            FormDecoded(s, 4, Unread(data, bp, bitp), prevDelta);
            v, bp, bitp := ReadBits(data, bp, bitp, 32);
            delta := prevDelta + Signed32(v);
          }
        }
      }
    }
  }

  method Decode(data: seq<byte>, count: nat) returns (result: seq<int>)
    ensures result == DecodeAll(data, count)
  {
    hide DecodeDelta, DecodeRest, FromBits, Unpack;
    if |data| == 0 {
      return [];
    }
    assert Unread(data, 0, 0) == Unpack(data);
    var raw: uint64, bp: nat, bitp: nat := ReadWord64(data, 0, 0);
    result := [FromU64(raw)];
    var remaining: Option<nat> := AfterFirst(count);
    var prevTs, prevDelta: int := result[0], 0;
    ghost var s := Drop(Unpack(data), 64);
    while remaining != Some(0) && bp < |data|
      invariant Cursor(data, bp, bitp) && s == Unread(data, bp, bitp)
      invariant bp < |data| <==> s != []
      invariant result + DecodeRest(s, prevTs, prevDelta, remaining) == DecodeAll(data, count)
      decreases |s|
    {
      ghost var before := result;
      DecodeStep(s, prevTs, prevDelta, remaining);
      var delta: int;
      delta, bp, bitp := DecodeOne(data, bp, bitp, prevDelta);
      s := DecodeDelta(s, prevDelta).1;
      result := result + [prevTs + delta];
      prevTs, prevDelta := prevTs + delta, delta;
      remaining := Minus(remaining, 1);
      AppendConcat(before, prevTs, DecodeRest(s, prevTs, prevDelta, remaining));
    }
    DecodeStop(s, prevTs, prevDelta, remaining);
  }

  // ---- decoding what was encoded ----

  /** The delta-of-delta that the decoder sees: the 32-bit signed integer congruent to dd. */
  function Wrap32(dd: int): (r: int)
    ensures -TWO_31 <= r < TWO_31 && (r - dd) % TWO_32 == 0
  {
    (dd + TWO_31) % TWO_32 - TWO_31
  }

  predicate Fits32(dd: int) {
    -TWO_31 <= dd < TWO_31
  }

  lemma DeltaRoundTrip(dd: int, tail: seq<bool>, prevDelta: int)
    ensures DecodeDelta(DeltaCode(dd) + tail, prevDelta) == (prevDelta + Wrap32(dd), tail)
  {
    var form := Form(dd);
    var payload := ToBits(Payload(dd), Width(form));
    assert DeltaCode(dd) + tail == Tag(form) + (payload + tail);
    FormRoundTrip(form, payload + tail);
    TakeDropConcat(payload, tail);
    if dd != 0 {
      PayloadRoundTrip(dd);
    }
  }

  lemma FormRoundTrip(form: nat, tail: seq<bool>)
    requires form <= 4
    ensures DecodeForm(Tag(form) + tail) == (form, tail)
  {
  }

  lemma PayloadRoundTrip(dd: int)
    requires dd != 0
    ensures DeltaOf(Form(dd), FromBits(ToBits(Payload(dd), Width(Form(dd))))) == Wrap32(dd)
  {
    hide ToBits, FromBits, Pow2, Signed32, Wrap32;
    Pow2Values();
    if Form(dd) == 4 {
      ValueOfBits(ToU64(dd), 32);
      LowWord(dd);
    } else {
      BitsRoundTrip(Payload(dd), Width(Form(dd)));
      SmallWrap(dd);
    }
  }

  lemma SmallWrap(dd: int)
    requires -TWO_31 <= dd < TWO_31
    ensures Wrap32(dd) == dd
  {
  }

  lemma LowWord(dd: int)
    ensures Signed32(ToU64(dd) % TWO_32) == Wrap32(dd)
  {
    var q := dd / TWO_64;
    RemainderUnique(dd, TWO_32, ToU64(dd) / TWO_32 + q * TWO_32, ToU64(dd) % TWO_32);
  }

  /** A bit string that the decoder takes, whatever follows, for this delta-of-delta. */
  ghost predicate IsDeltaCode(s: seq<bool>, dd: int) {
    forall tail :: DecodeDelta(s + tail, 0) == (dd, tail)
  }

  /** What fits in 32 bits is written as one of these strings, and none of them is shorter. */
  lemma ShortestDeltaCode(s: seq<bool>, dd: int)
    ensures IsDeltaCode(DeltaCode(dd), dd) <==> Fits32(dd)
    ensures IsDeltaCode(s, dd) ==> |DeltaCode(dd)| <= |s|
  {
    hide DecodeDelta, DeltaCode;
    forall tail
      ensures DecodeDelta(DeltaCode(dd) + tail, 0) == (Wrap32(dd), tail)
    {
      DeltaRoundTrip(dd, tail, 0);
    }
    assert DecodeDelta(DeltaCode(dd) + [], 0).0 == Wrap32(dd);
    if IsDeltaCode(s, dd) {
      assert DecodeDelta(s + [true], 0) == (dd, [true]);
      NotShorter(s, dd);
    }
  }

  lemma NotShorter(s: seq<bool>, dd: int)
    requires DecodeDelta(s + [true], 0) == (dd, [true])
    ensures |DeltaCode(dd)| <= |s|
  {
    hide FromBits, ToBits, Pow2;
    Pow2Values();
    var (form, rest) := DecodeForm(s + [true]);
    assert form != 0 ==> FromBits(Take(rest, Width(form))) < Pow2(Width(form));
    assert |s| == |Tag(form)| + Width(form);
    assert Form(dd) <= form;
  }

  /** What the decoder makes of the codes of tss when it stands at (ts, delta) and the encoder
      stood at (prevTs, prevDelta). */
  ghost function Replay(prevTs: int, prevDelta: int, tss: seq<int>, ts: int, delta: int): (r: seq<int>)
    ensures |r| == |tss|
    decreases |tss|
  {
    if tss == [] then []
    else
      var d := tss[0] - prevTs;
      var delta' := delta + Wrap32(d - prevDelta);
      [ts + delta'] + Replay(tss[0], d, tss[1..], ts + delta', delta')
  }

  /** Where the decoder stands after that. */
  ghost function ReplayEnd(prevTs: int, prevDelta: int, tss: seq<int>, ts: int, delta: int): (int, int)
    decreases |tss|
  {
    if tss == [] then (ts, delta)
    else
      var d := tss[0] - prevTs;
      var delta' := delta + Wrap32(d - prevDelta);
      ReplayEnd(tss[0], d, tss[1..], ts + delta', delta')
  }

  /** The codes of tss are consumed one by one, whatever follows them. */
  lemma {:induction false} DecodeEncoded(prevTs: int, prevDelta: int, tss: seq<int>, ts: int, delta: int,
                                         tail: seq<bool>, remaining: Option<nat>)
    requires remaining.Some? ==> remaining.value >= |tss|
    ensures var (ts', delta') := ReplayEnd(prevTs, prevDelta, tss, ts, delta);
            DecodeRest(EncodeRest(prevTs, prevDelta, tss) + tail, ts, delta, remaining) ==
            Replay(prevTs, prevDelta, tss, ts, delta) + DecodeRest(tail, ts', delta', Minus(remaining, |tss|))
    decreases |tss|
  {
    hide DecodeRest, DecodeDelta, DeltaCode, Minus, Wrap32;
    var s := EncodeRest(prevTs, prevDelta, tss) + tail;
    if tss == [] {
      assert s == tail;
      MinusAgain(remaining, 0, 0);
    } else {
      MinusAgain(remaining, 1, |tss| - 1);
      var d := tss[0] - prevTs;
      var rest := EncodeRest(tss[0], d, tss[1..]) + tail;
      assert s == DeltaCode(d - prevDelta) + rest;
      DeltaRoundTrip(d - prevDelta, rest, delta);
      var delta' := delta + Wrap32(d - prevDelta);
      DecodeStep(s, ts, delta, remaining);
      DecodeEncoded(tss[0], d, tss[1..], ts + delta', delta', tail, Minus(remaining, 1));
    }
  }

  // ---- the two theorems about what comes back ----

  /** Every delta-of-delta, the first delta included, fits in 32 bits. */
  ghost predicate AllFit(prevTs: int, prevDelta: int, tss: seq<int>)
    decreases |tss|
  {
    tss == [] ||
    (Fits32(tss[0] - prevTs - prevDelta) && AllFit(tss[0], tss[0] - prevTs, tss[1..]))
  }

  ghost predicate Congruent32(a: int, b: int) {
    (a - b) % TWO_32 == 0
  }

  /** Modulo 2^32 nothing is lost. */
  lemma {:induction false} ReplayCongruent(prevTs: int, prevDelta: int, tss: seq<int>, ts: int, delta: int)
    requires Congruent32(ts, prevTs) && Congruent32(delta, prevDelta)
    ensures forall i :: 0 <= i < |tss| ==> Congruent32(Replay(prevTs, prevDelta, tss, ts, delta)[i], tss[i])
    decreases |tss|
  {
    if tss != [] {
      var d := tss[0] - prevTs;
      var delta' := delta + Wrap32(d - prevDelta);
      assert Congruent32(delta', d);
      assert Congruent32(ts + delta', tss[0]);
      ReplayCongruent(tss[0], d, tss[1..], ts + delta', delta');
      var r := Replay(tss[0], d, tss[1..], ts + delta', delta');
      forall i | 0 <= i < |tss|
        ensures Congruent32(Replay(prevTs, prevDelta, tss, ts, delta)[i], tss[i])
      {
        if i > 0 {
          assert Congruent32(r[i - 1], tss[1..][i - 1]);
        }
      }
    }
  }

  /** The original comes back exactly when every delta-of-delta fits. */
  lemma {:induction false} ReplayExact(prevTs: int, prevDelta: int, tss: seq<int>)
    ensures Replay(prevTs, prevDelta, tss, prevTs, prevDelta) == tss <==> AllFit(prevTs, prevDelta, tss)
    decreases |tss|
  {
    if tss != [] {
      var d := tss[0] - prevTs;
      var delta' := prevDelta + Wrap32(d - prevDelta);
      var r := Replay(tss[0], d, tss[1..], prevTs + delta', delta');
      assert Replay(prevTs, prevDelta, tss, prevTs, prevDelta) == [prevTs + delta'] + r;
      assert tss == [tss[0]] + tss[1..];
      if Fits32(d - prevDelta) {
        assert delta' == d;
        ReplayExact(tss[0], d, tss[1..]);
      } else {
        assert delta' != d;
      }
    }
  }

  /** The last timestamp, and the last delta, of a list that follows (ts, delta). */
  ghost function Last(tss: seq<int>, ts: int, delta: int): (int, int)
    decreases |tss|
  {
    if tss == [] then (ts, delta) else Last(tss[1..], tss[0], tss[0] - ts)
  }

  lemma {:induction false} ReplayEndExact(ts: int, delta: int, tss: seq<int>)
    requires AllFit(ts, delta, tss)
    ensures ReplayEnd(ts, delta, tss, ts, delta) == Last(tss, ts, delta)
    decreases |tss|
  {
    if tss != [] {
      assert delta + Wrap32(tss[0] - ts - delta) == tss[0] - ts;
      ReplayEndExact(tss[0], tss[0] - ts, tss[1..]);
    }
  }

  /** The bytes of an encoded list: its code, padded with zeros to a whole byte. */
  ghost predicate Encoded(data: seq<byte>, tss: seq<int>) {
    Unpack(data) == EncodeAll(tss) + Zeros(PadLength(|EncodeAll(tss)|))
  }

  lemma FirstTimestamp(data: seq<byte>, tss: seq<int>, count: nat)
    requires tss != [] && Encoded(data, tss) && -TWO_63 <= tss[0] < TWO_63
    ensures var rest := EncodeRest(tss[0], 0, tss[1..]) + Zeros(PadLength(|EncodeAll(tss)|));
            DecodeAll(data, count) == [tss[0]] + DecodeRest(rest, tss[0], 0, AfterFirst(count))
  {
    hide DecodeRest, EncodeRest, FromBits, ToBits;
    var head := ToBits(ToU64(tss[0]), 64);
    var rest := EncodeRest(tss[0], 0, tss[1..]) + Zeros(PadLength(|EncodeAll(tss)|));
    assert Unpack(data) == head + rest;
    TakeDropConcat(head, rest);
    Pow2Values();
    BitsRoundTrip(ToU64(tss[0]), 64);
    SignedRoundTrip(tss[0]);
  }

  /** Decoding with the count returns the list exactly when every delta-of-delta fits in 32 bits,
      and always a list of the same length congruent to it modulo 2^32. */
  lemma TimestampRoundTrip(data: seq<byte>, tss: seq<int>)
    requires Encoded(data, tss) && (tss != [] ==> -TWO_63 <= tss[0] < TWO_63)
    ensures DecodeAll(data, |tss|) == tss <==> tss == [] || AllFit(tss[0], 0, tss[1..])
    ensures |DecodeAll(data, |tss|)| == |tss|
    ensures forall i :: 0 <= i < |tss| ==> Congruent32(DecodeAll(data, |tss|)[i], tss[i])
  {
    hide DecodeAll, EncodeAll, EncodeRest, Replay, ReplayEnd, AllFit, DecodeRest, Encoded;
    if tss == [] {
      NoTimestamps(data);
    } else {
      var pad := Zeros(PadLength(|EncodeAll(tss)|));
      var r := Replay(tss[0], 0, tss[1..], tss[0], 0);
      FirstTimestamp(data, tss, |tss|);
      DecodeEncoded(tss[0], 0, tss[1..], tss[0], 0, pad, AfterFirst(|tss|));
      var (last, delta) := ReplayEnd(tss[0], 0, tss[1..], tss[0], 0);
      DecodeStop(pad, last, delta, Some(0));
      assert DecodeAll(data, |tss|) == [tss[0]] + r;
      assert tss == [tss[0]] + tss[1..];
      ReplayExact(tss[0], 0, tss[1..]);
      ReplayCongruent(tss[0], 0, tss[1..], tss[0], 0);
    }
  }

  lemma NoTimestamps(data: seq<byte>)
    requires Encoded(data, [])
    ensures DecodeAll(data, 0) == []
  {
    assert |Unpack(data)| == 0;
  }

  /** The timestamps ts + delta, ts + 2 delta, ..., ts + k delta. */
  function Extras(ts: int, delta: int, k: nat): (r: seq<int>)
    ensures |r| == k
    decreases k
  {
    if k == 0 then [] else [ts + delta] + Extras(ts + delta, delta, k - 1)
  }

  lemma {:induction false} ExtrasAt(ts: int, delta: int, k: nat, j: nat)
    requires j < k
    ensures Extras(ts, delta, k)[j] == ts + (j + 1) * delta
    decreases k
  {
    if j > 0 {
      ExtrasAt(ts + delta, delta, k - 1, j - 1);
      Successor(j, delta);
    }
  }

  lemma Successor(j: int, delta: int)
    ensures (j + 1) * delta == delta + j * delta
  {
  }

  lemma {:induction false} DecodeZeros(k: nat, ts: int, delta: int)
    ensures DecodeRest(Zeros(k), ts, delta, None) == Extras(ts, delta, k)
  {
    if k > 0 {
      assert Rest(Zeros(k)) == Zeros(k - 1);
      assert DecodeDelta(Zeros(k), delta) == (delta, Zeros(k - 1));
      DecodeStep(Zeros(k), ts, delta, None);
      DecodeZeros(k - 1, ts + delta, delta);
    }
  }

  /** Decoding without the count returns the list followed by one timestamp for each padding bit,
      spaced by the last delta. */
  lemma UncountedTimestamps(data: seq<byte>, tss: seq<int>)
    requires tss != [] && Encoded(data, tss) && -TWO_63 <= tss[0] < TWO_63
    requires AllFit(tss[0], 0, tss[1..])
    ensures var (last, delta) := Last(tss[1..], tss[0], 0);
            DecodeAll(data, 0) == tss + Extras(last, delta, PadLength(|EncodeAll(tss)|))
  {
    hide DecodeAll, DecodeRest, EncodeAll, EncodeRest, Replay, ReplayEnd, AllFit, Last, Extras;
    var n := PadLength(|EncodeAll(tss)|);
    var rest := tss[1..];
    var (last, delta) := Last(rest, tss[0], 0);
    ReplayExact(tss[0], 0, rest);
    ReplayEndExact(tss[0], 0, rest);
    FirstTimestamp(data, tss, 0);
    DecodeEncoded(tss[0], 0, rest, tss[0], 0, Zeros(n), None);
    DecodeZeros(n, last, delta);
    assert DecodeAll(data, 0) == [tss[0]] + (rest + Extras(last, delta, n));
    assert tss == [tss[0]] + rest;
  }
}
