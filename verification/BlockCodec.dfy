/** One compressed block of points (src/storage/compressor.cpp), and what comes back when the
    block is read with its point count and without it. */
module BlockCodec {
  import opened Words
  import opened BitBuffer
  import TS = TimestampCodec
  import VC = ValueCodec

  datatype DataPoint = DataPoint(ts: int, value: VC.Value)

  datatype TimeRange = TimeRange(start: int, end: int) {
    predicate Contains(ts: int) {
      start <= ts <= end
    }

    predicate Overlaps(other: TimeRange) {
      start <= other.end && end >= other.start
    }
  }

  datatype CompressedBlock = CompressedBlock(range: TimeRange, timestamps: seq<byte>, values: seq<byte>,
                                             stringData: seq<byte>, pointCount: nat)

  function Timestamps(points: seq<DataPoint>): (r: seq<int>)
    ensures |r| == |points|
  {
    seq(|points|, i requires 0 <= i < |points| => points[i].ts)
  }

  function Values(points: seq<DataPoint>): (r: seq<VC.Value>)
    ensures |r| == |points|
  {
    seq(|points|, i requires 0 <= i < |points| => points[i].value)
  }

  /** The block holds the codes of these points. */
  ghost predicate Compressed(block: CompressedBlock, points: seq<DataPoint>) {
    && points != []
    && block.pointCount == |points|
    && block.range == TimeRange(points[0].ts, points[|points| - 1].ts)
    && TS.Encoded(block.timestamps, Timestamps(points))
    && VC.Encoded(block.values, Values(points))
    && block.stringData == VC.AllStrings(Values(points))
  }

  const EMPTY_BLOCK := CompressedBlock(TimeRange(0, 0), [], [], [], 0)

  class BlockCompressor {
    const tsComp: TS.TimestampCompressor

    constructor ()
      ensures fresh(tsComp)
    {
      tsComp := new TS.TimestampCompressor();
    }

    method Compress(points: seq<DataPoint>) returns (block: CompressedBlock)
      modifies tsComp
      ensures if points == [] then block == EMPTY_BLOCK else Compressed(block, points)
    {
      hide Unpack, TS.EncodeAll, TS.EncodeRest, VC.EncodeAll, VC.AllStrings, VC.ValueCode, TS.DeltaCode, ToBits;
      hide TimestampBits, ValueBits, StringBytes, VC.Next, PadLength;
      if points == [] {
        return EMPTY_BLOCK;
      }
      tsComp.Reset();
      var enc := new VC.ValueEncoder();
      ghost var tss, vs := Timestamps(points), Values(points);
      NothingEncoded(tss, vs);
      for i := 0 to |points|
        invariant fresh(enc) && tsComp.Valid() && enc.Valid()
        invariant tsComp.first == (i == 0)
        invariant TimestampBits(tsComp.Bits(), tsComp.prevTs, tsComp.prevDelta, tss, i)
        invariant ValueBits(enc.Bits(), enc.Predecessors(), vs, i)
        invariant StringBytes(enc.stringData, vs, i)
      {
        OneMoreTimestamp(tsComp.Bits(), tsComp.prevTs, tsComp.prevDelta, tss, i);
        OneMoreValue(enc.Bits(), enc.Predecessors(), enc.stringData, vs, i);
        tsComp.Encode(points[i].ts);
        enc.Encode(points[i].value);
      }
      AllEncoded(tsComp.Bits(), tsComp.prevTs, tsComp.prevDelta, tss, enc.Bits(), enc.Predecessors(), enc.stringData, vs);
      block := CompressedBlock(TimeRange(points[0].ts, points[|points| - 1].ts),
                               tsComp.buffer, enc.buffer, enc.stringData, |points|);
    }

    method Decompress(block: CompressedBlock) returns (result: seq<DataPoint>)
      ensures result == Decompressed(block)
    {
      hide TS.DecodeAll, VC.DecodeAll;
      var ts := TS.Decode(block.timestamps, block.pointCount);
      var vs := VC.Decode(block.values, block.stringData, block.pointCount);
      var n := if |ts| < |vs| then |ts| else |vs|;
      result := [];
      for i := 0 to n
        invariant result == Zip(ts, vs)[..i]
      {
        result := result + [DataPoint(ts[i], vs[i])];
      }
    }
  }

  // ---- the compressor's loop ----

  /** bits and (prevTs, prevDelta) are those of the encoder after the first i timestamps. */
  ghost predicate TimestampBits(bits: seq<bool>, prevTs: int, prevDelta: int, tss: seq<int>, i: nat)
    requires i <= |tss|
  {
    if i == 0 then bits == []
    else bits + TS.EncodeRest(prevTs, prevDelta, tss[i..]) == TS.EncodeAll(tss)
  }

  /** bits and p are those of the encoder after the first i values. */
  ghost predicate ValueBits(bits: seq<bool>, p: VC.Prev, vs: seq<VC.Value>, i: nat)
    requires i <= |vs|
  {
    bits + VC.EncodeAll(p, vs[i..]) == VC.EncodeAll(VC.START, vs)
  }

  ghost predicate StringBytes(strings: seq<byte>, vs: seq<VC.Value>, i: nat)
    requires i <= |vs|
  {
    strings + VC.AllStrings(vs[i..]) == VC.AllStrings(vs)
  }

  lemma NothingEncoded(tss: seq<int>, vs: seq<VC.Value>)
    ensures TimestampBits([], 0, 0, tss, 0) && ValueBits([], VC.START, vs, 0) && StringBytes([], vs, 0)
  {
    assert vs[0..] == vs;
  }

  lemma OneMoreTimestamp(bits: seq<bool>, prevTs: int, prevDelta: int, tss: seq<int>, i: nat)
    requires i < |tss| && TimestampBits(bits, prevTs, prevDelta, tss, i)
    ensures i == 0 ==> TimestampBits(ToBits(ToU64(tss[0]), 64), tss[0], 0, tss, 1)
    ensures i > 0 ==>
              var delta := tss[i] - prevTs;
              TimestampBits(bits + TS.DeltaCode(delta - prevDelta), tss[i], delta, tss, i + 1)
  {
    hide ToBits, TS.DeltaCode;
    assert tss[i..][1..] == tss[i + 1..];
  }

  lemma OneMoreValue(bits: seq<bool>, p: VC.Prev, strings: seq<byte>, vs: seq<VC.Value>, i: nat)
    requires i < |vs| && ValueBits(bits, p, vs, i) && StringBytes(strings, vs, i)
    ensures ValueBits(bits + VC.ValueCode(p, vs[i]), VC.Next(p, vs[i]), vs, i + 1)
    ensures StringBytes(strings + if vs[i].Str? then vs[i].s else [], vs, i + 1)
  {
    hide VC.ValueCode, VC.Next;
    assert vs[i..][1..] == vs[i + 1..];
  }

  lemma AllEncoded(bits: seq<bool>, prevTs: int, prevDelta: int, tss: seq<int>,
                   vbits: seq<bool>, p: VC.Prev, strings: seq<byte>, vs: seq<VC.Value>)
    requires |tss| == |vs| > 0
    requires TimestampBits(bits, prevTs, prevDelta, tss, |tss|)
    requires ValueBits(vbits, p, vs, |vs|) && StringBytes(strings, vs, |vs|)
    ensures bits == TS.EncodeAll(tss) && vbits == VC.EncodeAll(VC.START, vs) && strings == VC.AllStrings(vs)
  {
    assert tss[|tss|..] == [] && vs[|vs|..] == [];
  }

  // ---- reading a block ----

  function Zip(tss: seq<int>, vs: seq<VC.Value>): (r: seq<DataPoint>)
    ensures |r| == if |tss| < |vs| then |tss| else |vs|
  {
    seq(if |tss| < |vs| then |tss| else |vs|, i requires 0 <= i < |tss| && i < |vs| => DataPoint(tss[i], vs[i]))
  }

  function Decompressed(block: CompressedBlock): seq<DataPoint> {
    Zip(TS.DecodeAll(block.timestamps, block.pointCount),
        VC.DecodeAll(block.values, block.stringData, block.pointCount))
  }

  ghost predicate AllFit(points: seq<DataPoint>) {
    points != [] ==> TS.AllFit(points[0].ts, 0, Timestamps(points)[1..])
  }

  /** With its count and its strings, a block gives back its points exactly when every
      delta-of-delta fits in 32 bits and every string is shorter than 2^32 bytes. */
  lemma BlockRoundTrip(points: seq<DataPoint>, block: CompressedBlock)
    requires Compressed(block, points) && -TWO_63 <= points[0].ts < TWO_63
    ensures Decompressed(block) == points <==> AllFit(points) && VC.ShortStrings(Values(points))
  {
    hide TS.DecodeAll, VC.DecodeAll, TS.Encoded, VC.Encoded, TS.AllFit, VC.LookedAll, VC.AllStrings, VC.ShortStrings;
    var tss, vs := Timestamps(points), Values(points);
    TS.TimestampRoundTrip(block.timestamps, tss);
    VC.CountedValues(block.values, vs, block.stringData);
    VC.ValuesRoundTrip(block.values, vs);
    var dts, dvs := TS.DecodeAll(block.timestamps, |points|), VC.DecodeAll(block.values, block.stringData, |points|);
    ZipExact(points, dts, dvs);
  }

  /** The block of no points gives back none. */
  lemma EmptyBlock()
    ensures Decompressed(EMPTY_BLOCK) == []
  {
  }

  lemma ZipExact(points: seq<DataPoint>, tss: seq<int>, vs: seq<VC.Value>)
    requires |tss| == |vs| == |points|
    ensures Zip(tss, vs) == points <==> tss == Timestamps(points) && vs == Values(points)
  {
  }

  // ---- reading a block from a file, where neither the count nor the strings are kept ----

  function Stored(points: seq<DataPoint>): (r: seq<DataPoint>)
    ensures |r| == |points|
  {
    seq(|points|, i requires 0 <= i < |points| => DataPoint(points[i].ts, VC.WithoutString(points[i].value)))
  }

  /** How many points the padding of the two bit strings decodes to. */
  ghost function Phantoms(points: seq<DataPoint>): (k: nat)
    ensures k <= 3
  {
    var a := PadLength(|TS.EncodeAll(Timestamps(points))|);
    var b := (PadLength(|VC.EncodeAll(VC.START, Values(points))|) + 2) / 3;
    if a < b then a else b
  }

  ghost function PhantomPoints(points: seq<DataPoint>): (r: seq<DataPoint>)
    requires points != []
    ensures |r| == Phantoms(points)
  {
    var (last, delta) := TS.Last(Timestamps(points)[1..], points[0].ts, 0);
    var value := VC.Double(VC.PrevAfter(VC.START, Values(points)).double);
    seq(Phantoms(points), (j: nat) => DataPoint(last + (j + 1) * delta, value))
  }

  ghost predicate SameBytes(file: CompressedBlock, block: CompressedBlock) {
    file.timestamps == block.timestamps && file.values == block.values && file.stringData == [] && file.pointCount == 0
  }

  /** Read without its count and strings, a block gives its points, strings emptied, followed by at
      most three phantom points that go on with the last delta. */
  lemma UncountedBlock(points: seq<DataPoint>, block: CompressedBlock, file: CompressedBlock)
    requires Compressed(block, points) && -TWO_63 <= points[0].ts < TWO_63 && AllFit(points)
    requires SameBytes(file, block)
    ensures Decompressed(file) == Stored(points) + PhantomPoints(points)
  {
    hide TS.DecodeAll, VC.DecodeAll, TS.EncodeAll, VC.EncodeAll, TS.AllFit, VC.LookedAll, VC.AllStrings;
    hide VC.PrevAfter, TS.Last, Unpack;
    var tss, vs := Timestamps(points), Values(points);
    TS.UncountedTimestamps(block.timestamps, tss);
    VC.UncountedValues(block.values, vs);
    var a, b := PadLength(|TS.EncodeAll(tss)|), (PadLength(|VC.EncodeAll(VC.START, vs)|) + 2) / 3;
    var (last, delta) := TS.Last(tss[1..], tss[0], 0);
    var extra := VC.Double(VC.PrevAfter(VC.START, vs).double);
    var dts, dvs := tss + TS.Extras(last, delta, a), VC.LookedAll(vs, [], 0) + seq(b, _ => extra);
    var r := Stored(points) + PhantomPoints(points);
    forall i | 0 <= i < |r|
      ensures Zip(dts, dvs)[i] == r[i]
    {
      if i < |points| {
        VC.LookedInNothing(vs, 0, i);
      } else {
        TS.ExtrasAt(last, delta, a, i - |points|);
      }
    }
    assert Zip(dts, dvs) == r;
  }
}
