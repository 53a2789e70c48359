/** What a time-range read returns from a file that was written block by block from points.

    The file keeps neither the point count nor the strings of a block, so a block comes back with its
    strings emptied and with up to three phantom points behind it. */
module RangeReads {
  import opened Words
  import opened BlockCodec
  import opened SSTable
  import opened TimeOrder
  import TS = TimestampCodec
  import VC = ValueCodec

  /** The block was compressed from these points, and its parts fit the lengths of the format. */
  ghost predicate Holds(b: CompressedBlock, points: seq<DataPoint>) {
    && Compressed(b, points) && AllFit(points)
    && (forall p :: p in points ==> -TWO_63 <= p.ts < TWO_63)
    && |b.timestamps| < TWO_32 && |b.values| < TWO_32
  }

  lemma BlockReadBack(before: seq<byte>, b: CompressedBlock, after: seq<byte>)
    requires |b.timestamps| < TWO_32 && |b.values| < TWO_32
    ensures SameBytes(ReadBlock(before + BlockBytes(b) + after, |before|), b)
  {
    hide ToBytes, FromBytes, BlockBytes, Cut, Pow2, ReadFill;
    var s, pos, ts, vs := before + BlockBytes(b) + after, |before|, b.timestamps, b.values;
    CutShort(ts);
    CutShort(vs);
    BlockFields(before, b, after);
    Pow2Values();
    StoredWord(s, pos + 16, 4, |ts|);
    StoredWord(s, pos + 20 + |ts|, 4, |vs|);
    ReadInside(s, pos + 20, |ts|);
    ReadInside(s, pos + 24 + |ts|, |vs|);
  }

  lemma CutShort(s: seq<byte>)
    requires |s| < TWO_32
    ensures Cut(s) == s
  {
  }

  lemma ReadInside(s: seq<byte>, pos: nat, n: nat)
    requires pos + n <= |s|
    ensures ReadFill(s, pos, n) == s[pos..pos + n]
  {
  }

  /** What a block contributes to a read. */
  ghost function Contribution(points: seq<DataPoint>, range: TimeRange): seq<DataPoint> {
    if points == [] then []
    else if TimeRange(points[0].ts, points[|points| - 1].ts).Overlaps(range)
    then Filter(Stored(points) + PhantomPoints(points), range)
    else []
  }

  ghost function Contributions(pointss: seq<seq<DataPoint>>, range: TimeRange): seq<DataPoint> {
    if pointss == [] then [] else Contribution(pointss[0], range) + Contributions(pointss[1..], range)
  }

  lemma OneBlock(before: seq<byte>, b: CompressedBlock, after: seq<byte>, points: seq<DataPoint>, range: TimeRange)
    requires Holds(b, points)
    ensures (if b.range.Overlaps(range)
             then Filter(Decompressed(ReadBlock(before + BlockBytes(b) + after, |before|)), range) else [])
         == Contribution(points, range)
  {
    hide BlockBytes, ReadBlock, Filter, Decompressed, SameBytes, AllFit;
    BlockRange(b, points);
    assert points[0] in points;
    BlockReadBack(before, b, after);
    UncountedBlock(points, b, ReadBlock(before + BlockBytes(b) + after, |before|));
  }

  lemma {:induction false} ReadBlocks(before: seq<byte>, blocks: seq<CompressedBlock>, after: seq<byte>,
                                      pointss: seq<seq<DataPoint>>, range: TimeRange)
    requires |pointss| == |blocks|
    requires forall i :: 0 <= i < |blocks| ==> Holds(blocks[i], pointss[i])
    ensures RangeOf(before + BlocksBytes(blocks) + after, Indices(|before|, blocks), range)
         == Contributions(pointss, range)
    decreases |blocks|
  {
    hide BlockBytes, ReadBlock, Filter, Decompressed, Holds, Contribution;
    if blocks != [] {
      var b, rest := blocks[0], BlocksBytes(blocks[1..]) + after;
      var s, before' := before + BlocksBytes(blocks) + after, before + BlockBytes(b);
      assert s == before + BlockBytes(b) + rest && s == before' + BlocksBytes(blocks[1..]) + after;
      OneBlock(before, b, rest, pointss[0], range);
      ReadBlocks(before', blocks[1..], after, pointss[1..], range);
    }
  }

  lemma BlockRange(b: CompressedBlock, points: seq<DataPoint>)
    requires Compressed(b, points)
    ensures points != [] && b.range == TimeRange(points[0].ts, points[|points| - 1].ts)
  {
  }

  /** Reading a closed file. */
  lemma ReadWrittenFile(blocks: seq<CompressedBlock>, pointss: seq<seq<DataPoint>>, range: TimeRange)
    requires |pointss| == |blocks|
    requires forall i :: 0 <= i < |blocks| ==> Holds(blocks[i], pointss[i])
    ensures RangeOf(FileBytes(blocks), Indices(HEADER, blocks), range) == Contributions(pointss, range)
  {
    hide HeaderBytes, BlocksBytes, ToBytes, Holds, RangeOf, Indices, Contributions;
    var crc := ToBytes(Wal.Checksum32(DataBytes(blocks)), 4);
    ReadBlocks(HeaderBytes(|blocks|), blocks, crc, pointss, range);
  }

  // ---- one block of strictly increasing numeric points ----

  ghost predicate Numeric(points: seq<DataPoint>) {
    forall p :: p in points ==> !p.value.Str?
  }

  lemma StoredNumeric(points: seq<DataPoint>)
    requires Numeric(points)
    ensures Stored(points) == points
  {
  }

  lemma {:induction false} FilterNone(points: seq<DataPoint>, range: TimeRange)
    ensures Filter(points, range) == [] <==> forall p :: p in points ==> !range.Contains(p.ts)
  {
    if points != [] {
      FilterNone(points[1..], range);
      assert forall p :: p in points <==> p == points[0] || p in points[1..];
    }
  }

  /** Some phantom of the block falls in the range of a read that visits the block. */
  ghost predicate PhantomIn(points: seq<DataPoint>, range: TimeRange)
    requires points != []
  {
    && TimeRange(points[0].ts, points[|points| - 1].ts).Overlaps(range)
    && exists p :: p in PhantomPoints(points) && range.Contains(p.ts)
  }

  /** The points of all blocks. */
  function Flatten(pointss: seq<seq<DataPoint>>): seq<DataPoint> {
    if pointss == [] then [] else pointss[0] + Flatten(pointss[1..])
  }

  /** The blocks were compressed from numbers at strictly increasing times, each for itself. */
  ghost predicate Ordered(blocks: seq<CompressedBlock>, pointss: seq<seq<DataPoint>>) {
    |pointss| == |blocks| && forall i :: 0 <= i < |blocks| ==>
      Holds(blocks[i], pointss[i]) && pointss[i] != [] && Increasing(pointss[i]) && Numeric(pointss[i])
  }

  /** A read of a file is exact if and only if no block that overlaps the range has a phantom in it. */
  lemma ReadExactIff(blocks: seq<CompressedBlock>, pointss: seq<seq<DataPoint>>, range: TimeRange)
    requires Ordered(blocks, pointss)
    ensures RangeOf(FileBytes(blocks), Indices(HEADER, blocks), range) == Filter(Flatten(pointss), range)
       <==> forall i :: 0 <= i < |pointss| ==> !PhantomIn(pointss[i], range)
  {
    hide Holds, Filter, RangeOf, FileBytes, Indices, Flatten, Contributions, PhantomIn;
    ReadWrittenFile(blocks, pointss, range);
    ContributionsIff(pointss, range);
  }

  lemma {:induction false} ContributionsIff(pointss: seq<seq<DataPoint>>, range: TimeRange)
    requires forall i :: 0 <= i < |pointss| ==> pointss[i] != [] && Increasing(pointss[i]) && Numeric(pointss[i])
    ensures var read, exact := Contributions(pointss, range), Filter(Flatten(pointss), range);
      && |read| >= |exact|
      && (read == exact <==> forall i :: 0 <= i < |pointss| ==> !PhantomIn(pointss[i], range))
      && (read == exact <==> |read| == |exact|)
    decreases |pointss|
  {
    hide Filter, Contribution, PhantomIn, Increasing, Numeric;
    if pointss != [] {
      var first, rest := pointss[0], pointss[1..];
      ContributionsIff(rest, range);
      OneContribution(first, range);
      FilterConcat(first, Flatten(rest), range);
      assert forall i :: 0 <= i < |rest| ==> rest[i] == pointss[i + 1];
      assert (forall i :: 0 <= i < |pointss| ==> !PhantomIn(pointss[i], range))
        <==> !PhantomIn(first, range) && forall i :: 0 <= i < |rest| ==> !PhantomIn(rest[i], range);
      Longer(Contribution(first, range), Filter(first, range), Contributions(rest, range), Filter(Flatten(rest), range));
    } else {
      assert Flatten(pointss) == [];
      FilterNone([], range);
    }
  }

  lemma Longer(a: seq<DataPoint>, b: seq<DataPoint>, c: seq<DataPoint>, d: seq<DataPoint>)
    requires |a| >= |b| && |c| >= |d| && (a == b <==> |a| == |b|) && (c == d <==> |c| == |d|)
    ensures a + c == b + d <==> a == b && c == d
    ensures |a + c| == |b + d| <==> a == b && c == d
  {
    assert a + c == b + d ==> |a + c| == |b + d|;
  }

  /** A block contributes its own points in the range and its phantoms in the range. */
  lemma OneContribution(points: seq<DataPoint>, range: TimeRange)
    requires points != [] && Increasing(points) && Numeric(points)
    ensures var read, exact := Contribution(points, range), Filter(points, range);
      && |read| >= |exact|
      && (read == exact <==> !PhantomIn(points, range))
      && (read == exact <==> |read| == |exact|)
  {
    hide Filter, PhantomPoints, Stored, Increasing, Numeric;
    var phantoms := PhantomPoints(points);
    StoredNumeric(points);
    FilterConcat(points, phantoms, range);
    FilterNone(phantoms, range);
    FilterNone(points, range);
    if !TimeRange(points[0].ts, points[|points| - 1].ts).Overlaps(range) {
      NothingOutside(points, range);
    }
  }

  lemma NothingOutside(points: seq<DataPoint>, range: TimeRange)
    requires points != [] && Increasing(points)
    requires !TimeRange(points[0].ts, points[|points| - 1].ts).Overlaps(range)
    ensures forall p :: p in points ==> !range.Contains(p.ts)
  {
  }

  /** Two ranges overlap if and only if they share an instant. */
  lemma OverlapIff(a: TimeRange, b: TimeRange)
    requires a.start <= a.end && b.start <= b.end
    ensures a.Overlaps(b) <==> exists ts :: a.Contains(ts) && b.Contains(ts)
    ensures forall ts :: a.Contains(ts) <==> a.start <= ts <= a.end
  {
    if a.Overlaps(b) {
      var ts := if a.start <= b.start then b.start else a.start;
      assert a.Contains(ts) && b.Contains(ts);
    }
  }

  /** The range of a block is the smallest one that holds its points. */
  lemma BlockRangeIsHull(b: CompressedBlock, points: seq<DataPoint>, from: int, to: int)
    requires Compressed(b, points) && Increasing(points)
    ensures from <= b.range.start && b.range.end <= to <==> forall p :: p in points ==> from <= p.ts <= to
  {
    BlockRange(b, points);
    hide Compressed;
    assert points[0] in points && points[|points| - 1] in points;
  }

  /** So a range that ends no later than every block that it overlaps is read exactly. */
  lemma ReadExact(blocks: seq<CompressedBlock>, pointss: seq<seq<DataPoint>>, range: TimeRange)
    requires Ordered(blocks, pointss)
    requires forall i :: 0 <= i < |pointss| ==>
      var points := pointss[i];
      TimeRange(points[0].ts, points[|points| - 1].ts).Overlaps(range) ==> range.end <= points[|points| - 1].ts
    ensures RangeOf(FileBytes(blocks), Indices(HEADER, blocks), range) == Filter(Flatten(pointss), range)
  {
    hide Holds, Filter, RangeOf, FileBytes, Indices, Flatten, PhantomIn, Increasing;
    ReadExactIff(blocks, pointss, range);
    forall i | 0 <= i < |pointss|
      ensures !PhantomIn(pointss[i], range)
    {
      PhantomsLate(pointss[i], blocks[i]);
      NoLatePhantom(pointss[i], range);
    }
  }

  /** A compaction reads all times from 0 on. It reads a file exactly if and only if none of its blocks
      that reach 0 has a phantom whose time is a 64-bit one. */
  lemma CompactionReadsExactly(blocks: seq<CompressedBlock>, pointss: seq<seq<DataPoint>>)
    requires Ordered(blocks, pointss)
    ensures RangeOf(FileBytes(blocks), Indices(HEADER, blocks), TimeRange(0, INT64_MAX))
         == Filter(Flatten(pointss), TimeRange(0, INT64_MAX))
       <==> forall i, p :: 0 <= i < |pointss| && pointss[i][|pointss[i]| - 1].ts >= 0 && p in PhantomPoints(pointss[i]) ==>
              p.ts > INT64_MAX
  {
    hide Holds, Filter, RangeOf, FileBytes, Indices, Flatten, Increasing, PhantomPoints;
    var all := TimeRange(0, INT64_MAX);
    ReadExactIff(blocks, pointss, all);
    forall i | 0 <= i < |pointss|
      ensures !PhantomIn(pointss[i], all)
         <==> pointss[i][|pointss[i]| - 1].ts >= 0 ==> forall p :: p in PhantomPoints(pointss[i]) ==> p.ts > INT64_MAX
    {
      PhantomsLate(pointss[i], blocks[i]);
      FirstIn64(blocks[i], pointss[i]);
    }
  }

  lemma FirstIn64(b: CompressedBlock, points: seq<DataPoint>)
    requires Holds(b, points)
    ensures points != [] && points[0].ts <= INT64_MAX
  {
    hide Compressed, AllFit;
    BlockRange(b, points);
    assert points[0] in points;
  }

  lemma NoLatePhantom(points: seq<DataPoint>, range: TimeRange)
    requires points != []
    requires TimeRange(points[0].ts, points[|points| - 1].ts).Overlaps(range) ==> range.end <= points[|points| - 1].ts
    requires forall p :: p in PhantomPoints(points) ==> p.ts > points[|points| - 1].ts
    ensures !PhantomIn(points, range)
  {
    hide PhantomPoints;
  }

  /** Phantoms lie after the block. A block of one point has none, as its timestamp fills its bytes. */
  lemma PhantomsLate(points: seq<DataPoint>, b: CompressedBlock)
    requires Holds(b, points) && Increasing(points)
    ensures points != [] && forall p :: p in PhantomPoints(points) ==> p.ts > points[|points| - 1].ts
  {
    hide Compressed, AllFit, Phantoms, TS.Last, VC.PrevAfter;
    BlockRange(b, points);
    var tss, k := Timestamps(points), Phantoms(points);
    var (last, delta) := TS.Last(tss[1..], tss[0], 0);
    LastOf(tss);
    if |tss| == 1 {
      OnePoint(points);
    } else {
      assert points[|points| - 2].ts < points[|points| - 1].ts;
      forall j: nat | j < k
        ensures PhantomPoints(points)[j].ts > last
      {
        Multiple(j, delta);
      }
    }
  }

  lemma Multiple(j: nat, delta: int)
    requires delta > 0
    ensures (j + 1) * delta > 0
  {
  }

  lemma OnePoint(points: seq<DataPoint>)
    requires |points| == 1
    ensures Phantoms(points) == 0
  {
  }

  lemma {:induction false} LastOf(tss: seq<int>)
    requires tss != []
    ensures var (last, delta) := TS.Last(tss[1..], tss[0], 0);
            last == tss[|tss| - 1] && delta == if |tss| == 1 then 0 else last - tss[|tss| - 2]
  {
    LastFrom(tss[1..], tss[0], 0);
  }

  lemma {:induction false} LastFrom(tss: seq<int>, ts: int, delta: int)
    ensures TS.Last(tss, ts, delta)
         == if tss == [] then (ts, delta)
            else (tss[|tss| - 1], tss[|tss| - 1] - if |tss| == 1 then ts else tss[|tss| - 2])
    decreases |tss|
  {
    if tss != [] {
      LastFrom(tss[1..], tss[0], tss[0] - ts);
    }
  }

  /** Reads that end later can see phantoms: of two equal values 50 apart, the file gives back a
      third 50 later. */
  lemma PhantomExample(w: uint64)
    ensures var points := [DataPoint(0, VC.Double(w)), DataPoint(50, VC.Double(w))];
            PhantomPoints(points) == [DataPoint(100, VC.Double(w))]
  {
    var points := [DataPoint(0, VC.Double(w)), DataPoint(50, VC.Double(w))];
    var tss, vs := Timestamps(points), Values(points);
    ExampleTimestamps();
    ExampleValues(w);
    assert tss == [0, 50] && vs == [VC.Double(w), VC.Double(w)];
    LastOf(tss);
  }

  lemma ExampleTimestamps()
    ensures |TS.EncodeAll([0, 50])| == 73
  {
  }

  lemma ExampleValues(w: uint64)
    ensures var vs := [VC.Double(w), VC.Double(w)];
            |VC.EncodeAll(VC.START, vs)| == 69 && VC.PrevAfter(VC.START, vs).double == w
  {
    hide VC.XorCode, VC.EncodeAll, VC.PrevAfter, ToBits;
    var v := VC.Double(w);
    var p := VC.Next(VC.START, v);
    SameAgain(w);
    Unroll2(VC.START, v, v);
    assert |VC.ValueCode(VC.START, v)| == 66;
    assert |VC.ValueCode(p, v)| == 3;
  }

  lemma SameAgain(w: uint64)
    ensures VC.XorCode(w, w) == [false]
  {
    hide VC.Xor64;
    VC.XorUndone(w, w);
  }

  lemma Unroll2(p: VC.Prev, v: VC.Value, u: VC.Value)
    ensures |VC.EncodeAll(p, [v, u])| == |VC.ValueCode(p, v)| + |VC.ValueCode(VC.Next(p, v), u)|
    ensures VC.PrevAfter(p, [v, u]) == VC.Next(VC.Next(p, v), u)
  {
    hide VC.ValueCode, VC.Next;
    var two, one: seq<VC.Value>, none: seq<VC.Value> := [v, u], [u], [];
    assert two[1..] == one && one[1..] == none;
    var q := VC.Next(p, v);
    assert VC.EncodeAll(p, two) == VC.ValueCode(p, v) + VC.EncodeAll(q, one);
    assert VC.EncodeAll(q, one) == VC.ValueCode(q, u) + VC.EncodeAll(VC.Next(q, u), none);
    assert VC.PrevAfter(p, two) == VC.PrevAfter(q, one) == VC.PrevAfter(VC.Next(q, u), none);
  }
}
