/** Sorted-string-table files (src/storage/sstable.cpp): a 32-byte header, the blocks, and a
    checksum of everything before it. */
module SSTable {
  import opened Words
  import opened BlockCodec
  import opened Crc32
  import Wal

  const HEADER: nat := 32
  const VERSION: nat := 2
  const MAGIC: seq<byte> := [0x4D, 0x49, 0x4E, 0x49, 0x54, 0x53, 0x44, 0x42]
  const INT64_MAX: int := TWO_63 - 1

  // ---- the format ----

  function HeaderBytes(count: nat): (h: seq<byte>)
    ensures |h| == HEADER
  {
    MAGIC + ToBytes(VERSION, 4) + ToBytes(0, 2) + ToBytes(count, 8) + seq(10, _ => 0)
  }

  /** Lengths are stored in 32 bits, and only that many bytes are written. */
  function Cut(s: seq<byte>): (r: seq<byte>)
    ensures |r| < TWO_32
  {
    s[..|s| % TWO_32]
  }

  function BlockBytes(b: CompressedBlock): (s: seq<byte>)
    ensures |s| == 24 + |Cut(b.timestamps)| + |Cut(b.values)|
  {
    ToBytes(ToU64(b.range.start), 8) + ToBytes(ToU64(b.range.end), 8)
    + ToBytes(|Cut(b.timestamps)|, 4) + Cut(b.timestamps)
    + ToBytes(|Cut(b.values)|, 4) + Cut(b.values)
  }

  function BlocksBytes(blocks: seq<CompressedBlock>): seq<byte> {
    if blocks == [] then [] else BlockBytes(blocks[0]) + BlocksBytes(blocks[1..])
  }

  function DataBytes(blocks: seq<CompressedBlock>): (s: seq<byte>)
    ensures |s| >= HEADER
  {
    HeaderBytes(|blocks|) + BlocksBytes(blocks)
  }

  function FileBytes(blocks: seq<CompressedBlock>): (s: seq<byte>)
    ensures |s| >= HEADER + 4
  {
    DataBytes(blocks) + ToBytes(Wal.Checksum32(DataBytes(blocks)), 4)
  }

  lemma {:induction false} BlocksBytesSnoc(blocks: seq<CompressedBlock>, b: CompressedBlock)
    ensures BlocksBytes(blocks + [b]) == BlocksBytes(blocks) + BlockBytes(b)
  {
    hide BlockBytes;
    if blocks == [] {
      assert blocks + [b] == [b];
    } else {
      assert (blocks + [b])[1..] == blocks[1..] + [b];
      BlocksBytesSnoc(blocks[1..], b);
    }
  }

  // ---- the range of a file ----

  /** The range kept by writer and reader, which starts as (INT64_MAX, 0). */
  function Extend(r: TimeRange, b: TimeRange): TimeRange {
    TimeRange(if r.start == INT64_MAX || b.start < r.start then b.start else r.start,
              if b.end > r.end then b.end else r.end)
  }

  const NO_RANGE := TimeRange(INT64_MAX, 0)

  function RangeFrom(r: TimeRange, ranges: seq<TimeRange>): TimeRange
    decreases |ranges|
  {
    if ranges == [] then r else RangeFrom(Extend(r, ranges[0]), ranges[1..])
  }

  // ---- the writer ----

  /** A write at a file position, over what is there. */
  function WriteAt(file: seq<byte>, pos: nat, data: seq<byte>): (r: seq<byte>)
    requires pos <= |file|
  {
    file[..pos] + data + if pos + |data| <= |file| then file[pos + |data|..] else []
  }

  class SSTableWriter {
    var file: seq<byte>
    var pos: nat
    var fileSize: nat
    var dataEnd: nat
    var blockCount: nat
    var blockOffsets: seq<nat>
    var isOpen: bool
    var range: TimeRange
    /** The blocks added so far. */
    ghost var blocks: seq<CompressedBlock>

    ghost predicate Valid()
      reads this
    {
      && isOpen
      && pos == |file|
      && file == HeaderBytes(0) + BlocksBytes(blocks)
      && blockCount == |blocks|
      && blockOffsets == Offsets(HEADER, blocks)
      && range == RangeFrom(NO_RANGE, Ranges(blocks))
    }

    constructor ()
      ensures !isOpen
    {
      file, pos, fileSize, dataEnd, blockCount, blockOffsets := [], 0, 0, 0, 0, [];
      isOpen, range, blocks := false, NO_RANGE, [];
    }

    method Write(data: seq<byte>)
      requires pos <= |file|
      modifies this`file, this`pos
      ensures file == WriteAt(old(file), old(pos), data) && pos == old(pos) + |data| <= |file|
      ensures old(pos) == |old(file)| ==> file == old(file) + data
    {
      file := WriteAt(file, pos, data);
      pos := pos + |data|;
    }

    /** Creates or truncates the file. */
    method Open()
      requires blockCount == 0 && blockOffsets == [] && range == NO_RANGE
      modifies this
      ensures Valid() && blocks == [] && fileSize == HEADER
    {
      hide ToBytes;
      file, pos := [], 0;
      Write(MAGIC + ToBytes(VERSION, 4) + seq(20, _ => 0));
      fileSize, isOpen, blocks := 32, true, [];
      FreshHeader();
    }

    method AddBlock(block: CompressedBlock)
      requires isOpen ==> Valid()
      modifies this
      ensures isOpen == old(isOpen)
      ensures if isOpen then Valid() && blocks == old(blocks) + [block] else blocks == old(blocks) && file == old(file)
    {
      hide ToBytes, HeaderBytes, BlocksBytes, Offsets, RangeFrom, Ranges, WriteAt, BlockBytes;
      if !isOpen {
        return;
      }
      ghost var before := file;
      blockOffsets := blockOffsets + [pos];
      Write(ToBytes(ToU64(block.range.start), 8));
      Write(ToBytes(ToU64(block.range.end), 8));
      var tsLen, valLen := |block.timestamps| % TWO_32, |block.values| % TWO_32;
      Write(ToBytes(tsLen, 4));
      Write(block.timestamps[..tsLen]);
      Write(ToBytes(valLen, 4));
      Write(block.values[..valLen]);
      Parts(before, block);
      range := Extend(range, block.range);
      blockCount := blockCount + 1;
      BlocksBytesSnoc(blocks, block);
      OffsetsSnoc(HEADER, blocks, block);
      RangeSnoc(blocks, block);
      assert before == HeaderBytes(0) + BlocksBytes(blocks);
      blocks := blocks + [block];
      assert file == HeaderBytes(0) + BlocksBytes(blocks);
    }

    /** Fills in the tag length and the block count of the header. */
    method WriteCount()
      requires Valid()
      modifies this`file, this`pos
      ensures file == DataBytes(blocks) && |file| == old(pos)
    {
      hide ToBytes, BlocksBytes, Offsets, RangeFrom, Ranges, HeaderBytes, WriteAt, DataBytes;
      pos := 12;
      Write(ToBytes(0, 2));
      Write(ToBytes(blockCount, 8));
      CountedHeader(blocks);
    }

    /** Appends the checksum of everything written. */
    method WriteChecksum(table: seq<bv32>)
      requires IsTable(table) && dataEnd == |file|
      modifies this`file, this`pos
      ensures file == old(file) + ToBytes(Wal.Checksum32(old(file)), 4)
    {
      hide IsTable, ToBytes, BitSerial, WriteAt;
      pos := 0;
      WholeFile(file);
      var crc := ChunkedChecksum(table, file, dataEnd);
      pos := |file|;
      Wal.WordBound(crc);
      Write(ToBytes(crc as int, 4));
    }

    method Close(table: seq<bv32>)
      requires isOpen ==> Valid()
      requires IsTable(table)
      modifies this
      ensures !isOpen && file == if old(isOpen) then FileBytes(blocks) else old(file)
      ensures old(isOpen) ==> fileSize == |file|
      ensures blocks == old(blocks) && blockOffsets == old(blockOffsets) && range == old(range)
    {
      hide IsTable, ToBytes, BlocksBytes, Offsets, RangeFrom, Ranges, HeaderBytes, DataBytes, Wal.Checksum32;
      if isOpen {
        dataEnd := pos;
        WriteCount();
        WriteChecksum(table);
        fileSize := dataEnd + 4;
        isOpen := false;
      }
    }
  }

  lemma WholeFile(file: seq<byte>)
    ensures file[..|file|] == file
  {
  }

  lemma Parts(before: seq<byte>, b: CompressedBlock)
    ensures before + ToBytes(ToU64(b.range.start), 8) + ToBytes(ToU64(b.range.end), 8)
          + ToBytes(|b.timestamps| % TWO_32, 4) + Cut(b.timestamps)
          + ToBytes(|b.values| % TWO_32, 4) + Cut(b.values)
         == before + BlockBytes(b)
  {
    hide ToBytes;
  }

  lemma FreshHeader()
    ensures HeaderBytes(0) == MAGIC + ToBytes(VERSION, 4) + seq(20, _ => 0)
  {
  }

  /** Writing the tag length and the count over a fresh header. */
  lemma CountedHeader(blocks: seq<CompressedBlock>)
    ensures WriteAt(WriteAt(HeaderBytes(0) + BlocksBytes(blocks), 12, ToBytes(0, 2)), 14, ToBytes(|blocks|, 8))
         == DataBytes(blocks)
    ensures |DataBytes(blocks)| == HEADER + |BlocksBytes(blocks)|
  {
    hide ToBytes, BlocksBytes;
  }

  function Ranges(blocks: seq<CompressedBlock>): (r: seq<TimeRange>)
    ensures |r| == |blocks|
  {
    seq(|blocks|, i requires 0 <= i < |blocks| => blocks[i].range)
  }

  /** Where each block starts when the first one starts at pos. */
  function Offsets(pos: nat, blocks: seq<CompressedBlock>): (r: seq<nat>)
    ensures |r| == |blocks|
    decreases |blocks|
  {
    if blocks == [] then [] else [pos] + Offsets(pos + |BlockBytes(blocks[0])|, blocks[1..])
  }

  lemma {:induction false} OffsetsSnoc(pos: nat, blocks: seq<CompressedBlock>, b: CompressedBlock)
    ensures Offsets(pos, blocks + [b]) == Offsets(pos, blocks) + [pos + |BlocksBytes(blocks)|]
    decreases |blocks|
  {
    hide BlockBytes;
    if blocks != [] {
      assert (blocks + [b])[1..] == blocks[1..] + [b];
      OffsetsSnoc(pos + |BlockBytes(blocks[0])|, blocks[1..], b);
    }
  }

  lemma {:induction false} RangeFromSnoc(r: TimeRange, ranges: seq<TimeRange>, b: TimeRange)
    ensures RangeFrom(r, ranges + [b]) == Extend(RangeFrom(r, ranges), b)
    decreases |ranges|
  {
    hide Extend;
    if ranges != [] {
      assert (ranges + [b])[1..] == ranges[1..] + [b];
      RangeFromSnoc(Extend(r, ranges[0]), ranges[1..], b);
    }
  }

  lemma RangeSnoc(blocks: seq<CompressedBlock>, b: CompressedBlock)
    ensures RangeFrom(NO_RANGE, Ranges(blocks + [b])) == Extend(RangeFrom(NO_RANGE, Ranges(blocks)), b.range)
  {
    assert Ranges(blocks + [b]) == Ranges(blocks) + [b.range];
    RangeFromSnoc(NO_RANGE, Ranges(blocks), b.range);
  }

  // ---- the reader ----

  datatype BlockIndex = BlockIndex(range: TimeRange, offset: nat, tsSize: nat, valSize: nat)

  function WordAt(file: seq<byte>, pos: nat, n: nat): nat
    requires pos + n <= |file|
  {
    FromBytes(file[pos..pos + n])
  }

  function TimestampAt(file: seq<byte>, pos: nat): int64
    requires pos + 8 <= |file|
  {
    FromU64(WordAt(file, pos, 8) % TWO_64)
  }

  /** The tag name and the number of blocks. */
  function ReadHeader(file: seq<byte>): Option<(seq<byte>, nat)> {
    if |file| < 8 || file[..8] != MAGIC then None
    else if |file| < 12 || WordAt(file, 8, 4) != VERSION then None
    else if |file| < 14 then None
    else
      var tagLen := WordAt(file, 12, 2);
      if |file| < 18 + tagLen then None
      else Some((file[14..14 + tagLen], WordAt(file, 14 + tagLen, 4)))
  }

  /** The block at pos, and where the next one starts; a skip may run past the end of the file. */
  function ReadIndex(file: seq<byte>, pos: nat): Option<(BlockIndex, nat)> {
    if pos + 20 > |file| then None
    else
      var tsLen := WordAt(file, pos + 16, 4);
      if pos + 24 + tsLen > |file| then None
      else
        var valLen := WordAt(file, pos + 20 + tsLen, 4);
        Some((BlockIndex(TimeRange(TimestampAt(file, pos), TimestampAt(file, pos + 8)), pos, tsLen, valLen),
              pos + 24 + tsLen + valLen))
  }

  function ReadIndices(file: seq<byte>, pos: nat, count: nat): Option<seq<BlockIndex>>
    decreases count
  {
    if count == 0 then Some([])
    else
      match ReadIndex(file, pos)
      case None => None
      case Some((index, next)) =>
        match ReadIndices(file, next, count - 1)
        case None => None
        case Some(rest) => Some([index] + rest)
  }

  predicate ChecksumMatches(file: seq<byte>) {
    |file| >= 4 && Wal.Checksum32(file[..|file| - 4]) == WordAt(file, |file| - 4, 4)
  }

  /** The tag name and the block index of a file that opens. */
  function Opened(file: seq<byte>): Option<(seq<byte>, seq<BlockIndex>)> {
    match ReadHeader(file)
    case None => None
    case Some((tag, count)) =>
      match ReadIndices(file, HEADER, count)
      case None => None
      case Some(blocks) => if ChecksumMatches(file) then Some((tag, blocks)) else None
  }

  function IndexRanges(blocks: seq<BlockIndex>): (r: seq<TimeRange>)
    ensures |r| == |blocks|
  {
    seq(|blocks|, i requires 0 <= i < |blocks| => blocks[i].range)
  }

  class SSTableReader {
    const file: seq<byte>
    var tagName: seq<byte>
    var range: TimeRange
    var blockCount: nat
    var blocks: seq<BlockIndex>
    var isOpen: bool

    constructor (contents: seq<byte>)
      ensures file == contents && !isOpen && blocks == [] && tagName == [] && range == NO_RANGE
    {
      file := contents;
      tagName, range, blockCount, blocks, isOpen := [], NO_RANGE, 0, [], false;
    }

    method Open(table: seq<bv32>) returns (ok: bool)
      requires IsTable(table) && !isOpen && blocks == [] && range == NO_RANGE
      modifies this
      ensures ok == isOpen == Opened(file).Some?
      ensures ok ==>
                && Opened(file) == Some((tagName, blocks))
                && range == RangeFrom(NO_RANGE, IndexRanges(blocks))
    {
      hide IsTable, ReadIndex, ReadIndices, ChecksumMatches, WordAt, RangeFrom, Extend;
      match ReadHeader(file) {
        case None => return false;
        case Some((tag, count)) =>
          tagName, blockCount := tag, count;
      }
      var pos := HEADER;
      ghost var all := ReadIndices(file, HEADER, blockCount);
      NoIndices(file, pos, []);
      PrependNothing(all);
      for i := 0 to blockCount
        invariant !isOpen && ReadHeader(file) == Some((tagName, blockCount))
        invariant Prepend(blocks, ReadIndices(file, pos, blockCount - i)) == all
        invariant range == RangeFrom(NO_RANGE, IndexRanges(blocks))
      {
        NextIndex(file, pos, blockCount - i, blocks);
        match ReadIndex(file, pos) {
          case None => return false;
          case Some((index, next)) =>
            IndexRangeSnoc(blocks, index);
            blocks := blocks + [index];
            range := Extend(range, index.range);
            pos := next;
        }
      }
      NoIndices(file, pos, blocks);
      var matches := VerifyChecksum(table);
      if !matches {
        return false;
      }
      isOpen := true;
      return true;
    }

    method VerifyChecksum(table: seq<bv32>) returns (ok: bool)
      requires IsTable(table)
      ensures ok == ChecksumMatches(file)
    {
      if |file| < 4 {
        return false;
      }
      var stored := WordAt(file, |file| - 4, 4);
      var computed := ChunkedChecksum(table, file, |file| - 4);
      return computed as int == stored;
    }

    method ReadRange(range: TimeRange) returns (result: seq<DataPoint>)
      ensures result == if isOpen then RangeOf(file, blocks, range) else []
    {
      hide ReadBlock, Filter, RangeOf;
      if !isOpen {
        return [];
      }
      var decompressor := new BlockCompressor();
      result := [];
      RangeStart(file, blocks, range);
      for i := 0 to |blocks|
        invariant result + RangeOf(file, blocks[i..], range) == RangeOf(file, blocks, range)
      {
        ghost var before := result;
        RangeNext(file, blocks, i, range);
        var index := blocks[i];
        if index.range.Overlaps(range) {
          var block := ReadBlock(file, index.offset);
          var points := decompressor.Decompress(block);
          assert points[0..] == points;
          for j := 0 to |points|
            invariant result + Filter(points[j..], range) == before + Filter(points, range)
          {
            FilterNext(result, points, j, range);
            if points[j].ts >= range.start && points[j].ts <= range.end {
              result := result + [points[j]];
            }
          }
          FilterEnd(result, points, range);
          assert result == before + Filter(points, range);
        }
        RangeJoin(file, blocks, i, range, before);
      }
      RangeEnd(result, file, blocks, range);
    }
  }

  lemma RangeStart(file: seq<byte>, blocks: seq<BlockIndex>, range: TimeRange)
    ensures [] + RangeOf(file, blocks[0..], range) == RangeOf(file, blocks, range)
  {
    assert blocks[0..] == blocks;
  }

  lemma RangeNext(file: seq<byte>, blocks: seq<BlockIndex>, i: nat, range: TimeRange)
    requires i < |blocks|
    ensures RangeOf(file, blocks[i..], range)
         == (if blocks[i].range.Overlaps(range) then Filter(Decompressed(ReadBlock(file, blocks[i].offset)), range) else [])
            + RangeOf(file, blocks[i + 1..], range)
  {
    assert blocks[i..][1..] == blocks[i + 1..];
  }

  lemma RangeJoin(file: seq<byte>, blocks: seq<BlockIndex>, i: nat, range: TimeRange, before: seq<DataPoint>)
    requires i < |blocks|
    ensures var part := if blocks[i].range.Overlaps(range)
                        then Filter(Decompressed(ReadBlock(file, blocks[i].offset)), range) else [];
            (before + part) + RangeOf(file, blocks[i + 1..], range) == before + RangeOf(file, blocks[i..], range)
  {
    hide ReadBlock, Filter, Decompressed, RangeOf;
    RangeNext(file, blocks, i, range);
  }

  lemma RangeEnd(result: seq<DataPoint>, file: seq<byte>, blocks: seq<BlockIndex>, range: TimeRange)
    ensures result + RangeOf(file, blocks[|blocks|..], range) == result
  {
  }

  lemma FilterNext(result: seq<DataPoint>, points: seq<DataPoint>, j: nat, range: TimeRange)
    requires j < |points|
    ensures result + Filter(points[j..], range)
         == (if range.Contains(points[j].ts) then result + [points[j]] else result) + Filter(points[j + 1..], range)
  {
    assert points[j..][1..] == points[j + 1..];
  }

  lemma FilterEnd(result: seq<DataPoint>, points: seq<DataPoint>, range: TimeRange)
    ensures result + Filter(points[|points|..], range) == result
  {
  }

  function Prepend(a: seq<BlockIndex>, rest: Option<seq<BlockIndex>>): Option<seq<BlockIndex>> {
    match rest
    case None => None
    case Some(b) => Some(a + b)
  }

  lemma NoIndices(file: seq<byte>, pos: nat, blocks: seq<BlockIndex>)
    ensures Prepend(blocks, ReadIndices(file, pos, 0)) == Some(blocks)
    ensures RangeFrom(NO_RANGE, IndexRanges([])) == NO_RANGE
  {
    assert blocks + [] == blocks;
  }

  lemma PrependNothing(rest: Option<seq<BlockIndex>>)
    ensures Prepend([], rest) == rest
  {
    if rest.Some? {
      assert [] + rest.value == rest.value;
    }
  }

  lemma NextIndex(file: seq<byte>, pos: nat, count: nat, before: seq<BlockIndex>)
    requires count > 0
    ensures match ReadIndex(file, pos)
            case None => ReadIndices(file, pos, count) == None
            case Some((index, next)) =>
              Prepend(before, ReadIndices(file, pos, count))
              == Prepend(before + [index], ReadIndices(file, next, count - 1))
  {
    hide ReadIndex;
    match ReadIndex(file, pos)
    case None =>
    case Some((index, next)) =>
      match ReadIndices(file, next, count - 1)
      case None =>
      case Some(rest) => AppendConcat(before, index, rest);
  }

  lemma IndexRangeSnoc(blocks: seq<BlockIndex>, index: BlockIndex)
    ensures RangeFrom(NO_RANGE, IndexRanges(blocks + [index]))
         == Extend(RangeFrom(NO_RANGE, IndexRanges(blocks)), index.range)
  {
    assert IndexRanges(blocks + [index]) == IndexRanges(blocks) + [index.range];
    RangeFromSnoc(NO_RANGE, IndexRanges(blocks), index.range);
  }

  // ---- reading what was written ----

  /** The index of a block that starts at pos. */
  function IndexOf(pos: nat, b: CompressedBlock): BlockIndex {
    BlockIndex(b.range, pos, |Cut(b.timestamps)|, |Cut(b.values)|)
  }

  function Indices(pos: nat, blocks: seq<CompressedBlock>): (r: seq<BlockIndex>)
    ensures |r| == |blocks|
    decreases |blocks|
  {
    if blocks == [] then []
    else [IndexOf(pos, blocks[0])] + Indices(pos + |BlockBytes(blocks[0])|, blocks[1..])
  }

  ghost predicate Times64(blocks: seq<CompressedBlock>) {
    forall b :: b in blocks ==> -TWO_63 <= b.range.start < TWO_63 && -TWO_63 <= b.range.end < TWO_63
  }

  lemma HeaderFields(count: nat, rest: seq<byte>)
    requires count < TWO_32
    ensures ReadHeader(HeaderBytes(count) + rest) == Some(([], count))
  {
    hide ToBytes, FromBytes;
    var s := HeaderBytes(count) + rest;
    assert s[..8] == MAGIC;
    assert s[8..12] == ToBytes(VERSION, 4);
    assert s[12..14] == ToBytes(0, 2);
    CountLow(count);
    assert s[14..18] == ToBytes(count, 8)[..4];
    assert s[14..14] == [];
    Pow2Values();
    assert Pow2(16) == 65536 by {
      Pow2Add(8, 8);
    }
    WordBytes(VERSION, 4);
    WordBytes(0, 2);
    WordBytes(count, 4);
  }

  /** The count is written as eight bytes and read as four. */
  lemma CountLow(count: nat)
    ensures ToBytes(count, 8)[..4] == ToBytes(count, 4)
  {
    LowBytes(count, 4, 8);
  }

  lemma {:induction false} LowBytes(x: nat, m: nat, n: nat)
    requires m <= n
    ensures ToBytes(x, n)[..m] == ToBytes(x, m)
  {
    if m > 0 {
      LowBytes(x / 256, m - 1, n - 1);
      assert ToBytes(x, n)[..m] == [x % 256] + ToBytes(x / 256, n - 1)[..m - 1];
    }
  }

  lemma IndexFields(before: seq<byte>, b: CompressedBlock, after: seq<byte>)
    requires Times64([b])
    ensures ReadIndex(before + BlockBytes(b) + after, |before|)
         == Some((IndexOf(|before|, b), |before| + |BlockBytes(b)|))
  {
    hide ToBytes, WordAt, Cut, BlockBytes, Pow2;
    var s, pos := before + BlockBytes(b) + after, |before|;
    var ts, vs := Cut(b.timestamps), Cut(b.values);
    assert b in [b];
    BlockFields(before, b, after);
    Pow2Values();
    StoredWord(s, pos, 8, ToU64(b.range.start));
    StoredWord(s, pos + 8, 8, ToU64(b.range.end));
    StoredWord(s, pos + 16, 4, |ts|);
    StoredWord(s, pos + 20 + |ts|, 4, |vs|);
    SignedRoundTrip(b.range.start);
    SignedRoundTrip(b.range.end);
  }

  lemma StoredWord(s: seq<byte>, pos: nat, n: nat, x: nat)
    requires pos + n <= |s| && s[pos..pos + n] == ToBytes(x, n) && x < Pow2(8 * n)
    ensures WordAt(s, pos, n) == x && FromBytes(ReadFill(s, pos, n)) == x
  {
    WordBytes(x, n);
  }

  lemma BlockFields(before: seq<byte>, b: CompressedBlock, after: seq<byte>)
    ensures var s, pos, ts, vs := before + BlockBytes(b) + after, |before|, Cut(b.timestamps), Cut(b.values);
            && pos + 24 + |ts| + |vs| <= |s|
            && s[pos..pos + 8] == ToBytes(ToU64(b.range.start), 8)
            && s[pos + 8..pos + 16] == ToBytes(ToU64(b.range.end), 8)
            && s[pos + 16..pos + 20] == ToBytes(|ts|, 4)
            && s[pos + 20..pos + 20 + |ts|] == ts
            && s[pos + 20 + |ts|..pos + 24 + |ts|] == ToBytes(|vs|, 4)
            && s[pos + 24 + |ts|..pos + 24 + |ts| + |vs|] == vs
  {
    hide ToBytes, Cut;
    var s, t, pos := before + BlockBytes(b) + after, BlockBytes(b), |before|;
    assert forall i :: 0 <= i < |t| ==> s[pos + i] == t[i];
  }

  lemma {:induction false} IndicesRead(before: seq<byte>, blocks: seq<CompressedBlock>, after: seq<byte>)
    requires Times64(blocks)
    ensures ReadIndices(before + BlocksBytes(blocks) + after, |before|, |blocks|) == Some(Indices(|before|, blocks))
    decreases |blocks|
  {
    hide ReadIndex, BlockBytes, IndexOf;
    if blocks != [] {
      var b := blocks[0];
      var s := before + BlocksBytes(blocks) + after;
      var before' := before + BlockBytes(b);
      assert s == before + BlockBytes(b) + (BlocksBytes(blocks[1..]) + after);
      IndexFields(before, b, BlocksBytes(blocks[1..]) + after);
      assert s == before' + BlocksBytes(blocks[1..]) + after;
      IndicesRead(before', blocks[1..], after);
    }
  }

  lemma IndicesAt(pos: nat, blocks: seq<CompressedBlock>, i: nat)
    requires i < |blocks|
    ensures Indices(pos, blocks)[i] == IndexOf(Offsets(pos, blocks)[i], blocks[i])
    decreases |blocks|
  {
    hide BlockBytes, IndexOf;
    if i > 0 {
      IndicesAt(pos + |BlockBytes(blocks[0])|, blocks[1..], i - 1);
    }
  }

  lemma ChecksumWritten(blocks: seq<CompressedBlock>)
    ensures ChecksumMatches(FileBytes(blocks))
  {
    hide ToBytes, FromBytes, DataBytes, Wal.Checksum32;
    var s, d := FileBytes(blocks), DataBytes(blocks);
    assert s[..|s| - 4] == d;
    assert s[|s| - 4..|s|] == ToBytes(Wal.Checksum32(d), 4);
    Pow2Values();
    WordBytes(Wal.Checksum32(d), 4);
  }

  /** A closed file opens; its index has the offsets and ranges that the writer recorded. */
  lemma WrittenFileOpens(blocks: seq<CompressedBlock>)
    requires |blocks| < TWO_32 && Times64(blocks)
    ensures Opened(FileBytes(blocks)) == Some(([], Indices(HEADER, blocks)))
    ensures forall i :: 0 <= i < |blocks| ==>
              && Indices(HEADER, blocks)[i].offset == Offsets(HEADER, blocks)[i]
              && Indices(HEADER, blocks)[i].range == blocks[i].range
    ensures IndexRanges(Indices(HEADER, blocks)) == Ranges(blocks)
  {
    hide ToBytes, HeaderBytes, BlocksBytes, ReadHeader, ReadIndices, ChecksumMatches, Indices, Offsets;
    var crc := ToBytes(Wal.Checksum32(DataBytes(blocks)), 4);
    var s := FileBytes(blocks);
    assert s == HeaderBytes(|blocks|) + (BlocksBytes(blocks) + crc);
    HeaderFields(|blocks|, BlocksBytes(blocks) + crc);
    assert s == HeaderBytes(|blocks|) + BlocksBytes(blocks) + crc;
    IndicesRead(HeaderBytes(|blocks|), blocks, crc);
    ChecksumWritten(blocks);
    forall i | 0 <= i < |blocks|
      ensures Indices(HEADER, blocks)[i] == IndexOf(Offsets(HEADER, blocks)[i], blocks[i])
    {
      IndicesAt(HEADER, blocks, i);
    }
  }

  /** A file altered only inside four consecutive bytes before its checksum is refused. */
  lemma DamageRefused(blocks: seq<CompressedBlock>, x: seq<byte>, a: seq<byte>, b: seq<byte>, y: seq<byte>)
    requires DataBytes(blocks) == x + a + y && |a| == |b| <= 4 && a != b
    ensures Opened((x + b + y) + ToBytes(Wal.Checksum32(DataBytes(blocks)), 4)) == None
  {
    hide ToBytes, FromBytes, DataBytes, BitSerial, ReadHeader, ReadIndices;
    var crc := Wal.Checksum32(DataBytes(blocks));
    var s := (x + b + y) + ToBytes(crc, 4);
    assert s[..|s| - 4] == x + b + y;
    assert s[|s| - 4..|s|] == ToBytes(crc, 4);
    Pow2Values();
    WordBytes(crc, 4);
    BurstDetected(x, a, b, y);
    Wal.DifferentWords(BitSerial(x + a + y), BitSerial(x + b + y));
    assert !ChecksumMatches(s);
  }

  // ---- the range of a file is the hull of its blocks ----

  lemma {:induction false} RangeIsHull(r: TimeRange, ranges: seq<TimeRange>)
    requires r.start <= INT64_MAX && forall b :: b in ranges ==> b.start <= INT64_MAX
    ensures var h := RangeFrom(r, ranges);
            && h.start <= r.start && h.end >= r.end
            && (forall b :: b in ranges ==> h.start <= b.start && b.end <= h.end)
            && (h.start == r.start || exists b :: b in ranges && b.start == h.start)
            && (h.end == r.end || exists b :: b in ranges && b.end == h.end)
    decreases |ranges|
  {
    if ranges != [] {
      var b, rest := ranges[0], ranges[1..];
      assert forall c :: c in ranges <==> c == b || c in rest;
      RangeIsHull(Extend(r, b), rest);
    }
  }

  /** The range of a file starts where its earliest block starts; it ends where its latest block
      ends exactly when some block ends at a non-negative time. */
  lemma FileRangeIsHull(ranges: seq<TimeRange>)
    requires ranges != [] && forall b :: b in ranges ==> b.start <= INT64_MAX
    ensures var h := RangeFrom(NO_RANGE, ranges);
            && (forall b :: b in ranges ==> h.start <= b.start && b.end <= h.end)
            && (exists b :: b in ranges && b.start == h.start)
            && ((exists b :: b in ranges && b.end == h.end) <==> exists b :: b in ranges && b.end >= 0)
  {
    RangeIsHull(NO_RANGE, ranges);
    assert ranges[0] in ranges;
  }

  // ---- reading a time range ----

  /** n bytes at pos; bytes past the end of the file read as zero. */
  function ReadFill(file: seq<byte>, pos: nat, n: nat): (r: seq<byte>)
    ensures |r| == n
  {
    if pos + n <= |file| then file[pos..pos + n]
    else if pos <= |file| then file[pos..] + seq(pos + n - |file|, _ => 0)
    else seq(n, _ => 0)
  }

  /** The compressed data of the block at pos; its count and its strings are not in the file. */
  function ReadBlock(file: seq<byte>, pos: nat): CompressedBlock {
    var tsLen := FromBytes(ReadFill(file, pos + 16, 4));
    var valLen := FromBytes(ReadFill(file, pos + 20 + tsLen, 4));
    CompressedBlock(TimeRange(0, 0), ReadFill(file, pos + 20, tsLen), ReadFill(file, pos + 24 + tsLen, valLen), [], 0)
  }

  function Filter(points: seq<DataPoint>, range: TimeRange): seq<DataPoint> {
    if points == [] then []
    else (if range.Contains(points[0].ts) then [points[0]] else []) + Filter(points[1..], range)
  }

  lemma {:induction false} FilterConcat(a: seq<DataPoint>, b: seq<DataPoint>, range: TimeRange)
    ensures Filter(a + b, range) == Filter(a, range) + Filter(b, range)
  {
    if a == [] {
      assert a + b == b;
    } else {
      assert (a + b)[0] == a[0] && (a + b)[1..] == a[1..] + b;
      FilterConcat(a[1..], b, range);
    }
  }

  function RangeOf(file: seq<byte>, blocks: seq<BlockIndex>, range: TimeRange): seq<DataPoint> {
    if blocks == [] then []
    else (if blocks[0].range.Overlaps(range) then Filter(Decompressed(ReadBlock(file, blocks[0].offset)), range) else [])
         + RangeOf(file, blocks[1..], range)
  }
}
