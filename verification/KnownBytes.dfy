/** The check value of CRC-32 and the bytes of small files, written out. */
module KnownBytes {
  import opened Words
  import opened BlockCodec
  import Crc32
  import SSTable
  import Wal

  // ---- the checksum ----

  lemma Fed0()
    ensures Crc32.FeedByte(0xffffffff, 49) == 0x7c231048
    ensures Crc32.FeedByte(0x7c231048, 50) == 0xb0acbb32
    ensures Crc32.FeedByte(0xb0acbb32, 51) == 0x77b79c2d
  {
  }

  lemma Fed1()
    ensures Crc32.FeedByte(0x77b79c2d, 52) == 0x641c1f5c
    ensures Crc32.FeedByte(0x641c1f5c, 53) == 0x340ac5e3
    ensures Crc32.FeedByte(0x340ac5e3, 54) == 0xf68d2c9e
  {
  }

  lemma Fed2()
    ensures Crc32.FeedByte(0xf68d2c9e, 55) == 0xaffc9660
    ensures Crc32.FeedByte(0xaffc9660, 56) == 0x651f2550
    ensures Crc32.FeedByte(0x651f2550, 57) == 0x340bc6d9
  {
  }

  lemma FeedOne(crc: bv32, b: byte, rest: seq<byte>)
    ensures Crc32.FeedBytes(crc, [b] + rest) == Crc32.FeedBytes(Crc32.FeedByte(crc, b), rest)
  {
    hide Crc32.FeedByte;
    assert ([b] + rest)[1..] == rest;
  }

  lemma Fed(crc: bv32, a: byte, b: byte, c: byte, rest: seq<byte>)
    ensures Crc32.FeedBytes(crc, [a, b, c] + rest)
         == Crc32.FeedBytes(Crc32.FeedByte(Crc32.FeedByte(Crc32.FeedByte(crc, a), b), c), rest)
  {
    hide Crc32.FeedByte, Crc32.FeedBytes;
    assert [a, b, c] + rest == [a] + ([b] + ([c] + rest));
    FeedOne(crc, a, [b] + ([c] + rest));
    FeedOne(Crc32.FeedByte(crc, a), b, [c] + rest);
    FeedOne(Crc32.FeedByte(Crc32.FeedByte(crc, a), b), c, rest);
  }

  lemma NothingFed(crc: bv32)
    ensures Crc32.FeedBytes(crc, []) == crc
  {
  }

  lemma FedAll()
    ensures Crc32.FeedBytes(0xffffffff, [49, 50, 51, 52, 53, 54, 55, 56, 57]) == 0x340bc6d9
  {
    hide Crc32.FeedByte, Crc32.FeedBytes;
    var third, second: seq<byte> := [55, 56, 57], [52, 53, 54] + [55, 56, 57];
    assert [49, 50, 51, 52, 53, 54, 55, 56, 57] == [49, 50, 51] + second && third + [] == third;
    Fed(0xffffffff, 49, 50, 51, second);
    Fed(0x77b79c2d, 52, 53, 54, third);
    Fed(0xf68d2c9e, 55, 56, 57, []);
    Fed0();
    Fed1();
    Fed2();
    NothingFed(0x340bc6d9);
  }

  lemma Complement()
    ensures (0x340bc6d9 as bv32) ^ 0xffffffff == 0xcbf43926
    ensures Crc32.ONES == 0xffffffff
  {
  }

  /** The checksum of the text "123456789" is the check value of CRC-32. */
  lemma CheckValue()
    ensures Crc32.BitSerial([49, 50, 51, 52, 53, 54, 55, 56, 57]) == 0xcbf43926
  {
    hide Crc32.FeedBits, Unpack, Crc32.FeedBytes;
    Complement();
    FedAll();
    Crc32.BytesAreBits(Crc32.ONES, [49, 50, 51, 52, 53, 54, 55, 56, 57]);
  }

  // ---- the files ----

  lemma {:induction false} ZeroBytes(n: nat)
    ensures ToBytes(0, n) == seq(n, _ => 0)
  {
    if n > 0 {
      ZeroBytes(n - 1);
    }
  }

  /** A small number starts with itself. */
  lemma OneByte(x: byte, n: nat)
    requires n > 0
    ensures ToBytes(x, n) == [x] + seq(n - 1, _ => 0)
  {
    ZeroBytes(n - 1);
  }

  /** The log entry of the bits 5 for the tag "t" at time 1, and a checkpoint. */
  lemma LogEntries(pad: Wal.Pad)
    ensures var payload: seq<byte> := [1, 0, 0x74, 1, 0, 0, 0, 0, 0, 0, 0, 5, 0, 0, 0, 0, 0, 0, 0];
      Wal.Encode(Wal.Data([0x74], 1, 5), pad)
      == ToBytes(Wal.Checksum32(payload), 4) + [0] + pad + [19, 0, 0, 0] + payload
    ensures Wal.Encode(Wal.Checkpoint, pad) == [0, 0, 0, 0] + [2] + pad + [0, 0, 0, 0]
  {
    hide ToBytes, Wal.Checksum32;
    OneByte(0, 4);
    OneByte(1, 2);
    OneByte(1, 8);
    OneByte(5, 8);
    OneByte(19, 4);
    var payload: seq<byte> := [1, 0, 0x74, 1, 0, 0, 0, 0, 0, 0, 0, 5, 0, 0, 0, 0, 0, 0, 0];
    var tag: seq<byte> := [0x74];
    assert Wal.StoredTag(tag) == tag;
    assert Wal.Payload(tag, 1, 5) == payload;
  }

  const HEADER_OF_ONE: seq<byte> :=
    [0x4D, 0x49, 0x4E, 0x49, 0x54, 0x53, 0x44, 0x42] + [2, 0, 0, 0] + [0, 0] + [1, 0, 0, 0, 0, 0, 0, 0]
    + [0, 0, 0, 0, 0, 0, 0, 0, 0, 0]

  const BLOCK_OF_ONE: seq<byte> :=
    [3, 0, 0, 0, 0, 0, 0, 0] + [9, 0, 0, 0, 0, 0, 0, 0] + [1, 0, 0, 0] + [0xAA] + [2, 0, 0, 0] + [0xBB, 0xCC]

  lemma HeaderOfOne()
    ensures SSTable.HeaderBytes(1) == HEADER_OF_ONE
  {
    hide ToBytes;
    OneByte(0, 2);
    OneByte(1, 8);
    OneByte(2, 4);
  }

  lemma BlockOfOne(block: CompressedBlock)
    requires block == CompressedBlock(TimeRange(3, 9), [0xAA], [0xBB, 0xCC], [], 7)
    ensures SSTable.BlockBytes(block) == BLOCK_OF_ONE
  {
    hide ToBytes;
    OneByte(1, 4);
    OneByte(2, 4);
    OneByte(3, 8);
    OneByte(9, 8);
    assert SSTable.Cut(block.timestamps) == [0xAA] && SSTable.Cut(block.values) == [0xBB, 0xCC];
  }

  /** A file of one block from time 3 to time 9: "MINITSDB", version 2, no tag name, the number of blocks
      and ten zeros; the block; the checksum of all that. */
  lemma TableOfOneBlock()
    ensures var block := CompressedBlock(TimeRange(3, 9), [0xAA], [0xBB, 0xCC], [], 7);
      SSTable.FileBytes([block])
      == HEADER_OF_ONE + BLOCK_OF_ONE + ToBytes(Wal.Checksum32(HEADER_OF_ONE + BLOCK_OF_ONE), 4)
  {
    hide ToBytes, Wal.Checksum32, SSTable.HeaderBytes, SSTable.BlockBytes, HEADER_OF_ONE, BLOCK_OF_ONE;
    var block := CompressedBlock(TimeRange(3, 9), [0xAA], [0xBB, 0xCC], [], 7);
    HeaderOfOne();
    BlockOfOne(block);
    assert SSTable.BlocksBytes([block]) == SSTable.BlockBytes(block);
    assert SSTable.DataBytes([block]) == HEADER_OF_ONE + BLOCK_OF_ONE;
  }

  /** Nothing opens that does not begin so, or whose last four bytes are not that checksum. */
  lemma OpensOnlyTables(file: seq<byte>)
    requires SSTable.Opened(file).Some?
    ensures |file| >= 18 && file[..8] == [0x4D, 0x49, 0x4E, 0x49, 0x54, 0x53, 0x44, 0x42]
    ensures FromBytes(file[8..12]) == 2
    ensures FromBytes(file[|file| - 4..]) == Wal.Checksum32(file[..|file| - 4])
  {
    hide FromBytes, SSTable.ReadIndices, Wal.Checksum32;
    assert file[|file| - 4..|file| - 4 + 4] == file[|file| - 4..];
  }
}
