# minitsdb: storage engine model and proofs

A Dafny model of the data path of minitsdb, a small time-series database, and of five
self-contained algorithms beside it, with proofs of what they promise.

- **Block codec** (`BitBuffer`, `TimestampCodec`, `ValueCodec`, `BlockCodec`): the mutable bit buffer,
  the delta-of-delta and XOR encoders as classes that update their fields, the decoders as loops over
  a bit cursor. A buffer stands for the bit string it holds. Doubles are 64-bit patterns.
- **Byte formats** (`Crc32`, `Crc32Table`, `Wal`, `SSTable`, `RangeReads`, `KnownBytes`): the write-ahead log and
  the SSTable file as byte strings, little-endian, and CRC-32 as bit-serial division (section 8 of RFC 1952).
- **Write path** (`MemTable`, `Engine`, `EngineRuns`, `EngineWrites`, `LogBytes`): the buffers as a class; the
  protocol of log, buffers and files as a state machine in which a crash may come between any two steps and
  may cut an entry short; the bytes of the log file along its runs.
- **Compaction and reads** (`TimeOrder`, `TagDirectory`, `Compaction`, `LatestCache`, `ReadPath`,
  `Aggregation`): the files of one tag as a directory object that remembers every state it was in, and passes
  of a compaction one after another.
- **Algorithms** (`Sha256`, `Sha256Laws`, `Primes`, `Sha256Example`, `Like`, `Snapshot`, `Alarm`, `InsertParser`,
  `InsertPrinter`, `InsertRows`): a hash against FIPS 180-4, two matchers, a saver, alarms, a parser.

`Words` holds bits, bytes and powers of two. Every method with a loop is specified by a function, and
the theorems are about these functions.

## What the proofs found

The model follows the code. Where a promise does not hold in general, the exact condition is proved.

- A delta-of-delta outside 32 bits is truncated; the block is exact if and only if there is none
  (`TimestampCodec.TimestampRoundTrip`).
- A file does not keep the point count of a block, so padding decodes to up to three phantom points after
  it (`RangeReads.ReadExactIff`, `RangeReads.PhantomExample`).
- After a crash in the middle of an append, the log is opened for appending behind the torn entry. What is
  appended there is not replayed unless it makes up for the missing bytes with the right checksum
  (`Wal.ReadBehindTear`, `Wal.ReadBehindHeaderTear`). Records acknowledged before the tear are always
  recoverable; one acknowledged behind it is, after every run that may follow, only if its buffer was filled
  and began behind the tear too (`EngineRuns.Durability`, `EngineWrites.WriteDurableIff`,
  `EngineWrites.FilledYetLost`).
- A compaction whose merged file gets the name of one of its inputs removes the merged file, and one whose
  merged file gets the name of another file replaces that. The first happens whenever a pass follows a crash
  between the rename and the last removal (`Compaction.FinishedIff`, `Compaction.RetryAfterRename`,
  `Compaction.LargeReplaced`). Points with negative times are dropped.
- A compaction stores the phantoms it reads as points (`RangeReads.CompactionReadsExactly`).
- A write of the snapshot store that is half done when Shutdown is called can be lost although it completes
  (`Snapshot.AtShutdownIff`).
- The end of a file's range starts at 0 and so is too late if every block ends before
  (`SSTable.FileRangeIsHull`).
- The cache's `%` at the end of a pattern needs a character, the snapshot store's `%` never backtracks
  (`Like.CacheExactIff`, `Like.SnapshotExactIff`).
- Buckets of negative times are truncated towards zero (`Aggregation.BucketIff`).
- The format comment in `src/storage/sstable.cpp:66-73` gives the block count four bytes; the code writes
  eight and reads four. The model does what the code does.

## Model

| member | source | states |
|---|---|---|
| BitBuffer.AppendBit | src/storage/compressor.cpp:8-13 | Appending a bit to the byte buffer appends exactly that bit to the bit string the buffer holds, padding stays zero, the cursor moves by one. |
| BitBuffer.AppendBits | src/storage/compressor.cpp:15-19 | The low n bits of a value are appended, lowest first. |
| BitBuffer.ReadBit | src/storage/compressor.cpp:69-74 | The decoder's cursor yields the next unread bit, and zero past the end. |
| BitBuffer.ReadBits | src/storage/compressor.cpp:75-79 | The next n unread bits as a number; the cursor is past them. |
| TimestampCodec.TimestampCompressor.Reset | src/storage/compressor.cpp:59-62 | The compressor is as new: nothing written, no predecessor. |
| TimestampCodec.TimestampCompressor.Encode | src/storage/compressor.cpp:25-56 | The bits written grow by the 64 bits of the first timestamp or by the code of the delta-of-delta; the two predecessors move on. |
| TimestampCodec.DecodeOne | src/storage/compressor.cpp:85-110 | One turn of the decoder's tag tree consumes one code and yields the next delta. |
| TimestampCodec.Decode | src/storage/compressor.cpp:64-116 | The decoder loop, with a count or without one, computes the list the bits denote. |
| TimestampCodec.DeltaRoundTrip | src/storage/compressor.cpp:36-53 | A code followed by anything decodes to the delta-of-delta wrapped to 32 signed bits, and the rest is left untouched. |
| TimestampCodec.ShortestDeltaCode | src/storage/compressor.cpp:36-53 | The encoder's code is one the decoder takes for the delta-of-delta if and only if that fits in 32 bits, and no bit string the decoder takes for it is shorter. |
| TimestampCodec.DecodeEncoded | src/storage/compressor.cpp:84-114 | The codes of a whole list are consumed one by one whatever follows them. |
| TimestampCodec.TimestampRoundTrip | src/storage/compressor.cpp:25-116 | Decoding with the count returns the original list if and only if every delta-of-delta, the first delta included, fits in 32 bits; with no such condition every timestamp is right modulo 2^32. |
| TimestampCodec.ReplayExact | src/storage/compressor.cpp:104-113 | The decoder's own sums reproduce the list exactly when every delta-of-delta fits. |
| TimestampCodec.ReplayCongruent | src/storage/compressor.cpp:104-113 | Starting from congruent states, every decoded timestamp stays congruent modulo 2^32. |
| TimestampCodec.UncountedTimestamps | src/storage/compressor.cpp:81-114 | Without the count the list comes back followed by one timestamp for every padding bit, each the last delta after the one before. |
| ValueCodec.Window | src/storage/compressor.cpp:162-168 | The meaningful window of a non-zero XOR starts at its highest set bit and ends at its lowest, holds the stored bits, and shifting them back restores the XOR. |
| ValueCodec.XorCodeLength | src/storage/compressor.cpp:161-168 | The code of a changed number is 13 bits and as many as lie between its lowest and its highest changed bit. |
| ValueCodec.ShortestXorCode | src/storage/compressor.cpp:161-168 | The encoder's code is one the decoder takes for the number after its predecessor, and no bit string the decoder takes for it is shorter. |
| ValueCodec.ValueEncoder.WriteXor | src/storage/compressor.cpp:161-168 | The code of a number against its predecessor is appended: one zero bit, or the window with width 64 written as 0. |
| ValueCodec.ValueEncoder.Encode | src/storage/compressor.cpp:151-194 | One value of any of the three types: the bits grow by its code, its own predecessor moves on and the other one does not, a string goes to the string buffer. |
| ValueCodec.ReadXor | src/storage/compressor.cpp:248-262 | Reading one XOR code yields the number and the position behind it. |
| ValueCodec.ReadValue | src/storage/compressor.cpp:227-262 | Reading one value of any type, with the running offset into the string buffer. |
| ValueCodec.Decode | src/storage/compressor.cpp:205-266 | The decoder loop, with a count or without one, computes the list the bits denote. |
| ValueCodec.XorRoundTrip | src/storage/compressor.cpp:254-261 | A number encoded against its predecessor is recovered against the same predecessor, whatever follows. |
| ValueCodec.XorUndone | src/storage/compressor.cpp:259-259 | XOR with the same word twice gives the word back, and is zero only for equal words. |
| ValueCodec.ValueRoundTrip | src/storage/compressor.cpp:151-194 | One value of any type is recovered from its code, a string by its place in the string buffer. |
| ValueCodec.CountedValues | src/storage/compressor.cpp:205-266 | With the count, a mixed list comes back with its strings looked up in whatever string buffer is given. |
| ValueCodec.ValuesRoundTrip | src/storage/compressor.cpp:151-266 | Any mixture of doubles (bit patterns), integers and strings decodes to itself if and only if every string is shorter than 2^32 bytes. |
| ValueCodec.UncountedValues | src/storage/compressor.cpp:221-264 | Without count and strings, the values come back with empty strings, followed by one repetition of the last double for every three padding bits begun. |
| BlockCodec.BlockCompressor.Compress | src/storage/compressor.cpp:269-282 | The block holds the two codes, the strings, the count and the first and last time; no points make the empty block. |
| BlockCodec.BlockCompressor.Decompress | src/storage/compressor.cpp:284-295 | Zips what the two decoders return, cut to the shorter. |
| BlockCodec.BlockRoundTrip | src/storage/compressor.cpp:269-295 | A block with its count and strings gives back its points if and only if every delta-of-delta fits and every string is short enough. |
| BlockCodec.UncountedBlock | src/storage/compressor.cpp:284-295 | A block without its count gives back its points followed by min(timestamp padding, ceil(value padding / 3)) phantom points, at most three. |
| BlockCodec.EmptyBlock | src/storage/compressor.cpp:269-271 | The block of no points gives back none. |
| BlockCodec.Phantoms | src/storage/compressor.cpp:289-289 | The number of phantoms is at most three. |
| Crc32.InitCrc32 | src/storage/wal.cpp:14-25 | Fills the table in place so that entry i is eight division steps of i by the reflected polynomial. |
| Crc32Table.ConstantTable | src/storage/sstable.cpp:12-56 | The constant table of the SSTable code is the generated one, all 256 entries. |
| Crc32.TableStepIsByte | src/storage/wal.cpp:32-32 | One table step equals eight bit-serial division steps. |
| Crc32.BytesAreBits | src/storage/wal.cpp:31-33 | Feeding bytes equals feeding their bits lowest first, which is the bit-serial division of section 8 of RFC 1952. |
| Crc32.Checksum | src/storage/wal.cpp:27-35 | The table-driven loop computes the bit-serial CRC-32. |
| Crc32.ChunkedChecksum | src/storage/sstable.cpp:276-290 | Accumulating over 64 KB chunks computes the CRC-32 of the data in one pass. |
| Crc32.FeedBytesConcat | src/storage/sstable.cpp:144-157 | Accumulation may be cut anywhere. |
| Crc32.BurstDetected | src/storage/sstable.cpp:58-64 | Two messages of one length that differ only inside four consecutive bytes have different checksums. |
| KnownBytes.CheckValue | src/storage/wal.cpp:27-35 | The checksum of the text 123456789 is 0xCBF43926, the check value of CRC-32. |
| KnownBytes.LogEntries | src/storage/wal.cpp:64-95 | The bytes of a log entry and of a checkpoint, written out. |
| KnownBytes.TableOfOneBlock | src/storage/sstable.cpp:85-165 | The bytes of a file of one block, written out. |
| KnownBytes.OpensOnlyTables | src/storage/sstable.cpp:177-296 | No file opens that does not begin with MINITSDB and version 2, or whose last four bytes are not the checksum of the rest. |
| Wal.ReadPrefix | src/storage/wal.cpp:48-55 | The log is opened for appending: whatever is appended to a log of whole entries, those are read first, and then what reading the rest alone gives. |
| Wal.WalWriter.AppendWrite | src/storage/wal.cpp:64-95 | Appends header and payload of one point in the byte format; any value but a double throws and leaves the file alone; a closed writer reports failure. |
| Wal.WalWriter.Serialize | src/storage/wal.cpp:65-82 | Filling the buffer part by part at a moving offset yields the payload of the format. |
| Wal.WalWriter.WriteCheckpoint | src/storage/wal.cpp:106-115 | Appends a checkpoint header. |
| Wal.Open | src/storage/wal.cpp:142-156 | The reader's loop returns the entries up to the first one it cannot read. |
| Wal.ReadEncoded | src/storage/wal.cpp:158-207 | Whatever follows an entry, the reader takes exactly its bytes and returns it with the tag as stored. |
| Wal.LogRoundTrip | src/storage/wal.cpp:64-207 | An undamaged log gives back every entry, unchanged if and only if every tag is shorter than 65536 bytes. |
| Wal.TornWriteRecovery | src/storage/wal.cpp:142-207 | A log cut at any position gives back exactly the entries that lie wholly before the cut. |
| Wal.DamageEndsRecovery | src/storage/wal.cpp:179-181 | If one payload is altered within four consecutive bytes, reading returns exactly the entries before it. |
| Wal.ReadToTear | src/storage/wal.cpp:148-153 | Whether the reader stops at a tear depends on the bytes from the tear on alone; if it does, exactly the entries before are returned. |
| Wal.ReadBehindTear | src/storage/wal.cpp:174-181 | Behind an entry torn in its payload, and for arbitrary bytes appended since, the reader returns exactly the entries before if and only if the missing bytes are not made up for, or what they make of the payload has another checksum or a wrong length in it. |
| Wal.ShortTear | src/storage/wal.cpp:174-181 | With at most four bytes missing it does so unless the appended bytes are the missing ones; no checksum is assumed to differ. |
| Wal.ReadBehindHeaderTear | src/storage/wal.cpp:159-177 | Behind an entry torn in its header: the kind is made up from what was appended; too few bytes or an unknown kind end the reading, a checkpoint kind is read as one and reading goes on behind it, a data kind stops unless length and checksum fit. |
| SSTable.SSTableWriter.Open | src/storage/sstable.cpp:85-102 | The file starts with the 32-byte header with magic and version, no blocks recorded. |
| SSTable.SSTableWriter.AddBlock | src/storage/sstable.cpp:104-126 | One block is appended in the byte format; offsets, count and range describe all blocks so far. |
| SSTable.SSTableWriter.WriteCount | src/storage/sstable.cpp:134-140 | Filling in the tag length and the count leaves exactly the data part of the format. |
| SSTable.SSTableWriter.Close | src/storage/sstable.cpp:128-165 | The closed file is header, blocks and checksum of the blocks added. |
| SSTable.SSTableReader.Open | src/storage/sstable.cpp:177-296 | Opening succeeds exactly on files whose magic, version, index and checksum are right, and then index and range are those of the file. |
| SSTable.SSTableReader.VerifyChecksum | src/storage/sstable.cpp:261-293 | The trailing four bytes are compared with the checksum of everything before. |
| SSTable.SSTableReader.ReadRange | src/storage/sstable.cpp:298-335 | Blocks that overlap the range are decompressed and filtered by it, in file order. |
| SSTable.WrittenFileOpens | src/storage/sstable.cpp:128-296 | A closed file opens, and the reader's offsets, sizes and ranges are those the writer recorded. |
| SSTable.DamageRefused | src/storage/sstable.cpp:261-293 | A file altered only within four consecutive bytes before its checksum is refused. |
| SSTable.FileRangeIsHull | src/storage/sstable.cpp:120-123 | The range of a file is the hull of its blocks' ranges; its end is the latest block end if and only if some block ends at or after zero. |
| SSTable.FilterConcat | src/storage/sstable.cpp:326-331 | Filtering by a range works on the parts of a list separately. |
| RangeReads.BlockReadBack | src/storage/sstable.cpp:307-324 | The reader extracts exactly the timestamp and value bytes that were stored. |
| RangeReads.ReadWrittenFile | src/storage/sstable.cpp:298-335 | A range read of a closed file returns, block by block, the points and phantoms of the overlapping blocks that lie in the range. |
| RangeReads.ReadExactIff | src/storage/sstable.cpp:298-335 | For blocks of numbers at strictly increasing times, a range read of a file of any number of blocks is exact if and only if no block that overlaps the range has a phantom in it. |
| RangeReads.ReadExact | src/storage/sstable.cpp:298-335 | Hence every range that ends no later than each block it overlaps is read exactly. |
| RangeReads.OverlapIff | src/common/types.h:61-72 | Two ranges overlap if and only if they share an instant; both ends of a range are in it. |
| RangeReads.BlockRangeIsHull | src/storage/compressor.cpp:271-273 | The range of a block is the smallest that holds its points. |
| RangeReads.CompactionReadsExactly | src/storage/compaction.cpp:86-89 | A compaction, which reads all times from 0 on, reads such a file exactly if and only if no block that reaches 0 has a phantom at a 64-bit time. |
| RangeReads.PhantomsLate | src/storage/sstable.cpp:326-331 | Every phantom lies after its block; a block of one point has none. |
| RangeReads.PhantomExample | src/storage/sstable.cpp:326-331 | Two equal values 50 apart come back with a third one 50 later. |
| MemTable.FullIff | src/storage/memtable.cpp:81-85 | The test on the estimated size is a test on the number of points. |
| MemTable.AddKeeps | src/storage/memtable.cpp:8-20 | One more point keeps conservation and the estimates: nothing is lost, reordered or duplicated, and no estimate reaches the threshold. |
| MemTable.FlushIff | src/storage/memtable.cpp:8-20 | A point flushes its tag's buffer exactly when the estimate with it reaches the threshold; other tags are left alone. |
| MemTable.MemTable.SetFlushCallback | src/storage/memtable.h:31-31 | From a callback set on an empty table on, conservation and the estimates hold. |
| MemTable.MemTable.Add | src/storage/memtable.cpp:8-20 | The point goes to its tag's buffer; with a callback a full buffer is handed over and emptied, and both properties hold again; without one the buffer and its estimate just grow. |
| MemTable.MemTable.AddBatch | src/storage/memtable.cpp:22-36 | The buffers and the flushed batches are those of adding the points of all batches one by one, in order, with or without a callback. |
| MemTable.MemTable.FlushTag | src/storage/memtable.cpp:45-51 | The tag's buffer is empty, other buffers are unchanged, nothing is lost. |
| MemTable.MemTable.FlushAll | src/storage/memtable.cpp:38-43 | Every buffer is empty and the callback has seen exactly the added points of every tag, in order. |
| MemTable.MemTable.CheckFlush | src/storage/memtable.cpp:81-85 | A buffer is flushed exactly when its estimate reaches the threshold and there is a callback. |
| MemTable.MemTable.FlushBuffer | src/storage/memtable.cpp:87-96 | A non-empty buffer is handed over once and emptied; an empty one is left alone. |
| Engine.StepKeeps | src/storage/engine.cpp:37-155 | Every step of start, replay, write, flush, close and crash, writes on a torn log included, keeps the invariant that ties log, memory and files to the history of records. |
| Engine.Overwrites | src/storage/engine.cpp:59-65 | A file that is written again was complete only if it is named after a readable record, and then it holds points of the batch that replaces it and unread ones, no others. |
| Engine.RewriteLoses | src/storage/engine.cpp:59-65 | So truncating it loses at most points of that batch and unread points of earlier sessions, and no file that is named after none of the readable records. |
| Engine.SessionOnDisk | src/storage/engine.cpp:289-296 | When the buffers are empty every record of the session, readable or behind a tear, is on disk. |
| Engine.RemoveLogKeeps | src/storage/engine.cpp:289-296 | So removing the log keeps the invariant. |
| Engine.AddIsMemTableAdd | src/storage/engine.cpp:131-134 | What a write does to memory is what one call of Add does to the table of buffers. |
| EngineRuns.RunKeeps | src/storage/engine.cpp:37-318 | Every run keeps the invariant. |
| EngineRuns.Durability | src/storage/engine.cpp:122-133 | In every run with strictly increasing times per tag, with crashes anywhere and writes on torn logs, every acknowledged record that was not logged behind a tear is in the readable log or in a complete file of its tag. |
| EngineRuns.ClosedExactly | src/storage/engine.cpp:289-318 | After a completed close the files hold no points but those acknowledged or cut off after logging, and all of those that were not logged behind a tear. |
| EngineRuns.CloseSettles | src/storage/engine.cpp:289-296 | A close stores every record of its session, also those behind a tear, in files that are never written again. |
| EngineRuns.FateOfUnread | src/storage/engine.cpp:71-98 | A record that was logged behind a tear is stored after any run from a crash on if and only if a file holds it at the crash and the run never begins to write that file again. |
| EngineRuns.StepSafe | src/storage/engine.cpp:59-65 | A file named after no readable record is never written again. |
| EngineRuns.SurvivesIff | src/storage/engine.cpp:71-98 | Such a record survives every run from a crash on if and only if it is in a complete file that is named after no readable record; otherwise a run that loses it is given. |
| EngineRuns.LosingRun | src/storage/engine.cpp:79-98 | That run: restart, replay, close, and begin to write the file of the last batch. |
| EngineWrites.WriteReturns | src/storage/engine.cpp:122-155 | The steps of one write can be taken and end in the described state. |
| EngineWrites.WriteDurableIff | src/storage/engine.cpp:122-155 | A write that returns has made its record recoverable after every run that may follow if and only if the log was not torn when it was called, or the point filled a buffer whose first point is none of the readable log. |
| EngineWrites.FilledYetLost | src/storage/engine.cpp:59-65 | A run in which a record on a torn log fills its buffer, is written to a complete file and acknowledged, and is lost when the file is written again after the next crash. |
| LogBytes.ReplayReads | src/storage/engine.cpp:83-93 | What the engine replays is what the log reader returns for the bytes of the file. |
| LogBytes.AppendReadable | src/storage/wal.cpp:90-94 | An entry appended to an undamaged log is readable. |
| LogBytes.CutTears | src/storage/wal.cpp:90-94 | An append cut short at any byte tears the log and leaves the entries before readable. |
| LogBytes.AppendBehindIff | src/storage/wal.cpp:148-153 | What is appended behind a tear stays unread if and only if the reader still stops there. |
| LogBytes.TornPayloadIff | src/storage/wal.cpp:174-181 | Exactly when it does for an entry torn in its payload. |
| LogBytes.RunHolds | src/storage/engine.cpp:71-98 | Along every run of the engine the bytes of the file hold the log of the model, as long as the reader stops at the tear. |
| TimeOrder.Sort | src/storage/compaction.cpp:97-101 | std::sort: ordered by the key, the same elements. |
| TimeOrder.RemoveRepeats | src/storage/compaction.cpp:103-107 | std::unique and erase: the first point of every run of equal times. |
| TimeOrder.UniqueKeepsTimes | src/storage/compaction.cpp:97-107 | On sorted points the result is strictly increasing, has the same times and only points that were there. |
| TimeOrder.UniqueKeepsPoints | src/storage/compaction.cpp:97-107 | Where equal times carry equal values, only repeats are dropped. |
| TimeOrder.IncreasingDetermined | src/storage/compaction.cpp:97-107 | A strictly increasing list is determined by its set of points. |
| TimeOrder.SortUnique | src/storage/compaction.cpp:97-107 | Sorting and dropping repeats yields a strictly increasing list with exactly the times of the input. |
| TimeOrder.CondensedOnce | src/storage/compaction.cpp:97-107 | Where equal times carry equal values the outcome does not depend on the order of the input. |
| Compaction.CompactTag | src/storage/compaction.cpp:51-140 | With fewer than two .sst files below the threshold, or none of them with a time from 0 on, nothing changes; otherwise exactly the readable ones of these are gone, the merged times are theirs from 0 on, every other file but those under the two new names is untouched in every state, and the states are those of temporary file, rename and removals. |
| Compaction.Gather | src/storage/compaction.cpp:77-93 | The inputs are the readable small files, the points those of all of them with times from 0 on. |
| Compaction.Replace | src/storage/compaction.cpp:114-136 | The sequence of directory states from the first write to the last removal. |
| Compaction.GatheredSet | src/storage/compaction.cpp:85-91 | What is gathered is the set of the inputs' points with times from 0 on. |
| Compaction.UntouchedKept | src/storage/compaction.cpp:133-136 | At every moment, unreadable files, large files and all others that are no inputs stay as they are, unless they bear one of the two new names. |
| Compaction.FinalPoints | src/storage/compaction.cpp:114-136 | What is visible after a finished compaction, with no assumption on names and times: the other files' points, and the merged points unless an input bore the merged file's name. |
| Compaction.VisibleAfter | src/storage/compaction.cpp:114-136 | A pass, finished or cut off at any state, makes nothing visible; of the visible points exactly those stay that are in a file left alone, or were read while the merged file is in place. No premise on names, times or leftovers. |
| Compaction.PreservedIff | src/storage/compaction.cpp:76-136 | So it preserves the visible points if and only if every one of them survives in that sense. |
| Compaction.FinishedIff | src/storage/compaction.cpp:114-136 | Where no two files share a point, a finished pass preserves the visible points if and only if no input and no file with points bears the merged file's name, no input holds a negative time, and a leftover under the temporary name is an input or holds no point. |
| Compaction.NothingLost | src/storage/compaction.cpp:76-136 | With times from 0 on, equal times carrying equal values, the merged file's name free and nothing of its own in a leftover temporary file, the visible points are the same in every state a crash can leave behind. |
| Compaction.ReadsUnchanged | src/storage/compaction.cpp:76-136 | Hence a read of any range returns the same list before, after, and after a crash at any moment. |
| Compaction.RunPreservedIff | src/storage/compaction.cpp:51-140 | Any number of passes, each finished or cut off by a crash at any state, preserves the visible points if and only if each of them does. |
| Compaction.TmpsStaySpare | src/storage/compaction.cpp:113-124 | The temporary file that a crash leaves behind holds nothing of its own. |
| Compaction.RunNothingLost | src/storage/compaction.cpp:51-140 | Such a run loses nothing while the names of the merged files are free and times are from 0 on, leftovers of its own crashes included. |
| Compaction.RetryAfterRename | src/storage/compaction.cpp:117-136 | After a crash behind the rename, a pass over the merged file and what is left of the inputs makes a file of the same points and name and removes it. |
| Compaction.CrashedThenRetried | src/storage/compaction.cpp:117-136 | Two files, a crash right after the rename and one more pass: nothing is left. |
| Compaction.LargeReplaced | src/storage/compaction.cpp:126-127 | A large file that is no input but bears the merged file's name is replaced, and its point is lost. |
| TagDirectory.DecimalDenotes | src/storage/compaction.cpp:114-119 | The decimal text in a file name denotes its time, with no zero in front. |
| TagDirectory.IsTableIff | src/storage/compaction.cpp:61-62 | Table files are exactly those whose name ends in .sst. |
| Compaction.MergedTwice | src/storage/compaction.cpp:117-136 | A late point between the ends of an earlier merged file makes the second merge remove its own result; nothing is left. |
| LatestCache.LatestCache.Update | src/cache/latest_cache.cpp:5-15 | The cached point of every tag is the newest of those that arrived. |
| LatestCache.LatestCache.Get | src/cache/latest_cache.cpp:17-25 | What is found is a point of maximal time that arrived after every other one of that time. |
| LatestCache.NewestIff | src/cache/latest_cache.cpp:9-11 | Keeping a point unless the next one is as new computes the last-arriving point of maximal time, and no other. |
| LatestCache.LatestCache.Remove | src/cache/latest_cache.cpp:49-52 | Forgets the tag and nothing else. |
| LatestCache.LatestCache.Clear | src/cache/latest_cache.cpp:54-57 | Forgets every tag. |
| ReadPath.ReadRaw | src/storage/engine.cpp:189-234 | The result is strictly increasing, lies in the range and has exactly the times of its sources: the cached point in range and the readable files; with equal values at equal times it has exactly their points. |
| ReadPath.ReadReturns | src/storage/engine.cpp:189-234 | A read is in the order of time, returns nothing from outside the range or from elsewhere than the cache and the readable .sst files, and a point for every time in the range, both ends included. |
| ReadPath.ReadFiles | src/storage/engine.cpp:206-220 | The points read from a directory are those of its readable files in the range, in whatever order it is listed. |
| ReadPath.ReadsAgree | src/storage/engine.cpp:189-234 | Reads of the same visible points agree, whatever the order of the directory and whichever files hold them. |
| ReadPath.CachedOnDisk | src/storage/engine.cpp:193-199 | The cached point changes nothing once it is on disk. |
| Aggregation.BucketIff | src/storage/engine.cpp:250-250 | A time lies in the interval its bucket starts if and only if it is not negative or is a multiple of the bucket's length. |
| Aggregation.BucketUnique | src/storage/engine.cpp:250-250 | For a time that is not negative this interval is the only one of its kind. |
| Aggregation.MembersByInterval | src/storage/engine.cpp:246-263 | With times from 0 on, the points of a bucket are exactly those in the interval it starts. |
| Aggregation.AbsorbCollects | src/storage/engine.cpp:252-263 | The loop body keeps count, sum, sum of squares, first, last, maximum and minimum equal to their definitions over the bucket's points. |
| Aggregation.Aggregate | src/storage/engine.cpp:243-276 | The buckets come out strictly ordered, one for every bucket with a point, each with the aggregates of exactly its points. |
| Aggregation.ReadAggregated | src/storage/engine.cpp:236-279 | The same over what a raw read returns. |
| Aggregation.OfItsPoints | src/storage/engine.cpp:246-270 | Every aggregate in terms of its points: a double counts as its number, any other value as 0; minimum and maximum bound these and are attained, first and last are those of the first and last point, the average times the count is the sum. |
| Aggregation.OneMorePoint | src/storage/engine.cpp:257-259 | One more double raises the sum by its number and the sum of squares by its square; any other value raises neither. |
| Aggregation.CountsAddUp | src/storage/engine.cpp:257-257 | The counts of all buckets add up to the number of points. |
| Aggregation.VarianceIsMeanSquaredDeviation | src/sql/executor.cpp:313-319 | Over the reals the executor's expression is the mean squared deviation and never negative, for one point too. |
| Sha256.SHA256.Update | src/auth/auth_manager.cpp:19-28 | Whole blocks go into the hash as they fill, the rest waits; how the bytes are cut does not matter. |
| Sha256.SHA256.ProcessBlock | src/auth/auth_manager.cpp:74-103 | The eight words become the compression of section 6.2.2 of FIPS 180-4 of the old ones and the block. |
| Sha256.SHA256.Expand | src/auth/auth_manager.cpp:75-85 | The message schedule, computed in place with its terms in another order than the standard. |
| Sha256.SHA256.Turn | src/auth/auth_manager.cpp:87-99 | The 64 rounds. |
| Sha256.SHA256.Digest | src/auth/auth_manager.cpp:34-53 | The text of the hash of the padded message. |
| Sha256.PaddingRule | src/auth/auth_manager.cpp:35-45 | Below 2^61 bytes the padding is the one string section 5.1.1 of FIPS 180-4 allows. |
| Sha256.PaddingInjective | src/auth/auth_manager.cpp:35-45 | Different messages have different paddings. |
| Sha256.HashPassword | src/auth/auth_manager.cpp:372-377 | The hash of salt followed by password in one piece. |
| Sha256.HashParts | src/auth/auth_manager.cpp:19-53 | However a message is cut into updates, the digest is the one-shot hash of the whole. |
| Sha256Laws.Choice | src/auth/auth_manager.cpp:92-92 | Where e has a one the choice takes the bit of f, elsewhere that of g. |
| Sha256Laws.Majority | src/auth/auth_manager.cpp:95-95 | Where two words agree the majority is theirs, elsewhere the third decides. |
| Sha256Laws.BigSigma0Bit | src/auth/auth_manager.cpp:94-94 | Each bit is the XOR of the bits 2, 13 and 22 places up, around the word. |
| Sha256Laws.BigSigma1Bit | src/auth/auth_manager.cpp:91-91 | Each bit is the XOR of the bits 6, 11 and 25 places up, around the word. |
| Sha256Laws.SmallSigma0Bit | src/auth/auth_manager.cpp:82-82 | Each bit is the XOR of the bits 7 and 18 places up, around the word, and the one 3 places up inside it. |
| Sha256Laws.SmallSigma1Bit | src/auth/auth_manager.cpp:83-83 | Each bit is the XOR of the bits 17 and 19 places up, around the word, and the one 10 places up inside it. |
| Sha256Laws.SquareRoots | src/auth/auth_manager.cpp:64-67 | The eight initial words are the first 32 bits behind the point of the square roots of the first eight primes. |
| Sha256Laws.CubeRoots | src/auth/auth_manager.cpp:106-123 | The 64 constants are the first 32 bits behind the point of the cube roots of the first 64 primes. |
| Sha256Laws.FirstPrimes | src/auth/auth_manager.cpp:106-123 | The primes meant are in order and are all primes below 312. |
| Sha256Laws.HexBack | src/auth/auth_manager.cpp:48-52 | The text has eight characters a word, which read as a hexadecimal number are the word. |
| Sha256Example.AbcDigest | src/auth/auth_manager.cpp:19-103 | The digest of the three letters abc is ba7816bf 8f01cfea 414140de 5dae2223 b00361a3 96177a9c b410ff61 f20015ad, as in the standard. |
| Like.CacheMatch | src/cache/latest_cache.cpp:64-90 | The matcher of loops and recursion decides its recursive definition. |
| Like.MatchInCache | src/cache/latest_cache.cpp:64-90 | The cache accepts exactly what LIKE accepts for the pattern, where a final percent sign asks for at least one character. |
| Like.CacheMatchesLike | src/cache/latest_cache.cpp:64-90 | For q% the cache implements LIKE q_%, for every other pattern LIKE itself. |
| Like.LikeItself | src/cache/latest_cache.cpp:64-90 | What is meant by LIKE: a pattern of plain characters lets through itself alone. |
| Like.LikeSigns | src/cache/latest_cache.cpp:64-90 | The underscore lets through any one character, the percent sign any string. |
| Like.LikeConcat | src/cache/latest_cache.cpp:64-90 | A pattern cut in two lets through exactly what can be cut into a string for each part. |
| Like.CacheExactIff | src/cache/latest_cache.cpp:68-77 | The cache is exact on every tag if and only if the pattern does not end in a percent sign. |
| Like.MatchInSnapshot | src/snapshot/snapshot_store.cpp:184-204 | The two-cursor loop decides its recursive definition. |
| Like.SnapshotSound | src/snapshot/snapshot_store.cpp:184-204 | It never accepts what LIKE rejects. |
| Like.ExactableComplete | src/snapshot/snapshot_store.cpp:184-204 | It accepts what LIKE accepts for patterns of segments. |
| Like.SnapshotExactIff | src/snapshot/snapshot_store.cpp:187-191 | It is exact on every tag if and only if behind every percent sign the pattern has nothing more, or one plain character, any underscores and the next percent sign. |
| Like.MissedIsMissed | src/snapshot/snapshot_store.cpp:187-191 | For every other pattern, a tag that LIKE accepts and it rejects. |
| Like.PrefixExactable | src/snapshot/snapshot_store.cpp:184-204 | Among the exact ones are the patterns whose only percent sign comes last. |
| InsertParser.SkipWhitespace | src/sql/parser.cpp:64-69 | Moves past blanks and commas. |
| InsertParser.ExtractQuoted | src/sql/parser.cpp:39-61 | The value behind a quote, two quotes standing for one, and the position behind it. |
| InsertParser.ReadColumns | src/sql/parser.cpp:169-176 | The column loop, which moves forward in every turn. |
| InsertParser.ReadRow | src/sql/parser.cpp:192-203 | The value loop of a row, which moves forward in every turn. |
| InsertParser.ParseInsert | src/sql/parser.cpp:143-215 | The parser computes what the text denotes, with its three errors, and every loop ends. |
| InsertPrinter.Unquoted | src/sql/parser.cpp:47-59 | A value printed with its quotes doubled is read back, whatever it contains. |
| InsertPrinter.RowBack | src/sql/parser.cpp:192-203 | A row of any mixture of quoted values and plain values without quotes is read back. |
| InsertRows.RowBackIff | src/sql/parser.cpp:192-203 | A row written in any mixture is read back, up to its parenthesis, if and only if every value without quotes is not empty, has no comma or closing parenthesis, does not start with a quote, and has no blank at either end. |
| InsertRows.NeverAgain | src/sql/parser.cpp:192-203 | Once the parser stands behind the first character of the next value, it does not read the values that were written, whatever they contain. |
| InsertPrinter.PaddedValue | src/sql/parser.cpp:193-202 | Blanks and commas in front of a value and blanks behind it change nothing. |
| InsertParser.NoInsertIff | src/sql/parser.cpp:151-154 | The first error is given exactly for texts that hold INSERT INTO nowhere, in any case. |
| InsertPrinter.LowerCase | src/sql/parser.cpp:25-29 | Lower case and capitals spell the same keywords. |
| InsertParser.FindFirst | src/sql/parser.cpp:32-36 | A keyword is found where it first stands, in whatever case, and missed only if it stands nowhere. |
| InsertPrinter.RowsBack | src/sql/parser.cpp:189-207 | So is a list of rows. |
| InsertPrinter.ColumnsBack | src/sql/parser.cpp:169-176 | A column list of names the syntax can express comes back if and only if no name is empty. |
| InsertPrinter.ParsedShape | src/sql/parser.cpp:143-215 | Whatever is parsed has a table name and column names of a certain form and at least one row. |
| InsertPrinter.RoundTripIff | src/sql/parser.cpp:143-215 | Printing and parsing returns the same statement, in any case of the keywords and any mixture of quoted and plain values, if and only if its table and column names are of that form, no column is empty, table and columns are not both missing and there is a row. |
| Snapshot.StepKeeps | src/snapshot/snapshot_store.cpp:25-72 | Every step of writers, saver and shutdown keeps every completed update in the file, in the copy, or due. |
| Snapshot.RunKeeps | src/snapshot/snapshot_store.cpp:25-141 | So does every interleaving. |
| Snapshot.NoLostUpdate | src/snapshot/snapshot_store.cpp:40-72 | With the flag clear and no save in progress the file holds every completed update, and equals the map if no OnWrite is half done. |
| Snapshot.SavesBounded | src/snapshot/snapshot_store.cpp:40-50 | In every run the file is replaced at most as often as an OnWrite completes: the flag is cleared by the save it asks for. |
| Snapshot.ReplayLast | src/snapshot/snapshot_store.cpp:66-69 | Of every tag the map holds the last update. |
| Snapshot.ReplayNone | src/snapshot/snapshot_store.cpp:66-69 | A tag without an update keeps what was loaded. |
| Snapshot.ShutdownSaves | src/snapshot/snapshot_store.cpp:25-38 | After Shutdown the file holds every update completed before it was called. |
| Snapshot.ShutdownIff | src/snapshot/snapshot_store.cpp:25-72 | In every run to the end of Shutdown, every completed write is in the file if and only if each of them had set the flag when Shutdown tested it, or had updated the map before the last copy. |
| Snapshot.AtShutdownIff | src/snapshot/snapshot_store.cpp:25-72 | When Shutdown is called and no new write begins, it is certain that every write that completes is saved if and only if the flag is set or every update of the map, also one whose OnWrite is half done, is in the file or on its way there; otherwise a run that loses one is given. |
| Snapshot.TakenIsCopied | src/snapshot/snapshot_store.cpp:120-130 | In every run the file contains exactly the updates that come before the last copy. |
| Alarm.AlarmEngine.AddRule | src/alarm/alarm_engine.cpp:21-38 | The rule is added with its parsed condition exactly when its name is new and the condition can be read; names stay unique. |
| Alarm.AlarmEngine.RemoveRule | src/alarm/alarm_engine.cpp:40-46 | Exactly the rules of that name go, and it says whether there were any. |
| Alarm.AlarmEngine.AlterRule | src/alarm/alarm_engine.cpp:54-92 | Exactly the named rule changes, and only if the property exists and the value can be read; every rule still compares as its own condition says. |
| Alarm.AlarmEngine.RemoveRulesByTag | src/alarm/alarm_engine.cpp:94-100 | Exactly the rules of the tag go, and are counted. |
| Alarm.AlarmEngine.Evaluate | src/alarm/alarm_engine.cpp:102-136 | The firings grow by exactly one for every live rule of the tag that is satisfied and due, the stored events are the first 10000 firings, and firings of one name stay 60000 apart. |
| Alarm.FiringsIff | src/alarm/alarm_engine.cpp:107-116 | An event is fired if and only if some live rule of the tag is satisfied and has not fired within the gap. |
| Alarm.FiringsDistinct | src/alarm/alarm_engine.cpp:107-116 | A name fires at most once a point. |
| Alarm.SpacedKept | src/alarm/alarm_engine.cpp:110-117 | Firings of one name stay at least 60000 apart in increasing order, whatever the order of the points. |
| Alarm.OperatorLaws | src/alarm/alarm_engine.cpp:10-19 | Of <, == and > exactly one holds of a value, > goes on holding of greater values and < of smaller ones, == holds of the threshold, the other three are their opposites, any other operator never holds. |
| Alarm.Minute | src/alarm/alarm_engine.cpp:110-117 | A satisfied rule fires again 60000 after its last firing and not before. |
| Alarm.FirstStored | src/alarm/alarm_engine.cpp:126-129 | The first 10000 firings are stored and no more. |

## Left out

- Integer overflow of timestamps: deltas, sums of deltas and time differences are mathematical integers; only the casts of the codec and the file formats are to 64, 32 or 16 bits.
- Shifts by a negative count in the value decoder, which only a damaged block can ask for: the model reads them as no shift.
- Evaluation order of `(rb() << 1) | rb()` at `src/storage/compressor.cpp:227`: taken from left to right.
- Floating-point rounding, infinities and NaN: bit patterns in the codec, reals in aggregation, variance and alarms; the square root is not taken.
- The padding of the log's header struct: three arbitrary bytes, so that a header has twelve.
- A log payload with a right checksum whose lengths do not add up: the reader stops there, where the code would read outside its buffer.
- Failures of the file system other than a crash between steps, permissions, and fsync.
- A change of the memory threshold between two runs of the engine: replay is proved to rebuild the same batches for one threshold.
- Engine: records behind a tear are taken to stay unread. `LogBytes.TornPayloadIff` and `Wal.ReadBehindHeaderTear` say exactly when the reader stops there; what the engine would do with entries made up of the torn one and later bytes under a fitting checksum is not modelled.
- Engine: a state machine over values, not a class. Flush is part of close, as in `src/main.cpp`; the cache, the alarms and the snapshot store that Write also updates are modelled on their own.
- Engine, Compaction and ReadPath represent a file by the points that reading it returns. Compaction therefore takes its inputs and its merged file to be read exactly; `RangeReads.CompactionReadsExactly` says when they are.
- InsertPrinter.RoundTripIff: its values without quotes are plain; that a row with any other is not read back is `InsertRows.RowBackIff`.
- SSTable.WrittenFileOpens: fewer than 2^32 blocks, as the reader takes four bytes of the count.
- Strings in SSTables and in the log: their bytes are not stored by the code; they come back empty or are not logged at all.
- AppendBatch, WriteBatch and the three-level names that are joined with colons: the same operations under other names.
- The iteration of Compaction over all tags, its thread and its interval.
- The last value and pattern queries of the cache and the snapshot store beyond their matchers.
- Snapshot: an entry is given with the update, the conversion of a point into one is left out; saving succeeds; the `.bak` file, a damaged snapshot file and the protobuf encoding are not modelled.
- Alarm: reading a condition and splitting a list of actions are parameters, and the callback is the history of firings.
- Letters outside ASCII in the parser's case folding, and the dispatch to ParseInsert by the first words of a statement.
- The other statements of the parser and the executor, time strings, and how the executor picks the bucket length.
- Login, tokens, salts and the user file of the authentication manager.
- TierManager, the servers, the command line, the C interface, logging and configuration.
