# Verification of the 7z archive library

This project models the logic of a 7z archive library in Dafny and proves what the library is
for: files pushed into an archive are the files read out of it. It follows the library's own
structure. The writer records files, packed streams and blocks over a run of pushes and
serialises them; the reader parses them back, maps files to blocks and slices decoded blocks
into files. The two halves are written independently, with flat counters, implied sizes,
optional sections, bitmaps and variable-length integers, and the theorems are about the two
together. The format is the one described in the 7z format description of the LZMA SDK.

How it is laid out:

- `Wire`, `VarInt`, `BitSets`, `Repeats`: bytes, integers and bitmaps on the wire, and repeated
  parsers.
- `PackInfos`, `Blocks`, `UnpackInfos`, `SubStreams`, `FilesInfos`, `FileTables`,
  `FilesRoundTrip`, `StreamMaps`, `Headers`, `HeaderRoundTrip`: the header, section by section.
  Each section has a specification of its bytes (`Put...`) and of its parser (`Get...`, on byte
  sequences, with the rest of the input and the error cases), the program's loops proved equal to
  them, and a round trip.
- `Walks`, `Chains`, `Codecs`, `DecodeGraphs`: coder chains and graphs, and when following them ends.
- `Writers`, `ArchiveWriters`, `SeqReaders`, `ParallelProviders`, `Finishing`, `StartHeaders`: the
  writer. `Writers.Apply` says what each call does to the writer's state; `Writers.Inv` is what
  every run keeps; the class `ArchiveWriter` is proved to leave the state `Apply` gives.
- `Archives`, `ArchiveRoundTrip`, `EntryReaders`, `ArchiveReaders`, `EndToEnd`, `PushAndRead`,
  `Sessions`: the reader, and the end-to-end results.
- `Stretches`, `Reopenings`, `PartialSolids`, `MorePushes`, `FailingInputs`, `FailingArchives`: runs that do not meet the conditions:
  which of their archives open and which give back what was pushed, and inputs that fail.
- `AesCbc`, `AesKeys`, `SwapFilters`, `BackgroundReaders`, `SegmentedWriters`, `SharedReaders`,
  `Lzma2Dict`, `Groupings`: the streaming filters, the concurrent and shared readers, volumes, and
  the small kernels.

Coders, the block cipher, SHA-256 and CRC-32 are parameters. The one law coders have to satisfy is
that decoding what was encoded, with or without padding behind it, starts with the original
(`Codecs.Inverts`); nothing is asked of the CRC. Readers that may give fewer bytes than asked for
are modelled by a choice of any positive number, so every result holds for all ways a source can
split its data. Arithmetic that overflows and indices out of range are the error `Panic`: that is
what a build with overflow checks does, as the debug and test profiles have them. The release
profile (`Cargo.toml:90-95`) has none and wraps; where that decides a result, in the round count of
the key, both builds are modelled (`AesKeys.RoundCount`).

## Where the code does less than it seems to promise

These are properties one would expect and that fail. For each there is a statement of when exactly
it holds, and an input on which it does not. The first four are conditions of the end-to-end theorem
(`Writers.RunFits`, `Finishing.Finishable`).

- Pushing an empty slice for a file through `push_archive_entry_bytes` flags the entry as having
  data although no block has it. A run whose solid entries are flagged finishes to an archive that
  opens, and gives back what was pushed, iff there is no such push anywhere in it
  (`PartialSolids.ReadsBackIffNoEmptyPush`); with other flags it opens iff such pushes are no more
  than the unflagged entries of solid pushes (`Reopenings.RunOpensIff`).
- The plain solid push does not set the flag for data itself. After a run that meets its conditions,
  one more such push, finished at once, gives everything back iff it has no entries, or its first
  entry is flagged and from the first unflagged one on there is nothing to store
  (`PartialSolids.RunThenSolidIff`). Any further file behind a push with only its front flagged is
  lost (`MorePushes.PartialThenMoreFails`). An unflagged entry in a new writer is met twice
  (`PartialSolids.UnflaggedMetTwice`). The parallel push does set the flag, and is the same as the
  plain one iff all entries are flagged (`Writers.ParallelIsPlainIff`).
- A pack table with both zero and non-zero CRCs writes a bitmap but no values, and reading overruns
  it (`PackInfos.RoundTripIffUniform`); an archive with such a table that does not open:
  `FailingArchives.EmptyBesideFullUnreadable`.
- The bitmaps of empty files and of anti-items end at their last set bit, while the reader expects
  one bit for each file without data (`FilesRoundTrip.EmptyFilesInStepIff`,
  `FilesRoundTrip.AntiItemsInStepIff`); an archive with such a bitmap that does not open:
  `FailingArchives.EightDirectoriesUnreadable`.
- The start header keeps the low 32 bits of the header's length (`StartHeaders.RoundTrip`).
- A coder's properties are counted by one plain byte that is read as a variable-length integer: the
  record reads back iff there are fewer than 128 (`Blocks.CoderReadsIff`). No encoder of the library
  has so many.
- The Swap4 reader saves leftovers of a group at one end of its buffer and drains them from the
  other: buffers of one length undo every stream iff that length is a multiple of four
  (`SwapFilters.UndoesIffQuarters`, `SwapFilters.OnesBroken`).
- The AES writer counts what it puts out on 32 bits, so a build with overflow checks stops at 4 GiB
  (`AesCbc.EncipherPieces`).
- The AES reader stops if a read of its source leaves a held partial block incomplete
  (`AesCbc.DeciphersIff`).
- Asking for the plain password as the key stops the program, because the salt is copied over a
  buffer of another length, and so does a power of rounds of 32 or more where overflow is checked;
  where it is not, the power loses its high bits (`AesKeys.KeyIff`, `AesKeys.RoundsLost`).
- After its end the background reader fails instead of reporting the end again
  (`BackgroundReaders.EndIsTheEnd`).
- The coder iterator may never end. It ends iff no coder it reaches leads back to the first and no
  two lead to the same (`Chains.EndsIffNoWayBack`); on a parsed block with one packed stream distinct
  inputs are enough (`Chains.ParsedWalkEnds`). Bytes that parse to endless blocks:
  `Chains.EndlessParsed`, and for a packed header `Chains.BoundStartEndless`; the program never ends
  on either (`Codecs.ProgramNeverEnds`). The same holds of
  following the inputs of a merging coder (`DecodeGraphs.FollowingEndsIff`,
  `DecodeGraphs.ParsedFollowingEnds`, `DecodeGraphs.SelfFedNeverEnds`).
- The CRC of a file is checked only when all its bytes arrive: a file comes out shorter than
  recorded, without an error, iff its block has fewer bytes left (`EntryReaders.Drain`,
  `EntryReaders.ShortFile`), unless those are just what the block's record announces and fail the
  block's check.
- A caller that asks a traversal to stop inside a block is still handed the files of later blocks:
  the answer is respected iff it comes outside the blocks or nothing is left
  (`ArchiveReaders.StopsIff`, `FailingArchives.RefusalIgnored`).
- Overwriting in a segmented output across a boundary creates the next volume anew; that is
  overwriting in the flat file iff the volume held no more than is written
  (`SegmentedWriters.AcrossBoundaryIff`, `SegmentedWriters.ByteLost`). With volumes of no size a
  write never ends (`SegmentedWriters.NeverLandsIff`).
- A read into an empty buffer is taken for the end: a source reader stops measuring, a joined reader
  passes over all its readers, and a parallel push records empty files (`SeqReaders.SourceReader.Read`,
  `SeqReaders.SeqReader.Read`, `ArchiveWriters.Through`).

## Model

| member | source | states |
|---|---|---|
| PushAndRead.PushFinishRead | src/writer.rs:1382-1508 | for every run of successful calls that meet their conditions, with the header raw or packed, the finished archive gives back the comment and exactly the files pushed: names, times, attributes, sizes, CRCs, contents, each handed out once by a full traversal and found by name |
| Sessions.StoreAndReadBack | src/writer.rs:300-374 | the same with the writer and reader objects at work: the calls carried out one by one, the archive finished, opened, drained, and one file read by name |
| Sessions.Perform | src/writer.rs:1033-1129 | each call on the writer object leaves the state the specification gives for it, the solid push through real source readers and the parallel one through a provider with any parallelism, batch and buffer |
| Sessions.PerformAll | src/writer.rs:218-374 | a list of calls leaves the state of the specified run |
| PushAndRead.ReadEverything | src/reader.rs:1513-1540 | opening an archive that gives its files back and draining it meets every file once, with its bytes; for any archive every file handed out whole passed its CRC |
| PushAndRead.ReadByName | src/reader.rs:1547-1617 | a name finds the last file pushed under it, with its bytes; a name never pushed is not found |
| PartialSolids.ReadsBackIffNoEmptyPush | src/writer.rs:908-916 | for every run whose solid entries are flagged as having data: the finished archive opens, and gives back what was pushed, iff no call pushed no bytes for a file through the call for bytes, anywhere in the run |
| Reopenings.RunOpensIff | src/reader.rs:651-669 | for every run, however its solid entries are flagged: the finished archive opens iff the pushes of nothing for a file are no more than the unflagged entries of plain solid pushes; otherwise an index is out of range |
| PartialSolids.RunThenSolidIff | src/writer.rs:1100-1128 | after any proper run, one more solid push with any flags gives back everything iff it has no entries, or its first entry is flagged and there is nothing to store from the first unflagged one on |
| MorePushes.PartialThenMoreFails | src/reader.rs:715-752 | once any run adds a file behind a solid push whose first entry is flagged and some other is not, nothing gives everything back any more |
| MorePushes.NextNeverMet | src/reader.rs:1799-1802 | the file behind a block left with room is met by no visit, or the first file is met twice |
| PartialSolids.SolidReadsBackIff | src/writer.rs:1100-1128 | the same from any state that keeps the invariant |
| PartialSolids.UnflaggedMetTwice | src/reader.rs:1799-1802 | one unflagged entry pushed into a new writer: the archive opens, a traversal meets the file twice, and it is not given back |
| PartialSolids.FlaggedBehindUnflagged | src/reader.rs:712-752 | flags on, off, on with nothing to store behind the first meet the condition, so the flagged entries need not be a front of the list; a lone unflagged empty file does not |
| PartialSolids.FirstMissingPastEnd | src/reader.rs:1799-1802 | with the first entry unflagged and another flagged, the range of the block runs past the end of the files |
| PartialSolids.NoneFlaggedMetTwice | src/reader.rs:1799-1802 | with no entry flagged, the block is taken to start at the first file of the archive, which is met twice |
| PartialSolids.SizeOfPushed | src/reader.rs:656-663 | a flagged file is given the size of the content whose turn it is, not its own |
| Reopenings.OpensIffCovered | src/reader.rs:651-669 | from any state whose tables are in order: the finished archive opens iff there are contents for all files flagged as having data |
| Reopenings.OpensCovered | src/reader.rs:649-684 | then it opens to the records made, the flagged files with the sizes and CRCs that come in turn |
| Reopenings.StepStored | src/writer.rs:300-374 | any call, with any flags and data, keeps the tables and the bytes written in order, and adds its surplus of flags over contents |
| Stretches.SameMap | src/reader.rs:715-752 | the flags of the last block's files behind the first make no difference to the stream map |
| Stretches.FirstMetTwice | src/reader.rs:1799-1802 | a block with room that no file comes to makes a traversal meet the first file twice |
| Stretches.ReachesPastEnd | src/reader.rs:1799-1802 | a block whose first file with data comes after others meant for it reaches past the end of the list |
| PushAndRead.RunMirrors | src/writer.rs:300-374 | after any run the records are of the files pushed, in order, each with the content pushed for it |
| PushAndRead.StepMirrors | src/writer.rs:908-916 | one call adds exactly the files it was asked to, whatever was pushed before |
| EndToEnd.FinishedReadsBack | src/reader.rs:206-243 | an archive finished from any state that keeps the invariant opens, its blocks decode to what was pushed, and its map leads to every file |
| EndToEnd.PackedFound | src/reader.rs:1281-1308 | the offset and pack size the reader uses for a block delimit exactly the bytes the writer's chain emitted for it |
| EndToEnd.BlockRange | src/reader.rs:1799-1802 | the range of files the reader takes for a block is exactly the files pushed into it, contents included, even for empty blocks |
| EndToEnd.LentCrc | src/reader.rs:1286-1303 | the CRC a single-file block borrows from the sub-stream table is the CRC of its content |
| EndToEnd.BlockOpens | src/reader.rs:1270-1335 | opening a written block gives data that starts with what was pushed for it, guarded by the right size and CRC |
| EndToEnd.DeliversBlock | src/reader.rs:1781-1827 | each block of a reopened archive delivers the contents pushed, and its records agree with them |
| EndToEnd.LeadsToBlock | src/reader.rs:1219-1231 | the file's entry in the stream map leads into its own block's range, and to the block's first file when no block holds two |
| EndToEnd.TraversalMeetsOnce | src/reader.rs:1513-1540 | a full traversal of a reopened archive meets each file exactly once |
| EndToEnd.TraversalRight | src/reader.rs:1528-1537 | every visit of a full traversal, of files outside blocks too, carries the content pushed for that file |
| Writers.StepKeepsIffProper | src/writer.rs:908-916 | a call keeps the writer's invariant between records, bytes and contents if and only if bytes pushed for a file are not empty and solid entries are flagged; what that means for reading back is PartialSolids' matter |
| Writers.RunKeeps | src/writer.rs:300-374 | every run of successful calls keeps the invariant between records, bytes written and contents |
| Writers.PackedBytes | src/writer/pack_info.rs:45-56 | pack sizes sum to the output position minus 32, and the sizes before a block say where exactly its bytes lie |
| Writers.StreamsCounted | src/writer.rs:1118-1127 | sub-stream counts sum to the number of files with data |
| Writers.SettledGrows | src/reader.rs:715-731 | appending files with data, or one without data behind full blocks, never puts a file without data inside a block |
| Writers.AddBlockHolds | src/writer.rs:1100-1128 | adding a block keeps the invariant exactly when all its entries are flagged as having data |
| Writers.WithFileHolds | src/writer.rs:368-373 | recording a file without a block keeps the invariant exactly when it is not flagged as having data |
| Writers.BlockContents | src/writer/unpack_info.rs:66-128 | a block record whose sizes and CRCs are those of its contents is in the form the sub-stream section needs |
| Finishing.RecordsFit | src/writer.rs:1413-1441 | after any run the records meet every condition of the header round trip but the three that depend on values: uniform pack CRCs, the file table and the comment |
| Finishing.RecordsDescribe | src/writer/unpack_info.rs:98-116 | the sub-stream table says of each file with data, in order, its size and its CRC |
| Finishing.EmptyPushUnreadable | src/writer.rs:908-916 | the step behind it: after a last push of nothing the file table cannot be parsed |
| Finishing.PackedHeaderFits | src/writer.rs:1491-1505 | the tables written for a packed header are themselves fit to be read back |
| ArchiveWriters.ArchiveWriter.constructor | src/writer.rs:198-210 | a new writer leaves room for the start header and has nothing recorded |
| ArchiveWriters.ArchiveWriter.PushArchiveEntry | src/writer.rs:300-374 | the push leaves exactly the specified records and output, for any sizes of the reader's reads |
| ArchiveWriters.ArchiveWriter.PushArchiveEntryBytes | src/writer.rs:902-962 | the same for bytes in memory, with its own treatment of empty data and directories |
| ArchiveWriters.ArchiveWriter.PushArchiveEntries | src/writer.rs:1033-1129 | the solid push leaves one block of all contents end to end, with sizes and CRCs measured by the source readers |
| ArchiveWriters.ArchiveWriter.PushSolidEntriesParallel | src/writer.rs:1188-1331 | succeeds iff the provider has a stream for every entry; then leaves the records of the parallel push, having announced and taken each stream once, in order, with at most a batch outstanding; through an empty buffer every content is recorded empty; a failure leaves the tables alone |
| Writers.ParallelIsPlainIff | src/writer.rs:1302-1322 | the parallel and the plain solid push leave the same state iff there are entries and all are flagged as having data |
| ArchiveWriters.ArchiveWriter.EncodeStreams | src/writer.rs:1227-1296 | any batch size and buffer size give the same sizes, CRCs and input to the coders |
| ArchiveWriters.ArchiveWriter.FinishBlock | src/writer.rs:341-362 | what the coder chain emits is appended, and its length and CRC are the new row of the pack table |
| ArchiveWriters.ArchiveWriter.Finish | src/writer.rs:1382-1411 | header behind the blocks, start header over the room in front |
| ArchiveWriters.ArchiveWriter.WriteEncodedHeader | src/writer.rs:1443-1508 | the header goes out packed only if that saves more than twenty bytes; the packed bytes are written in front of the tables that describe them |
| ArchiveWriters.ArchiveWriter.ChooseHeaderMethods | src/writer.rs:1455-1466 | the header is encrypted with the content's first encrypting method if that is asked for |
| ArchiveWriters.ArchiveWriter.SetContentMethods | src/writer.rs:218-224 | an empty list of methods changes nothing |
| ArchiveWriters.EncoderChain.Finish | src/writer.rs:1333-1352 | the last method sees the data first, and what each coder but the last was given is counted |
| ArchiveWriters.CollectSizes | src/writer.rs:1361-1379 | the short path over a fixed array and the long one give the same sizes |
| ArchiveWriters.Meter.CrcValue | src/writer.rs:1693-1697 | the CRC of all bytes passed through, once |
| ArchiveWriters.CopyInput | src/writer.rs:322-340 | whatever the reader gives at a time, all of it goes into the coders |
| ArchiveWriters.CopySeq | src/writer.rs:1065-1082 | the same over all readers end to end, each read to its end |
| SeqReaders.SourceReader.Read | src/writer/source_reader.rs:22-36 | bytes pass unchanged; at the end the length and the CRC are those of all the content; after the end, and after a read into an empty buffer, measuring stops unless the CRC is zero |
| SeqReaders.SeqReader.Read | src/writer/seq_reader.rs:29-44 | reads continue one reader after another without gap, empty ones included; nothing comes only when all are drained; a read into an empty buffer passes over them all |
| ParallelProviders.VecParallelStreamProvider.GetStream | src/writer/parallel_provider.rs:243-256 | a stream is given out once; after that, and out of range, nothing |
| ParallelProviders.VecParallelStreamProvider.WithParallelism | src/writer/parallel_provider.rs:229-235 | parallelism is clamped and never more than the number of streams |
| ParallelProviders.AnnouncedBeforeFetched | src/writer/parallel_provider.rs:103-144 | in an orderly log every stream taken was announced before, and was not taken before |
| ArchiveRoundTrip.RoundTrip | src/reader.rs:206-243 | opening what finish wrote recovers every table, whichever way the header went |
| ArchiveRoundTrip.Layout | src/writer.rs:1382-1411 | start header, blocks, packed header and header follow each other in the finished file without gap |
| ArchiveRoundTrip.HeaderUnpacks | src/reader.rs:428-478 | the packed header unpacks to the header |
| ArchiveRoundTrip.StartLeadsToHeader | src/reader.rs:364-426 | the start header leads to exactly the header's bytes |
| StartHeaders.RoundTrip | src/reader.rs:206-265 | the start header reads back with the low 32 bits of the header's size, and unless those are zero it is never taken for a lost one |
| Archives.Open | src/reader.rs:206-243 | signature, version, the check for a lost start header, and all that follows, with the error of each step |
| Archives.ReadStartHeader | src/reader.rs:245-265 | the start header is checked against its CRC before its fields are used |
| Archives.Init | src/reader.rs:364-426 | the header is checked against its CRC, unpacked if it is packed, and parsed |
| Archives.ReadEncodedHeader | src/reader.rs:428-478 | the header's own block is decoded and cut to its size, checked if it has a CRC |
| EntryReaders.Drain | src/reader.rs:1805-1817 | when the block's record announces enough for the file, or for all the block has left, the outcome is one function of what is left, for any buffer sizes: a file comes out shorter than recorded, without an error and with or without CRCs, iff the block has fewer bytes left, and then it is those; one that is all there comes out iff it passes its check, and bytes that are just what is announced iff they pass the block's |
| EntryReaders.ShortFile | src/reader.rs:139-158 | a block that decodes to one byte where two are recorded, for the block and its file, both with CRCs: the file comes out as that byte |
| EntryReaders.EntryReader.Read | src/reader.rs:139-158 | each read continues the file; a file that is all read passed its check, and an error is what reading to the end gives anyway |
| EntryReaders.EntryReader.ReadBounded | src/reader.rs:40-48 | never beyond the file's size, and no byte skipped |
| EntryReaders.BlockReader.Read | src/reader.rs:1326-1332 | each read takes the block's next bytes, none once the announced size is reached, and fails iff it reaches that size with the wrong CRC, whatever the size of the read |
| EntryReaders.CrcGuard.Admit | src/reader.rs:139-158 | the check is made once, when the last byte is in |
| ArchiveReaders.BuildDecodeStack | src/reader.rs:1270-1335 | a reader over the decoded block with the right guard, or the error of the step that fails |
| ArchiveReaders.EachOfBlock | src/reader.rs:1781-1827 | the files of a block that delivers come out in order up to the first the caller refuses; for any block each file handed out whole passed its CRC |
| ArchiveReaders.ForEachEntries | src/reader.rs:1513-1540 | all blocks' files, each block up to the caller's first refusal in it, then the files in no block up to a refusal |
| ArchiveReaders.StopsIff | src/reader.rs:1513-1540 | nothing is handed to the caller after a refusal iff it comes outside the blocks, or no later block has files and no file is outside the blocks |
| ArchiveReaders.HandedOnRegardless | src/reader.rs:1525-1525 | two blocks with a file each: a caller that refuses the first file is handed the second too |
| FailingArchives.RefusalIgnored | src/reader.rs:1525-1525 | two files pushed into a new writer and the archive finished and opened: a caller that refuses the first is handed the second |
| ArchiveReaders.FillIndex | src/reader.rs:1219-1231 | the index holds for each name the last file of that name |
| ArchiveReaders.ReadFile | src/reader.rs:1547-1617 | the content of the file the name finds, solid or not; an unknown name is an error; what comes whole passed its CRC |
| ArchiveReaders.ReadSolid | src/reader.rs:1560-1584 | everything in front of the file is decoded too, and the file's own bytes are returned |
| ArchiveReaders.ReadSingle | src/reader.rs:1585-1615 | the first file of a block is read without its neighbours |
| HeaderRoundTrip.RoundTrip | src/reader.rs:267-290 | reading a header that was written uses every byte and recovers pack sizes, blocks, coders, bind pairs, comment and all file records |
| HeaderRoundTrip.StreamsInfoReads | src/reader.rs:480-502 | the three stream tables read back, with or without packed streams |
| HeaderRoundTrip.CommentReads | src/reader.rs:292-323 | a comment without zero units reads back from its property record |
| HeaderRoundTrip.StreamsMatchCounts | src/reader.rs:691-756 | there are as many files with data as places for them in the blocks |
| HeaderRoundTrip.MapSucceeds | src/reader.rs:691-756 | the stream map of a written header can be computed and fills every place |
| Headers.WriteHeader | src/writer.rs:1413-1424 | the program's writer emits the specified header |
| Headers.WriteArchiveProperties | src/writer.rs:1426-1441 | the comment as 16-bit units with a zero at the end |
| Headers.WriteStreamsInfo | src/writer.rs:1510-1519 | pack and block tables only if there are packed streams |
| Headers.ReadHeader | src/reader.rs:267-290 | the program's parser computes the specified archive, or its error, and leaves the specified rest |
| Headers.ReadArchiveProperties | src/reader.rs:292-323 | the loop over tagged properties ends and agrees with its specification |
| Headers.ReadStreamsInfo | src/reader.rs:480-502 | the optional sections, by tag |
| PackInfos.RoundTripIffUniform | src/writer/pack_info.rs:11-43 | the section reads back if and only if its CRCs are all zero or all non-zero; otherwise reading it overruns |
| FailingArchives.EmptyBesideFullUnreadable | src/writer/pack_info.rs:26-38 | that archive, finished, does not open: the reader takes the next section's start for the missing CRC and stops at a tag it does not know |
| FailingInputs.EmptyBesideFull | src/writer/pack_info.rs:26-38 | an empty file beside a byte, both stored as they are in a new writer: the CRCs are mixed and the pack section does not read back |
| PackInfos.MixedDigestsOverrun | src/writer/pack_info.rs:26-38 | with mixed CRCs the reader takes bytes behind the section for values that were not written |
| PackInfos.PackInfo.WriteTo | src/writer/pack_info.rs:11-43 | the program emits the specified section |
| PackInfos.PackInfo.WriteCrcs | src/writer/pack_info.rs:26-38 | all values, or a bitmap of the non-zero ones and no value |
| PackInfos.PackInfo.AddStream | src/writer/pack_info.rs:47-50 | one more row |
| PackInfos.ReadPackInfo | src/reader.rs:758-785 | the program's parser agrees with the specified one, errors included |
| Blocks.BlockRoundTrip | src/reader.rs:939-1027 | a block record reads back as the chain of coders it was written for |
| Blocks.CoderRoundTrip | src/writer/unpack_info.rs:162-181 | a coder's identifier and properties read back |
| Blocks.ChainUnpackSize | src/block.rs:34-44 | the size the reader takes for a written block is the one written last |
| Blocks.FindIn | src/block.rs:23-25 | finds a pair for the input iff there is one |
| Blocks.FindOut | src/block.rs:28-30 | finds a pair for the output iff there is one |
| UnpackInfos.RoundTrip | src/reader.rs:787-837 | the block table reads back and reading stops right behind it |
| UnpackInfos.UnpackInfo.WriteTo | src/writer/unpack_info.rs:45-64 | the program emits the specified table |
| UnpackInfos.UnpackInfo.AddMultiple | src/writer/unpack_info.rs:26-43 | one more block record, the others untouched |
| UnpackInfos.WriteBlock | src/writer/unpack_info.rs:142-160 | coders, then the bind pairs that chain them |
| UnpackInfos.WriteSingleCodec | src/writer/unpack_info.rs:162-181 | flag byte, identifier, and properties if there are any, for every configuration |
| Blocks.CoderReadsIff | src/writer/unpack_info.rs:174-177 | a coder record can be read back iff its properties are fewer than 128 bytes: their count is written as a plain byte and read as a variable-length integer |
| UnpackInfos.ReadBlock | src/reader.rs:939-1027 | the program's parser agrees with the specified one |
| UnpackInfos.ReadUnpackInfo | src/reader.rs:787-837 | the same for the whole table |
| Chains.EndsIffNoWayBack | src/block.rs:116-142 | on every block the iterator ends iff none of the coders it reaches leads back to the first and no two of them lead to the same; then it yields each coder it reaches once |
| Chains.ParsedWalkEnds | src/reader.rs:1005-1018 | on a parsed block with one packed stream, whose start is unbound, distinct inputs are enough: the iterator ends and visits no coder twice |
| Chains.ParsedShape | src/reader.rs:983-1018 | a parsed block has one bind pair less than outputs, and a single packed stream enters an unbound input |
| Chains.EndlessParsed | src/block.rs:131-142 | eleven bytes that parse to a block of copying coders with one packed stream on which the iterator never ends: two bind pairs feed the same coder |
| Chains.BoundStartEndless | src/reader.rs:450-465 | fifteen bytes that parse to a block of copying coders with two packed streams, distinct inputs and a bound start, on which the iterator of a packed header never ends |
| Walks.EndsIffNoWayBack | src/block.rs:116-142 | the graph fact behind both: a walk along links ends iff nothing it reaches leads back |
| Chains.ChainInOrder | src/writer/unpack_info.rs:155-158 | on a written block the iterator yields all coders in order |
| Chains.OrderedCoderIter.Next | src/block.rs:131-142 | one step along the bind pairs |
| Codecs.UnpackPacked | src/reader.rs:1310-1325 | the reader's coders, in their order and with their recorded sizes, undo the writer's chain, with padding behind it too |
| Codecs.DecodeChain | src/reader.rs:1310-1325 | the program's loop over the coders builds the specified chain, or stops at the first coder that has not one input and one output, or no known identifier |
| Codecs.DecodesIffEnds | src/decoder.rs:92-108 | a block decodes to what its coders in walk order make of it; on a walk that does not end only an unsupported or unknown coder stops the program |
| Codecs.ProgramNeverEnds | src/reader.rs:1310-1325 | on both byte strings the program itself goes round for ever: every coder it meets is a known one |
| DecodeGraphs.FollowingEnds | src/reader.rs:1428-1506 | with distinct outputs, following any input of an unused main coder ends and meets no coder twice |
| DecodeGraphs.FollowingEndsIff | src/reader.rs:1428-1506 | following an input ends iff none of the coders met is fed by the first and no two are fed by the same; a stream found meets no coder twice |
| DecodeGraphs.ParsedFollowingEnds | src/reader.rs:983-1018 | in a parsed block whose coders have one output each, distinct outputs are enough for every input of the main coder |
| DecodeGraphs.SelfFedNeverEnds | src/reader.rs:1447-1463 | eighteen bytes that parse to a block with the merging filter as main coder whose first input is followed for ever, one output being bound to two inputs |
| DecodeGraphs.FindMain | src/reader.rs:1381-1394 | an unused coder is found if there is one |
| DecodeGraphs.BuildInputs | src/reader.rs:1337-1415 | the main coder is unused if one is, has the merging filter's identifier, and each of its inputs is followed to what feeds it |
| SubStreams.RoundTrip | src/reader.rs:839-937 | counts, implied last sizes and flattened CRCs read back, with any of the optional sections left out |
| SubStreams.SlicesSum | src/reader.rs:865-887 | in any accepted section that lists sizes, or has at most one file per block, each block's sizes sum to its unpacked size |
| SubStreams.FlatLengths | src/writer/unpack_info.rs:98-116 | as many sizes and CRCs as there are files |
| SubStreams.WriteSubStreams | src/writer/unpack_info.rs:66-128 | the program emits the specified section |
| SubStreams.WriteSubCrcs | src/writer/unpack_info.rs:97-124 | all CRCs flattened over the blocks, or no section if there are none |
| SubStreams.ReadSubStreams | src/reader.rs:839-937 | the program's parser agrees with the specified one |
| SubStreams.HandOut | src/reader.rs:907-926 | known digests and listed ones are dealt out to the files in order |
| FilesRoundTrip.RoundTrip | src/reader.rs:504-689 | every file record comes back: name, flags, times, attributes, size and CRC |
| FilesRoundTrip.EmptyFilesInStepIff | src/writer.rs:1560-1583 | the empty-file bitmap keeps the parser in step if and only if trimming it did not change its length in bytes |
| FilesRoundTrip.AntiItemsInStepIff | src/writer.rs:1585-1608 | the same iff for the anti-item bitmap |
| FailingArchives.EightDirectoriesUnreadable | src/writer.rs:1560-1583 | that archive, finished, does not open: the reader takes a length for a tag and runs off the end |
| FailingInputs.EightDirectories | src/writer.rs:1560-1583 | an empty file and eight directories pushed into a new writer: the bitmap takes one byte where two are read, and the parser loses its place |
| FilesRoundTrip.ReadsIffCovered | src/reader.rs:651-669 | a file table can be read iff there is a sub-stream for every file flagged as having data; otherwise an index is out of range |
| FilesRoundTrip.AttachFrom | src/reader.rs:649-684 | flat counters hand each file its own size and CRC |
| FilesRoundTrip.NamesRead | src/reader.rs:1111-1131 | names without zero units come back one by one |
| FilesRoundTrip.PropertiesRead | src/reader.rs:511-647 | the tagged properties, in the order written, fill the table |
| FileTables.WriteFilesInfo | src/writer.rs:1521-1534 | the program emits the specified file table |
| FileTables.WriteEmptyStreams | src/writer.rs:1536-1558 | the bitmap of files without data, only if there is one |
| FileTables.WriteTrimmed | src/writer.rs:1560-1608 | bitmaps that grow only to their last set bit |
| FileTables.WriteNames | src/writer.rs:1610-1625 | all names with a zero unit behind each |
| FileTables.WriteStamps | src/writer.rs:58-100 | a column of times: a byte or a bitmap for which are present, then the present ones |
| FileTables.WriteAttributes | src/writer.rs:58-100 | the same for attributes |
| FileTables.ReadNames | src/reader.rs:1111-1131 | the iterator over the names agrees with its specification |
| FileTables.ReadProperty | src/reader.rs:511-646 | one tagged property |
| FileTables.AttachData | src/reader.rs:649-684 | the loop that hands out sizes, CRCs and flags |
| FileTables.ReadFilesInfo | src/reader.rs:504-689 | the program's parser agrees with the specified one |
| StreamMaps.FailsIffTooMany | src/reader.rs:712-752 | with pack indices in range the map fails iff files with data outnumber the places for them |
| StreamMaps.VisitedOnceIffSettled | src/reader.rs:1513-1540 | with as many files as places, a full traversal meets every file once iff no file without data sits inside a block |
| StreamMaps.MapAt | src/reader.rs:712-752 | what the map says of a file: its own block, or none at a block boundary |
| StreamMaps.FirstAt | src/reader.rs:719-730 | a non-empty block starts at its first file with data |
| StreamMaps.RangeIsBlock | src/reader.rs:1799-1802 | in a settled list the files behind a block's first are its other files |
| StreamMaps.PushedOut | src/reader.rs:1799-1802 | a file without data inside a block pushes the block's last file out of its range, so that no visit meets it |
| StreamMaps.CalculateStreamMap | src/reader.rs:691-756 | the program's loops compute the specified map or its error |
| VarInt.RoundTrip | src/reader.rs:1045-1058 | every value reads back from what was written, and nothing behind it is touched |
| VarInt.Minimal | src/writer.rs:1656-1676 | no byte string that decodes to a value is shorter than the one written |
| VarInt.WriteVar | src/writer.rs:1656-1676 | the two loops emit the specified encoding |
| VarInt.ReadVar | src/reader.rs:1045-1058 | the loop over the first byte's bits decodes the specified value |
| BitSets.BitSet.Insert | src/bitset.rs:57-68 | set union with one value; says whether it was new; grows to it |
| BitSets.BitSet.Remove | src/bitset.rs:74-89 | set difference; says whether it was there |
| BitSets.BitSet.Contains | src/bitset.rs:40-51 | membership, for any value |
| BitSets.BitSet.SetAll | src/bitset.rs:143-165 | union with a prefix, whole words and a partial one |
| BitSets.BitSet.Len | src/bitset.rs:31-36 | the sum of the words' counts is the cardinality |
| BitSets.BitSet.Grow | src/bitset.rs:110-123 | no member comes or goes |
| BitSets.BitSet.ReserveLenExact | src/bitset.rs:126-138 | no member comes or goes |
| BitSets.BitsRoundTrip | src/reader.rs:1073-1088 | a bitmap read with its own bit count gives the set back |
| BitSets.BitsInStep | src/reader.rs:1073-1088 | the reader stops right behind a bitmap iff its length in bytes is the one it expects |
| BitSets.AllOrBitsRoundTrip | src/reader.rs:1061-1070 | both flag bytes give the same set back |
| BitSets.WriteBitSet | src/bitset.rs:194-227 | the byte accumulator writes the specified bitmap |
| BitSets.ReadBits | src/reader.rs:1073-1088 | the mask loop reads the specified flags |
| BitSets.ReadAllOrBits | src/reader.rs:1061-1070 | all set, or a bitmap |
| AesCbc.EncipherPieces | src/encryption/aes.rs:271-334 | any pieces, with flushes anywhere between, then an empty write, give CBC of the zero-padded whole; an empty piece ends the message; a build with overflow checks stops on the way iff the padded whole is of 4 GiB or more |
| AesCbc.Encoder.Write | src/encryption/aes.rs:271-321 | data is taken whole and enciphered block by block, the bytes put out counted on 32 bits; an empty write pads; nothing is taken afterwards |
| AesCbc.Encoder.Flush | src/encryption/aes.rs:324-334 | does nothing before the finishing write, and pads after it |
| AesCbc.RoundTrip | src/encryption/aes.rs:283-321 | deciphering undoes enciphering |
| AesCbc.StreamRoundTrip | src/encryption/aes.rs:51-98 | what the writer made of a message comes back padded, from any source that never leaves a partial block short |
| AesCbc.DeciphersIff | src/encryption/aes.rs:200-240 | the reader gives the inverse of CBC on all bytes iff no read leaves a held partial block short and the bytes make whole blocks; otherwise it stops or reports an illegal size |
| AesCbc.Decipher | src/encryption/aes.rs:76-98 | draining with buffers of any sizes gives the specified plaintext |
| AesCbc.Decoder.Read | src/encryption/aes.rs:76-98 | what is handed out and what is still to come always make up the whole |
| AesCbc.Decoder.GetMoreData | src/encryption/aes.rs:51-72 | one read of the source at most; the end is checked for a partial block |
| AesCbc.Cipher.Update | src/encryption/aes.rs:200-227 | all whole blocks are deciphered and the rest is held; it fails iff a held block cannot be completed |
| AesKeys.GetAesKey | src/encryption/aes.rs:131-184 | the specified key and vector, or the error of the step that fails, with overflow checks and without |
| AesKeys.KeyIff | src/encryption/aes.rs:161-182 | a key comes out iff there is a password, the plain key is not asked for and, in a build with overflow checks, the power of rounds is below 32 |
| AesKeys.RoundsLost | src/encryption/aes.rs:170-170 | without overflow checks a power of 32 more gives the same key |
| AesKeys.Increment | src/encryption/aes.rs:174-179 | the eight counter bytes become the next number's, with carry |
| AesKeys.HashRounds | src/encryption/aes.rs:168-181 | salt, password and counter, round after round |
| AesKeys.PropertiesRead | src/encoder_options.rs:376-389 | the properties the writer emits give its rounds, salt and vector back |
| SwapFilters.WritePieces2 | src/codec/swap.rs:108-152 | any pieces give the pair swap of the whole, an odd byte kept |
| SwapFilters.WritePieces4 | src/codec/swap.rs:259-321 | any pieces give the quad reversal of the whole, the last one to three bytes reversed |
| SwapFilters.ReadAll2 | src/codec/swap.rs:33-89 | reading with any buffer sizes and any short reads undoes the pair swap |
| SwapFilters.ReadAll4 | src/codec/swap.rs:174-238 | reading with buffers of multiples of four, and any short reads, undoes the quad reversal |
| SwapFilters.UndoesIffQuarters | src/codec/swap.rs:174-238 | reading with buffers of one length undoes every stream iff the length is a multiple of four |
| SwapFilters.OnesBroken | src/codec/swap.rs:182-218 | for every other length: a stream of one byte more than the buffer comes out with its last byte zero |
| SwapFilters.ReadAllWith | src/codec/swap.rs:174-238 | the reader, drained with buffers of one length over any short reads, gives what the specification says |
| SwapFilters.Swap4Reader.Read | src/codec/swap.rs:174-238 | one read gives and keeps exactly what the specification says, for every buffer and every leftover; it continues the stream when it leaves three or no bytes of a group over |
| SwapFilters.Swap2Reader.Read | src/codec/swap.rs:33-89 | one read continues the stream, for any buffer |
| SwapFilters.Swap4Writer.Write | src/codec/swap.rs:270-316 | everything is accepted; whole groups are out, the rest waits |
| SwapFilters.Swap2Writer.Write | src/codec/swap.rs:118-147 | everything is accepted; whole pairs are out, an odd byte waits |
| SwapFilters.Swap4Twice | src/codec/swap.rs:174-238 | reversing groups twice changes nothing |
| SwapFilters.Swap2Twice | src/codec/swap.rs:33-89 | swapping pairs twice changes nothing |
| BackgroundReaders.RunKeeps | src/writer/parallel_reader.rs:152-235 | in every interleaving: delivered, current buffer, queue, producer's buffer and unread source always make up the source |
| BackgroundReaders.EndIsTheEnd | src/writer/parallel_reader.rs:195-235 | an empty answer into a buffer with room comes only when everything was delivered; a read fails iff the end was already reported |
| BackgroundReaders.NeverStuck | src/writer/parallel_reader.rs:152-235 | before the end either the producer or the caller can go on |
| BackgroundReaders.RunIsBounded | src/writer/parallel_reader.rs:152-235 | every run whose reads have room takes at most a bounded number of steps |
| BackgroundReaders.EndedHasAll | src/writer/parallel_reader.rs:208-213 | once the end was reported everything has been delivered |
| BackgroundReaders.Worker.Turn | src/writer/parallel_reader.rs:155-183 | each action of the thread is a step of the state machine |
| BackgroundReaders.BackgroundReader.Read | src/writer/parallel_reader.rs:195-235 | so is each read |
| SegmentedWriters.WritePieces | src/writer/segmented_writer.rs:149-176 | any pieces are laid end to end over the volumes, all but the last exactly full |
| SegmentedWriters.SegmentedWriter.Write | src/writer/segmented_writer.rs:155-175 | one write, wherever positioned in a volume's room, behind its end too, is a splice at that position of the flat file; from the end of a volume's room on the next file is created anew and its boundary is the count of bytes written |
| SegmentedWriters.AcrossBoundaryIff | src/writer/segmented_writer.rs:155-165 | writing over the boundary in front of an existing volume is overwriting in the flat file iff that volume held no more than is written |
| SegmentedWriters.ByteLost | src/writer/segmented_writer.rs:155-165 | two volumes of two bytes, one byte written over the boundary: the fourth byte is lost |
| SegmentedWriters.SegmentedWriter.WriteAll | src/writer/segmented_writer.rs:149-176 | appending through partial writes and volume changes appends to the flat file |
| SegmentedWriters.SegmentedWriter.Seek | src/writer/segmented_writer.rs:183-231 | the position is the one asked for, clamped to 64 bits, inside and beyond what was written and from inside or beyond it, and no file changes; it is inside a volume iff it is not beyond |
| SegmentedWriters.SegmentedWriter.StreamPosition | src/writer/segmented_writer.rs:233-236 | the position is the one in the flat file |
| SegmentedWriters.SegmentedWriter.Finish | src/writer/segmented_writer.rs:136-146 | boundary k is k times the volume size, and the bytes in front of it; all volumes are counted iff the last is the open one |
| SegmentedWriters.SegmentedWriter.SwitchToNextVolume | src/writer/segmented_writer.rs:111-121 | the next file starts empty, its boundary is the count of bytes written |
| SegmentedWriters.SpliceInVolume | src/writer/segmented_writer.rs:155-175 | overwriting inside one volume is overwriting in the flat file |
| SegmentedWriters.NeverLandsIff | src/writer/segmented_writer.rs:155-165 | a write opens volume after volume for ever iff volumes have no size |
| SegmentedWriters.SegmentedWriter.WriteWithin | src/writer/segmented_writer.rs:149-176 | the recursion cut off after any number of nested calls: it has landed, or opened that many volumes and written nothing |
| SharedReaders.Interleave | src/reader.rs:53-110 | under any interleaving of reads, seeks, copies and disturbances of the shared position, every reader and copy gives stretches of the source from where it was last put, without gap or overlap, within its window; without seeks, a prefix of it |
| SharedReaders.SharedBoundedReader.Read | src/reader.rs:86-100 | reads from its own place wherever the source was left |
| SharedReaders.SharedBoundedReader.Seek | src/reader.rs:71-82 | lands where the sum on 64 signed bits says, and fails iff that overflows or is in front of the source |
| SharedReaders.SharedBoundedReader.TargetInRange | src/reader.rs:71-82 | below 2 to the 63 that is the place relative to the window |
| SharedReaders.SharedBoundedReader.Clone | src/reader.rs:60-68 | a copy has the same window and place |
| Lzma2Dict.RoundTrip | src/encoder.rs:375-386 | for every size from 4096 the byte is at most 39 and reads back as the largest size such a byte can stand for that is not over it, more than two thirds of it, equal iff it is such a size |
| Lzma2Dict.SizesGrow | src/decoder.rs:285-301 | the sizes grow with the byte |
| Groupings.EncodePath | src/util/compress.rs:204-260 | every path is in exactly one push, lone and grouped files each in order; large files alone, the others in non-empty groups below 4 GiB, a group closed only when the next file does not fit |
| Groupings.SplitSound | src/util/compress.rs:232-257 | the files of all pushes together are every path once, in order among the lone and among the grouped ones |
| Groupings.TimesInPushes | src/util/compress.rs:232-257 | a path is in the pushes as often as it is alone and in groups |

## Left out

- Optional codecs are taken to be all built in (`Blocks.DECODABLE`).
- LZMA, LZMA2, PPMD, BZIP2, Deflate, Brotli, LZ4, Zstd, BCJ, BCJ2 and Delta: the bodies of the coders, which are external libraries. A coder is a function on whole byte sequences that emits its output when it is finished, so output in the middle of a push is not modelled.
- The AES block cipher, SHA-256 and CRC-32 themselves, and passwords beyond the bytes that are hashed.
- Errors a decoder reports for corrupt input: decoding is a total function here.
- The recovery scan for a lost start header.
- `is_anti_item`: the writer marks the entries that are not anti-items, so the flag comes back inverted. The bytes are modelled and keep the parser in step; nothing is claimed of the flag.
- `start_pos`, `compressed_crc` and `compressed_size` of an entry, which the archive does not carry; the reader's side of `start_pos` is modelled.
- An entry flagged as a directory that is pushed with data in a solid block comes back as a file: nothing is claimed of the directory flag of entries with data.
- Validity of UTF-16: names and comments are sequences of 16-bit units.
- Skipping a header property of 2 to the 63 bytes or more, which the program turns into a backward seek: it is an error here.
- Failed or cancelled pushes, which leave bytes in the output without a record.
- `push_archive_entry_small`, `_fast`, `_batched`, `_with_progress` and `_adaptive`: the body of `push_archive_entry` or `push_archive_entry_bytes` with other buffers or callbacks.
- The archive writer over volumes: its first seek shifts later volume boundaries. The segmented writer is proved on its own.
- ArchiveWriters.ArchiveWriter.PushSolidEntriesParallel: over the provider of data in memory, and for at most 2 to the 32 entries, since indices are passed on as 32-bit numbers.
- ArchiveReaders.EachOfBlock: for callers that read every file they are handed to its end; one that leaves bytes unread gets the block's next file from there.
- EntryReaders.Drain: a block whose record announces less than the file's size and than it has left is checked where the reads happen to pass what is announced; there only that no more comes than recorded and that a whole file passed its check.
- PartialSolids.RunThenSolidIff: for a solid push with unflagged entries that is the last to add files; of others `MorePushes.PartialThenMoreFails` says what comes of those with a flagged front, and `Reopenings.RunOpensIff` when they open.
- Headers.ReadArchiveProperties, FileTables.ReadNames: do not check that 16-bit units are valid UTF-16.
- Archives.Open: reports a lost start header instead of searching for it.
- SegmentedWriters.SegmentedWriter.Write: what calls do after one that opened a volume anywhere but at the end of an append-only run, where boundaries no longer say where volumes start.
- `Aes256Sha256Decoder`'s seek.
- ArchiveReaders.OpenBlock: reports blocks with several packed streams as unsupported, because the BCJ2 decoder is not modelled; `DecodeGraphs` follows their inputs to the packed streams.
- Sets of flags are machine words as sequences of 64 truth values, from the lowest bit up, and are kept by the reader as sequences of flags.
- Interleavings of more than one background reader, and a caller that drops its reader while the thread is sending.
- Files, memory maps, asynchronous and browser front ends, directory walking, times from the operating system, progress callbacks, performance settings, statistics and the text of error messages.
