# A verified model of the QEMU block layer's data paths

The project models, in Dafny 4.11, the parts of QEMU that move disk contents around and two
self-contained state machines beside them, and proves what they are for. `dafny verify dfyconfig.toml`
checks everything.

| file | models |
|---|---|
| `Sectors.dfy`, `Errno.dfy` | error numbers, and disks as byte sequences, addressed by byte, sector (512 bytes) and chunk (2048 sectors) |
| `Migration.dfy`, `MigrationLaws.dfy`, `MigrationSafety.dfy`, `MigrationResult.dfy`, `MigrationCounters.dfy`, `MigrationRaces.dfy` | live block migration as a step system: its steps, what they come to in sectors and frames, its invariant, its result, its counters, and which steps lose a guest write |
| `BlockMigration.dfy`, `BlockSession.dfy`, `Wire.dfy`, `WireFormat.dfy` | the save handler as it works in place, a whole migration of its calls and what happens between them, the loader and the stream as bytes |
| `IoVector.dfy`, `MultiwriteMerge.dfy`, `MultiwriteOrder.dfy`, `MultiwriteCompletion.dfy` | scatter-gather vectors, merging and sorting of write requests, completion counting |
| `AesTables.dfy`, `AesCipher.dfy`, `AesStandard.dfy`, `Aes.dfy`, `AesCbc.dfy` | AES: arithmetic and tables, the cipher, FIPS 197 byte by byte with its example, the table-driven code, CBC |
| `CrisOpcodes.dfy`, `CrisLaws.dfy`, `CrisLookup.dfy` | best-match opcode search of the CRIS disassembler, what its versions, letters and levels are, and its caches |
| `DirtyBitmap.dfy`, `BlockIo.dfy`, `BlockCommit.dfy` | the dirty bitmap, byte-granular access to sectors, committing an image |
| `BufferedFile.dfy`, `BufferedRate.dfy`, `BottomHalves.dfy`, `Calendar.dfy` | the buffered stream and its rate limit, bottom halves and contexts, `mktimegm` |

Code that updates state is modelled as classes and methods, proved against functions that say what they
compute; what those functions are good for is stated by lemmas about them. Drivers, the rate limiter,
completion order and callbacks are nondeterministic or given as scripts, so the theorems hold for every
behaviour of them.

## Where the code does not do what one would expect

These are stated as exact conditions or as runs, with the code as it is.

- Stage 2 counts as completed while finished reads are still queued (`is_stage2_completed` looks at
  `submitted` only, block-migration.c:363-378), and stage 3 may leave its flushes early when the rate limit
  is hit (340). Cleanup then frees the queue (390-394) and the chunks are lost:
  `MigrationResult.LimiterLosesBlock`. `MigrationResult.RightForEveryDestination` says exactly when
  nothing is lost, for every destination that shares the base images.
- The dirty pass and the loader always move 2048 sectors (block-migration.c:309-310, 502). A partial last
  chunk cannot be read by the former, and the loader ignores that the write of it fails:
  `MigrationResult.PartialChunkIsLost`. `MigrationResult.MigratedIffSame` says when both sides agree all the same.
- A guest write is marked dirty when it is submitted (block.c:1576-1581), so the bulk phase can clear the
  mark (block-migration.c:199) before the data is on the disk: `MigrationResult.RaceLosesWrite`. Writes that
  are outstanding when tracking starts (block-migration.c:418-421) are never marked:
  `MigrationResult.SkipLosesWrite`. Neither alone does harm. What loses a write is a step that settles a chunk
  which the write has yet to change (`Migration.Takes`, `Migration.NoRace`): a read that takes the data of a
  clean chunk, a synchronous read of any chunk, or the search for allocated sectors passing over a clean one.
  `MigrationRaces.RaceIsExact` shows that a step is free of this if and only if every completion after it
  ends with both sides the same.
- A bulk read that fails has been counted as completed up to where its search stopped (block-migration.c:162-194),
  and the handler goes on. A guest write that then allocates a sector before that makes the reported progress fall:
  `MigrationCounters.ProgressFalls`. `MigrationCounters.ProgressIsMonotone` covers all other runs, and
  `MigrationCounters.CalmIff` shows that only such writes lower what is counted.
- A request that ends inside the one before it makes merging drop the tail of the earlier one
  (block.c:1697-1714): `MultiwriteMerge.TwoRequestsIff` and, for any number of requests,
  `MultiwriteMerge.PreservesEveryDiskIff`; with a driver that fills gaps, `MultiwriteMerge.MergeSameIff`.
- The comment on `bdrv_aio_multiwrite` (block.c:1729-1742) says that on -1 some callbacks may have run. The
  code returns -1 only when nothing was submitted, and then no callback runs. A completion that arrives
  during the submission loop can free the control block early: `MultiwriteCompletion.ProperIff`.
- Decrypting a partial last block leaves the decrypted block, not the ciphertext, as the chaining value
  (aes.c:1306-1312): `AesCbc.ChainingValuesDiffer`, and `AesCbc.ChainingValuesAgree` for when it does not show.
- `1 << bit` is an `int` (block.c:656, 658, 2164), whose shift takes its count modulo 32 on x86. With 64-bit
  words chunks 32 apart in a word share a bit, so clearing one clears the other:
  `DirtyBitmap.Chunk32ClearsChunk0`. `DirtyBitmap.TracksIff` says that the bitmap tracks its device if and
  only if words have 32 bits or there are at most 32 chunks. The step system of migration has the chunks
  marked as a set, as they are in that case.
- A put whose flush fails still offers its data to the backend, leaving a hole in the stream while reporting
  success (buffered_file.c:125-147): `BufferedFile.NoHoleIff`, `BufferedFile.HoleIsReportedWritten`.
- The opcode caches are static and not keyed by the family: `CrisLookup.StaleAnswer` fills an entry for one
  family and reads it for another. `CrisLookup.PlainRunIff` says which sequences of plain lookups are right,
  `CrisLookup.FamiliesShareIff` which families may share the caches with any prefixes.
- The size of a request is multiplied out in `int` as well (block.c:625), so a request of 2^23 sectors passes the range
  check as one of none: `BlockIo.CheckIsRightIff`.
- A truncated stream is noticed only after its last block has been written, with whatever the buffers held
  (block-migration.c:499-519): `Wire.TornBlockIsWritten`, `Wire.TruncatedStream`.
- The number of seconds is multiplied out in `int` (cutils.c:107): `Calendar.IntProductIff`.

## Model

| member | source | states |
|---|---|---|
| `Migration.LoadAppend` | block-migration.c:471-523 | the loader works frame by frame: loading a longer stream is loading its last frame on top of the shorter one |
| `Migration.PercentMonotone` | block-migration.c:284-288 | the reported percentage grows with the completed sectors, whatever the total |
| `Migration.CompletedAtMostTotal` | block-migration.c:263-288 | the sum behind a progress report never exceeds the total |
| `MigrationSafety.StepKeepsInv` | block-migration.c:140-210 | every step (guest write submitted or performed, bulk read submitted, performed or completed, block sent, frame sent) that settles no chunk which an outstanding guest write has yet to change keeps: each chunk below a cursor is dirty, or its newest copy is pending, or both sides hold the same; each chunk an outstanding write will change is dirty, ahead of the cursor or waits to be read; cursors stand on chunk boundaries; queues and counters agree |
| `MigrationSafety.RunKeepsInv` | block-migration.c:401-469 | the same over whole runs in any interleaving |
| `MigrationSafety.EveryRunIsSafe` | block-migration.c:401-469 | the same from a fresh migration, full or with a shared base, whatever guest writes were outstanding when it began |
| `MigrationSafety.StartInv` | block-migration.c:221-261 | a fresh migration satisfies the invariant, marked writes or not |
| `MigrationSafety.GuestPerformKeeps` | block.c:1562-1590 | a submitted guest write that reaches the disk changes only chunks that are dirty, ahead of the bulk cursor or not read yet, and keeps the invariant |
| `MigrationSafety.FlushOneKeeps` | block-migration.c:331-361 | sending the head of the queue makes the destination chunk what the source chunk was when it was read |
| `MigrationSafety.BulkSubmitKeeps` | block-migration.c:172-202 | reading a chunk and resetting its dirty bit keeps the invariant unless an outstanding write has yet to change a chunk that is read at once, or a clean one that is skipped |
| `MigrationSafety.SkippedChunk` | block-migration.c:150-163 | with a shared base, chunks that the search for allocated sectors passes over read the same on both sides |
| `MigrationSafety.StepKeepsWire` | block-migration.c:79-93 | every block on the wire is for a known device, starts inside it and is one chunk long; every percentage is at most 100 |
| `MigrationResult.EveryRunMigrates` | block-migration.c:401-469 | for every race-free interleaving, begun with any guest writes outstanding, that ends with the bulk phase over and the queues empty, on devices of whole chunks, the destination equals the source after the dirty pass and the loading of all frames |
| `MigrationResult.MigratedIffSame` | block-migration.c:401-469 | after stage 3 the destination equals the source if and only if every partial last chunk and every chunk dropped with the queue was the same on both sides before |
| `MigrationResult.DrainedEndsSame` | block-migration.c:401-469 | from any state with the invariant, bulk over, queues empty and devices of whole chunks, the dirty pass leaves the destination equal to the source |
| `MigrationRaces.RaceIsExact` | block-migration.c:146-202 | in any state with the invariant, on whole chunks and before any read has failed, a step settles no chunk that an outstanding guest write has yet to change if and only if every continuation that is itself without such a step and completes the migration (writes performed, reads done, queues sent, bulk over) ends, after the dirty pass, with the destination equal to the source |
| `MigrationRaces.RaceCanLoseWrite` | block-migration.c:146-202 | for each such write and chunk, read or skipped, there is a continuation that completes the migration and ends different |
| `MigrationRaces.StepStale` | block-migration.c:127-202 | once it is settled, a clean chunk reaches the destination as it was read or skipped, whatever writes, reads and sends follow |
| `MigrationRaces.Drain` | block-migration.c:331-451 | from any such state completing the reads, sending the queue and reading the rest of the bulk ends: a run of steps to a state with nothing left to read or send |
| `MigrationRaces.SendAllClean` | block-migration.c:298-329 | the dirty pass does not touch a clean chunk of the destination |
| `MigrationResult.RightForEveryDestination` | block-migration.c:309-310 | migration is right for every destination that shares the base images if and only if each chunk that is partial or was dropped with the queue has no sector allocated in the source |
| `MigrationResult.SpoiledDestination` | block-migration.c:309-310 | for any other missed chunk there is a destination with the right base on which it shows |
| `MigrationResult.SendAllPasses` | block-migration.c:298-329 | the dirty pass, as a function of the state it starts from, makes every chunk it has passed final and clean |
| `MigrationResult.PassDirty` | block-migration.c:303-323 | sending a dirty chunk makes it final and leaves every other chunk as it was |
| `MigrationResult.LimiterLosesBlock` | block-migration.c:340-394 | a run, for any contents, in which stage 2 counts as complete while a finished read is queued, so that with the rate limit hit in stage 3 the destination is unchanged even after the dirty pass |
| `MigrationResult.PartialChunkIsLost` | block-migration.c:471-503 | a run of a device of one sector, for any contents, that reads and sends its only chunk, drains everything and leaves nothing dirty and no error, after which the destination still holds what it held |
| `MigrationResult.RaceLosesWrite` | block.c:1576-1581 | a run, for any contents, in which a guest write marks its chunk dirty at submission, the bulk phase clears the mark, and the write is missed |
| `MigrationResult.SkipLosesWrite` | block-migration.c:150-163 | a run, for any contents and a shared base, in which a guest write outstanding when tracking began is missed because its chunk is skipped before it reaches the disk |
| `MigrationCounters.ReadsConserved` | block-migration.c:127-202 | in every run the counters equal the queues they count, and in flight + queued + sent equals the reads issued |
| `MigrationCounters.ProgressIsMonotone` | block-migration.c:263-294 | each percentage reported is greater than the ones before it and at most 100 in every run, also when reads fail, in which guest writes allocate no sector that is counted as completed and ahead of the cursor |
| `MigrationCounters.RunKeepsProgress` | block-migration.c:263-294 | over the same runs devices are worked through in order, none has completed more than its next search will find, and what was last reported is at most what is completed |
| `MigrationCounters.NoErrorIsAllCalm` | block-migration.c:263-294 | every run that ends without an error is of this kind |
| `MigrationCounters.CalmIff` | block-migration.c:162-194 | a guest write that reaches the disk is of this kind if and only if no bulk call after it can lower the sum of completed sectors; otherwise every bulk call does |
| `MigrationCounters.ProgressFalls` | block-migration.c:162-194 | with any other write the report can fall: a run, for any contents, that reports 50 and then 0 |
| `MigrationLaws.StartDevsAre` | block-migration.c:221-261 | a drive migrates if and only if it is a hard disk of at least one sector; each does once, in the order of the drives, and begins at sector 0 with nothing completed |
| `MigrationLaws.ChunksOfSectors` | block.c:642-662 | a guest write marks exactly the chunks that hold one of its sectors |
| `MigrationLaws.BulkCallIs` | block-migration.c:140-294 | one bulk call in sectors and chunks: it searches from the cursor for the first allocated sector if the base is shared, reads the 2048 sectors of the chunk that holds it, fewer at the end of the device, cleans that chunk and moves behind it; a device without such a sector is through; a percentage is put on the wire exactly when it has changed |
| `MigrationLaws.PercentIs` | block-migration.c:284 | the percentage is the completed part of the total, rounded down |
| `MigrationLaws.SentInOrder` | block-migration.c:127-138 | in every run blocks are sent in the order in which their reads completed, each once |
| `MigrationLaws.PassIs` | block-migration.c:298-329 | the dirty pass sends, device by device, each dirty whole chunk below the cursor once, in ascending order, as the disk holds it; these become clean and nothing else changes |
| `BlockMigration.BulkCallOk` | block-migration.c:449-451 | a synchronous bulk call that succeeds makes the remaining work smaller, so the stage-3 loop ends |
| `BlockMigration.DrainedIsSame` | block-migration.c:401-469 | with whole chunks and a drained queue the destination holds the source contents |
| `BlockMigration.BlkMigState.ReadCb` | block-migration.c:127-138 | the read callback moves its read from in flight to the end of the queue, with its result |
| `BlockMigration.BlkMigState.SearchAllocated` | block-migration.c:150-163 | the search stops at the first allocated sector, or at the end, whatever run lengths the driver reports |
| `BlockMigration.BlkMigState.SaveDeviceBulk` | block-migration.c:140-210 | one bulk call has exactly the effect of the step system on its device, and reports whether the device is done |
| `BlockMigration.BlkMigState.BulkFirstIncomplete` | block-migration.c:263-288 | the loop over devices works on the first incomplete one and sums the completed sectors |
| `BlockMigration.BlkMigState.SaveBulkedBlock` | block-migration.c:263-294 | a bulk step with its progress report; false exactly when all devices are complete |
| `BlockMigration.BlkMigState.FlushBlks` | block-migration.c:331-361 | for any answers of the rate limiter: sends the queued reads from the first on, one frame each, and stops when none is left, when the limiter objects before one, or at the first that has failed, which is an error |
| `BlockMigration.BlkMigState.SubmitBulk` | block-migration.c:431-439 | makes bulk calls, each of them only while what is being read or queued is below the rate, until the rate is reached or a call finds nothing to read; at the rate it does nothing |
| `BlockMigration.SubmitWithinRate` | block-migration.c:431-439 | what is being read or queued then stays below the rate plus one chunk, or no read was submitted |
| `BlockMigration.BlkMigState.IsStage2Completed` | block-migration.c:363-378 | true if and only if nothing is in flight and every device is complete; queued reads do not count |
| `BlockMigration.BlkMigState.SaveDirtyBlocks` | block-migration.c:298-329 | fails if and only if some dirty chunk is partial or its read fails; otherwise sends exactly the dirty chunks below the cursors, in order, and leaves the destination final on every chunk |
| `BlockMigration.PassFailsIff` | block-migration.c:309-313 | the dirty pass fails if and only if some dirty chunk runs past the end of its device or its read fails |
| `BlockMigration.BlkMigState.InitBlkMigration` | block-migration.c:221-261 | collects the hard disks with at least one sector, resets the counters and sums the sizes |
| `BlockMigration.BlkMigState.FinishBulk` | block-migration.c:448-451 | the stage-3 bulk loop makes synchronous bulk calls until one finds every device complete, on a measure, when finitely many reads fail |
| `BlockMigration.BlkMigState.BlockSaveLive` | block-migration.c:401-469 | each stage: what is returned, which run of steps without a race it is (flush as far as the limiter lets it, submit up to the rate, flush again, and in stage 3 the rest of the bulk), and when an error shows; stage 3 then puts the dirty pass of the state it reached and the two closing marks on the wire, which fixes what the destination holds chunk by chunk; the destination is the source when the last flush left nothing in flight or queued and sizes are whole chunks |
| `BlockSession.BetweenKeepsSteady` | block.c:1562-1590 | what guest and drivers do between two calls of the handler (writes submitted and performed, reads performed and completed) keeps what the handler relies on, unless it is a race |
| `BlockSession.UndisturbedIff` | block-migration.c:199-202 | of these only a read can race: if and only if its chunk is clean and an outstanding write has yet to change it |
| `BlockSession.Others` | block.c:1562-1590 | carries out a script of such events: exactly those that are possible when their turn comes and no race; the state stays fit for the next call |
| `BlockSession.AllCarried` | block.c:1562-1590 | of a script that is possible as a whole and without a race that is all of it |
| `BlockSession.StopGuest` | migration.c:392-395 | with the guest stopped its outstanding writes reach the disk, each once and in any order, none of them a race, and none is left |
| `BlockSession.Iterate` | savevm.c:1311-1343 | stage 2 called again and again, with what each gap holds carried out before its call, is one run without a race, each call at its own rate and under its own limiter; it is done exactly when nothing is left to read or in flight after a call, and otherwise goes on until an error or the end of the gaps |
| `BlockSession.Finish` | migration.c:392-405 | stage 3 with the guest stopped: the writes and then the steps of the handler are one run without a race, an error shows exactly when one did in the run or the dirty pass fails, and otherwise the destination is the source unless blocks were left in the queue or a chunk is partial |
| `BlockSession.Migrate` | migration.c:365-405 | a whole migration is one run without a race, made of the calls of the handler at their rates, what the gaps hold as far as it is carried out, and the last writes of the guest; it enters stage 3 exactly when stage 2 gets done without an error; without an error then the destination is what the source holds when the guest has stopped, unless blocks were left in the queue or a chunk is partial |
| `Wire.BigEndianRoundTrip` | block-migration.c:79-93 | a number written most significant byte first reads back |
| `Wire.HeaderReadsBack` | block-migration.c:79-93 | sector and flags share one 64-bit header and come apart again |
| `Wire.LoadEncodedFrame` | block-migration.c:471-523 | loading the bytes of one frame has the effect of the frame and goes on right behind it |
| `Wire.StreamRoundTrip` | block-migration.c:471-523 | loading all bytes of a stream, call by call, consumes exactly those bytes, performs exactly the writes sent, ignores progress frames and stops at end-of-section marks, whatever bytes follow |
| `Wire.StreamMigrates` | block-migration.c:401-523 | end to end: the bytes of a finished migration leave on the destination what the dirty pass determined, and the source contents when nothing was missed |
| `Wire.TruncatedStream` | block-migration.c:471-523 | a stream that breaks off at any byte is always noticed, with -EIO or -EINVAL: the frames that came whole are loaded, and of the one that did not at most one write is done, which goes to the right device and begins with the right data once the name has come whole |
| `Wire.TornBlockIsWritten` | block-migration.c:499-519 | a block of which the name and any part of the data came is written, filled up with what the buffer held, and only then reported with -EIO |
| `WireFormat.ValueIs` | block-migration.c:79-93 | eight bytes, the most significant first, written and read |
| `WireFormat.SmallFrames` | block-migration.c:284-288 | the bytes of the end-of-section mark and of a progress report, which hold flag and percentage |
| `WireFormat.BlockFrame` | block-migration.c:79-93 | the bytes of a block: 512 times its sector plus one, the length of the device name, the name, the data |
| `WireFormat.FlagsAre` | block-migration.c:481-484 | the loader takes the flags from the lowest bits of the last byte and the sector, with its sign, from the rest |
| `WireFormat.LoadsBlock` | block-migration.c:486-520 | a whole block for a known device is written if it fits, whatever other flags its header has; then -5 if the file has an error, the end of the call if the header says so, the next frame otherwise |
| `WireFormat.LoadsUnknown` | block-migration.c:492-497 | a block for an unknown device is -22 and nothing is written |
| `WireFormat.LoadsOther` | block-migration.c:505-520 | a header without the block flag: -22 without a known flag, -5 if the file has an error, the end of the call or the next frame |
| `WireFormat.NameEnds` | block-migration.c:488-492 | a device name ends before its first zero byte |
| `Wire.Loader.GetBuffer` | savevm.c:530-554 | fills a buffer as far as the input goes, leaves the rest of it as it was, and sets the error flag when the input ends |
| `Wire.Loader.GetBe64` | block-migration.c:481 | eight bytes as a signed number; missing bytes read as zero |
| `Wire.Loader.LoadDeviceBlock` | block-migration.c:486-504 | reads name and data, whole or not, and writes them to a known device, or fails with -EINVAL; the error flag tells whether bytes were missing |
| `Wire.Loader.BlockLoad` | block-migration.c:471-523 | the loop does what loading the bytes is specified to do, for every input, truncated or not, and either state of the error flag on entry |
| `IoVector.TakeIsPrefix` | cutils.c:176-193 | the buffers copied up to a limit hold exactly the first bytes |
| `IoVector.TakeBuffers` | cutils.c:176-193 | the buffers copied are the first ones as they are, but for the last, which may be cut |
| `IoVector.QemuIoVector.Add` | cutils.c:156-168 | appends one buffer and adds its length to the size |
| `IoVector.QemuIoVector.Concat` | cutils.c:176-193 | appends the first bytes of another vector, its last buffer cut to fit |
| `IoVector.QemuIoVector.ToBuffer` | cutils.c:210-219 | the concatenation of the buffers |
| `IoVector.QemuIoVector.FromBuffer` | cutils.c:221-234 | fills the buffers in order with the given bytes, up to their size; what lies beyond stays |
| `MultiwriteMerge.ApplyAllIsLast` | block.c:1766-1769 | after a list of write requests each byte is what the last request that covers it wrote |
| `MultiwriteMerge.MergedData` | block.c:1694-1716 | a merged request is the first one cut where the second starts, zeros in between, then the second; its size matches its sectors and its vector grows by at most one |
| `MultiwriteMerge.LastMerged` | block.c:1694-1716 | one merge changes the last writer of no byte but those in the gap it fills, if what it drops can be spared |
| `MultiwriteMerge.MergePreservesDisk` | block.c:1658-1727 | applying the merged requests gives the same disk as applying the sorted ones, if dropped tails can be spared and filled gaps already read as zeros |
| `MultiwriteMerge.PreservesEveryDiskIff` | block.c:1658-1727 | when no gaps are filled the merged requests do the same to every disk if and only if every dropped byte is written later or was already there |
| `MultiwriteMerge.TwoRequestsIff` | block.c:1697-1714 | two requests merge without loss if and only if the second does not end inside the first |
| `MultiwriteMerge.MergeGroups` | block.c:1666-1727 | which requests are merged, for any requests and any driver: the result divides the sorted requests into runs; a request joins the run before it if and only if it starts no later than the last one there ends, or the driver asks for it, and the vectors together with one more entry stay within 1024 |
| `MultiwriteMerge.AllMerged` | block.c:1673-1689 | if the vectors of all requests fit together with an entry for each merge, each request of the result ends before the next one begins |
| `MultiwriteMerge.NothingElseWritten` | block.c:1679-1685 | without a driver that asks for it no gap is bridged: the result writes only where a request does |
| `MultiwriteMerge.TwoRequests` | block.c:1666-1727 | two requests that touch or overlap and whose vectors fit leave one, from the start of the first to the end of the second; otherwise, without the driver asking, both are left |
| `MultiwriteMerge.MergeSameIff` | block.c:1658-1727 | for any disk and any driver the merged requests do what the sorted ones do if and only if at each byte the last merge that disturbs it, by dropping it or filling a gap, leaves what the sorted requests make of it |
| `MultiwriteMerge.MergeLeaves` | block.c:1658-1727 | what the merged requests leave at each byte: that of the last merge that disturbs it, a zero of the gap or what the earlier requests left, and if none does what the sorted requests make of it |
| `MultiwriteMerge.AscendingEndsDropNothing` | block.c:1697-1714 | requests whose ends do not decrease drop nothing, with any driver |
| `MultiwriteMerge.DiskThatDiffers` | block.c:1697-1714 | otherwise there is a disk that ends up different |
| `MultiwriteMerge.MergeFits` | block.c:1658-1727 | merged requests stay inside the device and hold as many bytes as their sectors |
| `MultiwriteMerge.MergeKeepsLimit` | block.c:1687-1689 | no merged vector has more than IOV_MAX entries if no original has; at least one request remains and no more than before |
| `MultiwriteMerge.MergeTwo` | block.c:1690-1716 | one merge through the vector operations is the merged request |
| `MultiwriteMerge.MergeSorted` | block.c:1666-1727 | the in-place loop leaves in the front of the array exactly the merged requests, which are the runs of the sorted requests that `MergeGroups` describes, and returns their number |
| `MultiwriteOrder.OrderIsFreeIff` | block.c:1663-1664 | all orders of a set of requests have the same effect on every disk if and only if requests that write the same byte write the same there |
| `MultiwriteOrder.SortAndMergeKeepDisk` | block.c:1658-1727 | requests that share no sector leave, sorted in any way and merged, the disk that they leave in the order they came in, for any driver that fills only gaps that read as zeros |
| `MultiwriteOrder.SortByStart` | block.c:1663-1664 | the same requests in ascending order of start sectors, those with equal starts in any order |
| `MultiwriteOrder.Merge` | block.c:1658-1727 | sorting and merging in place: the runs of the requests in some sorted order, which on requests that share no sector leave the same disk |
| `MultiwriteCompletion.BeforeFreed` | block.c:1619-1635 | until it is freed the control block counts the outstanding requests, holds the first error, and has run the callbacks exactly when there is one: each once, in order, with that error |
| `MultiwriteCompletion.ProperIff` | block.c:1605-1635 | in any order of counting and completing, each callback runs exactly once with the first error and the block is freed once, by the last event, if and only if the count does not reach zero before the end |
| `MultiwriteCompletion.EveryOrderIsProper` | block.c:1619-1635 | so it is for every order of completions when the submission loop ends first |
| `MultiwriteCompletion.SubmissionIsProper` | block.c:1743-1793 | so it is after every submission that returned 0, with any results; after a refused request the first error is -EIO |
| `MultiwriteCompletion.SubmittedIs` | block.c:1764-1788 | what a submission does: all requests before the first that the driver refuses are counted; that one is counted and completes at once with -5, and none after it is submitted |
| `MultiwriteCompletion.CompletionDuringSubmission` | block.c:1766-1786 | a completion between two submissions frees the block twice |
| `MultiwriteCompletion.FirstErrorIsFirst` | block.c:1623-1626 | the reported status is the result of the first failed completion, 0 without one |
| `MultiwriteCompletion.MultiwriteCB.UserCb` | block.c:1605-1617 | runs every original callback once, in order, with the recorded error |
| `MultiwriteCompletion.MultiwriteCB.Cb` | block.c:1619-1635 | one completion: the first error is kept and reported at once, the last completion reports success without one and frees the block |
| `MultiwriteCompletion.MultiwriteCB.Submit` | block.c:1743-1793 | returns -1 if and only if the first request is refused, and then has run no callback and freed the block; otherwise the count is that of the requests accepted before the first refusal, after which every callback has run with -5 |
| `AesTables.SBoxInverse` | aes.c:47-58 | the two S-boxes undo each other |
| `AesTables.SBoxIsAffineInverse` | aes.c:47-58 | the S-box is the affine map of the inverse in GF(2^8): section 5.1.1 of FIPS 197 |
| `AesTables.MixCoefficientsAreProducts` | aes.c:47-50 | the coefficients 2 and 3 are products in GF(2^8) |
| `AesTables.InvMixCoefficientsAreProducts` | aes.c:53-56 | so are 9, 11, 13 and 14 |
| `AesTables.InvMixColumnIsLinear` | aes.c:853-876 | InvMixColumns distributes over the addition of a round key |
| `AesTables.InvMixColumnUndoes` | aes.c:47-58 | InvMixColumns undoes MixColumns |
| `AesTables.EncTables` | aes.c:982-1005 | four lookups in the encryption tables are SubBytes and MixColumns of a column |
| `AesTables.DecTables` | aes.c:1173-1196 | four lookups in the decryption tables are InvSubBytes and InvMixColumns of a column |
| `AesCipher.DecRoundUndoes` | aes.c:885-1261 | one round of the equivalent inverse cipher goes back over one round of the cipher |
| `AesCipher.DecRoundsMeetEncRounds` | aes.c:885-1261 | after each number of rounds decryption holds the state encryption had that many rounds before its end |
| `AesCipher.EqInvCipherUndoesCipher` | aes.c:832-878 | the equivalent inverse cipher under the reversed, mixed schedule undoes the cipher, for every schedule and block: section 5.3.5 of FIPS 197 |
| `AesStandard.ShiftRowsIs` | aes.c:982-1005 | row r of the state moves left by r columns: section 5.1.2 of FIPS 197 |
| `AesStandard.MixColumnsIs` | aes.c:47-56 | each byte of MixColumns and of its inverse as a sum of products in GF(2^8): sections 5.1.3 and 5.3.3 |
| `AesStandard.KeyScheduleExpands` | aes.c:756-825 | the key schedule byte by byte over the S-box and addition, for every key of every size: which byte of which earlier word goes into which byte of each word, where the S-box is applied, and the constants |
| `AesStandard.ExpansionIsUnique` | aes.c:756-825 | that determines the schedule |
| `AesStandard.ExampleExpands` | aes.c:760-764 | all eleven round keys of the example key of appendix A.1 |
| `AesStandard.ExampleCipher` | aes.c:885-1070 | the example of appendix B, through all ten rounds |
| `Aes.EncRoundOk` | aes.c:982-1005 | four words by table lookup are a round of SubBytes, ShiftRows, MixColumns and AddRoundKey: section 5.1 of FIPS 197 |
| `Aes.DecRoundOk` | aes.c:1173-1196 | and likewise a round of the equivalent inverse cipher |
| `Aes.Expand128` | aes.c:756-775 | the loop for 128-bit keys fills the words of the key expansion (`KeyScheduleExpands`) and no others |
| `Aes.Expand192` | aes.c:776-795 | the loop for 192-bit keys |
| `Aes.Expand256` | aes.c:798-825 | the loop for 256-bit keys |
| `Aes.SetEncryptKey` | aes.c:731-827 | status -1 or -2 for bad arguments with nothing changed; otherwise 10, 12 or 14 rounds and exactly the words of the key expansion, byte by byte as section 5.2 of FIPS 197 says, the words past them as they were |
| `Aes.SetDecryptKey` | aes.c:832-878 | likewise the schedule of the equivalent inverse cipher, made in place |
| `Aes.InvertSchedule` | aes.c:846-876 | reverses the round keys and applies InvMixColumns to all but the first and the last |
| `Aes.EncFullRounds` | aes.c:976-1036 | the double-round loop is all full rounds of the cipher |
| `Aes.DecFullRounds` | aes.c:1167-1227 | the double-round loop is all full rounds of the inverse cipher |
| `Aes.Encrypt` | aes.c:885-1070 | writes the encrypted block and nothing else, also when input and output overlap |
| `Aes.Decrypt` | aes.c:1076-1261 | writes the decrypted block and nothing else, also when input and output overlap |
| `Aes.ExampleBlock` | aes.c:885-1070 | the same example as bytes in and out |
| `Aes.DecryptUndoesEncrypt` | aes.c:885-1261 | for every key of 128, 192 or 256 bits and every block, decryption undoes encryption |
| `AesCbc.ChainRoundTrip` | aes.c:1265-1314 | CBC decryption undoes CBC encryption for every length, whole blocks or not: section 6.2 of NIST SP 800-38A |
| `AesCbc.CbcRoundTrip` | aes.c:1265-1314 | the same with AES, for every key, chaining value and message |
| `AesCbc.EncBlockIs` | aes.c:1276-1294 | each block of ciphertext is the encryption of its plaintext added to the ciphertext block before; past the end of a partial block of that block alone |
| `AesCbc.DecByteIs` | aes.c:1295-1313 | each byte of plaintext is that of its ciphertext block decrypted, added to that of the block before |
| `AesCbc.CarriedOn` | aes.c:1276-1313 | the chaining value carried on is the last block of ciphertext, but for decryption after a partial block |
| `AesCbc.EncChainSplits` | aes.c:1276-1294 | encrypting whole blocks and then the rest with the carried chaining value is encrypting everything at once |
| `AesCbc.DecChainSplits` | aes.c:1295-1305 | so it is for decryption |
| `AesCbc.ChainingValuesAgree` | aes.c:1306-1312 | after a message both sides carry the same chaining value if and only if it is whole blocks long or the last block happens to decrypt to its own ciphertext: decryption carries on the decrypted partial block |
| `AesCbc.ChainingValuesDiffer` | aes.c:1306-1312 | for a message of one byte, under any chaining value the cipher does not map to itself, they differ |
| `AesCbc.CbcEncryptBuffer` | aes.c:1276-1294 | writes the ciphertext rounded up to a block and the next chaining value, also in place |
| `AesCbc.CbcDecryptBuffer` | aes.c:1295-1313 | writes exactly the plaintext and the chaining value the code leaves, also in place |
| `AesCbc.CbcEncrypt` | aes.c:1265-1314 | either of them, nothing else in the output changed |
| `CrisOpcodes.FindSpecReg` | cris-dis.c:1332-1362 | finds the first table entry that names the register in this family |
| `CrisOpcodes.RegistersV32` | cris-dis.c:56-119 | the sixteen special registers of CRISv32, which entry of the table counts for each, and their sizes |
| `CrisOpcodes.RegistersV0V10` | cris-dis.c:56-119 | those of the earlier versions |
| `CrisOpcodes.ClearLowestBit` | cris-dis.c:1366-1375 | clearing the lowest set bit takes one off the number of set bits |
| `CrisOpcodes.NumberOfBits` | cris-dis.c:1366-1375 | counts the set bits |
| `CrisOpcodes.LetterSeesKind` | cris-dis.c:1599-1746 | each letter of a constraint treats two prefixes of one class alike |
| `CrisOpcodes.ScoreSeesKind` | cris-dis.c:1599-1752 | the whole constraint depends on the prefix only through its class |
| `CrisOpcodes.LookupSeesKind` | cris-dis.c:1427-1481 | so do the search and its result, which makes one table for each class enough |
| `CrisOpcodes.ClassIff` | cris-dis.c:1447-1481 | the prefix classes are exactly what constraints can tell apart: two prefixes are of one class if and only if no constraint, instruction and family treats them differently |
| `CrisOpcodes.LookupIsBest` | cris-dis.c:1490-1578 | the search returns the first full match, else the first of the best matches, else nothing, and that describes the result completely; what a level is says `CrisLaws.LevelIs` |
| `CrisLaws.ConsideredIff` | cris-dis.c:1499-1551 | for every version the search handles: CRISv32 considers an entry if and only if it is meant for version 32, the other families if and only if it is meant for some version below, or for no determinate one |
| `CrisLaws.PrefixLetters` | cris-dis.c:1615-1670 | the letters that look at the prefix, in terms of the bits of the instruction |
| `CrisLaws.PushLetter` | cris-dis.c:1672-1711 | a push prefix fits if and only if its offset is minus the size of the special register, or minus four for a register of four bytes |
| `CrisLaws.InsnLetters` | cris-dis.c:1627-1719 | the letters that look at the instruction alone |
| `CrisLaws.OtherLetters` | cris-dis.c:1721-1746 | a special register is required, and every other letter is let pass |
| `CrisLaws.Offsets` | cris-dis.c:1451-1454 | the low byte of a prefix as a signed number |
| `CrisLaws.ConstraintIs` | cris-dis.c:1601-1752 | what an argument string is worth: -1 if a letter refuses or a prefix is not asked for, else 5 for a repeated register and 3 for each special register after it |
| `CrisLaws.LevelIs` | cris-dis.c:1553-1578 | an entry matches if and only if it is considered, all bits it wants are set, none it excludes is, and its arguments fit; its level is then theirs and 2 for every bit it determines |
| `CrisLaws.PlainLevel` | cris-dis.c:1553-1578 | an entry without arguments has twice the number of its bits, and never goes with a prefix |
| `CrisLaws.FullMatch` | cris-dis.c:1574-1578 | an entry that determines all sixteen bits has level 32, the full match |
| `CrisLaws.OnlyV32` | cris-dis.c:1499-1524 | an instruction that only CRISv32 has is found for it and for no other family |
| `CrisLookup.Disassembler.CrisConstraint` | cris-dis.c:1599-1752 | the loop over the letters computes the score of the specification, looking up the prefix through the caches |
| `CrisLookup.Disassembler.SearchTable` | cris-dis.c:1490-1578 | the loop over the table finds what the search finds, which is the best match |
| `CrisLookup.Disassembler.GetOpcodeEntry` | cris-dis.c:1379-1595 | the lookup in place is the cached lookup of the specification, answer and caches, whatever the caches hold; the mutual recursion terminates |
| `CrisLookup.AnswerIsBest` | cris-dis.c:1379-1595 | a search without caches: the best match of the prefix on its own, and then of the instruction after it |
| `CrisLookup.EntryIsRight` | cris-dis.c:1379-1595 | with caches that are right for a family the cached lookup returns what a search without caches returns, and leaves them right for every family that agrees with it |
| `CrisLookup.OneFamilyIsFresh` | cris-dis.c:1379-1595 | over any sequence of lookups, with any prefixes, for one family the caches never show |
| `CrisLookup.PlainRunIff` | cris-dis.c:1483-1591 | over any sequence of plain lookups all answers are those of a search if and only if none is for an instruction whose entry was filled by a family that finds something else |
| `CrisLookup.FamiliesShareIff` | cris-dis.c:1379-1595 | two families may share the caches, whatever is looked up with whatever prefixes, if and only if their searches always agree |
| `CrisLookup.StaleAnswer` | cris-dis.c:1486-1487 | a lookup that fills an entry, then one for another family that gets the wrong answer from it |
| `DirtyBitmap.MaskIsLow` | block.c:655-659 | the mask, a shifted int widened to the word with its sign, has one bit in its low half, the count modulo 32 |
| `DirtyBitmap.MasksOf64` | block.c:655-659 | with words of 64 bits the mask of bit 31 has the whole upper half, and bits from 32 on have the masks of the lower ones |
| `DirtyBitmap.BitIsLow` | block.c:2163-2164 | the test of a bit, cut down to an int by the return type, looks at that low bit |
| `DirtyBitmap.OneBit` | block.c:655-659 | setting or clearing a bit of a word changes the test of the bits with the same low half only |
| `DirtyBitmap.TouchedHoldsSector` | block.c:648-649 | for a range that is not empty the chunks touched are exactly those that hold one of its sectors |
| `DirtyBitmap.EmptyRangeTouches` | block.c:648-649 | an empty range touches the chunk it starts in unless it starts at a chunk boundary other than 0 |
| `DirtyBitmap.SetDirtyBitmap` | block.c:642-662 | the loop over words of 32 or 64 bits sets or clears the chunks of the range |
| `DirtyBitmap.SetBitsMark` | block.c:642-662 | a chunk is marked afterwards as the call says if a chunk of the range has its bit, and as before otherwise |
| `DirtyBitmap.BitmapIsLastHit` | block.c:642-662 | after any sequence of set and reset calls a chunk is marked as the last call made it that touched a chunk with its bit |
| `DirtyBitmap.TracksIff` | block.c:642-662 | whatever the calls, the bitmap tells of each chunk of the device what the last call that touched it made of it, if and only if words have 32 bits or the device has at most 32 chunks |
| `DirtyBitmap.Chunk32ClearsChunk0` | block.c:656-658 | on every larger device with words of 64 bits setting chunk 0 and clearing chunk 32 loses chunk 0 |
| `DirtyBitmap.BitmapCoversDevice` | block.c:2143-2147 | the allocation has a bit for every chunk and not a byte too many |
| `BlockIo.ReadAfterWrite` | block.c:688-780 | reading back a range that was written returns it, and all else is unchanged |
| `BlockIo.WholeSectorWrite` | block.c:749-755 | patching part of a sector and writing the sector writes that part only |
| `BlockIo.InRangeOfWholeSectors` | block.c:600-626 | on a device of whole sectors the accessible ranges are exactly those inside the device |
| `BlockIo.RangeSplits` | block.c:688-780 | a range is accessible if and only if its parts are |
| `BlockIo.CheckIsRightIff` | block.c:600-626 | with the size multiplied out in int the range check is right at every sector if and only if the product is in range, or the device is too short for what it wraps to or, where that is negative, for the sectors themselves |
| `BlockIo.MarksAreTracked` | block.c:681-683 | the chunks marked for a write are those that share a bit with one it meets, and every byte it changes lies in one |
| `BlockIo.NearIsMeeting` | block.c:681-683 | with words of 32 bits or at most 32 chunks they are just the chunks it meets |
| `BlockIo.OutcomesJoin` | block.c:733-780 | the parts of a write, done one after the other, add up to the write of the whole, or to a prefix of it when a later part fails |
| `BlockIo.WriteIs` | block.c:733-780 | byte by byte what a write that succeeds leaves |
| `BlockIo.ReadIs` | block.c:688-731 | byte by byte what a read returns |
| `BlockIo.BlockDevice.Read` | block.c:629-640 | succeeds if and only if the request is in range and the driver does; returns the sectors or the error code |
| `BlockIo.BlockDevice.Write` | block.c:670-686 | refuses without effect, or marks the chunks of the request, of no sectors too, and writes the sectors; a failing write leaves the content alone and the marks set |
| `BlockIo.BlockDevice.PRead` | block.c:688-731 | returns exactly the bytes of the range, or fails for a range outside the device or a failing driver |
| `BlockIo.BlockDevice.PWrite` | block.c:733-780 | writes exactly the range, or on an error a prefix of it; every changed byte is in a dirty chunk and only chunks that share a bit with one of the range become dirty |
| `BlockIo.BlockDevice.SetDirtyTracking` | block.c:2137-2155 | starts tracking with no chunk marked and a bit for each whole sector, leaves tracking that is on as it is, or stops it |
| `BlockIo.BlockDevice.GetDirty` | block.c:2157-2168 | whether tracking is on, the sector is inside the device and its chunk is marked |
| `BlockIo.BlockDevice.ResetDirty` | block.c:2170-2174 | clears the chunks that share a bit with one of the range and no other |
| `BlockCommit.CopyOne` | block.c:576-586 | writing one allocated sector to the backing file extends the copied part and changes no other sector |
| `BlockCommit.CopyingKeepsShown` | block.c:575-592 | however far the copying got, the image shows what it did; once complete the backing file shows it too, so it still does when the image is emptied |
| `BlockCommit.CowImage.Commit` | block.c:558-598 | whatever fails, every visible sector stays as it was; on success the backing file equals the visible content on every sector it has, and the image is empty if its format allows |
| `BufferedFile.FlushKeepsStream` | buffered_file.c:73-108 | flushing moves pending bytes to the backend in order and loses none, even when it fails |
| `BufferedFile.PutAppends` | buffered_file.c:110-160 | a put that leaves no error has added exactly its data to accepted and pending bytes |
| `BufferedFile.RunConserves` | buffered_file.c:49-239 | over every sequence of puts, ticks and rate changes and every behaviour of the backend, while there is no error, accepted plus pending bytes are everything that was put, in order |
| `BufferedFile.CloseDrains` | buffered_file.c:162-183 | closing ends with an error or with nothing pending |
| `BufferedFile.CloseDelivers` | buffered_file.c:162-183 | a run closed without an error has delivered everything that was put, in order |
| `BufferedFile.NoHoleIff` | buffered_file.c:125-147 | what the backend has accepted after a put is a prefix of the stream, for every data, if and only if it is not the case that the flush failed and the backend would take more: the put does not look at the error |
| `BufferedFile.HoleIsReportedWritten` | buffered_file.c:125-147 | in that case there is a byte whose put leaves a hole and reports one byte written |
| `BufferedFile.BufferedOutput.BufferedAppend` | buffered_file.c:49-71 | appends to the pending bytes, growing the buffer |
| `BufferedFile.BufferedOutput.BufferedFlush` | buffered_file.c:73-108 | the loop with short writes, busy answers and errors does what the specification says |
| `BufferedFile.BufferedOutput.BufferedPutBuffer` | buffered_file.c:110-160 | flush, direct writes and buffering, and the value returned |
| `BufferedFile.BufferedOutput.BufferedClose` | buffered_file.c:162-183 | ends with an error or an empty buffer |
| `BufferedFile.BufferedOutput.BufferedRateTick` | buffered_file.c:221-239 | unless frozen or in error begins a period, in which nothing counts as sent, and flushes; otherwise does nothing |
| `BufferedRate.FlushByAnswers` | buffered_file.c:73-108 | what a flush does, answer by answer of the backend: each takes as many bytes as it says, or all that are left, until none is left, one says busy, or one fails |
| `BufferedRate.DirectByAnswers` | buffered_file.c:127-158 | what offering data directly does: the same, but nothing is offered while frozen or once more than the limit has been handed over; what is left is buffered unless the backend fails |
| `BufferedRate.PutIs` | buffered_file.c:110-160 | a put unfreezes, flushes and offers its data; after an error it does nothing and returns -EINVAL |
| `BufferedRate.CloseFailsWithBackend` | buffered_file.c:162-183 | closing fails only when the backend does |
| `BufferedRate.XferIsSince` | buffered_file.c:127-239 | the count of the rate limit is, in every run, what was handed over directly since the last tick that was neither frozen nor in error |
| `BufferedRate.TickIs` | buffered_file.c:221-239 | after such a tick the stream is limited only if the flush froze it; any other tick does nothing |
| `BufferedRate.RunWithinLimit` | buffered_file.c:127-131 | in every run at one rate all that was handed over since, but for the last offer, is within the limit |
| `BufferedRate.RateIsTenPeriods` | buffered_file.c:201-212 | the limit of a period is a tenth of the rate, rounded down |
| `BottomHalves.EveryRunWasScheduled` | async.c:127-195 | each run of a half has a schedule of its own before it, with no run, cancel or delete of it since; a deleted half never runs |
| `BottomHalves.AfterIsOk` | async.c:168-195 | schedule, cancel, delete and run keep the flags what the history of the half says, so a reschedule made inside a callback is kept |
| `BottomHalves.ExtendsTwice` | async.c:138-166 | what callbacks may do to the lists under a walk composes: halves are only added in front, none is removed |
| `BottomHalves.NestedExtends` | async.c:65-105 | entering a context, working in it and leaving it is such a step for the context below |
| `BottomHalves.RescheduledLater` | async.c:138-152 | a half that is pending after it was visited was scheduled since |
| `BottomHalves.AsyncContexts.BhNew` | async.c:127-136 | a new half is first in the current context and not scheduled |
| `BottomHalves.AsyncContexts.BhSchedule` | async.c:176-184 | schedules unless already scheduled |
| `BottomHalves.AsyncContexts.BhScheduleIdle` | async.c:168-174 | schedules as idle unless already scheduled |
| `BottomHalves.AsyncContexts.BhCancel` | async.c:186-189 | clears the schedule only |
| `BottomHalves.AsyncContexts.BhDelete` | async.c:191-195 | marks as deleted and not scheduled |
| `BottomHalves.AsyncContexts.Push` | async.c:65-71 | a new empty context whose number is one more |
| `BottomHalves.AsyncContexts.Poll` | async.c:138-166 | a pass gives each half of the list its turn, in list order: if it is pending then it runs with its callback; the result tells whether one that was not idle ran; what is pending in the context afterwards was scheduled during the pass; only halves of the context and ones made by the callbacks ran, and only idle ones of the former if nothing is reported; deleted halves are unlinked; with callbacks that do nothing more exactly the pending halves run, once each and in list order, and the result tells whether one was not idle |
| `BottomHalves.AsyncContexts.PollUntilIdle` | async.c:91 | passes end; in the last one only idle halves ran besides those made since the call, and what is pending was scheduled during it; no half of the context is lost unless deleted |
| `BottomHalves.AsyncContexts.Pop` | async.c:74-105 | terminates, leaves the other contexts alone and schedules a completion half in the parent; without idle halves nothing pending is left behind, and with them what is pending there was scheduled during the last pass, in which only idle halves ran besides those made since the call |
| `BottomHalves.AsyncContexts.Perform` | async.c:65-195 | performs the actions of a callback one after the other, with any nesting of contexts; it keeps the state consistent and only extends it |
| `BottomHalves.AsyncContexts.RunCallback` | async.c:144-151 | running a half clears its flags, a completion half deletes itself, and then its callback does what the script says |
| `BottomHalves.StartedIs` | async.c:144-149 | what running a half does before its callback: flags and history |
| `BottomHalves.AsyncContexts.GetAsyncContextId` | async.c:110-113 | the number of the current context is the depth of the stack below it |
| `BottomHalves.AsyncContexts.BhUpdateTimeout` | async.c:197-215 | 0 if a half that is not idle is pending, else at most 10 if an idle one is, else as given |
| `Calendar.ClosedFormCountsDays` | cutils.c:99-108 | the closed form equals the days from the epoch counted year by year and month by month, for every Gregorian date from year 1 |
| `Calendar.YearsInClosedForm` | cutils.c:107-108 | the days of the years before, with leap years, in closed form |
| `Calendar.MonthsInClosedForm` | cutils.c:103-107 | the days of the months before, counted from March, in closed form |
| `Calendar.ConsecutiveDays` | cutils.c:99-111 | consecutive days differ by exactly 86400 |
| `Calendar.ConsecutiveSeconds` | cutils.c:99-111 | consecutive seconds differ by 1, and the epoch is 0 |
| `Calendar.MonthLengths` | cutils.c:99-108 | the days of the months that are counted, with the leap years of the Gregorian calendar |
| `Calendar.KnownDates` | cutils.c:99-111 | a time on the leap day of 2000, and the day after 28 February 2100 |
| `Calendar.MktimegmKeepsOrder` | cutils.c:99-111 | the order of the results is the order of the times |
| `Calendar.IntProductIff` | cutils.c:107-108 | with the product computed in 32 bits the result is right if and only if the date lies from 14 December 1901 to 19 January 2038 |
| `Calendar.IntProductWraps` | cutils.c:107-109 | otherwise it differs by the multiple of 2^32 that brings the product into the range of an int |

## Left out

- Opening and probing images, monitor output, snapshots, the QEMUFile layer, timers, sockets, `aio.c`, `cpu-exec.c`, consoles, the other disassemblers and the printing half of `cris-dis.c`: I/O plumbing and formatted output that would only add easy members.
- Memory allocation failure, alignment and buffer ownership, except the single release of each multiwrite control block.
- Migration: devices are values in a sequence field, not separate heap objects; block buffers are values. At least one device is required, as the division at block-migration.c:284 requires it. The guest does not write during stage 3, before which it is stopped.
- Migration: the stage-3 bulk loop retries a failing read at once (block-migration.c:449-451), so failures of bulk reads are bounded by a parameter; a read that fails forever would make it spin. Which reads of the dirty pass fail is another parameter.
- Migration: dirty tracking that is never switched off because cleanup empties the device list before (block-migration.c:380-399) is not followed.
- BlockMigration.BlkMigState.BlockSaveLive: takes the rate and the rate limiter's answers as parameters of each call, the rate as one number during the call, and the product at block-migration.c:433 does not wrap; stages are called with the migration state that the earlier stages leave. Stage 3 requires that no outstanding guest write has anything left to change ahead of a bulk cursor (`WritesBehind`); its caller stops the guest and waits for all requests first (migration.c:392-395). With a shared base all stages require that outstanding writes ahead of a cursor are marked (`WritesMarked`), which they are unless they were submitted before tracking started; so stage 1 then requires that none is outstanding.
- Wire.Loader.LoadDeviceBlock: what the buffers hold before they are filled is a parameter, of which only the last, truncated block of an input makes use.
- Wire.Loader.BlockLoad: a backend without data for the moment (`-EAGAIN`), which leaves the error flag alone, is not modelled; errors of the destination's writes are ignored, as the source does.
- BlockSession.Migrate: of the activity between two calls steps that are not possible and races are passed over; `MigrationRaces.RaceIsExact` is about the latter.
- Wire.StreamRoundTrip: requires device names shorter than 256 bytes without a zero byte, which is what the one-byte length and C strings can carry.
- MultiwriteOrder.SortByStart: stands for the C library's `qsort`, of which only the result is modelled.
- MultiwriteCompletion.MultiwriteCB.Submit: completions that arrive during the loop are not part of the method; `ProperIff` treats them as histories. Re-entry from user callbacks and the buffers freed with them are not modelled.
- AES: the unrolled variant (`FULL_UNROLL`), and the tables as printed: they are computed from the S-box and GF(2^8) multiplication as the comment at aes.c:47-58 defines them.
- AesCbc.CbcEncrypt: buffers that overlap without being the same are not covered.
- CrisLookup.Disassembler.GetOpcodeEntry: the opcode table is a parameter, and requires the versions the search handles, as it aborts on any other; instructions and masks have 16 bits.
- DirtyBitmap.SetDirtyBitmap: works on whole words; the source allocates whole bytes (block.c:2143-2147). A shift of an `int` by 32 or more is undefined in C; it is taken as x86 does it.
- DirtyBitmap.BitmapCoversDevice: is about the bits allocated, not about access to whole words.
- BlockIo.BlockDevice.Read: growable devices are not modelled; sector counts are those for which the check is right (`BlockIo.CheckIsRightIff`).
- BlockIo.BlockDevice.Write: not for an empty request to a tracked device without a whole sector, for which the source would mark outside its bitmap.
- BlockIo.BlockDevice.GetDirty: not for the partial sector at the end of a tracked device, for which the bitmap may have no bit.
- BlockCommit.CowImage.Commit: extents reported by the driver are at least one sector long and end inside the image.
- BufferedFile.RunConserves: the backend's answers are a finite script after which it fails; the timer and the call back into the migration code are left to the caller; sizes do not wrap.
- BottomHalves.AsyncContexts.Poll: what callbacks do is a finite script, after which they do nothing; callbacks do not poll their own context, and freed halves are not touched.
- Calendar.ClosedFormCountsDays: is for dates of the Gregorian calendar from year 1; seconds of a minute are below 60 where order is concerned.
