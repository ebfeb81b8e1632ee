# A verified model of the VFS container and the download manager

Two Rust components of the native bridge and the glue between them:

* **The VFS**, a crash-safe container. `header.vfs` is a SuperBlock followed by region slots, each a whole index;
  `files.vfs` is a data area of 4K-aligned spans. A flush writes one slot, syncs, patches the generation in the
  SuperBlock and syncs again. A compaction moves data in up to eight rounds of scan, move and finalize while the header
  on disk must stay true.
* **The download manager**: a queue with priorities, pause, cancel and shutdown; workers that run one task each over two
  sources with a shared budget of retries and a one-way fallback; a reporter that counts and retires finished tasks; and
  two token buckets.
* **The glue**, a sink that downloads into a VFS writer, which ties the two together: a task that ends as Done has left
  an Active entry of the right size whose bytes have the right checksum.

## How it is laid out

Code that works step by step is imperative: the table and register loops (`Crc`), `build_plan` (`Planner`), the encoders
and scanners of the disk format (`Format`, `HeaderLog`), `header.vfs` as an object (`HeaderFiles`), the in-memory index
(`IndexMap`), the container and its writers (`Vfs.dfy`, module `VfsEngine`), `compact_run` on bytes (`Compaction`),
enumeration and the C# parser (`Enumerate`, `Reader`), the sinks and the worker (`Glue`, `Sink`, `Worker`), the buckets (`Rate`), the queue and the
reporter's pass (`TaskQueue`, `Report`). What several threads do at once is a state machine whose
actions are the critical sections and file operations of the source, so that a run is any interleaving: `Store` for the
VFS (invariant in `StoreInv`, steps in `StoreSteps`; theorems on crashes in `StoreSafety`, `StoreHistory` and
`TwoCrashes`, on what is never lost in `StoreKeeps`, on what gets done in `StoreRuns`) and `Scheduler` for the download
manager (`SchedulerInv`, `SchedulerBooks`; theorems in `SchedulerSafety`, `SchedulerEnds` and `SchedulerRuns`). The functions on indexes in `Entries` are
used by both forms: the methods of `Vfs` and `Writer` are proved against them and the actions of `Store` are made of them.

* `files.vfs` has two layers, what handles read and write (`vol`) and what is on disk (`dur`). A sync copies one to the
  other, write-back may happen at any time, and a crash leaves any mix byte by byte (`Files.Mix`).
* A crash while a slot is written leaves the old slot, the new one, or one whose header is whole and whose data does not
  check; a crash while the SuperBlock is patched leaves the old, the new, or one that does not check.
* `Ent.body` is history: the bytes that the writer of an entry had written when it committed. The theorems compare file
  contents with it instead of assuming that checksums do not collide.
* Names are byte strings, and `utf8` is a parameter wherever the source tests them. Checksums are 32-bit vectors.
  Subtraction on `u64` in the planner wraps, as the release profile compiles it.

## What the source needs from its surroundings

* A session starts from a disk that satisfies `StoreSafety.StoreOk`: the SuperBlock names the region that recovery
  selects, no slot is of a higher generation, and slots of one generation differ in Downloading entries at most.
  `CrashReopens` shows that every crash outside a persist in flight and outside the marked part of a round leaves such a
  disk. `Reopen.OrphanBreaksStart` shows that a crash between the sync of a slot and the flip does not,
  `Reopen.OrphanWins` says exactly when a later session then loses what it persisted, and
  `TwoCrashes.TwoCrashesLoseAFlush` gives two sessions in which it does.
* `header.vfs` ends on a slot boundary; `HeaderLog.TailHidesAppends` says that exactly then an appended region is found,
  and `HeaderLog.TornTailHides` that a torn append breaks it.
* A generation identifies an index as long as no compaction gives up after marking entries Bad and no alloc fails to
  open its own handle; `StoreHistory.MarkingIsSilent` and `StoreHistory.FailedOpenIsSilent` show these two gaps.
* Empty files are allowed. `Planner.SubtractionUnderflow` says for which entries the subtraction of `build_plan` goes
  below zero, `PlanFacts.UnderflowHappens` how such a file comes about; the plan is safe all the same.

## Model

| member | source | states |
|---|---|---|
| `Crc.Table` | src/nativebridge/rust/src/modules/util.rs:14-29 | every cell of the table is its index after eight steps of the shift register |
| `Crc.UpdateRaw` | src/nativebridge/rust/src/modules/util.rs:32-39 | the table-driven loop gives the register of section 8 of RFC 1952, fed bit by bit, for every state and message |
| `Crc.TableStep` | src/nativebridge/rust/src/modules/util.rs:35-37 | one table lookup does the work of eight steps of the shift register |
| `Crc.UpdateConcat` | src/nativebridge/rust/src/modules/util.rs:41-48 | a checksum can be continued: updating with a and then b is updating with a followed by b, and from 0 it is crc32 |
| `Crc.CheckValue` | src/nativebridge/rust/src/modules/util.rs:14-48 | the checksum of the nine bytes "123456789" is 0xCBF43926, the known check value of this CRC-32 |
| `Spans.Align4kLeast` | src/nativebridge/rust/src/modules/vfs/format.rs:35-37 | align4k is the least multiple of 4096 that is not smaller |
| `Format.EntryRoundTrip` | src/nativebridge/rust/src/modules/vfs/format.rs:52-84 | decoding an encoded record gives the record back, for all field values in range |
| `Format.DecodeAcceptsEncodings` | src/nativebridge/rust/src/modules/vfs/format.rs:64-84 | a cell that decodes is the encoding of what it decodes to: nothing else is accepted, apart from the unused byte |
| `Format.Encode` | src/nativebridge/rust/src/modules/vfs/format.rs:52-62 | fills the 32 bytes of a table cell |
| `Format.SbReads` | src/nativebridge/rust/src/modules/vfs/format.rs:90-125 | read_sb reads the generation of a fresh SuperBlock, whatever follows it |
| `Format.SbAcceptsImages` | src/nativebridge/rust/src/modules/vfs/format.rs:113-125 | what read_sb accepts is exactly the SuperBlock that sb_image makes of the generation it returns |
| `Format.SbPatchFlips` | src/nativebridge/rust/src/modules/vfs/format.rs:101-110 | patching any SuperBlock, also one that a torn flip left, gives exactly the fresh image of the new generation and touches nothing behind it |
| `Format.BuildRegion` | src/nativebridge/rust/src/modules/vfs/format.rs:136-164 | the region image and the rewritten entries, with old offsets read before they are overwritten |
| `Format.ScanSlotLoop` | src/nativebridge/rust/src/modules/vfs/format.rs:182-229 | the scanning loop, with every reason to give up |
| `Format.RebuildKeepsNames` | src/nativebridge/rust/src/modules/vfs/format.rs:138-147 | every entry keeps its own name whatever dead bytes the old blob holds, and nothing else of the entry changes |
| `Format.RegionRoundTrip` | src/nativebridge/rust/src/modules/vfs/format.rs:136-229 | scan_slot at the place where a region was written inside any larger file returns generation, logical size, entries and names as they were given |
| `Format.GoldEntry` | src/nativebridge/rust/src/modules/vfs/format.rs:52-62 | a table cell byte by byte: name offset, name length, state, zero, offset, size and checksum, lowest byte first, then the checksum of these 28 bytes |
| `Format.GoldSuperBlock` | src/nativebridge/rust/src/modules/vfs/format.rs:90-98 | a SuperBlock byte by byte: magic, version, generation, checksum of these 20 bytes, 40 zeros |
| `Format.GoldRegion` | src/nativebridge/rust/src/modules/vfs/format.rs:136-164 | a region byte by byte: generation, count, length of the names, checksum of all behind the header, logical size, zeros, then the table and the names |
| `Planner.BuildPlan` | src/nativebridge/rust/src/modules/vfs/compact.rs:55-94 | the two loops compute the plan of the scan over the entries sorted by offset, for which `PlanRules` says where each entry goes |
| `Planner.SortSorts` | src/nativebridge/rust/src/modules/vfs/compact.rs:56 | the sort orders by offset, loses nothing, and keeps the order of entries at one offset |
| `Planner.PlannerSafety` | src/nativebridge/rust/src/modules/vfs/compact.rs:55-94 | the plan moves exactly the Active entries; targets are pairwise disjoint; no target meets the place any entry comes from, save that an unmoved entry covers itself; the new logical size covers all |
| `Planner.PlanRules` | src/nativebridge/rust/src/modules/vfs/compact.rs:65-90 | for every entry of every plan: it stays at the end of the filled front, or goes there if it fits in front of its old place and meets no old place of an earlier moved entry, and is else stacked behind the old end; excluded_any is set if and only if some entry that does not stay meets such a place |
| `Planner.NothingDisplaced` | src/nativebridge/rust/src/modules/vfs/compact.rs:65-90 | in a plan without a displaced entry, every entry behind the old end had a gap smaller than its span in front of it |
| `Planner.ScanTiles` | src/nativebridge/rust/src/modules/vfs/compact.rs:57-92 | the targets fill the front and the new end without a gap: their lengths add up |
| `Planner.PackedStays` | src/nativebridge/rust/src/modules/vfs/compact.rs:65-84 | files that are packed already are not moved, and none is displaced |
| `Planner.GapTaken` | src/nativebridge/rust/src/modules/vfs/compact.rs:70-77 | the first entry behind a gap that holds it moves down to the start of the gap |
| `Planner.FrontFilled` | src/nativebridge/rust/src/modules/vfs/compact.rs:57-92 | if nothing had to go to the end, the files fill the front without a hole |
| `Planner.PlanGrowth` | src/nativebridge/rust/src/modules/vfs/compact.rs:57-92 | a round at most doubles the logical size |
| `Planner.StaysIffPacked` | src/nativebridge/rust/src/modules/vfs/compact.rs:65-84 | an entry with bytes stays where it is if and only if the files in front of it leave no gap |
| `Planner.SubtractionUnderflow` | src/nativebridge/rust/src/modules/vfs/compact.rs:73 | an entry lies before the cursor if and only if it is empty and follows one with bytes that starts at the same offset with no gap in front of it; the condition reads the input alone |
| `PlanFacts.UnderflowHappens` | src/nativebridge/rust/src/modules/vfs/compact.rs:73 | three allocs, two commits and an abort lead the planner to such an entry |
| `Recovery.ChooseSlot` | src/nativebridge/rust/src/modules/vfs/mod.rs:295-314 | the selection loop of open_paths |
| `Recovery.ChooseSpec` | src/nativebridge/rust/src/modules/vfs/mod.rs:295-314 | none only if no slot checks; the first one the SuperBlock names; failing that the first of the highest generation |
| `HeaderLog.ScanSlots` | src/nativebridge/rust/src/modules/vfs/mod.rs:288-294 | the sequential scan over the header file |
| `HeaderLog.ScanUpToTail` | src/nativebridge/rust/src/modules/vfs/mod.rs:288-294 | the scan reports every slot in order, those that hold an image and those whose data does not check, and stops at the first unreadable header |
| `HeaderLog.TailHidesAppends` | src/nativebridge/rust/src/modules/vfs/mod.rs:185-191 | a region appended to any file is found by the next open if and only if the scan of the file before the append reads to its end |
| `HeaderLog.TornTailHides` | src/nativebridge/rust/src/modules/vfs/mod.rs:185-191 | a torn append, be it a piece of the region header or a whole header with too short a body, hides the next region |
| `HeaderLog.TornSlotKeepsGrid` | src/nativebridge/rust/src/modules/vfs/format.rs:182-229 | a slot with a whole header and a body that does not have its checksum is read as one slot without an image, of the same length |
| `HeaderFiles.GridIffScanned` | src/nativebridge/rust/src/modules/vfs/mod.rs:288-294 | a header file consists of slots without gaps, good or not, if and only if the scan reads it to its end |
| `HeaderFiles.TornWriteIsCrash` | src/nativebridge/rust/src/modules/vfs/mod.rs:191-193 | a region write that a crash tore leaves bytes that are one of the crash outcomes of the state machine |
| `HeaderFiles.HeaderFile.PersistImage` | src/nativebridge/rust/src/modules/vfs/mod.rs:179-203 | on a header with any slots, also ones whose data does not check: refused below the water mark with nothing changed; else the region is written over the spare place if that has exactly its length, or appended, never over the one in use, first synced under the old SuperBlock and then flipped by twelve bytes; the old place in use becomes the spare one |
| `HeaderFiles.OpenHeader` | src/nativebridge/rust/src/modules/vfs/mod.rs:286-350 | takes over the selected slot without its Downloading entries and the longest other slot (the last of these) as spare, or resets the file to an empty region of generation 1 |
| `HeaderFiles.ScanSelectsRecovered` | src/nativebridge/rust/src/modules/vfs/mod.rs:288-330 | on slots without gaps, good or not, the bytes select the region and the spare slot that the state machine selects |
| `Reopen.OpenReadsImage` | src/nativebridge/rust/src/modules/vfs/mod.rs:316-331 | the opened index is the recovered image minus its Downloading entries, entry by entry |
| `Reopen.CrashReopensBytes` | src/nativebridge/rust/src/modules/vfs/mod.rs:264-372 | whenever a run stops outside a persist and the marked part of a round, scanning the header bytes gives the image of the last persist that ran to its end, minus Downloading entries |
| `Reopen.ReopenFindsLast` | src/nativebridge/rust/src/modules/vfs/mod.rs:179-203 | after any number of persists, reused or appended, reopening finds the index of the last one that was not refused, where images of one generation differ in Downloading entries at most |
| `Reopen.OrphanBreaksStart` | src/nativebridge/rust/src/modules/vfs/mod.rs:192-195 | a crash between the sync of a newer slot and the flip leaves a disk that no session may start from |
| `Reopen.OrphanWins` | src/nativebridge/rust/src/modules/vfs/mod.rs:295-314 | with an orphan of the same generation in slot k a later persist is found again if and only if it went to slot k or before |
| `TwoCrashes.FlushToDone` | src/nativebridge/rust/src/modules/vfs/mod.rs:179-203 | a flush that nobody disturbs runs through, and leaves the index as the active region under its own generation |
| `TwoCrashes.TwoCrashesLoseAFlush` | src/nativebridge/rust/src/modules/vfs/mod.rs:295-314 | on every disk of one slot with an Active entry two crashes undo a finished flush: an orphan of the first session shows again the entry that the second one deleted and flushed |
| `Flushing.RegionHolds` | src/nativebridge/rust/src/modules/vfs/mod.rs:217-225 | the region built from the index in memory holds exactly that index |
| `Flushing.RebasedView` | src/nativebridge/rust/src/modules/vfs/format.rs:138-147 | the entries and names that build_region rewrites stand for the same index |
| `Flushing.FlushImage` | src/nativebridge/rust/src/modules/vfs/mod.rs:217-225 | refused below the water mark with nothing changed; else the index in memory is the active region |
| `Flushing.Flush` | src/nativebridge/rust/src/modules/vfs/mod.rs:460-468 | refused while compacting or below the water mark; else the index becomes the region in use |
| `Flushing.FlushedIsReopened` | src/nativebridge/rust/src/modules/vfs/mod.rs:264-331 | what a flush wrote is what the next open takes over, minus the Downloading entries, whatever else the slots hold |
| `StoreSafety.OpenIsGood` | src/nativebridge/rust/src/modules/vfs/mod.rs:264-372 | opening a well-formed disk establishes the invariant |
| `StoreSafety.RunKeeps` | src/nativebridge/rust/src/modules/vfs/mod.rs:179-721 | every run of writers, deletes, flushes and the compaction thread keeps the invariant |
| `StoreSafety.CrashConsistency` | src/nativebridge/rust/src/modules/vfs/compact.rs:127-231 | after any run and a crash at any point recovery finds a region no older than the last one persisted, and every Active entry's durable span holds exactly the bytes of its commit |
| `StoreSafety.SuperBlockMonotone` | src/nativebridge/rust/src/modules/vfs/mod.rs:179-203 | the generation in the SuperBlock never goes back |
| `StoreSafety.FrozenRegion` | src/nativebridge/rust/src/modules/vfs/compact.rs:127-223 | from the end of the flush in front of the rounds to the flip of a round, its own region write included, every Active entry that recovery could show is an entry of the frozen index at its old offset |
| `StoreHistory.GenerationIdentifies` | src/nativebridge/rust/src/modules/vfs/mod.rs:396-399 | two states of a run outside compaction with one generation have one index |
| `StoreHistory.ActiveIsLastDone` | src/nativebridge/rust/src/modules/vfs/mod.rs:179-203 | in every reachable state the slot in use holds what the last finished persist wrote |
| `StoreHistory.CrashAtomicity` | src/nativebridge/rust/src/modules/vfs/mod.rs:179-203 | after a crash the next open takes over, up to Downloading entries, exactly the index of the last finished persist or that of a persist in flight; between Bad marking and swap also the frozen or the marked index of that round |
| `StoreHistory.CrashReopens` | src/nativebridge/rust/src/modules/vfs/mod.rs:264-372 | a crash outside a persist and the marked part of a round leaves a disk from which the next session may start, with exactly the index of the last finished persist |
| `StoreHistory.RecoveredWereCommitted` | src/nativebridge/rust/src/modules/vfs/mod.rs:661-699 | bytes recovered under a name were committed under that name |
| `StoreKeeps.FinalizeKeeps` | src/nativebridge/rust/src/modules/vfs/compact.rs:187-204 | the index that a round writes has a file with a name, size, checksum and bytes if and only if the frozen one has it and the name is not bad |
| `StoreKeeps.CommittedSurvives` | src/nativebridge/rust/src/modules/vfs/mod.rs:179-721 | over every run, a committed file that is not deleted and that no round finds bad stays in the index with its size, checksum and bytes, and, once a persist of that generation or a later one has finished, in what recovery finds after any crash, with its bytes on disk |
| `StoreKeeps.FlushedSurvives` | src/nativebridge/rust/src/modules/vfs/mod.rs:460-468 | a flush that runs through after the commit is such a persist: from then on any further run, compactions included, and any crash keep the file |
| `StoreKeeps.DeletedStaysGone` | src/nativebridge/rust/src/modules/vfs/mod.rs:440-455 | over every run, a deleted name has no Active entry until it is committed again, neither in the index nor, once a persist of that generation or a later one has finished, in what recovery finds |
| `StoreRuns.DownloadGoesThrough` | src/nativebridge/rust/src/modules/vfs/mod.rs:377-699 | outside a compaction, for a new or deleted name: an alloc, any writes without gaps that cover the size, and the commit are never refused, and leave the file with the bytes as the writes laid them over each other |
| `StoreRuns.CompactionGoesThrough` | src/nativebridge/rust/src/modules/vfs/compact.rs:112-231 | a compaction that nobody disturbs runs to its end within eight rounds, whichever files it finds bad: the index then has exactly the other files, and the region in use is that index |
| `StoreHistory.SpansAddUp` | src/nativebridge/rust/src/modules/vfs/mod.rs:550-567 | in every reachable state the spans of all entries are aligned, disjoint and inside, they add up to at most the logical size, and the rest is what no entry covers |
| `StoreHistory.MarkingIsSilent` | src/nativebridge/rust/src/modules/vfs/compact.rs:174-182 | a compaction that gives up after marking an entry Bad leaves two states outside compaction with one generation and two indexes |
| `StoreHistory.FailedOpenIsSilent` | src/nativebridge/rust/src/modules/vfs/mod.rs:416-425 | an alloc and the undoing of it leave two states outside compaction with one generation and two indexes |
| `IndexMap.Index.Insert` | src/nativebridge/rust/src/modules/vfs/index.rs:63-70 | the new entry is appended under its name and found there |
| `IndexMap.Index.Remove` | src/nativebridge/rust/src/modules/vfs/index.rs:74-90 | swap_remove, with the moved entry's position corrected |
| `IndexMap.Index.RebuildMap` | src/nativebridge/rust/src/modules/vfs/index.rs:28-36 | the table finds every name at its position, and nothing else |
| `IndexMap.IndexIsMap` | src/nativebridge/rust/src/modules/vfs/index.rs:52-90 | under any sequence of inserts and removes the index is the map from names to entries that the same changes make |
| `VfsEngine.Vfs.Alloc` | src/nativebridge/rust/src/modules/vfs/mod.rs:377-437 | succeeds if and only if the name has 1 to 65535 bytes, no compaction runs and every entry of that name is Deleted, each refusal in its order with nothing changed; then entries of other names are the same, and the one of this name is Downloading at the aligned end, under a new generation, with a grown file and a writer |
| `VfsEngine.Vfs.Delete` | src/nativebridge/rust/src/modules/vfs/mod.rs:440-455 | succeeds if and only if no compaction runs and the name is Active or Deleted; Active becomes Deleted under a new generation, Deleted changes nothing, and each refusal has its error; entries of other names are the same |
| `Entries.AllocIs` | src/nativebridge/rust/src/modules/vfs/mod.rs:377-413 | said on the entries alone: when alloc succeeds, what it refuses in which order, and what it changes |
| `Entries.DeleteIs` | src/nativebridge/rust/src/modules/vfs/mod.rs:440-455 | the same for delete |
| `Entries.CommitIs` | src/nativebridge/rust/src/modules/vfs/mod.rs:682-695 | the same for the locked part of a commit |
| `Entries.AbortIs` | src/nativebridge/rust/src/modules/vfs/mod.rs:701-711 | the entry of the name goes, all others stay, under a new generation |
| `VfsEngine.Vfs.Lookup` | src/nativebridge/rust/src/modules/vfs/mod.rs:471-478 | answers from the index, refused while compacting |
| `VfsEngine.Vfs.BeginCompact` | src/nativebridge/rust/src/modules/vfs/mod.rs:581-590 | starts exactly when no compaction runs and no writer lives |
| `VfsEngine.Vfs.Stat` | src/nativebridge/rust/src/modules/vfs/mod.rs:550-567 | active and deleted count the bytes in the spans of Active and of Deleted entries, total those of all entries; the subtraction never saturates and garbage counts exactly the uncovered bytes |
| `Accounting.GarbageIsUncovered` | src/nativebridge/rust/src/modules/vfs/mod.rs:550-567 | the spans of all entries add up to at most the logical size, and the rest is the number of bytes in no span |
| `Accounting.SumInCounts` | src/nativebridge/rust/src/modules/vfs/mod.rs:550-567 | where spans are disjoint, the sum over the entries of one state is the number of bytes inside their spans |
| `VfsEngine.Vfs.EnumerateQuery` | src/nativebridge/rust/src/modules/vfs/mod.rs:482-488 | generation, number of entries and size of the names without dead bytes |
| `VfsEngine.Vfs.EnumerateRead` | src/nativebridge/rust/src/modules/vfs/mod.rs:504-543 | each refusal in its order; else the names without dead bytes and a row of each array per entry, and nothing behind them |
| `Enumerate.Refresh` | src/nativebridge/csharp/Vfs.cs:330-348 | the loop that splits the names at NULs and fills the dictionary |
| `Enumerate.SplitGivesNames` | src/nativebridge/csharp/Vfs.cs:330-348 | splitting gives the names back if and only if none contains a NUL |
| `Enumerate.RefreshRebuilds` | src/nativebridge/csharp/Vfs.cs:330-348 | the dictionary has exactly the names of the index, each with the offset, size, state and checksum of its entry |
| `Reader.RefreshIndex` | src/nativebridge/csharp/Vfs.cs:307-352 | while others change the index and compactions begin, go through rounds and end, a read that is accepted always fits the arrays of its query and mirrors the index of that moment; the only errors are busy, and changed after eight attempts |
| `VfsEngine.Writer.WriteAt` | src/nativebridge/rust/src/modules/vfs/mod.rs:630-649 | gaps and overruns are refused; else the file and the written prefix change in that place, and the running checksum stays that of the prefix until a write goes back, which makes it stale for good |
| `VfsEngine.ReadBackCrc` | src/nativebridge/rust/src/modules/vfs/mod.rs:668-678 | the chunked read-back gives the checksum of the span |
| `VfsEngine.Writer.DoCommit` | src/nativebridge/rust/src/modules/vfs/mod.rs:661-699 | every refusal; else the entry becomes Active with the checksum of the bytes that the span holds, on both ways of computing it |
| `VfsEngine.Writer.Commit` | src/nativebridge/rust/src/modules/vfs/mod.rs:652-655 | succeeds exactly when every byte was written; otherwise the entry is gone |
| `VfsEngine.Writer.DoAbort` | src/nativebridge/rust/src/modules/vfs/mod.rs:701-711 | the entry goes under a new generation; a finished writer does nothing |
| `Engine.WriteEngine` | src/nativebridge/rust/src/modules/vfs/mod.rs:630-649 | a write into the span of a Downloading entry disturbs no other entry |
| `Compaction.CopyVerified` | src/nativebridge/rust/src/modules/vfs/compact.rs:235-248 | copying in chunks equals one copy of the source as it was, and the result says whether the source had its checksum |
| `Compaction.MoveAll` | src/nativebridge/rust/src/modules/vfs/compact.rs:157-173 | every item's bytes arrive unchanged, and the bad ones are exactly those whose bytes did not have their checksum |
| `Compaction.MoveRound` | src/nativebridge/rust/src/modules/vfs/compact.rs:131-204 | after any bytes were read, the moved data and the new table stand for exactly the readable files |
| `Compaction.Round` | src/nativebridge/rust/src/modules/vfs/compact.rs:131-227 | one round keeps exactly the readable files, with the same bytes, in a well-formed index of the next generation, which is also the active region of header.vfs |
| `Compaction.CompactRun` | src/nativebridge/rust/src/modules/vfs/compact.rs:112-231 | refused only if the index is older than the header; else another round follows exactly while the last left a displaced entry or a bad file and fewer than eight were made, each from where the one before put the files; then the container is open again, its file ends the reserve behind the last file and, in memory and on disk, it holds exactly the files that were Active and readable, on arbitrary data; a run of fewer than eight rounds has sent a file to the end only for lack of room |
| `Compaction.CleanIsTight` | src/nativebridge/rust/src/modules/vfs/compact.rs:225-227 | a round without displaced and bad files has sent no file behind the old end that a gap in front of it would have held |
| `Compaction.NamesSurvive` | src/nativebridge/rust/src/modules/vfs/compact.rs:131-231 | a name is in the new index if and only if it was Active with bytes that had its checksum; its entry has that size, checksum and those bytes |
| `Glue.Others` | src/nativebridge/rust/src/modules/vfs/mod.rs:377-711 | whatever other threads call, a live writer keeps its entry and its bytes |
| `Glue.WriteAllAndCommit` | src/nativebridge/rust/src/modules/vfs/mod.rs:630-699 | for any sequence of write_at calls with rewinds and overlaps among other threads, commit succeeds if and only if they covered the span, and stores the checksum of the bytes that the file then holds there |
| `Glue.VfsSink.Prepare` | src/nativebridge/rust/src/modules/glue.rs:29-38 | succeeds exactly when the alloc does; a second prepare is refused and the open writer stays |
| `Glue.VfsSink.Write` | src/nativebridge/rust/src/modules/glue.rs:40-50 | the writer's answer as a code; without a writer StateInvalid |
| `Glue.VfsSink.Finish` | src/nativebridge/rust/src/modules/glue.rs:57-66 | 0 exactly puts the Active entry into the index; StateInvalid without a writer or with bytes missing; otherwise only reading back a rewritten span can fail; any other code than 0 leaves no entry |
| `Glue.VfsSink.Abort` | src/nativebridge/rust/src/modules/glue.rs:68-74 | drops the writer and its entry |
| `Worker.RunState.Transition` | src/nativebridge/rust/src/modules/dlmgr/worker.rs:130-207 | when a stream is accepted, who is blamed otherwise, and what is done about it: the range source is left for good on distrust, everything else costs a retry within the budget, then one fallback, then the end |
| `Worker.BlameMeans` | src/nativebridge/rust/src/modules/dlmgr/worker.rs:130-207 | each error code read back to the answers that earn it: an unknown length is never a size mismatch, a checksum is only blamed on a whole stream, a timeout only on the connection |
| `Worker.Portion` | src/nativebridge/rust/src/modules/dlmgr/worker.rs:77-90 | offset, checksum and progress describe one prefix of the sink, and the sink never sees a gap or an overrun |
| `Worker.WriteCallback` | src/nativebridge/rust/src/modules/dlmgr/worker.rs:42-93 | a block that is taken prolongs the prefix by exactly itself; nothing is written from a range answer that is not 206 |
| `Worker.PerformAttempt` | src/nativebridge/rust/src/modules/dlmgr/worker.rs:394-458 | for any sequence of blocks and any answer the prefix stays described, and complete and crc_ok mean what they say |
| `Worker.Act` | src/nativebridge/rust/src/modules/dlmgr/worker.rs:327-387 | what each decision ends in: an accepted stream is Done if and only if finish returns 0, which it does unless the stream had been started over, else Failed with Network; a failure ends with its error, Canceled as canceled; a fallback without a full source fails with its kind; a cancel during the back-off cancels; else a resume goes on where it stopped, a restart or fallback from 0 |
| `Worker.RunTask` | src/nativebridge/rust/src/modules/dlmgr/worker.rs:289-389 | the final state and error are those of the last decision or of a cancel; at most retry_count + 2 connections and exactly the back-off of the retries; range requests go forward, then full ones from 0; the end is never visible while the writer is open; Done means that the file is Active with the task's size and checksum, and an accepted stream that was not started over always ends as Done |
| `Worker.WaitsAre` | src/nativebridge/rust/src/modules/dlmgr/worker.rs:210-222 | the back-off of k retries is one second, then two, then four each |
| `Sink.FeedFile` | src/nativebridge/rust/src/modules/dlmgr/sink.rs:108-139 | a file sink fed in any way, started over any number of times whether or not its reset works, ends as exactly the bytes of the last complete try |
| `Sink.Registry.Register` | src/nativebridge/rust/src/modules/dlmgr/sink.rs:55-59 | a handle is never 0 and never used twice |
| `Sink.Registry.Release` | src/nativebridge/rust/src/modules/dlmgr/sink.rs:62-71 | exactly that handle is gone and its destructor has run; releasing twice does nothing |
| `Sink.AnyOps` | src/nativebridge/rust/src/modules/dlmgr/sink.rs:55-71 | over any run no handle is given out twice and no destructor runs twice |
| `Rate.TokenBucket.SetRate` | src/nativebridge/rust/src/modules/dlmgr/rate.rs:29-36 | a change of the rate only cuts credit |
| `Rate.TokenBucket.TryTake` | src/nativebridge/rust/src/modules/dlmgr/rate.rs:48-64 | as many whole bytes as there are tokens, at most what is wanted |
| `Rate.TokenBucket.GiveBack` | src/nativebridge/rust/src/modules/dlmgr/rate.rs:67-76 | what comes back is booked, up to the capacity |
| `Rate.RefillLaw` | src/nativebridge/rust/src/modules/dlmgr/rate.rs:38-45 | how often a bucket is refilled does not matter, a second fills it whatever it held, and below the capacity it gains the rate times the time |
| `Rate.AnyStretch` | src/nativebridge/rust/src/modules/dlmgr/rate.rs:29-76 | over any stretch of time of any bucket, and any takes, returns and rate changes below a cap, the net amount is at most one second's quota plus the rate times the time |
| `Rate.SpeedLimiter.Acquire` | src/nativebridge/rust/src/modules/dlmgr/rate.rs:96-117 | grants as many whole bytes as both buckets have: at least one, all that is wanted if no bucket is limited, and fewer only if a limited bucket is left with less than one token; books the same amount in both and keeps every bound that held for them; undisturbed it naps at most a second |
| `Rate.SharedRun` | src/nativebridge/rust/src/modules/dlmgr/rate.rs:96-117 | any number of tasks in acquire at once, their bucket calls interleaved in any way: over any stretch of time all of them together meet the bound of the global rate, and each that of its own |
| `TaskQueue.Queue.Push` | src/nativebridge/rust/src/modules/dlmgr/mod.rs:264-274 | refused after shutdown; else the task is queued under the next number |
| `TaskQueue.Queue.Take` | src/nativebridge/rust/src/modules/dlmgr/worker.rs:244-258 | nothing while paused or shut down; else the task that precedes all that stay queued |
| `TaskQueue.Queue.RemoveQueued` | src/nativebridge/rust/src/modules/dlmgr/mod.rs:107-129 | removes exactly the task with this number, and says whether it was queued |
| `TaskQueue.Queue.SetPriority` | src/nativebridge/rust/src/modules/dlmgr/mod.rs:134-156 | changes the priority of a queued task only, which keeps its place among equals |
| `TaskQueue.BestIsFirst` | src/nativebridge/rust/src/modules/dlmgr/task.rs:89-95 | the greatest element has the highest priority and within it the lowest number |
| `SchedulerSafety.Conservation` | src/nativebridge/rust/src/modules/dlmgr/mod.rs:107-178 | in every reachable state every enqueued task is in exactly one place: queued, being canceled, run by exactly one worker, ended, or retired |
| `SchedulerSafety.ReportedOnce` | src/nativebridge/rust/src/modules/dlmgr/report.rs:45-110 | each task is counted once and has exactly one callback of its end, with a matching error; the totals are those of the counted tasks |
| `SchedulerSafety.TotalsAddUp` | src/nativebridge/rust/src/modules/dlmgr/report.rs:45-117 | counted and live bytes add up to what was enqueued, also within a pass of the reporter |
| `SchedulerSafety.ShutdownRetiresAll` | src/nativebridge/rust/src/modules/dlmgr/mod.rs:391-414 | when shutdown has run to its end every task is retired and nothing is left |
| `SchedulerSafety.PauseGate` | src/nativebridge/rust/src/modules/dlmgr/mod.rs:318-370 | after pause and an active count of zero nothing runs, no download has a writer open, and nothing starts until resume or shutdown |
| `SchedulerSafety.DispatchOrder` | src/nativebridge/rust/src/modules/dlmgr/worker.rs:244-258 | in every reachable state a dispatch takes a task that precedes all that stay queued |
| `SchedulerSafety.FirstComeFirst` | src/nativebridge/rust/src/modules/dlmgr/mod.rs:264-274 | a queued task precedes a newly enqueued one if and only if its priority is not lower |
| `SchedulerEnds.DispatchReady` | src/nativebridge/rust/src/modules/dlmgr/worker.rs:244-258 | in every reachable state an idle worker gets a task if and only if one is queued and neither pause nor shutdown holds the queue |
| `SchedulerEnds.FlagStays` | src/nativebridge/rust/src/modules/dlmgr/mod.rs:160-178 | a cancel flag once set stays set, whatever follows |
| `SchedulerEnds.ShutdownFlagsAll` | src/nativebridge/rust/src/modules/dlmgr/mod.rs:391-414 | from its drain on, shutdown has told every task to stop |
| `SchedulerEnds.EndIsFinal` | src/nativebridge/rust/src/modules/dlmgr/worker.rs:278-389 | however a worker ends a task, that state and error are shown from then on, and counted and reported when it is retired |
| `SchedulerEnds.CanceledInQueue` | src/nativebridge/rust/src/modules/dlmgr/mod.rs:107-178 | a task canceled while it is queued never runs; it ends as canceled and is reported and counted so |
| `SchedulerEnds.EveryChangeHeard` | src/nativebridge/rust/src/modules/dlmgr/report.rs:45-117 | a pass that looks at a task calls the host if and only if its state or progress is not what the host heard last |
| `SchedulerRuns.PauseFollows` | src/nativebridge/rust/src/modules/dlmgr/mod.rs:318-333 | in every reachable state the queue is held back if and only if the last of pause, resume and shutdown was a pause |
| `SchedulerRuns.ShutdownGoesThrough` | src/nativebridge/rust/src/modules/dlmgr/mod.rs:391-414 | from every state with no call in flight and between two passes a shutdown can run to its end, with every worker gone and every task retired |
| `Report.Shared.ReportTick` | src/nativebridge/rust/src/modules/dlmgr/report.rs:45-117 | a pass of the reporter does what the machine's steps do, looks at every task once, retires exactly those that have ended, and reports the active count, the counts of ends and the counted plus live bytes |
| `Report.LiveDoneCounts` | src/nativebridge/rust/src/modules/dlmgr/report.rs:45-117 | the sum over the tasks looked at counts exactly the bytes that those which have not ended have received |

## Left out

- Failures of file operations: a failed persist or set_len is not modelled; a failed open inside alloc only as the lemma about silent changes. In `Store` a compaction may give up before it marks entries, and after that as long as none was bad and its own persist has not begun. Giving up with entries marked is only in `StoreHistory.MarkingIsSilent`: it leaves two images of one generation on the way to the header, and a later round may overwrite what only the older one refers to.
- `Compaction.CompactRun`: syncs are steps of `Store`, not of this method. It asks for a logical size below 2^56 so that offsets stay within 64 bits over eight rounds.
- `VfsEngine.Vfs.Alloc`: offsets beyond 64 bits and a name blob beyond 4 GiB are excluded by requires, because the source wraps there without a check; `Flushing.Flush` likewise asks for the field limits that scan_slot enforces.
- `VfsEngine.Vfs.EnumerateRead`: indexes whose names add up to 4 GiB or more are excluded by requires; the sizes of enumerate are 32 bits wide and the source casts.
- `Glue.VfsSink.Write`: a write that the file system refuses leaves the file as it was; the bytes of a partly failed write are not modelled.
- `Rate.SpeedLimiter.Acquire`: the bound on naps is for a caller whom nobody disturbs; other threads may take the tokens first.
- `Worker.RunTask`: is proved over the sink that downloads into a VFS; the file sink is driven by `Sink.FeedFile` instead.
- `Worker.WriteCallback`: what the limiter allows is any amount, so that the result does not depend on the rate; amounts of 0 or beyond the block abort the transfer as in the source.
- `SchedulerSafety.ShutdownRetiresAll`: is about a started manager with no other call in flight, and says what holds when the reporter has exited; `SchedulerRuns.ShutdownGoesThrough` says that nothing stands in the way of that, not that threads are scheduled.
- More than one crash inside persists in a row: covered only by the orphan lemmas in `Reopen` and by `TwoCrashes`.
- A torn 32-byte header of a slot that is rewritten in place, and bit rot that keeps a region's checksum or changes its header.
- The transfer library, DNS, headers on the wire, file handles, sharing modes, path checks, C entry points and callbacks to the host; the commit callback; percent and speed figures; real time (back-off counts intended seconds).
- `BinaryHeap` and `HashMap` internals: the heap is a sequence from which the greatest element is taken, iteration order is any order.
- Memory order of atomics: a terminal state is visible together with the error stored before it.
