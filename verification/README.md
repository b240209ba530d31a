# Verification of easy-lsm

easy-lsm is a small LSM-tree store: puts go through a group-commit pipeline into a write-ahead log and a
memtable; full memtables are frozen, flushed to sorted tables in level 0, and merged down level by level by a
compaction thread; a versioned manifest names the live files and is replaced by compare and swap. This project
models that system in Dafny and proves what it guarantees, and, where it guarantees less than its documentation
says, exactly when it does. `dafny verify dfyconfig.toml` checks everything.

## How it is laid out

- **Write protocol.** `pipeline.dfy` is a state machine over any number of writers, one step per critical section,
  sleep or wake-up, with history variables for the log of issued records. `pipeline_proofs.dfy` shows that every
  step keeps the invariant; `pipeline_theorems.dfy` and `pipeline_progress.dfy` draw the consequences and
  `pipeline_guarantees.dfy` states them over whole runs: exclusion, log order, linearization, absence of deadlock;
  termination is a ranking function in `pipeline_progress.dfy`. `pipeline_limits.dfy` and `pipeline_faults.dfy`
  have the places where the protocol falls short (a rotation inside another group's write, a failed WAL write or
  rotation), each with its exact condition and a run that reaches it, and what still holds in runs in which writes
  and rotations fail; `pipeline_strands.dfy` has everything that can come of a failed group's dropped ticket;
  `pipeline_order.dfy` says which of two groups comes first. `write_syncs.dfy` is the
  lock-guarded state as an object whose methods have the effect of the corresponding steps.
- **Bytes.** `codec.dfy`, `key.dfy`, `value.dfy`, `wal.dfy`, `bloom.dfy`, `manifest.dfy` and `sstable.dfy` are the
  on-disk formats; `sstable_writer.dfy` and `sstable_reader.dfy` the objects that write and read tables;
  `memtable.dfy` the sorted map; `tables.dfy` a table as a whole, within the format's limits.
- **Compaction.** `merge.dfy` is the k-way merge, `splitter.dfy` the rotation of output files, `levels.dfy` and
  `compaction.dfy` the change of levels, `compactor.dfy` the worker that does it on disk, reading its inputs block by
  block from the disk it writes, `worker.dfy` its trigger loop, `flush.dfy` the flush of frozen memtables.
- **Structure.** `commit.dfy` is the optimistic manifest commit; `commit_levels.dfy` a compaction's commit among
  rotations, `commit_flush.dfy` a flush's as readers, recovery and the collector see it, `commit_ids.dfy` the table ids handed out meanwhile, `commit_files.dfy` the manifest files on disk.
  `publish.dfy` is rotation, flush and compaction against the version readers load, `retention.dfy` garbage
  collection and what recovery finds, `recovery.dfy` the rebuilding of memtables, the restart from files a crash left
  behind, and the path from an acknowledged put to the recovered database. All WALs that a session's rotations open
  write one file: `wal_files.dfy` says what that does to the match of memtables and files and what a flush then leaves
  behind, `session_recovery.dfy` what recovery makes of it, `session_restart.dfy` what a restart holds twice. `readpath.dfy` and `layer_order.dfy` are what `get` answers, `db_runs.dfy` whole
  runs of writes, rotations, flushes and compactions as `get` sees them, which `refinement.dfy` shows to be what the
  store does on disk.

Checksums and hashes are arbitrary functions given as parameters. Sizes are unbounded integers; lengths that the
format stores in 16 or 32 bits are truncated as the code truncates them. File contents, the memtable-size test and
the order of all steps are inputs.

## Model

| member | source | states |
|---|---|---|
| PipelineProofs.StepKeeps | src/write_req.rs:185-535 | every step of every writer keeps membership, queue, stage, ticket, log and storage invariants |
| PipelineProofs.WakeKeeps | src/write_req.rs:266-272 | so does a wake-up for no reason |
| PipelineTheorems.RunKeepsInv | src/write_req.rs:185-535 | the invariants hold in every state of every interleaving of any number of writers, as long as no WAL write fails |
| PipelineGuarantees.StageExclusion | src/write_req.rs:326-514 | in every run without a failed WAL write, at most one leader is in the WAL stage and at most one in the memtable stage |
| PipelineGuarantees.LogOrder | src/write_req.rs:371-412 | in every run the log is the groups concatenated in ticket order, one record per member in queue order, LSNs consecutive from the start |
| PipelineGuarantees.StoredPrefixes | src/write_req.rs:363-514 | in every run, what is in the memtables is a prefix of what is in the WALs, which is a prefix of the log |
| PipelineGuarantees.OneLsnEach | src/write_req.rs:207-287 | a request gets at most one record, hence one LSN |
| PipelineGuarantees.Acknowledged | src/write_req.rs:121-145 | a put that returned Ok, as leader or follower, has its record in a WAL and in a memtable, at the same place of the log |
| PipelineGuarantees.ReportedLsn | src/write_req.rs:516-535 | the LSN a put reports is that of its own record exactly when it led its group |
| PipelineTheorems.GroupStartsWithLeader | src/write_req.rs:244-264 | a group's first member is its leader |
| PipelineProgress.RealTimeOrder | src/write_req.rs:371-404 | a put that returned before another was called has the smaller LSN |
| PipelineProgress.QueueHeadIsAwake | src/write_req.rs:244-273 | the head of a non-empty queue never sleeps before it leads |
| PipelineGuarantees.Progress | src/write_req.rs:207-470 | in every run without a failed WAL write, while any put is unfinished some writer can step, and so can the head of a non-empty queue: no wake-up is lost |
| PipelineProgress.StepDropsRank | src/write_req.rs:185-535 | every step brings the end nearer, by one ranking function |
| PipelineProgress.RunsAreBounded | src/write_req.rs:185-535 | n writers take at most 16n(3n+1) steps plus three per spurious wake-up, and a run stops only when every put has returned |
| PipelineLimits.RotationSettlesIffQuiet | src/write_req.rs:493-505 | a rotation keeps every frozen memtable equal to what was written through its WAL, whatever else that WAL's file holds, exactly when no group is between its WAL write and its memtable write |
| PipelineLimits.OtherStepsKeepSettled | src/lib.rs:353-367 | no other step parts a frozen memtable from what was written through its WAL |
| PipelineLimits.SettledThroughoutIff | src/write_req.rs:493-505 | in every run, frozen memtables equal what was written through their WALs in all states up to one exactly when every rotation before it found everything appended applied and no WAL write in flight |
| WalFiles.RotationMatchesIff | src/lib.rs:392-401 | with all WALs after a session's first in one file: a rotation keeps every frozen memtable equal to its WAL's file exactly when everything appended has been applied |
| WalFiles.AppendMatchesIff | src/data_stores/wal.rs:87-128 | a WAL write does exactly when its file is no frozen memtable's |
| WalFiles.FilesMatchThroughoutIff | src/lib.rs:379-446 | in every run, each frozen memtable holds what its WAL's file holds in all states up to one exactly when every rotation before it found everything appended applied and no write before it went to a frozen memtable's file |
| WalFiles.QuietFileIff | src/lib.rs:418-437 | in every run whose rotations all fell in quiet moments, a frozen memtable holds what its file holds exactly when no other WAL with that id has a record |
| WalFiles.ThirdPutParts | src/data_stores/manifest.rs:202-205 | a run of two quiet rotations and one more put after which a frozen memtable no longer holds what its file does |
| WalFiles.AcknowledgedSurvivesIff | src/compact.rs:188-223 | in every run, once the k oldest memtables have been flushed and their WALs dropped, a put that has returned is in a flushed memtable or in a file still named exactly when its record had been applied before the k-th rotation or is not in the first WAL |
| WalFiles.FlushLosesNothingIff | src/compact.rs:188-223 | so every record is, exactly when at the k-th rotation everything in the first WAL had been applied and nothing has been written to it since |
| WalFiles.QuietRotationIsSafe | src/write_req.rs:493-505 | which holds for good if the k-th rotation fell in a quiet moment |
| PipelineLimits.RotationSplitsAGroup | src/lib.rs:379-446 | a run in which a group's record ends in the old WAL and the new memtable |
| PipelineLimits.AbortStarts | src/write_req.rs:393-414 | a failed WAL write leaves the tickets in order but for the failing group's own |
| PipelineLimits.AbortKeepsOrderIffItsTurn | src/write_req.rs:104-117 | dropping a failed group's ticket keeps the ticket order exactly when it is that group's turn |
| PipelineLimits.SkippedIsStuck | src/write_req.rs:104-117 | otherwise the leader whose turn it was, if it waits, is skipped |
| PipelineStrands.FailureIsDropping | src/write_req.rs:393-414 | when a WAL write fails, the tickets but the failing group's own are in order and every leader with an earlier ticket waits for the memtable stage or is in it |
| PipelineStrands.DroppingStays | src/write_req.rs:104-117 | and so it stays, whatever other writers do, until the failed group drops its ticket |
| PipelineStrands.DropStrandsIff | src/write_req.rs:104-117 | after a failed group drops its ticket some continuation passes a leader over for good exactly when the ticket was not in turn, and was not the next one with the leader in turn already in the memtable stage |
| PipelineStrands.SecondEntersIff | src/write_req.rs:439-469 | some continuation puts two leaders into the memtable stage exactly when the leader in turn was in it and the dropped ticket was not the next one |
| PipelineStrands.StuckStopsTheTurn | src/write_req.rs:439-469 | once a leader is passed over after such a drop, the turn never passes the dropped ticket: no leader with a later one ever enters the memtable stage |
| PipelineStrands.OvertakenIsReached | src/write_req.rs:414-414 | a run of three writers, the first in the stage, the second waiting, the third failing, after which the second is passed over although nobody was when the ticket was dropped |
| PipelineFaults.FailureLetsTwoIn | src/write_req.rs:414-414 | a run of three writers with two leaders in the memtable stage |
| PipelineFaults.FaultyRunKeeps | src/write_req.rs:121-145 | whatever WAL writes and rotations fail, every writer stays queued or in exactly one group, errors go exactly to the told members of failed groups, and groups not failed are stored as far as their leaders have come |
| PipelineFaults.OutcomeIff | src/write_req.rs:121-145 | in every run with failures, a put returns an error exactly when its group's WAL write failed or it led its group and its rotation failed; a returned put whose group's WAL write did not fail is in a WAL and in a memtable |
| PipelineFaults.WalStaysExclusive | src/write_req.rs:90-99 | in every run with failures, at most one leader is in the WAL stage |
| PipelineFaults.StuckForever | src/write_req.rs:439-469 | a skipped leader never enters the memtable stage again, whatever happens and fails |
| PipelineLimits.FailureStrandsALeader | src/write_req.rs:414-414 | a run that reaches such a failure |
| PipelineLimits.ArrivalOrderIsNotKept | src/write_req.rs:331-345 | a run in which a later group gets the smaller LSN |
| PipelineOrder.LsnOrderIsWalOrder | src/write_req.rs:331-386 | in every run, of two groups the one whose leader took the WAL first has the smaller LSNs, whichever was formed first: arrival order is kept exactly when the earlier group also took the WAL first |
| WriteSyncState.WriteSyncs.constructor | src/lib.rs:71-79 | the initial shared state |
| WriteSyncState.WriteSyncs.PushBack | src/write_req.rs:193-195 | queues a request; the queue is otherwise unchanged |
| WriteSyncState.WriteSyncs.FormWriteGroup | src/write_req.rs:278-287 | the head drains the whole queue as its group, anyone else nothing |
| WriteSyncState.WriteSyncs.TryTakeWal | src/write_req.rs:331-345 | takes the WAL exactly when it is free |
| WriteSyncState.WriteSyncs.DrawTicket | src/write_req.rs:371-386 | hands out the next ticket and the next LSN range together |
| WriteSyncState.WriteSyncs.DropWalGuard | src/write_req.rs:94-99 | frees the WAL |
| WriteSyncState.WriteSyncs.DropTicketGuard | src/write_req.rs:108-116 | passes the turn to the next ticket |
| WriteSyncState.TellGroup | src/write_req.rs:128-145 | every member's slot, and no other, holds the outcome |
| WriteSyncState.GroupIsTold | src/write_req.rs:244-264 | a leader's steps from its first member to its last, to follow or that the group is written, leave exactly its members told, and none of them asleep |
| Codec.VecRoundTrip | src/data_stores/mod.rs:81-99 | decoding an encoded vector of any decodable items returns it and leaves the rest unread |
| Codec.ParseLe | src/data_stores/mod.rs:23-78 | fixed-width integers decode to what was encoded |
| Codec.LeDigit | src/data_stores/mod.rs:23-78 | byte i of an encoded integer is its i-th digit to the base 256, the lowest first |
| Codec.WriteVec | src/data_stores/mod.rs:82-89 | the append loop writes the vector's encoding |
| Codec.ReadVec | src/data_stores/mod.rs:91-99 | the fill loop reads what the decoder specifies, errors included |
| Keys.TotalOrder | src/data_stores/key.rs:74-87 | internal keys are strictly totally ordered |
| Keys.BytesLessIff | src/data_stores/key.rs:74-87 | user keys are ordered lexicographically by their bytes |
| Keys.VersionsAreContiguous | src/data_stores/key.rs:74-87 | between the newest and oldest conceivable version of a user key lie exactly its versions |
| Keys.RoundTrip | src/data_stores/key.rs:104-137 | key codec round trip |
| Keys.Layout | src/data_stores/key.rs:104-117 | on disk: the LSN in eight bytes, the length in two, the bytes |
| Keys.Torn | src/data_stores/key.rs:119-137 | every proper prefix of an encoded key reads as a premature end |
| Values.RoundTrip | src/data_stores/value.rs:32-102 | value codec round trip, two's complement included |
| Values.Layout | src/data_stores/value.rs:32-66 | on disk: the tag, the payload's length in four bytes, the payload; an integer's is the eight bytes congruent to it modulo 2^64 |
| Values.TagDecides | src/data_stores/value.rs:68-102 | an odd tag is a tombstone; 0, 2 and 4 are bytes, text and, with eight bytes or more, an integer; anything else is damage and not a premature end |
| Values.Torn | src/data_stores/value.rs:68-102 | every proper prefix of an encoded value reads as a premature end |
| Memtables.FirstIsNewestWrite | src/data_stores/memtable.rs:123-155 | whatever the order of writes, the first entry for a key is its newest version |
| Memtables.LookupIsLastWrite | src/data_stores/memtable.rs:123-155 | with increasing LSNs a lookup is a last-write-wins map whose tombstones read as absent |
| Memtables.HoldsTheLog | src/data_stores/memtable.rs:60-75 | with distinct internal keys the memtable holds exactly the log's entries |
| Memtables.InsertAllAppend | src/data_stores/memtable.rs:52-56 | batch after batch builds the memtable of their concatenation |
| Memtables.Memtable.Recover | src/data_stores/memtable.rs:60-75 | one insertion; the size grows by the entry's encoded length |
| Memtables.Memtable.PutBatch | src/data_stores/memtable.rs:52-56 | a batch of insertions; the size grows by the batch's encoded length |
| Memtables.Memtable.Get | src/data_stores/memtable.rs:123-155 | the range scan returns the first version, or nothing for a tombstone |
| Wals.CrashPrefix | src/data_stores/wal.rs:246-287 | whatever the cut, iteration yields exactly the records wholly before it and ends cleanly |
| Wals.Layout | src/data_stores/wal.rs:198-222 | a record on disk: the checksum of what follows in four bytes, the key, the value |
| Wals.SurvivorsIsMaximal | src/data_stores/wal.rs:246-287 | that is the longest prefix that fits |
| Wals.DamagedRecordFails | src/data_stores/wal.rs:279-282 | a record with any other checksum than its own ends the log with an error after whole records before it, whatever follows |
| Wals.AllIsChecked | src/data_stores/wal.rs:249-287 | every entry a log yields, whatever its bytes, was decoded from a stretch that the four bytes before it are the checksum of |
| Wals.SyncedEntriesSurvive | src/data_stores/wal.rs:224-238 | records synced before the crash are all recovered, in order |
| Wals.AppendAfterCleanCut | src/data_stores/wal.rs:87-128 | appending after a crash on a record boundary is safe |
| Wals.TornTailIsHarmlessIff | src/data_stores/wal.rs:87-128 | a log reopened over a torn tail reads back whatever is appended exactly when the tail is empty |
| Wals.AppendAfterCrashIff | src/data_stores/wal.rs:87-128 | after a crash at any byte and a reopening, survivors and appends are always recovered exactly when the crash fell on a record boundary |
| Wals.EncodeEntry | src/data_stores/wal.rs:198-222 | one record: streamed checksum, key, value |
| Wals.EncodeBatch | src/write_req.rs:395-412 | the group's records one after another |
| Wals.WalFile.Open | src/data_stores/wal.rs:87-128 | an empty file gets the magic number, another must start with it |
| Wals.WalIterator.Next | src/data_stores/wal.rs:249-287 | one record, a clean end, or an error, as the format specifies |
| Wals.ReplayMutable | src/lib.rs:557-569 | the memtable of the readable records, their size and last LSN, or an error |
| Blooms.BloomFilter.SetBit | src/data_stores/bloom_filter.rs:74-78 | sets one bit and no other |
| Blooms.BloomFilter.Set | src/data_stores/bloom_filter.rs:41-48 | sets exactly the probes of the key |
| Blooms.Check | src/data_stores/bloom_filter.rs:50-60 | true exactly when every probe of the key is set |
| Blooms.CoverageGrows | src/data_stores/bloom_filter.rs:41-84 | no false negatives: an added key is covered, and stays so |
| Blooms.RoundTrip | src/data_stores/sstable.rs:385-389 | the serialized filter reads back as it was |
| Blooms.Layout | src/data_stores/sstable.rs:285-300 | on disk: how many words, the words, bit count, probes and both hash keys |
| Manifests.RoundTrip | src/data_stores/manifest.rs:284-361 | decoding an encoded manifest followed by any bytes returns its WALs and nested levels, the rest unread |
| Manifests.BodyLayout | src/data_stores/manifest.rs:284-313 | the body: how many WALs and their ids, then how many levels and what they are |
| Manifests.MetaLayout | src/data_stores/manifest.rs:284-313 | a file's entry: id, size, first key, last key |
| Manifests.DamagedIsCorrupt | src/data_stores/manifest.rs:319-361 | a manifest with another magic, format version or body checksum is refused, whatever the rest |
| Manifests.ReadIsChecked | src/data_stores/manifest.rs:319-361 | one that is read has the magic, the version and the checksum of the body it was decoded from |
| Manifests.ReopenedCountersAreFresh | src/data_stores/manifest.rs:96-126 | reopening keeps the lists and sets both counters to the least values above every id named |
| SstableFormat.BlocksKeepAll | src/data_stores/sstable.rs:107-170 | cutting entries into blocks loses, reorders and invents nothing |
| SstableFormat.OpenImage | src/data_stores/sstable.rs:348-420 | opening a finished file recovers index, filter and key range |
| SstableFormat.BlockAt | src/data_stores/sstable.rs:422-443 | every index offset locates its block |
| SstableFormat.FrameLayout | src/data_stores/sstable.rs:140-170 | a block on disk: the data's length, its checksum, the data |
| SstableFormat.FenceLayout | src/data_stores/sstable.rs:245-268 | an index entry: first key, last key, offset |
| SstableFormat.OpenIsRead | src/data_stores/sstable.rs:348-420 | what opens has its index and key range from the block at the footer's first offset and its filter from that at the second, under the right magic and checksums |
| SstableFormat.ReadIsChecked | src/data_stores/sstable.rs:422-443 | a block is read only as it stands in the file under its length and its checksum |
| SstableFormat.DamagedIsRefused | src/data_stores/sstable.rs:348-420 | a file is refused when it is too short, its footer has another magic or a wrong checksum, or its filter or index block is damaged |
| SstableWriters.BlockBuilder.Add | src/data_stores/sstable.rs:116-130 | appends an entry to the block |
| SstableWriters.BlockBuilder.Flush | src/data_stores/sstable.rs:140-170 | hands out the framed block with its first and last key and leaves the builder empty |
| SstableWriters.SstableWriter.FlushBlock | src/data_stores/sstable.rs:206-225 | one block to the file, one fence to the index |
| SstableWriters.SstableWriter.Write | src/data_stores/sstable.rs:190-204 | file, index, buffer, filter and key range are those of the entries written |
| SstableWriters.SstableWriter.CurrentSize | src/data_stores/sstable.rs:227-231 | the bytes flushed, not those buffered |
| SstableWriters.SstableWriter.Finalize | src/data_stores/sstable.rs:233-344 | the file is the table image of the entries; the metadata has their first and last keys and, below 4 GiB, the file's length |
| SstableReaders.PartitionPoint | src/data_stores/sstable.rs:457-465 | the binary search finds how many blocks end before the key |
| SstableReaders.ScanBlockLoop | src/data_stores/sstable.rs:483-505 | the block scan stops at the key or beyond it |
| SstableReaders.Search | src/data_stores/sstable.rs:445-481 | filter, partition point and block scan, errors included |
| SstableReaders.SearchIsLinearScan | src/data_stores/sstable.rs:445-505 | on the reopened file a search answers the first entry for the key, even when its versions span blocks |
| SstableReaders.IndexPartitioned | src/data_stores/sstable.rs:465-465 | block maxima are monotone, which the binary search needs |
| SstableReaders.SstableIterator.EnsureBlockLoaded | src/data_stores/sstable.rs:565-580 | loads the next block without losing an entry |
| SstableReaders.SstableIterator.Next | src/data_stores/sstable.rs:583-598 | yields the next entry, the end, or an error |
| SstableReaders.IterationIsRoundTrip | src/data_stores/sstable.rs:516-598 | iterating over a reopened file yields exactly what was written |
| SstableReaders.TruncatedInputIff | src/data_stores/sstable.rs:565-580 | an input whose file is truncated while it is read still yields all it held exactly when no block of it was unread; otherwise it fails, as long as the file ends before the next block |
| SstableReaders.DamageIsBroken | src/data_stores/sstable.rs:445-481 | a search whose block is damaged answers an error, never an older version or a miss |
| SstableReaders.UnreadableIsBroken | src/data_stores/sstable.rs:483-505 | a block that passes its checksum and does not decode is an error in a search that reaches the bad entry and in an iteration |
| SstableReaders.DamageEndsIteration | src/data_stores/sstable.rs:565-580 | an iteration ends in an error at the first damaged block it comes to |
| Tables.WriteTable | src/compact.rs:138-169 | one writer pass makes a table of the entries, truthfully described |
| Tables.HoldsMeans | src/data_stores/sstable.rs:348-505 | a file that holds entries opens, answers every lookup as a linear scan, and iterates as written |
| Tables.CompactedFits | src/data_stores/sstable.rs:233-344 | files that compaction writes stay within the format's 32-bit lengths while no entry exceeds 1 GiB |
| Tables.CompactedHolds | src/data_stores/sstable.rs:233-344 | so such a file opens, answers and iterates, and its length fits the 32 bits that record it |
| Tables.FlushedHolds | src/compact.rs:129-186 | so does the table of a memtable of at most 127 MiB |
| Merging.PopMin | src/compact.rs:517-523 | the heap gives a least item |
| Merging.NewMerge | src/compact.rs:531-549 | the heap starts with the head of every non-empty input, or fails if an input does |
| Merging.MergeIterator.Next | src/compact.rs:555-575 | yields the least head and advances its input, from whatever its file has become; the heap stays the heads of the unexhausted inputs, and no input comes to have more to read |
| Merging.ProgressStep | src/compact.rs:555-575 | output stays sorted, below everything still due, and output plus due is all inputs |
| Merging.OneSortedPermutation | src/compact.rs:517-523 | with unique internal keys a merge has one possible result |
| Splitters.ChopKeepsAll | src/compact.rs:744-810 | files keep every entry in its place, and each is closed at the first entry that finds it at the target size |
| Splitters.VersionsMaySplit | src/compact.rs:753-765 | two versions of one user key can end in different files |
| Splitters.Splitter.Close | src/compact.rs:768-781 | the finished file is on disk under its id, truthfully described |
| Splitters.Splitter.Start | src/compact.rs:783-799 | a new file under the next id, empty at once, whatever the id's file held |
| Splitters.Splitter.Accept | src/compact.rs:753-809 | rotation before the write, then the write, of which any beginning may have reached the file; only files under the ids handed out change |
| Splitters.Splitter.Finish | src/compact.rs:812-826 | all files of the merged sequence are on disk |
| Levels.UntouchedIsApart | src/compact.rs:603-609 | a target file outside the overlap is wholly below or wholly above everything merged |
| Levels.SortOrders | src/compact.rs:880-883 | sorting pairwise disjoint files by minimum key makes an ordered level |
| Compaction.PickTakes | src/compact.rs:578-698 | a compaction takes all of L0, or the first file of a deeper level, and of the level below exactly the files that share some key with the range of those |
| Compaction.PlanIsRemoved | src/compact.rs:857-873 | retention removes exactly the files that were merged |
| Compaction.OutputOrdered | src/compact.rs:744-826 | output files are non-empty, exact and each ordered after the previous |
| Compaction.TargetStaysOrdered | src/compact.rs:844-887 | the target level stays sorted and pairwise disjoint |
| Compaction.CompactionConserves | src/compact.rs:701-949 | the entries of the database, with multiplicity, are unchanged |
| Compaction.CompactionKeeps | src/compact.rs:701-949 | exact metadata, distinct ids, ordered levels and all entries are kept, for L0 and deeper levels |
| Compaction.EditIsReplace | src/compact.rs:848-887 | the commit's edit of the manifest, which sees metadata only, is the compaction of the files it names |
| Compactor.MergeInto | src/compact.rs:744-810 | the merge loop over inputs read from the disk it writes: it fails only if an input was damaged or the ids have run out; the output is a sorted permutation of the inputs unless it came to a file under the id of an input with blocks still unread |
| Compactor.DamagedIff | src/data_stores/sstable.rs:174-174 | a merge comes to such a file exactly when, in the one sorted result, some output file under an input's id begins before an entry that precedes that input's last block |
| Compactor.Store.MergeFiles | src/compact.rs:711-826 | the inputs are opened and merged into new files under consecutive ids; no other file changes; nothing is lost and it does not fail unless an input was damaged so, or the ids have run out |
| Compactor.Store.ExecuteCompaction | src/compact.rs:701-949 | a compaction fails only if an input was damaged or the ids have run out, and then leaves the levels; unless an input was damaged, one that succeeds installs a sorted permutation of its inputs, alike in the manifest and for readers; levels and disk, lengths included, then agree exactly when no file that stays live had one of the ids handed out, and the entries of the database are kept |
| Compactor.CompactionAgreesIff | src/compact.rs:783-788 | after a compaction that merged its inputs, its inputs' ids reused or not, levels and disk agree exactly when none of the ids handed out was that of a file that stays live |
| CompactionWorker.Triggered | src/compact.rs:990-1033 | the first level over its threshold, L0 first, none below level 3 |
| CompactionWorker.CompactionDescends | src/compact.rs:967-1053 | every compaction strictly lowers the sum over entries of five minus their level |
| CompactionWorker.CompactionsAreBounded | src/compact.rs:967-1053 | any sequence of compactions is no longer than the initial weight, and keeps every entry |
| CompactionWorker.SmallIffQuiet | src/compact.rs:990-1033 | with levels and disk in agreement, no level is over its threshold exactly when L0's files take up less than 128 MiB on disk and those of levels 1 to 3 less than ten times more each |
| CompactionWorker.Run | src/compact.rs:967-1053 | from any sound store, whatever its id counter, the loop comes to rest with L0 under 128 MiB on disk and levels 1 to 3 under ten times more each, or with the ids run out, or with a live file's id handed out; until then every entry is kept |
| Flushing.FlushMemtables | src/compact.rs:129-186 | each memtable becomes one described table that opens; other files are untouched; memtables of encodable entries of at most 127 MiB each fail only for want of ids |
| Flushing.FlushedLookup | src/compact.rs:129-186 | a lookup in a flushed table answers the newest of the writes its memtable was built from |
| Flushing.FlushKeepsIdsFreshIffOne | src/compact.rs:97-135 | ids in use stay below the next id exactly when one memtable was flushed |
| Flushing.SecondFlushOverwrites | src/compact.rs:97-135 | after flushing n memtables the next flush, of m, replaces the tables of the second to the (m+1)th, and a table survives exactly if it is another or has the same entries |
| Flushing.FlushIsSoundIff | src/compact.rs:129-253 | a flush of any number of memtables adds exactly their entries; levels stay well formed and agree with the disk exactly when no live file's id was used |
| Flushing.FlushCounterIff | src/compact.rs:97-98 | after flushing n memtables from a fresh counter all ids are below the first one plus n, and below the counter exactly when n is one |
| Flushing.NextWriteCollides | src/compact.rs:97-135 | after a flush of two or more memtables whatever is written next takes a live file's id |
| Flushing.CompactionReusesInput | src/compact.rs:783-788 | the first compaction of L0 after a flush of two or more memtables hands out the id of one of its own inputs, the second memtable's table |
| Flushing.FirstCompactionIsUnsafe | src/compact.rs:783-788 | and truncates that input with blocks of it unread whenever the table has two entries before its last block |
| ManifestCommit.NextKeeps | src/data_stores/manifest.rs:222-282 | every step of every committer keeps the chain of committed manifests |
| ManifestCommit.CommitsAreSerializable | src/data_stores/manifest.rs:222-282 | committed manifests go up one version at a time, each exactly one edit of its predecessor |
| ManifestCommit.GivesUpOnlyAfterLosing | src/data_stores/manifest.rs:231-267 | an update runs out of its three tries only after other callers have committed at least three manifests since it began |
| ManifestCommit.UpdateEnds | src/data_stores/manifest.rs:222-282 | an update ends well exactly when its edit is committed; badly only when its tries have run out, its edit cannot be made, or its temporary file is gone; a version that has passed costs a try and nothing else |
| ManifestCommit.CommittedRotation | src/lib.rs:392-405 | in every run a committed rotation leaves the levels as they were and adds to the WALs exactly the next id, at the end |
| ManifestCommit.CommittedFlush | src/compact.rs:188-223 | in every run a committed flush takes exactly the WALs it names from the front, puts its files behind those of L0, and leaves deeper levels as they were |
| ManifestCommit.CommittedCompaction | src/compact.rs:844-887 | in every run a committed compaction leaves the WALs, takes the source's files from its level and the target's from the next, which gains the new ones, and leaves all other levels |
| FlushCommits.PublishedFlush | src/compact.rs:188-223 | the WALs that the flush protocol drops are those the committed manifest has dropped |
| FlushCommits.CommittedFlushKeepsRecoveryIff | src/compact.rs:188-223 | in every run recovery from the manifest before a committed flush and from the one after it gives the same entries exactly when its files hold nothing new and every record of a WAL whose id is gone is in a table or in a WAL still named |
| FlushCommits.RotationIsNamed | src/lib.rs:392-405 | what a committed rotation names is what the collector's model has it name |
| FlushCommits.TablesAreNamed | src/compact.rs:188-223 | committed flushes and compactions name nothing but what was named and the tables they wrote |
| CompactionCommits.LevelsCommitted | src/compact.rs:844-887 | in every run in which only rotations commit between a compaction's choice of files and its commit, the committed levels are those chosen from with the compaction installed, and no rotated WAL is lost |
| CompactionCommits.CompactionUnderRotations | src/compact.rs:844-887 | where no id was reserved after a commit with an older snapshot, those levels are well formed and hold exactly the entries they held, with the ids the run handed out |
| TableIds.IdsDistinctIff | src/compact.rs:783-788 | the ids handed out in a run are pairwise different exactly when none is reserved after a commit whose snapshot is older than an earlier reservation |
| TableIds.IdsAreNew | src/compact.rs:97-98 | in every run no id handed out is below the counter the run began with |
| TableIds.IdHandedOutTwice | src/data_stores/manifest.rs:263-277 | a run that hands out one id twice |
| ManifestFiles.FileIsOwnIff | src/data_stores/manifest.rs:252-274 | in every run the file of a committed version holds that version exactly when the last caller to write its temporary file before the rename was the committing one, or wrote the same content |
| ManifestFiles.OneCallerIsFaithful | src/data_stores/manifest.rs:222-282 | with a single caller every manifest file holds the version committed under its name |
| ManifestFiles.TemporaryFilesClash | src/data_stores/manifest.rs:254-255 | a run in which a version lands on disk with another caller's content |
| Publication.CapturedPrefixStays | src/compact.rs:86-223 | in every run the WALs a flush captured are still the first when it commits, as many as its memtables: the mismatch check never fires |
| Publication.WalsMatchMemtablesIff | src/compact.rs:226-252 | readers' memtables and the active WALs are matched in order in all states up to one exactly when every store before it, of a rotation, a flush or a compaction, replaced the version readers saw; then no flush finds too few WALs |
| Publication.AtRest | src/compact.rs:101-118 | so in every such run, at rest, the active WALs number the frozen memtables plus one, each feeding its memtable in order |
| Publication.TriggeredFlushTakesThree | src/compact.rs:974-988 | in every run whose stores so far replaced the version readers saw, a flush that the trigger starts takes at least three memtables, never the one for which one id is enough, and as many WALs, still the first, whatever rotates until it commits |
| Publication.StaleFlushUndoesRotation | src/compact.rs:226-252 | a run in which a flush's store undoes a rotation |
| Publication.StaleRotationRevivesFlushed | src/lib.rs:418-437 | a run in which a rotation's store brings back a flushed memtable, and the next flush would take the WAL being written |
| Publication.WalIdsDistinctIffOneRotation | src/data_stores/manifest.rs:202-205 | active WAL ids are distinct for one rotation and shared from the second on |
| Retention.LastTwoAlwaysRecoverable | src/compact.rs:272-492 | everything either of the two newest manifests names exists, in every run of rotations, flushes, compactions and collections, each in its several steps, in which no rotation is under way when a collection lists the directory and none that begins between the listing and the deletion takes the id of a listed WAL that nothing names |
| Restart.LastTwoRecoverIff | src/lib.rs:490-543 | in every such run, from a crash at any moment that leaves logs cut off anywhere and tables as finished: recovery from either of the two newest manifests succeeds exactly when it names a WAL and every WAL it names kept its whole magic number, and reads back each log's whole records |
| Retention.CollectInsideRotationIff | src/compact.rs:464-478 | after a collection inside a rotation and the rotation's commit everything named exists exactly when the WAL's id was already named by one of the two newest manifests |
| Retention.CollectionLeaves | src/compact.rs:272-492 | in every run, of the WALs and tables a collection listed exactly those are left that the manifest in memory at its snapshot names or one of the two newest at its listing; whatever came since is left; the manifests left are those two and the ones committed since |
| Retention.QuietCollectionLeaves | src/compact.rs:272-492 | with no commit in between the tables left are exactly those that one of the two newest manifests names, and only these two manifests are left |
| Retention.FlushKeepsRecoveryIff | src/compact.rs:188-223 | recovering before or after a flush commit that writes any tables and drops any number of WALs, whatever ids these share, gives the same entries exactly when the tables hold nothing that was not recovered before and every record of a WAL whose id is gone is in a table or in a WAL still named |
| SessionRecovery.OnlyFoundWalsLose | src/data_stores/manifest.rs:202-205 | with the ids that rotations take, only a WAL found named when the session began and named no more can lose a record; dropping rotated WALs loses nothing |
| SessionRecovery.AcknowledgedIsRecoveredIff | src/compact.rs:188-223 | in every run of a session begun from any manifest, after flushes of the k oldest memtables a put that has returned is recovered exactly when the session's first memtable was not among them, or its record had been applied before the last one's rotation, or it is not in the session's first WAL |
| SessionRecovery.FlushKeepsRecoveryInRunIff | src/compact.rs:188-223 | in every such run recovery before and after the flush gives the same entries exactly when the session's first memtable was not flushed, or at the last one's rotation everything in the session's first WAL had been applied and nothing has been written to it since |
| SessionRecovery.FrozenIsReplayIff | src/lib.rs:545-569 | a memtable is what replaying the session's records of its file builds exactly when it holds what its file holds |
| SessionRecovery.LogsIncrease | src/write_req.rs:371-412 | LSNs increase in every log file a session leaves, rotated WALs' common one included, if they did in those it found |
| Retention.CompactionKeepsRecovery | src/compact.rs:844-887 | recovering before or after a compaction commit gives the same entries |
| Recovery.RecoverState | src/lib.rs:490-543 | memtables are the replayed WALs, tables the opened files of every level in order, writes continue after the last LSN of the last WAL; it fails exactly when no WAL is named, a log is missing or damaged, or a table does not open |
| Recovery.DamagedRecordStopsRecovery | src/data_stores/wal.rs:279-282 | a damaged record in any WAL the manifest names makes recovery fail |
| Recovery.RecoveryNeeds | src/lib.rs:490-543 | so do a WAL that is missing or has another magic number and a manifest that names none; a table that is missing or refused does not open |
| Recovery.RecoveredIsLogged | src/lib.rs:490-543 | each recovered memtable, the last WAL's the mutable one, holds exactly the entries its WAL reads as and answers the last of its writes |
| Recovery.CrashedLookup | src/lib.rs:545-569 | after a crash at any byte, lookups answer the last write among the records before it |
| Recovery.RestartLsnIsFreshIff | src/lib.rs:541-541 | the LSN that recovery goes on with is above every LSN in use exactly when the last WAL is not empty or nothing was ever written |
| SessionRestart.RestartHoldsOnceIff | src/lib.rs:490-543 | a restart holds every entry once exactly when no record is in two of the logs named, counting a name as often as it is listed, nor in a log and a table |
| SessionRestart.RestartIsCleanIff | src/lib.rs:490-543 | after a session and a flush of its k oldest memtables that is so exactly when no rotated WAL has a record, or at most one is still named and the flushed memtables go no further than the session's first WAL |
| Durability.AcknowledgedIsLogged | src/write_req.rs:414-421 | the record of a put that returned Ok is in a WAL |
| Durability.LoggedSurvives | src/data_stores/wal.rs:224-287 | a logged record is in the memtable recovered from its file, whatever other WALs put there before and was appended and torn later |
| Durability.WalLsnsIncrease | src/write_req.rs:395-412 | LSNs increase within every WAL the protocol writes |
| ReadPath.Get | src/lib.rs:204-229 | mutable memtable, frozen ones newest first, then tables by level and in list order: with silent memtables the first table that is not a miss decides, with its value or with its error, whatever older ones hold; if there is none nothing is found |
| ReadPath.GetScansLayers | src/lib.rs:204-229 | when the tables read as what the levels hold, `get` answers the scan of all layers |
| ReadPath.BackedReads | src/lib.rs:220-226 | tables opened from files that hold their entries do read so, without errors |
| ReadPath.GetReadsNewestIff | src/lib.rs:204-229 | over ordered layers `get` reads the newest version exactly when it is live, or deleted in a memtable while every layer below lacks the key or is a memtable that deletes it too |
| ReadPath.DbReadsNewestIff | src/lib.rs:204-229 | the same for a whole well-formed database in which at most one L0 file holds the key |
| ReadPath.OrderedLevelIsSorted | src/lib.rs:220-226 | below L0 the files in list order are one sorted run, so the first hit is the newest |
| ReadPath.OrderedLevelShowsNewest | src/lib.rs:220-226 | so a level below L0 shows the newest of its versions |
| ReadPath.L0ShowsNewestIff | src/lib.rs:220-226 | L0, read oldest first, shows the newest version exactly when at most one file holds the key |
| LayerOrder.PutKeepsOrder | src/lib.rs:358-367 | a newer write keeps every upper layer newer than every lower one |
| LayerOrder.FlushKeepsOrder | src/compact.rs:225-252 | so does a flush, whatever was rotated meanwhile |
| LayerOrder.LevelsAreLayers | src/lib.rs:220-226 | the order between levels is the order of the layers `get` asks |
| LayerOrder.CompactionKeepsOrderIff | src/compact.rs:578-698 | among the levels: a compaction of L0 keeps the order; one of a deeper level does exactly for keys not split between its first file and the others |
| LayerOrder.DbOrder | src/lib.rs:204-229 | all layers are in order exactly when the memtables are, the levels are, and everything in memory is newer than everything on disk |
| LayerOrder.CompactionKeepsDbOrderIff | src/compact.rs:578-698 | among all layers `get` asks, memtables included: a compaction keeps the order exactly when its level is L0 or does not split the key |
| DatabaseRuns.RunKeepsIff | src/compact.rs:86-253 | in every run of puts, rotations, flushes, compactions of any level and failed attempts, with table ids handed out by one counter that a rotation's commit may move back, as the code does: memtables sorted, levels well formed, every put held exactly once and every live file on disk as the levels have it, in all states up to one, exactly when no step before it gave a file that is live after it other content |
| StoreRefinesRuns.FlushRefines | src/compact.rs:86-253 | a flush on disk, whatever ids are live, is the flush step of such a run |
| StoreRefinesRuns.CompactionRefines | src/compact.rs:701-949 | a compaction on disk that succeeds and damaged no input is its compaction step |
| StoreRefinesRuns.FailureRefines | src/compact.rs:701-949 | a failed one is its failed attempt |
| DatabaseRuns.NothingCleanAfter | src/compact.rs:97-98 | after a flush of two or more memtables the next flush is not such a step, nor is the next compaction below L0, and one of L0 succeeds only if the second flushed table has fewer than two entries before its last block |
| DatabaseRuns.RunOrderIff | src/lib.rs:204-229 | in every run in which no step overwrote a live file, all layers are in order for a key in all states up to one exactly when no compaction before it split the key |
| DatabaseRuns.OrderedWithoutDeepCompactions | src/lib.rs:204-229 | so, as long as no live file is overwritten, puts, rotations, flushes and compactions of L0 leave every key in order in every state |
| DatabaseRuns.RunFlushOrder | src/compact.rs:196-203 | and as long as no compaction splits the key either, L0 lists its versions oldest file first |
| DatabaseRuns.RunReadsLastPutIff | src/lib.rs:204-229 | in every run in which no step overwrote a live file and no compaction split the key, with at most one L0 file holding it, `get` answers the last put exactly when that put is live, or a deletion in a memtable under which no layer shows a value |

## Left out

- `Db::new`, directory scanning and the choice of the newest manifest file, thread start and restart, shutdown and the condition variable that wakes the compaction thread.
- I/O failures other than a failed WAL write or rotation, a damaged log, and a table that does not open or cannot be read: creating and writing files succeeds; a failed compaction stops the modelled trigger loop, where the code sleeps and tries again.
- What a failed rotation leaves in the manifest and on disk: in the write protocol it changes nothing but what its leader returns. A failed WAL write leaves nothing in the modelled WAL, where a file may keep part of the group.
- Panics and lock poisoning, and with them the overflow of `u32` file ids, which the model turns into a failed flush or compaction, and of `u64` LSNs.
- UTF-8 validation of `Str` payloads (section 3 of RFC 3629): any bytes are accepted.
- The values of CRC-32 and SipHash, and the floating-point sizing of a new Bloom filter: any functions, any positive number of bits that fits the format, any number of probes.
- The internals of the skip map, the binary heap (any least item may come out) and the atomic pointer.
- `Compactor.Store.ExecuteCompaction`: changes the manifest and readers' levels in one step; `CompactionCommits` has its commit among rotations, `Publication` its store. Of a compaction that damaged an input and succeeded all the same, because the overwritten bytes passed the checksum and parsed, nothing is stated but what it hands out; `Compactor.DamagedIff` says when an input is damaged.
- `Splitters.Splitter.Accept`: how much of what was written has reached the file before it is closed is any beginning of it, chosen anew at each write.
- `CompactionCommits.CompactionUnderRotations`: no id was reserved after a commit with an older snapshot, which is when `TableIds.IdsDistinctIff` has the ids distinct, and the target level's files have ids from before the run or handed out in it; what overwriting does otherwise is `Compactor.CompactionAgreesIff`.
- `PipelineTheorems.RunKeepsInv`: runs without failed WAL writes and rotations; what holds in runs with them is `PipelineFaults.FaultyRunKeeps`.
- `PipelineGuarantees.StageExclusion`: runs without failed WAL writes; with them the WAL stage stays exclusive and `PipelineStrands.SecondEntersIff` says when, after the first, the memtable stage does not.
- `PipelineGuarantees.Progress`: runs without failed WAL writes; `PipelineStrands.DropStrandsIff` says when the first can end in a stranded leader and when it cannot, and `PipelineStrands.StuckStopsTheTurn` what then stops.
- `PipelineStrands.DropStrandsIff` and `PipelineStrands.SecondEntersIff`: what can come of one failed WAL write in a run that had none before and has none after; what holds however many fail is `PipelineFaults.FaultyRunKeeps` and `PipelineFaults.StuckForever`.
- `PipelineFaults.FaultyRunKeeps`: after a failed rotation the model's leader releases its ticket and then its group as after a successful one, where the code drops the group first and the ticket after it; and with two leaders in the memtable stage, which only a failure brings about, each record goes to the newest memtable, where the code loads the version once for the whole batch.
- `CompactionWorker.Run`: without the flush branch, which only adds files to L0; it stops where a live file's id has been handed out and where the ids run out, where the code goes on or panics.
- `DatabaseRuns.RunKeepsIff`: a compaction that would truncate an input with blocks unread occurs only as a failed attempt, with any content in the files it touched; a put, a rotation, a flush and a compaction are one step each.
- `Retention.LastTwoAlwaysRecoverable`: a manifest that fails to decode, which the collector skips, is not modelled.
- `Durability.LoggedSurvives` and `Restart.LastTwoRecoverIff`: one crash; what a second finds after a reopening is `Wals.AppendAfterCrashIff`.
- `SessionRecovery.FlushKeepsRecoveryInRunIff` and `SessionRestart.RestartIsCleanIff`: the session's LSNs are above all that were there, which `Recovery.RestartLsnIsFreshIff` characterises; whether the layers `get` asks are in order again after a restart is not stated.
- `WalFiles.FilesMatchThroughoutIff`: runs without failed WAL writes and rotations.
- Fairness: termination is stated as a bound on the number of steps, not on time.
- `src/data_stores/block.rs` (commented out), and read versions, group-size limits, timers and tombstone reclamation, which the code does not have.

Where the code and its documentation differ, the model follows the code: L0 compaction is triggered by total size and flushes by more
than four WALs, not by file counts; a flush reserves one id rather than one per table; the commit check compares
versions but the id counters move without one; tombstones and old versions are never dropped.
