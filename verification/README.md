# Verified models of RocksDB 5.11.3 with KVIMR

This project models the parts of the storage engine whose correctness is least obvious from their code, and proves
what they promise. Code that updates fields in loops is modelled by classes and methods with loops; protocols between
threads are state machines over values whose steps are the atomic operations of the source. The command
`dafny verify dfyconfig.toml` checks the whole project.

**The database as a whole** (`Database`, `DatabaseSteps`, `DatabaseCompactions`, `DatabaseReads`, `DatabaseRuns`).
Writes, memtable switches, flushes, picked, waiting and completing level-style compactions, new and released snapshots,
in any order. The compaction iterator and the level-style picker below are its parts. The main theorem,
`DatabaseReads.SnapshotsReadWhatWasWritten`, says that in every state of every run a read at a live snapshot or at the
tip, through memtables and levels, finds the newest write of its key that is not after it, for every key on which single
deletes are used as documented, and for any other use as long as the guards of the source find each flush and completion
harmless, which is exact where the newest versions of a key are rewritten. A snapshot is the past: until it is released,
reads through it find what the tip found when it was taken (`DatabaseReads.SnapshotIsThePast`).

**Compaction garbage collection** (`Records`, `Snapshots`, `Compactions`, `IteratorSpec`, `CompactionIterator`,
`IteratorGroups`, `IteratorGuards`, `IteratorMeaning`, `IteratorZero`, `IteratorTheorems`, `IteratorOrder`,
`IteratorAsserts`, `IteratorUse`, `IteratorOutput`). The class `CompactionIterator` keeps the source's fields and loop.
It is proved to produce what a recursive function `Run` says, turn by turn. About `Run` the main theorems say exactly
when a lookup at some snapshot or at the tip can tell that a compaction ran, by conditions on kinds, stripes and the
write-conflict boundary that can be checked on the input; the documented use of single deletes meets them. The output is
sorted, it keeps evidence for write-conflict checks with one exact exception, and for puts and deletions the loop is a
filter that can judge each record by itself. Which records are output and which sequence numbers are set to 0 is also
said with the input and the fields of the configuration alone.

**Subcompactions** (`Subcompactions`, `SplitOutputs`, `SubcompactionBoundaries`). From candidate keys over greedy
grouping to the ranges of a job; exactly when the joined outputs are the output of one unsplit run, and exactly when
lookups agree.

**SuperVersions** (`SuperVersions`, `SuperVersionInvariant`, `SuperVersionSteps`, `SuperVersionTheorems`,
`SuperVersionOperations`). Any number of threads swap, check, reference, return and release SuperVersions while installs
publish, scrape and release. For every run: counts are holders, cleanup happens once and not too early, cached pointers
and results are fresh, and the cache is hit and kept exactly when the protocol says.

**CLOCK cache shard** (`ClockCache`, `ClockInvariant`, `ClockSteps`, `ClockTheorems`, `ClockOperations`). Each atomic
operation on a handle's flags is one step, interleaved with regions under the mutex; handles are recycled and reused for
other keys. For every run: a handle is recycled by one thread, and not again before it is filled again, usage is the
total charge, what a lookup hands out stays until the client releases it, the table maps the handles in the cache, and
lookups, inserts, erasures and evictions achieve what they are for exactly under the stated conditions.

**LRU cache shard** (`LruTable`, `LruList`, `LruInvariant`, `LruShard`). The chained hash table refines a map, pointer
by pointer; the circular list refines a sequence in two pools. The shard's `Valid()` says: a handle is on the list
exactly if it is in the table with one reference, usage totals are the charge sums, every handle ever made is live or
freed once, and usage exceeds the capacity only with an empty list. Every operation keeps it and determines the new
list, the border between the pools and what is evicted.

**Compaction pickers**. `LevelFiles` and `Lookups` are shared. `Sanitize*`: the closure of a manually chosen set of
files is the least one, and compacting it changes no lookup. `Level*`: over every sequence of flushes, picks, manual
compactions and completions, running compactions share no file, those with the same output level above 0 have disjoint
key ranges, at most one moves level 0 down, level 0 keeps its order, and no completion changes a lookup. Every pick is
determined by declarative rules, and fails exactly if they allow none. With the iterator run over the picked files
(`LevelRecords`, `LevelFlat`, `LevelJobs`, `LevelOrder`, `LevelPlans`, `LevelReads`) a completion changes no read, at
any snapshot, of a key that its input is safe for, and what a compaction was told about deeper levels stays true while
it runs. `UniversalRuns` and `UniversalFiles`: the sorted runs are those of the files, running compactions are disjoint
contiguous blocks of at least two runs that take whole levels, and time order is kept.

**KVIMR** (`Kvimr*`). The track allocator, the naive and merged read-modify-write of tracks, the SSTable store with
sync, unlink and recovery, and its metadata format. Both write modes leave the same bytes on the device, one SSTable's
writes touch no other's payload, the metadata file always describes a consistent store, and recovery from its bytes
gives back what was synced, under conditions that are stated exactly.

Some promises turn out to hold only under a condition; the condition is then part of the statement:

- Sequence 0 doubles as "no snapshot". With a snapshot numbered 0, a put with sequence 0 is lost exactly if it is its
  key's only input record, or if the single delete above it drops it or empties a value that was not empty
  (`IteratorTheorems.ReadsKeptExactly`, `IteratorTheorems.ZeroSnapshotLoses`, `IteratorTheorems.DeletedAtZero`). In a
  database that numbers its writes from 1 this does not happen, as the main theorem shows.
- With that snapshot as the write-conflict boundary, evidence of a write is lost exactly over single deletes down to
  sequence 0 (`IteratorOrder.WriteConflictEvidence`, `IteratorOrder.EvidenceLost`), and an assertion of the source can
  fail (`IteratorAsserts.AssertionsHold`, `IteratorAsserts.AssertionFails`).
- Reads survive single deletes if and only if no stripe vanishes over a value (`IteratorTheorems.ReadsKeptExactly`).
  Histories that alternate with puts meet this; two puts under one single delete can bring the older one back
  (`IteratorTheorems.SingleDeleteOverTwoPuts`, `DatabaseRuns.MisusedRun`).
- A split compaction outputs what the unsplit one does if and only if each key outputs as many records with the flag that
  its own range gives it (`SplitOutputs.SplitExactly`), for instance if no single delete is newer than the write-conflict
  boundary; otherwise it may keep more (`Subcompactions.SplitMayKeepMore`, `SplitOutputs.SplitKeepsNoLess`).
- `Restore` of the track allocator gives back what it took if the first bad track has an owner, but not if it is
  malformed (`KvimrAllocator.TrackAllocator.Restore`, `KvimrAllocator.RestoreLeaks`).
- Registering an SSTable under a number that another one uses, or renumbering one that has tracks, breaks the agreement
  of owner tables and track map; unlinking an unknown name can erase the map entry of a live SSTable
  (`KvimrStore.Store.RegisterSSTable`, `KvimrStore.Store.Unlink`, `KvimrRuns.SameNumber`, `KvimrRuns.WrongUnlink`).
- The metadata written by a sync also list SSTables that are still being written. If one of these has bytes but not
  enough tracks, the store does not open again (`KvimrStore.Store.Initialize`, `KvimrRuns.SyncThenReopenFails`).
- Names are stored relative to the database directory, and an SSTable elsewhere does not come back under its name
  (`KvimrMetadata.PathRoundTrip`, `KvimrRuns.NameIsLost`). Of several that come back under one name the last one wins;
  if another one had tracks, the tables of the opened store disagree (`KvimrRecovery.ComeBack`, `KvimrRuns.NamesCollide`).
- The high priority pool of the LRU cache stays within its capacity under every operation but `SetCapacity`, which does
  not rebalance it; after that, it is within it if and only if what was left of it fits
  (`LruShard.Shard.SetCapacity`, `LruShard.PoolLapses`).

## Model

| member | source | states |
|---|---|---|
| Snapshots.VisibleIffStripe | rocksdb-5.11.3-kvimr/db/compaction_iterator.cc:641-657 | the snapshot found for a sequence number decides visibility: every read point sees the number exactly if it is not below its stripe |
| Snapshots.SameStripeIffAbovePrevious | rocksdb-5.11.3-kvimr/db/compaction_iterator.cc:413-420 | the test made on the next record, previous snapshot 0 or sequence above it, says exactly that both records lie in one stripe, unless the older one is alone in a stripe numbered 0 and the newer one sees no snapshot before it |
| Snapshots.StripeMonotone | rocksdb-5.11.3-kvimr/db/compaction_iterator.cc:349-359 | stripes follow the order of sequence numbers |
| Snapshots.AboveFirstStripe | rocksdb-5.11.3-kvimr/db/compaction_iterator.cc:618-639 | a sequence above the earliest snapshot is in a later stripe than everything at or below it |
| Compactions.Compaction.KeyNotExistsBeyondOutputLevel | rocksdb-5.11.3-kvimr/db/compaction.cc:270-300 | with cursors that never go back, the answer for keys asked in nondecreasing order is that of a full scan of every deeper file, and the cursors stay good for every later key |
| Compactions.Compaction.AdvanceCursor | rocksdb-5.11.3-kvimr/db/compaction.cc:281-296 | one cursor moves past the files that end before the key, and only forward; it finds the key exactly if some file of the level covers it |
| Compactions.Compaction.AbsentMeansNoRecord | rocksdb-5.11.3-kvimr/db/compaction.cc:270-300 | a key that the check calls absent has no version at all in deeper levels |
| CompactionIterators.CompactionIterator.constructor | rocksdb-5.11.3-kvimr/db/compaction_iterator.cc:59-117 | a fresh iterator over a sorted input, with its cursors at the start |
| CompactionIterators.CompactionIterator.SeekToFirst | rocksdb-5.11.3-kvimr/db/compaction_iterator.cc:133-136 | from here on the iterator yields the whole compaction output, specified by a pure recursive function of the input |
| CompactionIterators.CompactionIterator.Next | rocksdb-5.11.3-kvimr/db/compaction_iterator.cc:138-181 | the records still to come are the current one followed by those to come after the call; the iterator ends only at the end of the input |
| CompactionIterators.CompactionIterator.FindEarliestVisibleSnapshot | rocksdb-5.11.3-kvimr/db/compaction_iterator.cc:641-657 | the sequential search returns the stripe and the snapshot before it |
| CompactionIterators.CompactionIterator.NextFromInput | rocksdb-5.11.3-kvimr/db/compaction_iterator.cc:238-616 | the loop with its mutable fields produces exactly the head of the specified output, or nothing exactly if nothing is left, and keeps the cursor order needed by the deeper-level check |
| CompactionIterators.CompactionIterator.EnterRecord | rocksdb-5.11.3-kvimr/db/compaction_iterator.cc:279-359 | what reading a record does to the key and snapshot fields |
| CompactionIterators.CompactionIterator.ProcessPlain | rocksdb-5.11.3-kvimr/db/compaction_iterator.cc:505-606 | a put or a deletion is output, dropped as hidden, or dropped as an obsolete tombstone, as the specification of one turn says |
| CompactionIterators.CompactionIterator.ProcessSingleDelete | rocksdb-5.11.3-kvimr/db/compaction_iterator.cc:373-504 | a single delete is output, dropped with its put, dropped alone or kept with its put emptied, as the specification of one turn says |
| CompactionIterators.CompactionIterator.PrepareOutput | rocksdb-5.11.3-kvimr/db/compaction_iterator.cc:618-639 | the sequence number is squashed to zero where IteratorOutput.SequenceNumbers says, and nothing else changes |
| IteratorGroups.RunSplit | rocksdb-5.11.3-kvimr/db/compaction_iterator.cc:238-616 | the output over two parts of the input with different keys at the seam is the output of each part: nothing but whether a record was output is carried across keys |
| IteratorGroups.KeyRun | rocksdb-5.11.3-kvimr/db/compaction_iterator.cc:238-616 | the versions of a key in the output are the run over that key alone |
| IteratorGroups.OutputFromInput | rocksdb-5.11.3-kvimr/db/compaction_iterator.cc:238-639 | every output record is an input record, with at most its value emptied and its sequence squashed |
| IteratorMeaning.TurnInStripe | rocksdb-5.11.3-kvimr/db/compaction_iterator.cc:373-504 | one turn of the loop stays in its stripe; what it outputs first is a single delete, a put is output only after the delete it was kept for |
| IteratorMeaning.WalkStripe | rocksdb-5.11.3-kvimr/db/compaction_iterator.cc:363-606 | what the loop does to a whole stripe of a key: unless the stripe vanishes under a single delete, or was a tombstone with nothing beneath, its first output reads like its newest record |
| IteratorMeaning.StripeReads | rocksdb-5.11.3-kvimr/db/compaction_iterator.cc:363-606 | so a read below the stripe is untouched by it, and a read at or above it sees what the stripe left, or if nothing what is below |
| IteratorMeaning.AnnihilatedIff | rocksdb-5.11.3-kvimr/db/compaction_iterator.cc:413-504 | a stripe vanishes under a single delete if and only if its newest record is one and the number of records that the guards of the source let out does not grow over the stripe |
| IteratorMeaning.HarmlessReads | rocksdb-5.11.3-kvimr/db/compaction_iterator.cc:363-606 | apart from the stripe numbered 0: if what lies just below each vanished stripe reads as absent, every read point reads the same over the run and over the input |
| IteratorMeaning.HarmShows | rocksdb-5.11.3-kvimr/db/compaction_iterator.cc:363-606 | apart from the stripe numbered 0: if not, some snapshot or the tip reads something else |
| IteratorMeaning.HarmlessIff | rocksdb-5.11.3-kvimr/db/compaction_iterator.cc:363-606 | this harmlessness, defined by runs of the loop, is the one defined by the guards on kinds, stripes, the write-conflict boundary and the output flag alone |
| IteratorGuards.RunCount | rocksdb-5.11.3-kvimr/db/compaction_iterator.cc:363-606 | the number of records of a key that the loop outputs is the one counted by the guards, with the flag for earlier output set one record late for the first output of all |
| IteratorGuards.SilentIff | rocksdb-5.11.3-kvimr/db/compaction_iterator.cc:133-136 | the first output of all may be one of this key exactly if by the guards no smaller key outputs a record |
| IteratorZero.KeptExactly | rocksdb-5.11.3-kvimr/db/compaction_iterator.cc:363-606 | for the history of one key, with the stripe numbered 0 included: every read point reads the same over the run if and only if by the guards no stripe vanishes over a value and no put at 0 is lost |
| IteratorZero.AloneAtZero | rocksdb-5.11.3-kvimr/db/compaction_iterator.cc:291-359 | a lone record with sequence 0 under a snapshot numbered 0 is dropped, which shows exactly if it is a put |
| IteratorZero.CrossedKept | rocksdb-5.11.3-kvimr/db/compaction_iterator.cc:413-504 | a single delete that takes the version at 0 for one of its own stripe: reads are kept under exactly that condition, so only if a put there was empty and is not dropped |
| IteratorMeaning.PlainHarmless | rocksdb-5.11.3-kvimr/db/compaction_iterator.cc:505-606 | histories of puts and deletions are harmless |
| IteratorMeaning.AlternatingHarmless | rocksdb-5.11.3-kvimr/db/compaction_iterator.cc:363-504 | so are histories that alternate puts and single deletes |
| IteratorTheorems.CompactionPreservesReads | rocksdb-5.11.3-kvimr/db/compaction_iterator.cc:238-657 | for every sorted input, snapshot list, compaction and older deeper levels, and a key never singly deleted or with puts and single deletes taking turns: lookups of the key at every snapshot and at the tip are the same before and after if and only if no put at 0 is lost under a snapshot numbered 0; always if no snapshot is numbered 0 |
| IteratorTheorems.ReadsKeptExactly | rocksdb-5.11.3-kvimr/db/compaction_iterator.cc:238-657 | for every mix of puts, deletions and single deletes and every list of snapshots: all reads of a key are kept if and only if, by guards that can be checked on the input, no stripe of it vanishes over a value and no put at 0 is lost |
| IteratorTheorems.WellUsedHarmless | rocksdb-5.11.3-kvimr/db/compaction_iterator.cc:363-504 | with the documented use of single deletes no stripe above 0 vanishes over a value |
| IteratorTheorems.ReadsFromHistory | rocksdb-5.11.3-kvimr/db/compaction_iterator.cc:238-657 | any output that holds a key's run, whatever else it holds, keeps all reads of the key under exactly this condition |
| IteratorTheorems.ZeroSnapshotExactly | rocksdb-5.11.3-kvimr/db/compaction_iterator.cc:291-359 | 0 doubles as no snapshot: a put lost at 0 shows for every mix of records, and for puts and deletions all reads of a key are kept if and only if its only input record is not a put with sequence 0 under a snapshot numbered 0 |
| IteratorTheorems.ZeroSnapshotLoses | rocksdb-5.11.3-kvimr/db/compaction_iterator.cc:291-359 | such a put, lost at the tip |
| IteratorTheorems.DeletedAtZero | rocksdb-5.11.3-kvimr/db/compaction_iterator.cc:413-504 | single deletes used as documented: a put with sequence 0 is lost at snapshot 0 under its single delete, or reads as empty there if a transaction needs the delete |
| IteratorTheorems.SingleDeleteOverTwoPuts | rocksdb-5.11.3-kvimr/db/compaction_iterator.cc:413-454 | a concrete loss: of two puts under one single delete the older, in a deeper level, comes back to life |
| IteratorTheorems.MisuseCanBeHarmless | rocksdb-5.11.3-kvimr/db/compaction_iterator.cc:413-504 | the documented use is not necessary: a single delete under two puts breaks it and is safe by the guards |
| IteratorUse.CompactionAlternates | rocksdb-5.11.3-kvimr/db/compaction_iterator.cc:363-504 | where puts and single deletes take turns over input and deeper levels they still do so after the compaction, and the newest kind stays, unless a sequence 0 is read under a snapshot numbered 0 |
| IteratorUse.UsedSafe | rocksdb-5.11.3-kvimr/db/compaction_iterator.cc:238-657 | a key used as documented, with no sequence 0 under a snapshot numbered 0, meets the exact condition |
| IteratorOrder.CompactionSorted | rocksdb-5.11.3-kvimr/db/compaction_iterator.cc:238-639 | the output is sorted, squashed sequence numbers included, for every use of single deletes |
| IteratorOrder.WriteConflictEvidence | rocksdb-5.11.3-kvimr/db/compaction_iterator.cc:373-545 | for every use of single deletes: if the newest input record of a key is newer than the earliest write-conflict snapshot, some output record of the key is too, if and only if the versions are not all single deletes, the oldest with sequence 0 and no other snapshot below the newest |
| IteratorOrder.EvidenceLost | rocksdb-5.11.3-kvimr/db/compaction_iterator.cc:413-454 | of two single deletes the newer goes and the older has sequence 0: evidence is lost |
| IteratorOrder.CompactionIsFilter | rocksdb-5.11.3-kvimr/db/compaction_iterator.cc:505-606 | for puts and deletions the stateful loop is a filter: a record survives exactly if no newer version shares its stripe, it is no obsolete tombstone, and it is not the newest version of its key in a stripe numbered 0 |
| IteratorOutput.SequenceNumbers | rocksdb-5.11.3-kvimr/db/compaction_iterator.cc:618-639 | for every input the outputs come from input records in their order, with the same key and kind, and each has sequence 0 if the compaction is bottommost without ingest behind, every snapshot sees its record, it is below the deletes to preserve, if any, and its key is not the largest of the compaction; otherwise the sequence of its record |
| IteratorOutput.PlainOutputs | rocksdb-5.11.3-kvimr/db/compaction_iterator.cc:505-639 | for puts and deletions exactly these records are output, with their values: those that some snapshot or the tip finds, except a tombstone that every snapshot sees, with nothing beneath and not to be preserved, and except the newest version of a key at sequence 0 under a snapshot numbered 0 |
| IteratorOutput.LoneSingleDelete | rocksdb-5.11.3-kvimr/db/compaction_iterator.cc:455-504 | a single delete that is its key's only record goes exactly if every snapshot sees it and no deeper file has the key in its range |
| IteratorOutput.PairOutputs | rocksdb-5.11.3-kvimr/db/compaction_iterator.cc:413-454 | a put under its single delete, with no snapshot numbered 0 over a put with sequence 0: both go if no read point tells them apart and the delete is not newer than the write-conflict boundary, the put is emptied if it is newer, and both stay if a read point tells them apart |
| IteratorAsserts.AssertionsHold | rocksdb-5.11.3-kvimr/db/compaction_iterator.cc:363-372 | if every single delete followed by a version of its key is followed by a put, the assertions on an emptied record and on a squashed one hold over the whole input if and only if no put at 0 is emptied for a single delete under a snapshot numbered 0 |
| IteratorAsserts.HistoryAsserts | rocksdb-5.11.3-kvimr/db/compaction_iterator.cc:363-372 | the same for one key, first to output or not |
| IteratorAsserts.AssertionFails | rocksdb-5.11.3-kvimr/db/compaction_iterator.cc:363-372 | such a put, for which the assertion fails |
| Subcompactions.ProcessKeyValueCompaction | rocksdb-5.11.3-kvimr/db/compaction_job.cc:756-813 | seek to the start key, output until the end key: the output of one part |
| Subcompactions.Collect | rocksdb-5.11.3-kvimr/db/compaction_job.cc:802-813 | the output loop returns the records before the end key that the iterator yields |
| Subcompactions.PartIsRangeRun | rocksdb-5.11.3-kvimr/db/compaction_job.cc:756-813 | a part is the run over the records of its half-open key range, although the iterator may have looked beyond it |
| Subcompactions.SplitIsInvisible | rocksdb-5.11.3-kvimr/db/compaction_job.cc:756-813 | for any strictly increasing boundaries the concatenated outputs of the parts are the output of the unsplit compaction if no single delete is newer than the earliest write-conflict snapshot |
| SplitOutputs.SplitExactly | rocksdb-5.11.3-kvimr/db/compaction_job.cc:756-813 | for every input they are the same if and only if each key, by the guards, outputs as many records with the flag its own range gives it as with that of the whole |
| SplitOutputs.SameRunIff | rocksdb-5.11.3-kvimr/db/compaction_iterator.cc:413-504 | a key outputs the same records, first to output or not, if and only if it outputs as many |
| SplitOutputs.SplitKeepsNoLess | rocksdb-5.11.3-kvimr/db/compaction_job.cc:756-813 | of each key a split compaction keeps at least as many versions |
| Subcompactions.SplitReadsExactly | rocksdb-5.11.3-kvimr/db/compaction_job.cc:756-813 | for every mix of records the split compaction keeps all reads of a key if and only if the guards say so, with the flag as the key's own range sets it |
| Subcompactions.SplitPreservesReads | rocksdb-5.11.3-kvimr/db/compaction_job.cc:756-813 | with the documented use of single deletes it keeps them if and only if no put at 0 is lost, so always if no snapshot is numbered 0 |
| Subcompactions.SplitMayKeepMore | rocksdb-5.11.3-kvimr/db/compaction_job.cc:756-813 | the two can differ: a concrete input with two records unsplit and four split |
| SubcompactionBoundaries.SortUnique | rocksdb-5.11.3-kvimr/db/compaction_job.cc:458-466 | the same keys, strictly increasing |
| SubcompactionBoundaries.CollectBounds | rocksdb-5.11.3-kvimr/db/compaction_job.cc:421-456 | the candidate keys of all input levels, as a function of the levels |
| SubcompactionBoundaries.CandidatesAre | rocksdb-5.11.3-kvimr/db/compaction_job.cc:421-456 | a key is a candidate exactly if it is an end of a file of level 0, an outer end of another input level or the start of a file of the output level |
| SubcompactionBoundaries.BoundsAreEnds | rocksdb-5.11.3-kvimr/db/compaction_job.cc:421-456 | the least and the greatest candidate are ends of input files, and every input file lies between them |
| SubcompactionBoundaries.RangeSizes | rocksdb-5.11.3-kvimr/db/compaction_job.cc:468-485 | one size for each gap between neighbouring bounds, and their total |
| SubcompactionBoundaries.GroupRanges | rocksdb-5.11.3-kvimr/db/compaction_job.cc:497-516 | the greedy loop groups neighbouring gaps: sizes are the sums of their gaps and add up to the total, every group but the last reaches the mean with its last gap and not before, and there are as many groups as allowed or the gaps left over, without the last one, do not reach the mean |
| SubcompactionBoundaries.GenSubcompactionBoundaries | rocksdb-5.11.3-kvimr/db/compaction_job.cc:413-521 | boundaries are strictly increasing candidate keys strictly between the ends of the input; with the least of the number of gaps, the number allowed and the files needed at a fill of four fifths as the number of groups, there is no boundary if it is at most one, and otherwise the gaps are grouped by their mean over it as said; the sizes add up to the whole |
| SubcompactionBoundaries.Prepare | rocksdb-5.11.3-kvimr/db/compaction_job.cc:380-397 | the ranges tile the keys: open at both ends, each ending where the next begins, each with its size |
| SubcompactionBoundaries.RunSplitJob | rocksdb-5.11.3-kvimr/db/compaction_job.cc:530-549 | running every range and joining the outputs gives the parts in order, which is the unsplit output if no single delete is newer than the earliest write-conflict snapshot |
| SuperVersionTheorems.StepKeepsInv | rocksdb-5.11.3-kvimr/db/column_family.cc:870-1009 | every enabled step of every thread is safe and keeps the invariant |
| SuperVersionTheorems.ReachableInv | rocksdb-5.11.3-kvimr/db/column_family.cc:870-1009 | the invariant holds in every state of every run |
| SuperVersionTheorems.CountsAreHolders | rocksdb-5.11.3-kvimr/db/column_family.cc:304-314 | in every reachable state the count of a SuperVersion is the number of variables that hold it: the installed one, the one being replaced, slots, readers, scraped items, iterators |
| SuperVersionTheorems.NoStepGoesWrong | rocksdb-5.11.3-kvimr/db/column_family.cc:885-1009 | no assertion fails and no thread touches a cleaned up SuperVersion, in any interleaving |
| SuperVersionTheorems.NothingDangles | rocksdb-5.11.3-kvimr/db/column_family.cc:870-1009 | whatever any variable holds is alive |
| SuperVersionInvariant.ScrapedNotLast | rocksdb-5.11.3-kvimr/db/column_family.cc:993-1009 | the unref in the scrape loop is never the last |
| SuperVersionInvariant.SlotNotLast | rocksdb-5.11.3-kvimr/db/column_family.cc:341-354 | neither is the unref when a thread exits with a cached SuperVersion |
| SuperVersionTheorems.CleanupIsExact | rocksdb-5.11.3-kvimr/db/column_family.cc:309-327 | a SuperVersion has no reference exactly if it was cleaned up or exactly one thread is about to do so |
| SuperVersionTheorems.CleanupAtMostOnce | rocksdb-5.11.3-kvimr/db/db_impl.cc:1894-1912 | no SuperVersion is cleaned up twice in a run |
| SuperVersionTheorems.CleanedForGood | rocksdb-5.11.3-kvimr/db/column_family.cc:316-327 | a cleaned up SuperVersion stays so |
| SuperVersionTheorems.SlotsAreFresh | rocksdb-5.11.3-kvimr/db/column_family.cc:955-1009 | whenever the mutex is free a slot holds a marker or the installed SuperVersion |
| SuperVersionTheorems.FloorOfCall | rocksdb-5.11.3-kvimr/db/column_family.cc:885-929 | what was installed when a call began stays recorded until it ends |
| SuperVersionTheorems.ResultIsFresh | rocksdb-5.11.3-kvimr/db/column_family.cc:885-929 | a call returns a SuperVersion at least as new as every install completed before it began |
| SuperVersionOperations.CacheHitExactly | rocksdb-5.11.3-kvimr/db/column_family.cc:885-908 | over every run: a call takes the cached SuperVersion, counting nothing, exactly if its slot held one whose number is still the current one at the check |
| SuperVersionOperations.MissTakesInstalled | rocksdb-5.11.3-kvimr/db/column_family.cc:909-928 | otherwise it ends with the one installed when it has the mutex, and a reference of its own |
| SuperVersionOperations.ReturnExactly | rocksdb-5.11.3-kvimr/db/column_family.cc:931-947 | at its end a call puts its SuperVersion back exactly if no install has scraped the slot since it began; a second reference goes to an iterator |
| SuperVersionOperations.FailedReturn | rocksdb-5.11.3-kvimr/db/column_family.cc:870-883 | after a failed return the reference of the call goes and the second one goes to the iterator |
| SuperVersionOperations.InstallNext | rocksdb-5.11.3-kvimr/db/column_family.cc:955-991 | an install publishes a SuperVersion with the next number and holds the one before until its end |
| SuperVersionTheorems.CompletedIsInstalled | rocksdb-5.11.3-kvimr/db/column_family.cc:955-991 | whenever the mutex is free the installed SuperVersion is the last completed install |
| ClockCache.FlagsWord | rocksdb-5.11.3-kvimr/cache/clock_cache.cc:175-330 | the packed word and its parts determine each other, and each atomic operation on the word, adding and taking a reference, clearing the in-cache bit, setting and clearing the usage bit, is the operation on the parts used by the steps |
| ClockCache.WordFlags | rocksdb-5.11.3-kvimr/cache/clock_cache.cc:175-330 | every word is a packing |
| ClockTheorems.StepKeepsInv | rocksdb-5.11.3-kvimr/cache/clock_cache.cc:402-662 | every enabled step of every thread is safe and keeps the invariant |
| ClockTheorems.ReachableInv | rocksdb-5.11.3-kvimr/cache/clock_cache.cc:402-662 | the invariant holds in every state of every run |
| ClockTheorems.NoStepGoesWrong | rocksdb-5.11.3-kvimr/cache/clock_cache.cc:402-496 | no assertion fails and no handle is used out of turn, in any interleaving with eviction and reuse |
| ClockTheorems.RecycledExactlyOnce | rocksdb-5.11.3-kvimr/cache/clock_cache.cc:402-413 | an occupied handle has neither in-cache bit nor reference exactly if one thread has the duty to recycle it, and no two threads have the same duty |
| ClockTheorems.RecycledOncePerOccupancy | rocksdb-5.11.3-kvimr/cache/clock_cache.cc:402-413 | over every run: before a handle that was recycled is recycled again, by whichever thread, it is filled again |
| ClockTheorems.DutyComesFromLastStep | rocksdb-5.11.3-kvimr/cache/clock_cache.cc:446-496 | the duty falls to the one step that leaves the handle with neither bit nor reference |
| ClockTheorems.UsageIsTotal | rocksdb-5.11.3-kvimr/cache/clock_cache.cc:402-413 | whenever the mutex is free the usage is the total charge of the handles outside the recycle bin |
| ClockTheorems.CountsAreHolders | rocksdb-5.11.3-kvimr/cache/clock_cache.cc:426-466 | each count is the number of references held, so a handle in the bin is referenced by nobody |
| ClockTheorems.LookupResultStays | rocksdb-5.11.3-kvimr/cache/clock_cache.cc:609-632 | a client's reference is to an occupied handle whose key is the one asked for; when a lookup gets one is ClockOperations.LookupExactly |
| ClockTheorems.LookupStays | rocksdb-5.11.3-kvimr/cache/clock_cache.cc:609-643 | over every run: the handle that a lookup hands to a client stays, occupied, referenced and under the key asked for, until this client releases it, whatever is evicted, erased and reused meanwhile |
| ClockOperations.LookupExactly | rocksdb-5.11.3-kvimr/cache/clock_cache.cc:609-632 | over every run, whatever others hold or do: a lookup whose key is in the table when it searches, whose handle has the in-cache bit when it takes a reference and the key when it checks gives its client that handle; it ends without one only if one of the three fails |
| ClockOperations.InsertDoes | rocksdb-5.11.3-kvimr/cache/clock_cache.cc:539-583 | an insert ends with the key mapped to a handle that holds key and charge, with a reference for a caller that asked for one, the replaced entry out of the cache and no other key touched |
| ClockOperations.EraseDoes | rocksdb-5.11.3-kvimr/cache/clock_cache.cc:645-662 | an erase ends with the key out of the table, its entry out of the cache and no other key touched |
| ClockOperations.EvictDoes | rocksdb-5.11.3-kvimr/cache/clock_cache.cc:483-496 | an attempt to evict succeeds exactly if the entry is in the cache, unused and unreferenced; then its key leaves the table, its charge is returned and its handle is in the bin; otherwise its compare-and-swap changes nothing |
| ClockOperations.ClearDoes | rocksdb-5.11.3-kvimr/cache/clock_cache.cc:664-674 | erasing unreferenced entries ends with an empty table and no entry in the cache |
| ClockOperations.RefHeldExactly | rocksdb-5.11.3-kvimr/cache/clock_cache.cc:426-444 | a client that holds an entry gets a second reference exactly as long as the entry is in the cache |
| ClockOperations.ReleaseMarks | rocksdb-5.11.3-kvimr/cache/clock_cache.cc:446-466 | a release marks the entry as used |
| ClockOperations.EndGivesReference | rocksdb-5.11.3-kvimr/cache/clock_cache.cc:585-607 | the reference of an insert goes to its client, under the key inserted |
| ClockTheorems.ClientUndisturbed | rocksdb-5.11.3-kvimr/cache/clock_cache.cc:609-643 | no step but the release of a client's own reference changes its handle or key |
| ClockTheorems.ReferenceOverRun | rocksdb-5.11.3-kvimr/cache/clock_cache.cc:609-643 | so over any part of a run in which the client does not release |
| ClockTheorems.TableIsInCache | rocksdb-5.11.3-kvimr/cache/clock_cache.cc:539-583 | whenever the mutex is free the table maps exactly the handles with the in-cache bit, each under its key |
| LruTable.NewLength | rocksdb-5.11.3-kvimr/cache/lru_cache.cc:76-80 | the least power of two from 16 on that is at least one and a half times the number of handles |
| LruTable.HandleTable.constructor | rocksdb-5.11.3-kvimr/cache/lru_cache.cc:25-27 | sixteen empty buckets |
| LruTable.HandleTable.FindPointer | rocksdb-5.11.3-kvimr/cache/lru_cache.cc:68-74 | the pointer walk ends at the slot of the handle with the key, or at the end of its chain |
| LruTable.HandleTable.Lookup | rocksdb-5.11.3-kvimr/cache/lru_cache.cc:38-40 | the map lookup |
| LruTable.HandleTable.Insert | rocksdb-5.11.3-kvimr/cache/lru_cache.cc:42-56 | the map update; the handle replaced is returned and the load stays at most 1 |
| LruTable.HandleTable.Put | rocksdb-5.11.3-kvimr/cache/lru_cache.cc:42-49 | splicing the handle in where the search ends keeps all chains well formed |
| LruTable.HandleTable.Remove | rocksdb-5.11.3-kvimr/cache/lru_cache.cc:58-66 | the map removal, with the handle removed |
| LruTable.HandleTable.Resize | rocksdb-5.11.3-kvimr/cache/lru_cache.cc:76-100 | moving all handles to new chains changes no mapping |
| LruList.UnlinkRing | rocksdb-5.11.3-kvimr/cache/lru_cache.cc:177-191 | unlinking an element of a circular list leaves the circle of the others |
| LruList.LinkRing | rocksdb-5.11.3-kvimr/cache/lru_cache.cc:193-216 | linking after an element inserts it there in the circle |
| LruShard.Shard.constructor | rocksdb-5.11.3-kvimr/cache/lru_cache.cc:102-110 | an empty shard |
| LruShard.Shard.LruRemove | rocksdb-5.11.3-kvimr/cache/lru_cache.cc:177-191 | the handle leaves the list, and both totals and the pool border follow |
| LruShard.Shard.LruInsert | rocksdb-5.11.3-kvimr/cache/lru_cache.cc:193-216 | a high priority handle goes to the new end, another to the border of the low priority pool, and the border ends where the source puts it; a high insert brings the high pool within its capacity |
| LruShard.Shard.MaintainPoolSize | rocksdb-5.11.3-kvimr/cache/lru_cache.cc:218-226 | only the border moves, to the first place at which the high pool is within its capacity; the dummy head is never reached |
| LruShard.BorderIsFirst | rocksdb-5.11.3-kvimr/cache/lru_cache.cc:218-226 | from no earlier place on is the charge within the capacity of the high pool |
| LruShard.Shard.EvictFromLru | rocksdb-5.11.3-kvimr/cache/lru_cache.cc:228-241 | exactly the computed number of handles is evicted, oldest first; there is room afterwards or the list is empty |
| LruShard.EvictionsLeast | rocksdb-5.11.3-kvimr/cache/lru_cache.cc:228-241 | that number is the least that makes room, or all |
| LruShard.Shard.Lookup | rocksdb-5.11.3-kvimr/cache/lru_cache.cc:279-290 | the handle of the key gets a reference and leaves the list if it was evictable; nothing else changes |
| LruShard.Shard.Ref | rocksdb-5.11.3-kvimr/cache/lru_cache.cc:292-300 | the same for a handle already held |
| LruShard.Shard.Release | rocksdb-5.11.3-kvimr/cache/lru_cache.cc:309-345 | the handle is freed exactly if this was the last reference, or nobody else holds it and the cache is over capacity or asked to; otherwise it goes to its place on the list if nobody holds it; a high pool within its capacity stays so |
| LruShard.Shard.Insert | rocksdb-5.11.3-kvimr/cache/lru_cache.cc:347-423 | refused exactly if the limit is strict, a handle is wanted and held handles leave no room; either way exactly the least number of evictions from the old end; otherwise the new handle replaces the one with its key, an unwanted one goes to its place on the list, and handles, list, border and freed handles are all determined; a high pool within its capacity stays so, and with the strict limit usage too |
| LruShard.Shard.Erase | rocksdb-5.11.3-kvimr/cache/lru_cache.cc:425-448 | the key leaves the table; its handle is freed exactly if nobody holds it |
| LruShard.Shard.EraseUnRefEntries | rocksdb-5.11.3-kvimr/cache/lru_cache.cc:122-143 | exactly the handles that nobody holds are freed |
| LruShard.Shard.SetCapacity | rocksdb-5.11.3-kvimr/cache/lru_cache.cc:259-272 | evicts the least number needed, oldest first; over capacity afterwards only by held handles; the high pool is within its new capacity if and only if what was left of it fits |
| LruShard.PoolLapses | rocksdb-5.11.3-kvimr/cache/lru_cache.cc:259-272 | a concrete run after which the high pool exceeds its capacity, because setting the capacity does not rebalance it |
| LruShard.Shard.SetStrictCapacityLimit | rocksdb-5.11.3-kvimr/cache/lru_cache.cc:274-277 | sets the flag and keeps the invariant |
| LruShard.Shard.SetHighPriorityPoolRatio | rocksdb-5.11.3-kvimr/cache/lru_cache.cc:302-307 | brings the high priority pool within its new capacity |
| LruShard.Shard.GetPinnedUsage | rocksdb-5.11.3-kvimr/cache/lru_cache.cc:455-459 | the charge of the handles somebody holds |
| LruShard.PinnedIsHeld | rocksdb-5.11.3-kvimr/cache/lru_cache.cc:455-459 | the total charge is that of the evictable handles plus that of the held ones |
| SanitizeInputs.RangesMeet | rocksdb-5.11.3-kvimr/db/compaction_picker.cc:697-718 | the case analysis on two key ranges is one comparison at each end |
| SanitizeInputs.SanitizeForAllLevels | rocksdb-5.11.3-kvimr/db/compaction_picker.cc:721-849 | on success the least closed superset of the input, with no file being compacted; it fails only if every closed superset has such a file |
| SanitizeInputs.Sanitize | rocksdb-5.11.3-kvimr/db/compaction_picker.cc:851-914 | the statuses: invalid arguments, unknown files, busy files; on success a closed, idle, existing set |
| SanitizeInputs.SanitizeLevel | rocksdb-5.11.3-kvimr/db/compaction_picker.cc:744-847 | one level: clean cut, then what meets the hull there and below |
| SanitizeInputs.SanitizeZero | rocksdb-5.11.3-kvimr/db/compaction_picker.cc:787-811 | level 0: with a deeper output level every older file comes along |
| SanitizeInputs.ExpandToCleanCut | rocksdb-5.11.3-kvimr/db/compaction_picker.cc:767-786 | grows to neighbours that share a boundary key, adding only files every closed superset has |
| SanitizeInputs.IncludeBelow | rocksdb-5.11.3-kvimr/db/compaction_picker.cc:833-846 | adds, from the level down to the output level, exactly what meets the hull |
| SanitizeSpec.GoodIsClosed | rocksdb-5.11.3-kvimr/db/compaction_picker.cc:721-849 | a closed set has every file from a chosen file's level, or 1, down to the output level that overlaps it |
| Lookups.MoveDown | rocksdb-5.11.3-kvimr/db/compaction_picker.cc:721-849 | files below which only files of their own have their keys can be replaced by their merge at a deeper level, without a change to any lookup |
| SanitizeMeaning.CompactionKeepsLookups | rocksdb-5.11.3-kvimr/db/compaction_picker.cc:721-849 | replacing a closed set by its merge at the output level changes no newest-first lookup |
| SanitizeMeaning.OutputLevelSorted | rocksdb-5.11.3-kvimr/db/compaction_picker.cc:721-849 | the output level is still in key order afterwards |
| LevelFiles.FindOverlap | rocksdb-5.11.3-kvimr/db/version_set.cc:1891-1931 | the binary search finds a file that meets the interval if there is one |
| LevelFiles.ExtendRange | rocksdb-5.11.3-kvimr/db/version_set.cc:1958-2013 | from one such file to all of them |
| LevelFiles.GetOverlapping | rocksdb-5.11.3-kvimr/db/version_set.cc:1789-1814 | exactly the files of a level above 0 that meet the interval, with any correct hint |
| LevelFiles.GetOverlappingZero | rocksdb-5.11.3-kvimr/db/version_set.cc:1816-1844 | with restarts on level 0: every file meeting the final interval, none reaching beyond it, and the interval is the least such |
| LevelFiles.GetCleanWithin | rocksdb-5.11.3-kvimr/db/version_set.cc:1852-1882 | the largest range inside the interval that shares no key with its neighbours |
| LevelFiles.ExpandToCleanCut | rocksdb-5.11.3-kvimr/db/compaction_picker.cc:202-240 | the least range around the input that shares no key with its neighbours |
| LevelInputs.AreFilesInCompaction | rocksdb-5.11.3-kvimr/db/compaction_picker.cc:279-287 | whether a file of the range is being compacted |
| LevelInputs.SetupOther | rocksdb-5.11.3-kvimr/db/compaction_picker.cc:381-488 | fails exactly if a file of the least clean range of the output level that meets the keys is busy; otherwise the output files are that range, and the start range grows exactly if one of the two ways is affordable, the first one first |
| LevelInputs.ExpandByOverlap | rocksdb-5.11.3-kvimr/db/compaction_picker.cc:425-462 | grows exactly if the clean range around all start files that meet the keys of both levels is larger, idle and within the size limit and needs the same output files |
| LevelInputs.ExpandWithin | rocksdb-5.11.3-kvimr/db/compaction_picker.cc:463-474 | grows exactly if the largest clean range within the keys of both levels is larger, idle and within the size limit |
| LevelInputs.OutputInputs | rocksdb-5.11.3-kvimr/db/compaction_picker.cc:404-419 | succeeds exactly if all files of the least clean range that meets the keys are idle |
| LevelInputs.HullCovered | rocksdb-5.11.3-kvimr/db/compaction_picker.cc:381-488 | what meets the keys of both input levels is already among the output inputs |
| LevelCompactions.RangesStanding | rocksdb-5.11.3-kvimr/db/compaction_picker.cc:578-692 | two such ranges make a compaction that leaves its output keys free and tears no key apart |
| LevelCompactions.ZeroStanding | rocksdb-5.11.3-kvimr/db/compaction_picker.cc:1164-1227 | the same from level 0, with every file of level 0 that shares a key, over empty levels only; or within level 0, of neighbours |
| LevelCompactions.SetupZero | rocksdb-5.11.3-kvimr/db/compaction_picker.cc:381-488 | the same choice for files of level 0: fails exactly if a needed output file is busy, and grows exactly if all files of level 0 that meet the keys of both levels, and those they meet, are more, fit the limit and need the same output files |
| LevelCompactions.SizeOfRange | rocksdb-5.11.3-kvimr/db/compaction_picker.cc:427-441 | the size that is compared with the limit is the total size of the files |
| LevelCompactions.RangesHull | rocksdb-5.11.3-kvimr/db/compaction.cc:43-82 | a compaction has the keys from the smallest to the largest of its inputs, no more |
| LevelCompactions.SameTaken | rocksdb-5.11.3-kvimr/db/compaction_picker.cc:381-488 | for chosen files there is one compaction to make |
| LevelCompactions.ChecksSuffice | rocksdb-5.11.3-kvimr/db/compaction_picker.cc:242-277 | the overlap, level 0 and busy checks make a new compaction compatible with all running ones |
| LevelPicker.NewestOrder | rocksdb-5.11.3-kvimr/db/compaction_picker.cc:40-71 | no file that goes down is newer than the idle files at the front of level 0 |
| LevelPicker.OneOrder | rocksdb-5.11.3-kvimr/db/compaction_picker.cc:1137-1157 | a newer file that goes down shares no key with an idle file of level 0, so this one can be rewritten in place |
| LevelState.FinishOk | rocksdb-5.11.3-kvimr/db/compaction_picker.cc:917-940 | the completion of one compaction keeps the levels in order, numbers unique and every other running compaction standing, in its place in level 0 too |
| LevelMeaning.StandingSinks | rocksdb-5.11.3-kvimr/db/compaction_picker.cc:381-488 | a running compaction has, from its inputs down to its output level, every file with a key of theirs, whatever was flushed, started and finished since it was picked |
| LevelMeaning.GapUsual | rocksdb-5.11.3-kvimr/db/compaction_picker.cc:1164-1190 | from level 0, and from a level to the next, nothing lies between |
| LevelMeaning.DownKeepsLookups | rocksdb-5.11.3-kvimr/db/compaction_picker.cc:202-240 | so its completion changes no newest-first lookup |
| LevelMeaning.WithinKeepsLookups | rocksdb-5.11.3-kvimr/db/compaction_picker.cc:1409-1423 | nor does that of a compaction within level 0, whose output takes the place of its inputs |
| LevelMeaning.FinishKeepsLookups | rocksdb-5.11.3-kvimr/db/compaction_picker.cc:202-240 | both, for every running compaction of every run |
| LevelRecords.ReadIsRead | rocksdb-5.11.3-kvimr/db/version_set.cc:950-1030 | a read at a snapshot that looks file by file and level by level finds what a read over all records in that order finds |
| LevelRecords.HistoryOf | rocksdb-5.11.3-kvimr/db/version_set.cc:950-1030 | if files with newer versions come first, the versions of a key descend through all files |
| LevelRecords.MergeVersions | rocksdb-5.11.3-kvimr/db/compaction_job.cc:756-813 | the merge of such files holds the versions of each key in the same order |
| LevelFlat.FinishedFiles | rocksdb-5.11.3-kvimr/db/compaction_picker.cc:202-240 | in the order of reads a completion puts the outputs in one place among the files that stay above, with no key of theirs between that place and what is below |
| LevelJobs.JobPlaced | rocksdb-5.11.3-kvimr/db/compaction.cc:270-300 | the input of a running compaction, merged from its files, over the versions below it meets what the iterator relies on |
| LevelJobs.KeptForReader | rocksdb-5.11.3-kvimr/db/compaction_iterator.cc:238-657 | what the iterator keeps for the snapshots it knows it keeps for later ones |
| LevelOrder.StaysNewer | rocksdb-5.11.3-kvimr/db/compaction_picker.cc:381-488 | what stays above a compaction and has a key of its inputs is newer than they are |
| LevelOrder.FinishStored | rocksdb-5.11.3-kvimr/db/compaction_picker.cc:202-240 | a completion keeps newer records in front of older ones, also where sequence numbers were set to 0 |
| LevelPlans.StartKnows | rocksdb-5.11.3-kvimr/db/compaction.cc:86-106 | when a compaction is picked, neither its bottommost flag nor its search of deeper files calls a key absent that is below its inputs |
| LevelPlans.FinishKnows | rocksdb-5.11.3-kvimr/db/compaction.cc:270-300 | although it goes on asking the version it was picked from, this stays so when another compaction completes |
| LevelPlans.FlushKnows | rocksdb-5.11.3-kvimr/db/compaction.cc:270-300 | and when a memtable is flushed |
| LevelReads.FinishVersions | rocksdb-5.11.3-kvimr/db/compaction_job.cc:756-813 | over all levels a completion puts the output versions of each key in the place of its input versions |
| LevelReads.FinishKeepsReads | rocksdb-5.11.3-kvimr/db/compaction_job.cc:756-813 | a level-style compaction that runs the iterator over its picked files changes no read over all levels at any snapshot, known to it or taken later, or at the tip, if its input is safe for the key by the guards |
| Database.ViewIsRead | rocksdb-5.11.3-kvimr/db/db_impl.cc:1008-1043 | a read through memtables and levels finds what a read over all records in that order finds |
| DatabaseSteps.FlushRewrites | rocksdb-5.11.3-kvimr/db/flush_job.cc:244-330 | a flush puts the output versions of each key in the place of those in the flushed memtables, over the stored ones |
| DatabaseSteps.FlushStep | rocksdb-5.11.3-kvimr/db/builder.cc:141-153 | a flush keeps the state invariant: order of levels and versions, running compactions and their knowledge of deeper levels and snapshots |
| DatabaseSteps.WriteVersions | rocksdb-5.11.3-kvimr/db/db_impl.cc:1012-1031 | a write is the newest version of its key for reads, and changes no other key |
| DatabaseCompactions.StartStep | rocksdb-5.11.3-kvimr/db/db_impl_compaction_flush.cc:1691-1715 | a picked compaction keeps the state invariant |
| DatabaseCompactions.FinishRewrites | rocksdb-5.11.3-kvimr/db/compaction_job.cc:756-813 | a completion puts the output versions of each key in the place of its input versions, for an iterator that knows every live snapshot older than an input |
| DatabaseCompactions.FinishStep | rocksdb-5.11.3-kvimr/db/db_impl_compaction_flush.cc:1717-1725 | a completion keeps the state invariant |
| DatabaseCompactions.StepOk | rocksdb-5.11.3-kvimr/db/db_impl_compaction_flush.cc:1691-1725 | so does every step |
| DatabaseReads.SnapshotsReadWhatWasWritten | rocksdb-5.11.3-kvimr/db/db_impl.cc:1008-1043 | in every state of every run of writes, memtable switches, flushes, picks, completions, new and released snapshots: a read of a key at a live snapshot or at the tip, through memtables and levels, finds the newest write of the key that is not after it, if the writes of the key have no single delete or take turns with single deletes |
| DatabaseReads.SnapshotIsThePast | rocksdb-5.11.3-kvimr/db/db_impl.cc:1643-1658 | whatever happens after a snapshot was taken, until it is released a read through it, of a key that uses single deletes as documented, finds what a read at the tip found then, which is the newest write before it |
| DatabaseReads.LogIsWrites | rocksdb-5.11.3-kvimr/db/db_impl.cc:1008-1043 | what reads are compared with is what was written, in order |
| DatabaseReads.HarmlessRunsReadWhatWasWritten | rocksdb-5.11.3-kvimr/db/db_impl.cc:1008-1043 | for any other use of single deletes the same as long as each flush and completion is safe for the key by the guards |
| DatabaseReads.RewriteExactly | rocksdb-5.11.3-kvimr/db/compaction_iterator.cc:238-657 | this condition is exact: when a flush or completion rewrites the newest versions of a key while its snapshots live, reads find what was written if and only if it is met |
| DatabaseRuns.MisusedRun | rocksdb-5.11.3-kvimr/db/compaction_iterator.cc:413-454 | a concrete run of two puts and one single delete after which a read at the tip finds the overwritten value |
| LevelPicker.FindIntraZero | rocksdb-5.11.3-kvimr/db/compaction_picker.cc:40-71 | the span of newest idle files of level 0 for which the work per saved file does not grow, and that the next file ends |
| LevelPicker.LevelCompactionPicker.Register | rocksdb-5.11.3-kvimr/db/compaction_picker.cc:917-929 | a compaction that can run is registered and the invariant kept |
| LevelPicker.LevelCompactionPicker.Finish | rocksdb-5.11.3-kvimr/db/compaction_picker.cc:931-940 | its output replaces its inputs, all others still stand, and no lookup changes |
| LevelPicker.LevelCompactionPicker.PickFile | rocksdb-5.11.3-kvimr/db/compaction_picker.cc:1335-1407 | a picked or marked file goes one level down in the one compaction that its least clean range, the needed output files and the growth rules make; none exactly if a file of these is busy or another compaction writes to its keys |
| LevelPicker.LevelCompactionPicker.PickFileZero | rocksdb-5.11.3-kvimr/db/compaction_picker.cc:1164-1190 | the same for a file of level 0 with all files that it meets, and those they meet, to the base level; none beside another compaction from level 0 |
| LevelPicker.LevelCompactionPicker.PickIntraZero | rocksdb-5.11.3-kvimr/db/compaction_picker.cc:1409-1423 | a compaction within level 0 of exactly that span, if level 0 has two files more than the trigger and the span at least four; otherwise none |
| LevelPicker.LevelCompactionPicker.PickBottommost | rocksdb-5.11.3-kvimr/db/compaction_picker.cc:1137-1157 | a marked bottommost file is rewritten in its level, above level 0 with its least clean range; none exactly if one of these is busy or another compaction writes to their keys |
| LevelPicker.LevelCompactionPicker.RewriteZero | rocksdb-5.11.3-kvimr/db/compaction_picker.cc:1137-1157 | an idle file of level 0 is always rewritten, alone, also while others run |
| LevelPicker.LevelCompactionPicker.CompactRange | rocksdb-5.11.3-kvimr/db/compaction_picker.cc:578-692 | takes the files of the level that meet the range, from the first one on, up to the one whose size reaches the limit, in the one compaction that their least clean range, the needed output files and the growth rules make; none exactly if no file meets the range, one of these is busy or another compaction writes to their keys; says where the next call has to begin |
| LevelPicker.LevelCompactionPicker.CompactRangeZero | rocksdb-5.11.3-kvimr/db/compaction_picker.cc:578-692 | the same from level 0 with all files that meet the range, and those they meet; none while another compaction from level 0 runs |
| LevelPicker.ManualInputs | rocksdb-5.11.3-kvimr/db/compaction_picker.cc:589-624 | a manual compaction has the first file that meets its range among its inputs, and every one that meets it as long as those before do not reach the size limit |
| LevelPicker.ZeroManualInputs | rocksdb-5.11.3-kvimr/db/compaction_picker.cc:589-606 | from level 0, every file that meets the range |
| UniversalFiles.CalculateSortedRuns | rocksdb-5.11.3-kvimr/db/compaction_picker_universal.cc:205-249 | from the files: one run for each file of level 0, then one for each deeper level with data, in order, with total sizes, range of flushes and busy state |
| UniversalFiles.RunsUnique | rocksdb-5.11.3-kvimr/db/compaction_picker_universal.cc:205-249 | the files determine the runs |
| UniversalRuns.PickToReduceSizeAmp | rocksdb-5.11.3-kvimr/db/compaction_picker_universal.cc:625-752 | the first idle run on if all up to the last are idle and amplify too much; none exactly if there is no such run |
| UniversalRuns.CountCandidates | rocksdb-5.11.3-kvimr/db/compaction_picker_universal.cc:482-517 | the candidate loop ends with the one width of the block at an idle run: each further run is idle and, with the total size rule, not larger than all before it together, with the similar size rule neither larger nor smaller than the one before it, up to the ratio; the next one is missing, busy, too many or breaks this |
| UniversalRuns.WidthUnique | rocksdb-5.11.3-kvimr/db/compaction_picker_universal.cc:482-517 | there is only one such width |
| UniversalRuns.PickToReduceSortedRuns | rocksdb-5.11.3-kvimr/db/compaction_picker_universal.cc:425-538 | the first block that is wide enough; none exactly if there is no such block |
| UniversalRuns.LastNotAlone | rocksdb-5.11.3-kvimr/db/compaction_picker_universal.cc:625-700 | the last run is busy only together with the one before it |
| UniversalRuns.SizeAmpIsIdle | rocksdb-5.11.3-kvimr/db/compaction_picker_universal.cc:625-700 | so the size amplification pick takes no busy run although it never tests the last one |
| UniversalRuns.FinishOrdered | rocksdb-5.11.3-kvimr/db/compaction_picker_universal.cc:566-574 | the merged run keeps the runs in time and level order |
| UniversalRuns.OutputIsDeepest | rocksdb-5.11.3-kvimr/db/compaction_picker_universal.cc:566-574 | a block goes to the deepest level that leaves room for the next run |
| UniversalRuns.ChooseBlock | rocksdb-5.11.3-kvimr/db/compaction_picker_universal.cc:251-325 | the choice among the three reasons is exactly as specified, and is a block of at least two idle runs |
| UniversalFiles.UniversalPicker.Pick | rocksdb-5.11.3-kvimr/db/compaction_picker_universal.cc:251-385 | the chosen block is taken whole: every file of its runs and only files that nobody was compacting; its output level is between its neighbours, and running compactions stay disjoint contiguous blocks |
| UniversalFiles.UniversalPicker.Mark | rocksdb-5.11.3-kvimr/db/compaction_picker_universal.cc:587-602 | run by run, the files of the block get their owner and the runs follow |
| UniversalFiles.MarkLevel | rocksdb-5.11.3-kvimr/db/compaction_picker_universal.cc:587-602 | marking all files of a deeper level marks exactly its run |
| UniversalFiles.UniversalPicker.Finish | rocksdb-5.11.3-kvimr/db/compaction_picker_universal.cc:566-574 | all files of the compaction go and the outputs take their place: the block becomes one run at its output level or disappears; all other compactions keep block and place |
| UniversalFiles.FinishFiles | rocksdb-5.11.3-kvimr/db/compaction_picker_universal.cc:566-574 | the files left over and the outputs form exactly the runs of the block replaced by the output run, and no file of the compaction is left |
| UniversalFiles.UniversalPicker.constructor | rocksdb-5.11.3-kvimr/db/compaction_picker_universal.cc:205-249 | no files and no runs |
| UniversalFiles.UniversalPicker.Flush | rocksdb-5.11.3-kvimr/db/compaction_picker_universal.cc:205-225 | a flush adds a file and a run in front and disturbs no compaction |
| KvimrAllocator.TrackAllocator.constructor | rocksdb-5.11.3-kvimr/db/kvimr_track_allocator.cc:15-18 | all tracks free |
| KvimrAllocator.TrackAllocator.Reset | rocksdb-5.11.3-kvimr/db/kvimr_track_allocator.cc:20-26 | all tracks free |
| KvimrAllocator.TrackAllocator.ReserveNext | rocksdb-5.11.3-kvimr/db/kvimr_track_allocator.cc:55-71 | the first free track at or after the cursor, around the end; fails exactly if the tier is full |
| KvimrAllocator.TrackAllocator.Allocate | rocksdb-5.11.3-kvimr/db/kvimr_track_allocator.cc:84-123 | succeeds exactly if the request fits the tiers allowed, takes only free tracks with enough room and none that could be spared, at the largest level BOTTOM tracks first and TOP tracks only once BOTTOM is full; otherwise changes no owner |
| KvimrTracks.TracksTile | rocksdb-5.11.3-kvimr/db/kvimr_track_allocator.cc:39-53 | every byte of the configured zones lies in the track of its group that its place in the group tells |
| KvimrAllocator.TrackAllocator.Restore | rocksdb-5.11.3-kvimr/db/kvimr_track_allocator.cc:137-174 | decided by the first stored track that cannot be taken: none, and exactly the stored tracks are taken; an owned one, and nothing changes; a malformed one, and exactly the tracks before it stay taken |
| KvimrAllocator.FirstBad | rocksdb-5.11.3-kvimr/db/kvimr_track_allocator.cc:137-174 | the first stored track that is malformed, repeated or owned, given that those before it are taken |
| KvimrAllocator.RestoreLeaks | rocksdb-5.11.3-kvimr/db/kvimr_track_allocator.cc:137-174 | a concrete call that fails and keeps a track |
| KvimrAllocator.TrackAllocator.Release | rocksdb-5.11.3-kvimr/db/kvimr_track_allocator.cc:125-135 | frees every track of the number and no other, and reports whether there was one |
| KvimrAllocator.TrackAllocator.Undo | rocksdb-5.11.3-kvimr/db/kvimr_track_allocator.cc:73-82 | gives back what was taken, exactly |
| KvimrAllocator.ReleaseUndoesAllocate | rocksdb-5.11.3-kvimr/db/kvimr_track_allocator.cc:125-135 | releasing what was allocated to a new number restores the tables |
| KvimrPayload.TopStep | rocksdb-5.11.3-kvimr/db/kvimr.cc:307-336 | one read-modify-write brings a TOP track from the bytes before an update to those after it |
| KvimrPayload.BottomStep | rocksdb-5.11.3-kvimr/db/kvimr.cc:337-351 | one write of whole sectors does the same for a BOTTOM track, zero padded |
| KvimrRmw.NaiveRmw | rocksdb-5.11.3-kvimr/db/kvimr.cc:308-317 | only this track changes, in exactly the given bytes, and the counters count it |
| KvimrRmw.MergedRmw | rocksdb-5.11.3-kvimr/db/kvimr.cc:318-336 | the buffer, filled from the device once, takes the bytes; the counters tell hits from creations |
| KvimrRmw.DirectWrite | rocksdb-5.11.3-kvimr/db/kvimr.cc:337-351 | whole sectors of the file reach the track and nothing else |
| KvimrApply.ApplyUpdate | rocksdb-5.11.3-kvimr/db/kvimr.cc:294-355 | one update reaches exactly the tracks it overlaps, also with the early exit of the loop |
| KvimrPersist.FlushMergedBuffers | rocksdb-5.11.3-kvimr/db/kvimr.cc:361-374 | after the flush the device holds what the buffers held |
| KvimrPersist.ApplyPendingUpdates | rocksdb-5.11.3-kvimr/db/kvimr.cc:287-359 | fails exactly if the payload exceeds the tracks; otherwise the device is as specified, in both modes, and every counter is the closed formula |
| KvimrPersist.WrittenOnce | rocksdb-5.11.3-kvimr/db/kvimr.cc:287-359 | the device afterwards depends neither on the mode nor on how the bytes were split into updates: naive and merged agree |
| KvimrPersist.WrittenHolds | rocksdb-5.11.3-kvimr/db/kvimr.cc:287-359 | if the earlier bytes were in the tracks, the whole payload is afterwards |
| KvimrPersist.DistinctAreTouched | rocksdb-5.11.3-kvimr/db/kvimr.cc:318-336 | merging writes no more TOP tracks than the naive mode |
| KvimrPersist.RestorePayload | rocksdb-5.11.3-kvimr/db/kvimr.cc:376-395 | reads back a payload the tracks hold; fails exactly if they are too short |
| KvimrPersist.PayloadUnique | rocksdb-5.11.3-kvimr/db/kvimr.cc:376-395 | the tracks determine the payload, so what is read is what was written |
| KvimrFiles.AllocateOwners | rocksdb-5.11.3-kvimr/db/kvimr.cc:276-285 | tracks allocated to one SSTable keep the owner tables, the track map and the SSTables in agreement |
| KvimrFiles.ReleaseOwners | rocksdb-5.11.3-kvimr/db/kvimr.cc:180-197 | releasing a number frees the tracks of one SSTable and of no other |
| KvimrFiles.WriteKeepsOthers | rocksdb-5.11.3-kvimr/db/kvimr.cc:287-359 | writing one SSTable leaves the payload of all others in place |
| KvimrFileSteps.RegisterOwners | rocksdb-5.11.3-kvimr/db/kvimr.cc:77-85 | the agreement survives a registration exactly if the new number clashes with no other SSTable and no tracks change number |
| KvimrFileSteps.EraseMap | rocksdb-5.11.3-kvimr/db/kvimr.cc:180-197 | erasing a number from the track map is harmless exactly if no SSTable with tracks has it |
| KvimrStore.Store.constructor | rocksdb-5.11.3-kvimr/db/kvimr.cc:70 | an empty store |
| KvimrStore.Store.RegisterSSTable | rocksdb-5.11.3-kvimr/db/kvimr.cc:77-85 | sets number and levels; the store stays valid if and only if the registration is one the owner tables allow |
| KvimrStore.Store.BeginWrite | rocksdb-5.11.3-kvimr/db/kvimr.cc:87-101 | the SSTable starts over and its tracks become free; an unknown one changes nothing |
| KvimrStore.Store.Write | rocksdb-5.11.3-kvimr/db/kvimr.cc:103-116 | appends; the bytes wait for the next sync |
| KvimrStore.Store.Read | rocksdb-5.11.3-kvimr/db/kvimr.cc:118-137 | the bytes from the offset on, as many as there are; an unknown name is not found |
| KvimrStore.Store.Place | rocksdb-5.11.3-kvimr/db/kvimr.cc:154-160 | tracks for an unplaced SSTable; each failure has its exact condition and changes nothing |
| KvimrStore.Store.Apply | rocksdb-5.11.3-kvimr/db/kvimr.cc:287-359 | the device holds the SSTable afterwards, and still all others |
| KvimrStore.Store.PersistSnapshot | rocksdb-5.11.3-kvimr/db/kvimr.cc:397-445 | the bytes of the metadata file are those of exactly the SSTables of the store, in ascending order of their names |
| KvimrStore.Store.Sync | rocksdb-5.11.3-kvimr/db/kvimr.cc:139-178 | fails exactly if the SSTable is unknown or cannot be stored, and then nothing changes; otherwise its bytes are on its tracks and the metadata file lists it; what the disk described before stays described |
| KvimrStore.Store.Unlink | rocksdb-5.11.3-kvimr/db/kvimr.cc:180-197 | success has an exact condition; then the SSTable is gone and the metadata file says so, otherwise neither table nor disk changes; the store stays valid if and only if the name was known or its number has no tracks |
| KvimrStore.NumberOfName | rocksdb-5.11.3-kvimr/db/kvimr.cc:28-43 | a number is found again, modulo two to the 64, in a file name made from its digits, in any directory |
| KvimrStore.Store.Initialize | rocksdb-5.11.3-kvimr/db/kvimr.cc:259-274 | from the bytes of the metadata file: refused for another geometry; over those of a consistent store it succeeds if and only if every listed SSTable fits its tracks, then the store is valid if and only if of the SSTables that come back under one name only the last has tracks, and all are back under their own names, with their persisted bytes, if and only if every name is in the database directory |
| KvimrStore.Store.Load | rocksdb-5.11.3-kvimr/db/kvimr.cc:447-479 | the same for the loop that parses and restores entry by entry; it succeeds only on entries that all parse |
| KvimrStore.Store.LoadNext | rocksdb-5.11.3-kvimr/db/kvimr.cc:459-477 | one turn: corruption exactly if the entry does not parse, then the entry is restored |
| KvimrStore.Store.LoadEntry | rocksdb-5.11.3-kvimr/db/kvimr.cc:459-477 | an entry of a consistent store is restored if and only if it fits its tracks, under the name built from its stored path |
| KvimrStore.Store.ClaimTracks | rocksdb-5.11.3-kvimr/db/kvimr.cc:471-474 | takes exactly the stored tracks if they are free |
| KvimrRecovery.NamesComeBack | rocksdb-5.11.3-kvimr/db/kvimr.cc:411-416 | the names that come back are those saved if and only if every name is in the database directory |
| KvimrRecovery.ComeBack | rocksdb-5.11.3-kvimr/db/kvimr.cc:447-479 | the last of the SSTables with one restored name wins: the recovered table is as good as the saved one if and only if none of the others has tracks |
| KvimrRecovery.PlacedStays | rocksdb-5.11.3-kvimr/db/kvimr.cc:447-479 | where one SSTable takes the name of another with tracks, these tracks are lost |
| KvimrRecovery.RenamedOwners | rocksdb-5.11.3-kvimr/db/kvimr.cc:447-479 | otherwise owner tables, track map and SSTables agree under the new names |
| KvimrRuns.SyncThenReopenFails | rocksdb-5.11.3-kvimr/db/kvimr.cc:397-479 | a concrete run: a synced SSTable cannot be recovered while another one is listed with bytes but no tracks |
| KvimrRuns.NameIsLost | rocksdb-5.11.3-kvimr/db/kvimr.cc:411-416 | a concrete run: an SSTable outside the database directory is synced, the store opens again, and its name is unknown |
| KvimrRuns.NamesCollide | rocksdb-5.11.3-kvimr/db/kvimr.cc:411-479 | a concrete run: two SSTables, one with tracks, come back under one name; the store opens again and its tables disagree |
| KvimrRuns.SameNumber | rocksdb-5.11.3-kvimr/db/kvimr.cc:77-85 | a concrete run in which registering a used number breaks the store |
| KvimrRuns.WrongUnlink | rocksdb-5.11.3-kvimr/db/kvimr.cc:180-197 | a concrete run in which unlinking an unknown name breaks the store |
| KvimrMetadata.TrackRoundTrip | rocksdb-5.11.3-kvimr/db/kvimr.cc:418-422 | a track written in the metadata is read back, with the rest untouched |
| KvimrMetadata.RecordRoundTrip | rocksdb-5.11.3-kvimr/db/kvimr.cc:405-423 | an entry is read back |
| KvimrMetadata.MetadataRoundTrip | rocksdb-5.11.3-kvimr/db/kvimr.cc:397-479 | the whole file is read back; another number of zones is refused |
| KvimrMetadata.TruncationDetected | rocksdb-5.11.3-kvimr/db/kvimr.cc:447-479 | every proper prefix of the file is recognized as corrupt |
| KvimrMetadata.PathRoundTrip | rocksdb-5.11.3-kvimr/db/kvimr.cc:411-416 | a name survives being stored relative to the database directory if and only if it is in it, after a single slash |
| KvimrMetadata.HomeSettles | rocksdb-5.11.3-kvimr/db/kvimr.cc:411-416 | names settle after two trips through the metadata |
| KvimrMetadata.HeaderRoundTrip | rocksdb-5.11.3-kvimr/db/kvimr.cc:397-404 | the header is read back, and another number of zones is seen there |
| KvimrMetadata.FileLayout | rocksdb-5.11.3-kvimr/db/kvimr.cc:397-404 | which bytes of the file are magic, version, geometry, number of entries and entries |
| KvimrMetadata.RecordLayout | rocksdb-5.11.3-kvimr/db/kvimr.cc:405-417 | which bytes of an entry are number, level, largest level, size, synced flag, path and tracks |
| KvimrMetadata.TrackLayout | rocksdb-5.11.3-kvimr/db/kvimr.cc:418-422 | which bytes of a track are zone, group, tier, first sector and length |
| KvimrMetadata.TracksLayout | rocksdb-5.11.3-kvimr/db/kvimr.cc:418-422 | tracks take 21 bytes each, one after the other |
| KvimrMetadata.LowestFirst | rocksdb-5.11.3-kvimr/db/kvimr.cc:45-50 | the bytes of a number go from the lowest to the highest |

## Left out

Compaction iterator and job:

- merge operands, compaction filters, range deletions, snapshot checkers, compaction listeners, corrupt keys and shutdown are absent
- user keys are integers, values are strings; the comparator is the order of integers
- SubcompactionBoundaries.GenSubcompactionBoundaries: takes the approximate sizes as a function; the mean and the fill percentage are reals instead of doubles
- cutting the output into files, dictionaries, statistics and threads of a job: the parts run one after the other

Database:

- recovery from the log, several column families, write batches, ingested files (which can have sequence 0), trivial moves and compactions that delete whole files
- a flush is one step from reading its memtables to installing its file, and flushes the oldest memtables; a write is one step
- compactions that skip levels from a level above 0; the files of a completed compaction stay readable for iterators, which SuperVersions keep alive
- DatabaseReads.SnapshotsReadWhatWasWritten: level style only; file contents by number are one map for the whole run, as numbers are not reused

SuperVersions and CLOCK cache:

- steps are sequentially consistent; memory orders, 32-bit overflow of counts and reuse of a freed address are not modelled
- the first install of a column family is done in the initial state
- what a SuperVersion contains (memtables, version) and background work after cleanup
- `pinned_usage_` of the CLOCK cache, whose updates read the charge after the decrement, and `Release` with `force_erase`
- which handles the clock hand visits: any handle may be tried for eviction, or lose its usage bit, at any time, so every eviction order is covered; `EvictFromCache`'s result is not modelled
- freeing keys and values in `Cleanup`; capacity limits of the CLOCK cache

LRU cache:

- handles are numbers that are never reused, links and chains are maps from them; keys carry their hash
- the hash is reduced modulo the number of buckets, a power of two, instead of masked
- a value is freed where its last reference goes, though the source calls deleters after the mutex is released
- LruShard.Shard.SetHighPriorityPoolRatio: the pool capacity is a real instead of a double, and its argument is not negative
- sharding, `ApplyToAllCacheEntries`, printable options

Pickers:

- file names and their parsing: files are numbers
- scores, compaction priorities and round robin positions: the level-style methods take any candidate the source could try
- LevelPicker.LevelCompactionPicker.Finish: for a manual compaction that skips levels from a level above 0, which level-style callers do not ask for, lookups are kept only if the levels between hold none of its keys
- LevelState.Finished: sorting of level 0 by sequence number is not modelled; outputs of a compaction within level 0 take the place of its inputs, whose sequence numbers they have
- sizes do not overflow
- universal style: trivial moves, ingest behind, manual and delete-triggered compactions; the size ratio is computed in reals instead of doubles
- UniversalFiles.CalculateSortedRuns: files have a positive compensated size, as the source computes it, and a deeper level is busy as a whole or not at all, as every pick leaves it
- UniversalFiles.UniversalPicker.Finish: at most one output file at level 0
- FIFO style, path, compression and grandparent choices

KVIMR:

- errors of the device and of files, partial writes and crashes in the middle of a call: calls succeed or fail as a whole
- one call at a time, as under the source's mutex
- `ConfigureTrackAllocator`, listing of SSTables, and the device back end; the device is at least as large as the configured zones
- the kernel module and its mapping of zones
- KvimrMetadata.MetadataRoundTrip: for metadata whose numbers fit their fields, which the source does not check
- KvimrMetadata.TruncationDetected: about the format; the loader applies entries while it parses, so a truncated file can leave earlier entries loaded or fail first with another status
- KvimrStore.Store.Initialize: what it restores is stated for metadata that fit their fields and describe a consistent store, as syncs write them
