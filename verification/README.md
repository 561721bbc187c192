# LevelDB and nanopb: a model and its proofs

The app vendors two libraries, and this project models both.

**LevelDB 1.20** is a log-structured store. A write gets a sequence number, goes to a log and to a
skip-list memtable; full memtables become tables on level 0; compactions merge tables into deeper
levels and drop what no reader can see. The model has two layers. The upper one speaks of entries
(user key, sequence number, put or deletion, value): `Entries.Read` says what a reader of a set of
entries sees at a snapshot, and `Visible` is the whole map. The lower one speaks of bytes: blocks,
filters, tables, log records, manifest records and write batches, each decoded by the steps of the code.
`InternalKeys.EntryOf` leads from the bytes of a key and a value to the entry they say. At the upper
layer a user key is its rank, a real number; `Keys.RankEmbedsOrder` shows that comparing ranks is
comparing byte strings.

**nanopb** encodes and decodes Protocol Buffers messages by descriptors. `PbFormat` says what the bytes
of a message are and what decoding bytes means; the encoder and decoder are streams that are proved to
do that, and the round trip is proved over all descriptors and messages.

Concurrency is modelled by state machines over atomic steps: the store as a whole (`db_runs.dfy`),
the writer queue (`group_commit.dfy`) and the skip list (`skiplist.dfy`). Classes that the libraries
update in place are classes here, with the same fields and loops.

Some predicates have the form `forall x :: Asked(fold, x) ==> P` where `Asked` is always true. They
mean `P`; the guard only keeps the definition folded until a proof asks for folds of that kind.

`dafny verify dfyconfig.toml` checks the whole project. Where to find what:

| files | subject |
|---|---|
| keys, entries, cursors, histories, files | keys as ranks, entries and reads, the cursor contract, operation histories |
| overlaps, picks, gaps, compaction_choice, compaction, base_level, sorted_runs, installs, late_installs, background | choosing, merging, dropping and installing in a compaction |
| layers, compaction_searches, installed_searches | what point reads find level by level after a compaction |
| straddling, gap_example | inputs on which a compaction goes wrong |
| versions, db_get, db_iter, merger, internal_iter, db_cursor | reading: levels, one key, cursors |
| version_builder, version_edit, manifest | versions and the manifest |
| db_runs, db_reach, group_commit, skiplist, snapshots | concurrent runs |
| coding, varint, slices, block_*, table_*, two_level, table, build_table, bloom, filter_block, separators, internal_key | tables as bytes |
| log_*, write_batch, recovery, bits, crc32c, checksums | the log, batches, recovery, numbers as bits, checksums |
| handle_table, lru_cache | the cache |
| pb_* | nanopb |
| known_bytes | the formats byte by byte |

## Findings

Four properties one might expect do not hold. For each there is an input, and a theorem that says
exactly when the property does hold.

- **A compaction can take a user key apart.** No step adds the files at the boundary of a pick, so of
  a user key whose entries straddle two files of a level one part can be picked and the other left.
  On the same files, `StraddlingPicks.CompactStraddling` runs the code's own steps and shows two
  effects. If the picked entry is a deletion that gets dropped, the older value left beside it shows
  again for every reader. If it is a value, it moves below the older one, and a point read, which
  stops at the first level that knows the key, returns the older one, while a cursor still finds the
  newer. Reading everything at once is kept exactly when no dropped marker has an older value of its
  key beside the inputs (`InstallMeaning`). Point reads are kept exactly when, besides, no entry that
  moves leaves an older one above it that answers differently (`InstallKeepsSearches`, and
  `MoveKeepsPointReads` for a file that only moves). Levels stay ordered exactly when nothing left on
  the upper level is older than an output of its key (`InstallOrder`), as it always is on level 0.
- **A table that comes in the middle of a requested compaction can get lost.** The full memtable is
  flushed while a compaction works, and its table may go to the level of the outputs when it overlaps
  no file there. If the inputs leave a gap, the output is laid around it: `GapExamples` has the input,
  and a search of that level then misses the table. The level stays sorted exactly when the outputs
  overlap no table that came meanwhile (`LateOrder`). Compactions that the store picks by itself leave
  no gap (`PickCompaction`), so they are safe (`GaplessFits`, `GaplessCompactionFits`).
- **nanopb refuses what it encoded when a string fills its buffer without a terminator.** The encoder
  takes such a string, the decoder needs room for the terminator: `UnterminatedStringIsRefused`.
  Decoding succeeds exactly when all strings are terminated: `PbRoundTrips.RoundTrip`.
- **`VersionEdit::Clear` keeps the compaction pointers**, so an edit that has some does not read back a
  record as it was written (`ReusedEditKeepsPointer`); an edit without any does:
  `VersionEdits.RoundTrip`, an if and only if.

## Model

| member | source | states |
|---|---|---|
| Keys.RankEmbedsOrder | Prosjekt-kopi/Pods/leveldb-library/util/comparator.cc:25-27 | ranks compare exactly as the bytewise comparator orders byte strings, and only equal strings share a rank |
| InternalKeys.RankIsBefore | Prosjekt-kopi/Pods/leveldb-library/db/dbformat.cc:50-66 | comparing the encoded internal keys (user key up, packed sequence and kind down) is comparing the entries they say |
| InternalKeys.LookupKeySeeks | Prosjekt-kopi/Pods/leveldb-library/db/dbformat.cc:121-138 | the key built for a lookup is the place to seek for the newest entry of the user key at the snapshot |
| Compactions.Compaction.IsBaseLevelForKey | Prosjekt-kopi/Pods/leveldb-library/db/version_set.cc:1484-1503 | for keys asked in ascending order the pointers that only advance answer the stateless question: every file two or more levels down ends below the key or begins above it |
| Compactions.DoCompactionWork | Prosjekt-kopi/Pods/leveldb-library/db/db_impl.cc:887-1015 | run over the merged inputs, the outputs hold exactly the entries that neither rule (A) nor the base-level rule for deletions drops, in order, wherever one output is closed and the next begun |
| Compactions.CompactionPreservesMeaning | Prosjekt-kopi/Pods/leveldb-library/db/db_impl.cc:940-972 | every read at every snapshot from the smallest one on is the same before and after, if and only if no dropped deletion has an older value of its user key among the entries beside the inputs |
| BaseLevels.EntryKeptIffNeeded | Prosjekt-kopi/Pods/leveldb-library/db/db_impl.cc:940-972 | an input is among the outputs if and only if some snapshot from the smallest one on finds it newest among the inputs and, if it is a deletion the smallest one sees, some ordered version with the same file ranges two and more levels down holds a value that a reader would get back without it |
| BaseLevels.MarkerKeptIffNeeded | Prosjekt-kopi/Pods/leveldb-library/db/version_set.cc:1484-1503 | so the base-level rule is the weakest safe one: it keeps a deletion exactly when, by the ranges of the deeper files, dropping it could change a read |
| StraddlingPicks.StraddlingChosen | Prosjekt-kopi/Pods/leveldb-library/db/version_set.cc:1345-1411 | on files where one user key ends one file and begins the next, the pick is the first file alone and what it meets below, because taking in the second would take in one more file there |
| StraddlingPicks.CompactStraddling | Prosjekt-kopi/Pods/leveldb-library/db/version_set.cc:1345-1411 | the failing input, for any keys in order: pick, merge, drop loop and installation leave the older entry to answer point reads in place of the newer one, which answered before; a value is still found by reading everything at once, and a deletion is undone for every reader |
| CompactionSearches.CompactionKeepsSearches | Prosjekt-kopi/Pods/leveldb-library/db/db_impl.cc:940-972 | around any inputs: the search through the layers after the drop loop finds at every snapshot from the smallest on what reading everything gave before, if and only if no entry that moves leaves an older one above it that answers differently and no dropped deletion has an older value beside it |
| InstalledSearches.InstallKeepsSearches | Prosjekt-kopi/Pods/leveldb-library/db/version_set.cc:332-429 | the same for the memtables and the levels of the version that the outputs were installed in |
| InstalledSearches.MoveKeepsPointReads | Prosjekt-kopi/Pods/leveldb-library/db/db_impl.cc:717-735 | for a file that only moves down, at every snapshot: point reads are kept if and only if none of its entries leaves an older one above it that answers differently |
| Installs.InstallMeaning | Prosjekt-kopi/Pods/leveldb-library/db/db_impl.cc:866-885 | at the level of versions and of whatever memtables stand before them: installing the outputs keeps all reads if and only if no dropped deletion has an older value left beside the inputs |
| Installs.InstallKeepsReads | Prosjekt-kopi/Pods/leveldb-library/db/db_impl.cc:866-885 | when nothing older is left beside the inputs, readers at all snapshots from the smallest one on see no difference, and the new version holds no new entry |
| Installs.InstallOrder | Prosjekt-kopi/Pods/leveldb-library/db/version_set.cc:711-757 | for every pick the new version has disjoint sorted levels, and it is ordered from level to level if and only if nothing left on the upper level is older than an output of its user key |
| Installs.Level0PickIsNewer | Prosjekt-kopi/Pods/leveldb-library/db/version_set.cc:1329-1338 | for picks on level 0 that premise always holds |
| Installs.AddKeepsOrder | Prosjekt-kopi/Pods/leveldb-library/db/db_impl.cc:488-532 | so it has when a memtable's table is added at a level its range allows |
| BackgroundCompactions.MakeInputIterator | Prosjekt-kopi/Pods/leveldb-library/db/version_set.cc:1258-1289 | level-0 inputs one by one and other inputs level by level, merged, are one sorted cursor over exactly the inputs' entries |
| BackgroundCompactions.WriteLevel0Table | Prosjekt-kopi/Pods/leveldb-library/db/db_impl.cc:488-532 | a memtable becomes one table with its entries, on the deepest level the rules allow, and none only when it is empty |
| BackgroundCompactions.CarryOut | Prosjekt-kopi/Pods/leveldb-library/db/db_impl.cc:715-743 | a pick of one file that meets nothing on the next level and little enough on the one below moves, unless it was asked for, and any other is merged and rewritten; for each, whatever version results keeps reads, point reads and order exactly under the conditions above |
| BackgroundCompactions.BackgroundCompaction | Prosjekt-kopi/Pods/leveldb-library/db/db_impl.cc:686-769 | one turn of the background work: a full memtable comes first and leaves an ordered version with its entries added; else the requested compaction or the one whose turn it is is carried out, if there is one, with the exact conditions for reads, point reads and order |
| CompactionChoices.TurnGoesRound | Prosjekt-kopi/Pods/leveldb-library/db/version_set.cc:1305-1317 | with the pointer at the end of one file the next file of the level is in turn, and behind the last the first |
| CompactionChoices.PickCompaction | Prosjekt-kopi/Pods/leveldb-library/db/version_set.cc:1291-1343 | size comes before seeks, the file is the next in turn behind the compaction pointer or the first of the level, on level 0 exactly the files of the least closed range around it join it, the inputs then grow exactly as `SetupOtherInputs` allows, and those of both levels leave no gap |
| CompactionChoices.CompactRange | Prosjekt-kopi/Pods/leveldb-library/db/version_set.cc:1413-1446 | nothing is picked exactly when no file overlaps the range; on level 0 the pick begins with the files of the least closed range around it, on levels above it is cut behind the file with which sizes reach the limit, and then it grows as `SetupOtherInputs` allows |
| PickGaps.SetUpGapless | Prosjekt-kopi/Pods/leveldb-library/db/version_set.cc:1345-1411 | setting up the other inputs, with or without growth, leaves no gap in the range of the inputs that was not there |
| LateInstalls.LateMeaning | Prosjekt-kopi/Pods/leveldb-library/db/db_impl.cc:917-927 | when memtables became tables in the middle of a compaction: reads are kept if and only if no dropped deletion has an older value beside the inputs, the new tables counting as lying above them |
| LateInstalls.LateOrder | Prosjekt-kopi/Pods/leveldb-library/db/db_impl.cc:917-927 | and the levels are sorted if and only if the outputs overlap no table that came to theirs meanwhile, and ordered if and only if, besides, nothing left above them is older |
| LateInstalls.GaplessFits | Prosjekt-kopi/Pods/leveldb-library/db/db_impl.cc:917-927 | the outputs of inputs without a gap never overlap such a table |
| GapExamples.OutputAroundTable | Prosjekt-kopi/Pods/leveldb-library/db/version_set.cc:502-528 | the failing input, for any keys in order: a requested compaction of two files with a gap, and a table that the rules let into the gap meanwhile |
| GapExamples.TableInGapIsLost | Prosjekt-kopi/Pods/leveldb-library/db/version_set.cc:373-390 | on it the level is not sorted any more, and a search of it reads only the output around the gap and misses an entry that reading everything finds |
| Overlaps.GetOverlappingInputs | Prosjekt-kopi/Pods/leveldb-library/db/version_set.cc:531-572 | terminates in spite of its restarts and returns the files overlapping the range; on level 0 that range is the least one around the request that no file sticks out of |
| Picks.CompactionPick.SetupOtherInputs | Prosjekt-kopi/Pods/leveldb-library/db/version_set.cc:1345-1411 | the next level's inputs are all files met there; the inputs become all files of the level in the range of everything picked (on level 0 in the least closed range around it) if and only if these are more, all sizes stay below the limit and their range meets no more files on the next level, and else stay as they were; the pointer moves to their end, grandparents are the files met two levels down |
| Picks.ClosedSelectionSharesNoKey | Prosjekt-kopi/Pods/leveldb-library/db/version_set.cc:557-569 | on level 0 no file left out shares a user key's range with a file picked |
| Picks.InstallKeepsLevels | Prosjekt-kopi/Pods/leveldb-library/db/version_set.cc:759-772 | every file of the next level not picked lies wholly before or behind all inputs, so sorted outputs fit between the files that stay |
| Versions.PickLevelForMemTableOutput | Prosjekt-kopi/Pods/leveldb-library/db/version_set.cc:502-528 | the level is the deepest one allowed: no overlap on the levels passed and little enough below |
| Versions.FindFile | Prosjekt-kopi/Pods/leveldb-library/db/version_set.cc:86-105 | binary search finds the first file whose largest key is not before the target |
| Versions.SomeFileOverlapsRange | Prosjekt-kopi/Pods/leveldb-library/db/version_set.cc:121-157 | true exactly when some file's range of user keys meets the range, either end of which may be open |
| Versions.Get | Prosjekt-kopi/Pods/leveldb-library/db/version_set.cc:332-429 | on any version with sorted levels, what the first level that knows the key says; on an ordered one that is the newest visible entry over all files |
| DBReads.Get | Prosjekt-kopi/Pods/leveldb-library/db/db_impl.cc:1109-1154 | what the first of memtable, immutable memtable and levels that knows the key says; when they are ordered that is the newest visible entry of all of them together |
| DBReads.GetInRun | Prosjekt-kopi/Pods/leveldb-library/db/db_impl.cc:1109-1154 | in any run of the store, a read under way returns what looking the key up after some whole number of published batches gives, namely those its snapshot covers |
| MergingIterators.MergingIterator.Next | Prosjekt-kopi/Pods/leveldb-library/table/merger.cc:59-83 | one step in the sorted union of the children, also when the direction turns and the other children are placed anew |
| MergingIterators.MergingIterator.Prev | Prosjekt-kopi/Pods/leveldb-library/table/merger.cc:85-112 | one step back in the sorted union, also when the direction turns |
| MergingIterators.MergingIterator.Seek | Prosjekt-kopi/Pods/leveldb-library/table/merger.cc:51-57 | the lower bound in the sorted union |
| DBIterators.DBIter.Next | Prosjekt-kopi/Pods/leveldb-library/db/db_iter.cc:146-203 | in either direction, the position becomes the least key of the visible map above the current one, or none |
| DBIterators.DBIter.Prev | Prosjekt-kopi/Pods/leveldb-library/db/db_iter.cc:205-272 | in either direction, the position becomes the greatest key of the visible map below the current one, or none |
| DBIterators.DBIter.Seek | Prosjekt-kopi/Pods/leveldb-library/db/db_iter.cc:274-286 | the position becomes the least visible key at or above the target, or none |
| DBIterators.DBIter.SeekToLast | Prosjekt-kopi/Pods/leveldb-library/db/db_iter.cc:299-304 | the position becomes the greatest visible key, or none |
| DBIterators.DBIter.PositionIsVisible | Prosjekt-kopi/Pods/leveldb-library/db/db_iter.cc:66-73 | a valid cursor shows a key of the visible map with its value there |
| DBCursors.NewIterator | Prosjekt-kopi/Pods/leveldb-library/db/db_impl.cc:1067-1096 | the cursor made from memtables and all levels walks exactly what a reader of the whole store sees at the snapshot |
| DBRuns.SnapshotStability | Prosjekt-kopi/Pods/leveldb-library/db/db_impl.cc:534-565 | over all runs of writes, memtable switches, flushes, also in the middle of compactions, compactions, moves and reads: while a snapshot is held every key reads the same, and as the history had it at that number |
| DBRuns.FinishRewrites | Prosjekt-kopi/Pods/leveldb-library/db/db_impl.cc:866-885 | the compactions that runs take are exactly those after which the version is in order and reads from the smallest snapshot on are what they were |
| DBRuns.MoveRewrites | Prosjekt-kopi/Pods/leveldb-library/db/db_impl.cc:717-735 | so are the moves |
| DBRuns.GaplessCompactionFits | Prosjekt-kopi/Pods/leveldb-library/db/db_impl.cc:917-927 | in every state of every run: the outputs of a compaction whose inputs leave no gap fit between the tables that came while it worked |
| DBRuns.ReadsSeeWholeBatches | Prosjekt-kopi/Pods/leveldb-library/db/db_impl.cc:1222-1249 | a read sees every batch wholly or not at all, because the sequence number is published behind the insertion |
| DBRuns.LatestReadSeesAll | Prosjekt-kopi/Pods/leveldb-library/db/db_impl.cc:1109-1154 | a read at the last sequence number sees all batches published |
| DBRuns.ReadUnderWayIsStable | Prosjekt-kopi/Pods/leveldb-library/db/db_impl.cc:1109-1154 | what a reader captured keeps its meaning while memtables switch and compactions install |
| DBReach.AnyGroupIsWritten | Prosjekt-kopi/Pods/leveldb-library/db/db_impl.cc:1194-1262 | from every state of every run any group of batches can be written next, and nothing else changes; so every history of writes is that of a run |
| DBReach.EveryHistoryHappens | Prosjekt-kopi/Pods/leveldb-library/db/db_impl.cc:1194-1262 | every list of batches is what some run of the store publishes, so the theorems about runs are about all histories |
| GroupCommit.GroupIsLongest | Prosjekt-kopi/Pods/leveldb-library/db/db_impl.cc:1269-1314 | the scan of the queue ends at the longest group that has no sync write behind a leader without and stays within a megabyte, or within 128 KB more than a small first batch |
| GroupCommit.BuildBatchGroup | Prosjekt-kopi/Pods/leveldb-library/db/db_impl.cc:1269-1314 | the group is that longest one, and the merged batch is the members' batches one right behind the other in order of arrival, each whole, with nothing else in between |
| GroupCommit.GroupsPartitionArrivals | Prosjekt-kopi/Pods/leveldb-library/db/db_impl.cc:1194-1262 | over all interleavings, the finished groups one behind the other and then the queue are the writers in order of arrival, each once |
| GroupCommit.BatchesLoggedOnce | Prosjekt-kopi/Pods/leveldb-library/db/db_impl.cc:1194-1262 | no writer is in two log records; for every batch told OK there is a record that holds the writer's own operations as one stretch, synced if asked, and each of them is in the memtable under the sequence number its place in the record gives it |
| GroupCommit.RecordsCarryBatches | Prosjekt-kopi/Pods/leveldb-library/db/db_impl.cc:1219-1233 | in every state, every log record is the batches of its members in order of arrival, from its first operation to its last |
| GroupCommit.NeverStuck | Prosjekt-kopi/Pods/leveldb-library/db/db_impl.cc:1194-1262 | in every state with a writer waiting, the one at the front can take a step, which is no failure unless one came before |
| GroupCommit.EveryoneToldOwnStatus | Prosjekt-kopi/Pods/leveldb-library/db/db_impl.cc:1252-1262 | every member of a finished group was told that group's status, and is in no other group |
| GroupCommit.SequenceRangesDisjoint | Prosjekt-kopi/Pods/leveldb-library/db/db_impl.cc:1211-1249 | groups get disjoint ascending ranges of sequence numbers |
| GroupCommit.PublishedMeansFinished | Prosjekt-kopi/Pods/leveldb-library/db/db_impl.cc:1222-1249 | what is in the memtable at or below the published number is exactly what finished groups inserted |
| GroupCommit.FailedSyncStopsWrites | Prosjekt-kopi/Pods/leveldb-library/db/db_impl.cc:1227-1243 | after a failed sync no later group is written |
| SkipLists.SearchSkipsNothing | Prosjekt-kopi/Pods/leveldb-library/db/skiplist.h:261-281 | with one inserter and any interleaving of single loads and stores, a search returns a node at or behind the target, and skips none whose insertion was finished when the search began |
| SkipLists.LevelsAreSortedSublists | Prosjekt-kopi/Pods/leveldb-library/db/skiplist.h:336-370 | in every state of every run each level is a sorted chain, a sublist of the level below, with all finished nodes of that height |
| Snapshots.SnapshotList.New | Prosjekt-kopi/Pods/leveldb-library/db/snapshot.h:42-51 | the linked list gains the snapshot at its end and stays in order |
| Snapshots.SnapshotList.Delete | Prosjekt-kopi/Pods/leveldb-library/db/snapshot.h:53-58 | the linked list loses exactly that snapshot |
| Snapshots.SnapshotList.Oldest | Prosjekt-kopi/Pods/leveldb-library/db/snapshot.h:39-39 | the head's successor has the smallest number of all live snapshots |
| VersionBuilders.Builder.SaveTo | Prosjekt-kopi/Pods/leveldb-library/db/version_set.cc:711-757 | merging added files into the base and leaving out deleted ones lists, for every level in order, exactly the files live after the edits |
| VersionBuilders.VersionSet.LogAndApply | Prosjekt-kopi/Pods/leveldb-library/db/version_set.cc:820-903 | each level's new files are the edit's added ones and the old ones it does not delete; the completed edit is appended to the manifest, and the new version is what the manifest would rebuild |
| VersionBuilders.Reopen | Prosjekt-kopi/Pods/leveldb-library/db/version_set.cc:905-1025 | after any calls of LogAndApply, replaying the manifest gives the same files on every level and the same log numbers, and a next file number above every live table |
| VersionEdits.RoundTrip | Prosjekt-kopi/Pods/leveldb-library/db/version_edit.cc:109-210 | decoding an encoded record gives its fields on top of the compaction pointers that were there; it is the record if and only if there were none |
| VersionEdits.ReusedEditKeepsPointer | Prosjekt-kopi/Pods/leveldb-library/db/version_edit.cc:26-39 | the failing input: an edit with one compaction pointer reads a record without any and keeps its own |
| VersionEdits.VersionEdit.DecodeFrom | Prosjekt-kopi/Pods/leveldb-library/db/version_edit.cc:109-210 | the loop succeeds exactly on the byte strings the format describes, and then holds their fields |
| Manifests.RecoverManifest | Prosjekt-kopi/Pods/leveldb-library/db/version_set.cc:905-1025 | edits encoded, logged, cut off anywhere, read and replayed: the version has exactly the files of the records written whole, the counters are the last ones of these, and recovery succeeds exactly when those name the three numbers and the right comparator |
| Manifests.DescriptorLog.LogAndApply | Prosjekt-kopi/Pods/leveldb-library/db/version_set.cc:820-903 | in bytes: the log of the manifest gains the encoded edit with its counters filled in, a new log begins with a snapshot of the version, and the records go on saying what the version set has written |
| Manifests.ReopenFromBytes | Prosjekt-kopi/Pods/leveldb-library/db/version_set.cc:905-1025 | after any such calls, opening from the bytes of the log gives the same files on every level, the same log numbers, and a next file number above every live table |
| BlockBuilders.BlockBuilder.Add | Prosjekt-kopi/Pods/leveldb-library/table/block_builder.cc:73-107 | the block holds one more pair, at a restart point behind each interval and else sharing the longest common prefix with the key before, and grows by no more than the pair and 15 bytes |
| BlockBuilders.BlockBuilder.Finish | Prosjekt-kopi/Pods/leveldb-library/table/block_builder.cc:63-71 | what is left is a well-formed block of the pairs added |
| BlockIters.BlockIter.Seek | Prosjekt-kopi/Pods/leveldb-library/table/block.cc:165-203 | the search over restart points and the scan from there end at the first pair whose key is not below the target |
| BlockIters.BlockIter.Prev | Prosjekt-kopi/Pods/leveldb-library/table/block.cc:144-163 | going back to a restart point and scanning on ends at the pair just before, with its key rebuilt |
| BlockIters.BlockIter.Next | Prosjekt-kopi/Pods/leveldb-library/table/block.cc:139-142 | one pair on |
| BlockRoundTrips.BuildAndOpen | Prosjekt-kopi/Pods/leveldb-library/table/block.cc:23-38 | a block built from any pairs opens to a cursor over just these, unless they come to four gigabytes |
| BlockRoundTrips.ReadAll | Prosjekt-kopi/Pods/leveldb-library/table/block.cc:226-253 | a walk from the first entry reads all pairs back in order |
| TableFormat.ReadBlock | Prosjekt-kopi/Pods/leveldb-library/table/format.cc:65-145 | a block stored under a handle reads back; whatever else is read lies in the file, is uncompressed and has its checksum when that is verified |
| TableFormat.DecodeFooter | Prosjekt-kopi/Pods/leveldb-library/table/format.cc:43-63 | a footer gives back the two handles it was made of, and anything without the magic number is refused |
| Separators.FindShortestSeparator | Prosjekt-kopi/Pods/leveldb-library/util/comparator.cc:29-51 | the result is the start or a shorter key strictly between start and limit, and it is cut at the first differing byte exactly where that byte can be raised below the limit's |
| Separators.FindShortSuccessor | Prosjekt-kopi/Pods/leveldb-library/util/comparator.cc:53-64 | the result is a key no longer and above, cut behind the first byte that can be raised, and the key itself exactly when all bytes are 0xff |
| Separators.InternalSeparator | Prosjekt-kopi/Pods/leveldb-library/db/dbformat.cc:68-85 | on internal keys: at or behind the start and before the limit, and the start unless cutting its user key at the first difference makes it shorter |
| Blooms.CreateFilter | Prosjekt-kopi/Pods/leveldb-library/util/bloom.cc:35-61 | the filter has set every bit that any of the keys probes, in at least the bits asked for |
| Blooms.ProbeIs | Prosjekt-kopi/Pods/leveldb-library/util/bloom.cc:53-59 | probe j of a hash is the hash plus j times the hash rotated right by 17 bits, modulo 2^32 |
| Blooms.NoFalseNegatives | Prosjekt-kopi/Pods/leveldb-library/util/bloom.cc:63-87 | a key a filter was made from is never turned away |
| FilterBlocks.FilterBlockBuilder.Finish | Prosjekt-kopi/Pods/leveldb-library/table/filter_block.cc:36-50 | for every key added, a reader asked with the offset of its data block says it may match |
| FilterBlocks.FilterBlockReader.KeyMayMatch | Prosjekt-kopi/Pods/leveldb-library/table/filter_block.cc:95-109 | the answer of the filter of the two kilobytes the offset lies in; whatever cannot be made sense of counts as a match |
| TableBuilders.TableBuilder.Add | Prosjekt-kopi/Pods/leveldb-library/table/table_builder.cc:92-121 | the pair goes to the current data block and its user key to the filter, a due index entry gets a key between the blocks, a block that has reached its size is written, and the builder fails only once the pairs come to four gigabytes |
| TableBuilders.TableBuilder.Finish | Prosjekt-kopi/Pods/leveldb-library/table/table_builder.cc:199-254 | the file is a table: footer, metaindex, filter and index in place, every block stored under its handle with checksum, and index keys between the blocks of exactly the pairs added |
| TableLayouts.IndexedIsTable | Prosjekt-kopi/Pods/leveldb-library/table/table_builder.cc:92-137 | blocks cut from a sorted list with such index keys are what the two-level cursor needs: every key of a block at or before its index key, every later key behind it |
| TwoLevelIterators.TwoLevelIterator.Seek | Prosjekt-kopi/Pods/leveldb-library/table/two_level_iterator.cc:91-96 | over the file's bytes, the position is the lower bound in the whole list |
| TwoLevelIterators.TwoLevelIterator.Next | Prosjekt-kopi/Pods/leveldb-library/table/two_level_iterator.cc:112-136 | one entry on in the whole list, past empty blocks |
| TwoLevelIterators.TwoLevelIterator.Prev | Prosjekt-kopi/Pods/leveldb-library/table/two_level_iterator.cc:118-149 | one entry back in the whole list, past empty blocks |
| Tables.Open | Prosjekt-kopi/Pods/leveldb-library/table/table.cc:38-141 | every file built as a table opens, with its filter if the policy is the one it was written with, and what opens ends in a footer |
| Tables.Table.NewIterator | Prosjekt-kopi/Pods/leveldb-library/table/table.cc:220-224 | a cursor over exactly the entries that were added |
| Tables.Table.InternalGet | Prosjekt-kopi/Pods/leveldb-library/table/table.cc:226-255 | one index lookup, one filter check and one block: if the saver is handed an entry of the user key it is the newest one visible, it is handed one whenever the table holds one, and none when the filter turns the key away |
| Tables.LookupAnswers | Prosjekt-kopi/Pods/leveldb-library/table/table.cc:226-255 | why: shortened index keys have no user key of the table between a block's last entry and the next block's first |
| BuildTables.BuildTable | Prosjekt-kopi/Pods/leveldb-library/db/builder.cc:17-86 | any sorted run of pairs becomes a file whose table shows just these entries; there is no file only for no pairs or for four gigabytes of them |
| LogWriters.Writer.AddRecord | Prosjekt-kopi/Pods/leveldb-library/db/log_writer.cc:36-82 | the record is laid out in fragments that fill 32 KB blocks, behind what was there |
| LogWriters.Writer.Reopen | Prosjekt-kopi/Pods/leveldb-library/db/log_writer.cc:28-31 | a writer that goes on at the end of a log is in the state of one that never stopped |
| LogReaders.RecoverRecords | Prosjekt-kopi/Pods/leveldb-library/db/log_reader.cc:60-182 | any file is read from its start to its end, what comes back is exactly the records among its fragments, in order, and every drop is reported; of a written log cut at any byte, exactly the records whose last fragment is complete come back, and no corruption is reported |
| LogReaders.Reader.ReadRecord | Prosjekt-kopi/Pods/leveldb-library/db/log_reader.cc:60-182 | on any file: the fragments read follow one another, the first full record or first-to-last run among them is what is returned, and at the end of the file there was none |
| LogFragments.FragmentsAreIntact | Prosjekt-kopi/Pods/leveldb-library/db/log_reader.cc:230-278 | with checksums on, whatever is taken for a fragment of any file is the payload behind a header that gives its length and type, and the unmasked sum stored there is that of type and payload |
| LogFragments.DamageIsDropped | Prosjekt-kopi/Pods/leveldb-library/db/log_reader.cc:253-268 | where the stored sum is another, nothing is returned, the rest of the block is dropped, and its size is reported |
| LogReaders.UncutLogLosesNothing | Prosjekt-kopi/Pods/leveldb-library/db/log_reader.cc:60-182 | of a log that was not cut, all records come back |
| WriteBatches.WriteBatch.Append | Prosjekt-kopi/Pods/leveldb-library/db/write_batch.cc:141-145 | a group's batch holds the operations of both, in order |
| WriteBatches.BatchBack | Prosjekt-kopi/Pods/leveldb-library/db/write_batch.cc:42-84 | a batch iterates to its operations, and its count is right if and only if there are fewer than 2^31 |
| WriteBatches.WriteBatch.InsertInto | Prosjekt-kopi/Pods/leveldb-library/db/write_batch.cc:111-134 | operation number i gets the batch's sequence number plus i, and the status is ok exactly for well-formed records in the number the header gives |
| Recoveries.RecoverLogFile | Prosjekt-kopi/Pods/leveldb-library/db/db_impl.cc:365-486 | of a log of batches cut anywhere, exactly the pairs of the batches written whole are inserted again, in tables of whole batches written as the memtable gets full and a last memtable that is kept or written; the largest sequence number is theirs |
| Recoveries.LargestIs | Prosjekt-kopi/Pods/leveldb-library/db/db_impl.cc:430-436 | the last sequence number recovered is no smaller than that of any batch, and that of one of them or the one from before |
| Recoveries.PartsJoin | Prosjekt-kopi/Pods/leveldb-library/db/db_impl.cc:438-450 | those tables and the memtable one behind the other are all of it, each pair once |
| Recoveries.RecoveredIsHistory | Prosjekt-kopi/Pods/leveldb-library/db/db_impl.cc:413-436 | what is inserted again says exactly the entries of that prefix of the history |
| Crc32cs.Step4IsFourByteSteps | Prosjekt-kopi/Pods/leveldb-library/util/crc32c.cc:313-321 | one step over four bytes by four tables is four steps of one byte |
| Crc32cs.Extend | Prosjekt-kopi/Pods/leveldb-library/util/crc32c.cc:299-347 | for every buffer and alignment the fast form is CRC32C by single bytes |
| Crc32cs.ExtendTwice | Prosjekt-kopi/Pods/leveldb-library/util/crc32c.h:14-22 | extending by two strings in turn is extending by both at once |
| Checksums.SumExtends | Prosjekt-kopi/Pods/leveldb-library/table/table_builder.cc:183-187 | on numbers: the checksum of a block extended by its type byte is that of both together |
| Checksums.PolynomialIs | Prosjekt-kopi/Pods/leveldb-library/util/crc32c.cc:51-51 | the polynomial is 0x82f63b78 |
| Checksums.PolynomialIsInTable | Prosjekt-kopi/Pods/leveldb-library/util/crc32c.cc:299-312 | and it is what dividing a one in the top bit of a byte leaves, an entry of the table |
| Coding.UnmaskMask | Prosjekt-kopi/Pods/leveldb-library/util/crc32c.h:31-40 | unmasking a masked checksum gives it back |
| Varints.VarintRoundTrip | Prosjekt-kopi/Pods/leveldb-library/util/coding.cc:47-129 | a varint decodes to its number and ends right behind it, whatever follows |
| KnownBytes.TwoGroups | Prosjekt-kopi/Pods/leveldb-library/util/coding.cc:47-76 | byte by byte: seven bits a byte, low bits first, the high bit on all but the last |
| KnownBytes.Masks | Prosjekt-kopi/Pods/leveldb-library/util/crc32c.h:31-40 | three sums and what they are masked to |
| KnownBytes.LogHeader | Prosjekt-kopi/Pods/leveldb-library/db/log_writer.cc:84-95 | byte by byte: a fragment's masked checksum, its length low byte first and its type, full, first, middle and last being 1 to 4 |
| KnownBytes.BatchRecords | Prosjekt-kopi/Pods/leveldb-library/db/write_batch.cc:98-109 | byte by byte: a put is 1, length and key, length and value, a deletion 0, length and key |
| KnownBytes.InternalKey | Prosjekt-kopi/Pods/leveldb-library/db/dbformat.cc:14-23 | byte by byte: a user key, its kind and seven bytes of sequence number, low byte first |
| KnownBytes.TableEnds | Prosjekt-kopi/Pods/leveldb-library/table/format.cc:32-63 | byte by byte: a table ends in its magic number, a block in its type and the masked checksum of both |
| KnownBytes.BlockEntry | Prosjekt-kopi/Pods/leveldb-library/table/block_builder.cc:9-27 | byte by byte: shared length, length of the rest, length of the value, the rest and the value |
| KnownBytes.EditFields | Prosjekt-kopi/Pods/leveldb-library/db/version_edit.cc:41-87 | byte by byte: each field of a manifest record behind its tag |
| KnownBytes.EditFile | Prosjekt-kopi/Pods/leveldb-library/db/version_edit.cc:77-86 | byte by byte: a new file behind its tag, with level, number, size and range |
| KnownBytes.PbValues | Prosjekt-kopi/Pods/nanopb/pb_encode.c:491-575 | byte by byte: numbers plain and zigzag, fixed words and strings behind their tags |
| KnownBytes.PbArrays | Prosjekt-kopi/Pods/nanopb/pb_encode.c:116-201 | byte by byte: arrays of numbers are packed behind one tag, other arrays have a tag an item |
| HandleTables.HandleTable.Insert | Prosjekt-kopi/Pods/leveldb-library/util/cache.cc:80-94 | the chained table is a map that gains the entry, through resizing, and gives back the one replaced |
| HandleTables.HandleTable.Resize | Prosjekt-kopi/Pods/leveldb-library/util/cache.cc:125-148 | the map is unchanged and the load is at most one |
| HandleTables.SlotIsRemainder | Prosjekt-kopi/Pods/leveldb-library/util/cache.cc:116-123 | the number of buckets is a power of two, so the masked hash is its remainder |
| LRUCaches.LRUCache.Insert | Prosjekt-kopi/Pods/leveldb-library/util/cache.cc:269-303 | the entry is in use and found by its name, what it replaces leaves, just as many of the oldest unused entries go as it takes to fit, and every client's references stay as they are |
| LRUCaches.LRUCache.Release | Prosjekt-kopi/Pods/leveldb-library/util/cache.cc:264-267 | one reference of the client less; the last one puts a cached entry at the end of the unused list and deletes another |
| LRUCaches.LRUCache.Prune | Prosjekt-kopi/Pods/leveldb-library/util/cache.cc:323-333 | exactly the unused entries are deleted, and no client's references change |
| LRUCaches.Run | Prosjekt-kopi/Pods/leveldb-library/util/cache.cc:221-240 | over any sequence of calls references balance, each deleter runs once, and nothing held is deleted |
| PbFields.FieldIter.Find | Prosjekt-kopi/Pods/nanopb/pb_common.c:78-95 | going round the descriptor finds the field with the tag, or none and stays where it was |
| PbEncoders.Encode | Prosjekt-kopi/Pods/nanopb/pb_encode.c:451-473 | the stream gains exactly the bytes the format gives the message, or fails where those do not fit |
| PbEncoders.EncodeSubmessage | Prosjekt-kopi/Pods/nanopb/pb_encode.c:600-648 | the sizing pass counts exactly the bytes that the second pass then writes behind their length |
| PbEncoders.GetEncodedSize | Prosjekt-kopi/Pods/nanopb/pb_encode.c:480-489 | the size of just these bytes |
| PbDecoders.Decode | Prosjekt-kopi/Pods/nanopb/pb_decode.c:955-967 | the decoder succeeds on exactly the bytes the format gives a meaning to, and then holds it; what that meaning is, for all bytes, is the next six rows |
| PbLaws.DecodesIffExplained | Prosjekt-kopi/Pods/nanopb/pb_decode.c:852-953 | any bytes decode to a message if and only if they are tags with payloads up to the end, each required field among them, every unknown one skipped as its wire type says, and each slot is what the field's own parts and those of its union make of the default |
| PbLaws.AcceptedHasRequired | Prosjekt-kopi/Pods/nanopb/pb_decode.c:920-950 | bytes are accepted only if the tag of every required field was read from them |
| PbLaws.RepeatedAppends | Prosjekt-kopi/Pods/nanopb/pb_decode.c:387-429 | a part of a repeated field, packed or one item by itself, is accepted exactly when the array has room for its items, which go behind those already there |
| PbLaws.LastPartCounts | Prosjekt-kopi/Pods/nanopb/pb_decode.c:356-386 | of a field that is not repeated and no submessage the last part counts: its own sets it, one of another member of its union clears it |
| PbLaws.UntouchedStays | Prosjekt-kopi/Pods/nanopb/pb_decode.c:852-953 | and a field that neither kind of part comes for is as it was |
| PbLaws.SubmessageMerges | Prosjekt-kopi/Pods/nanopb/pb_decode.c:1334-1367 | reading a submessage over one that is there, as a required or optional one that comes again is: its bytes are explained with the old one in place of the defaults, and must have the required fields again |
| PbTyped.DecodedIsTyped | Prosjekt-kopi/Pods/nanopb/pb_decode.c:1165-1332 | what any bytes decode to is of the struct's type: numbers in range, arrays and strings within their room and terminated, one member of each union; and encoded again it decodes to the same |
| PbDecoders.DecodeNoInit | Prosjekt-kopi/Pods/nanopb/pb_decode.c:852-953 | the same onto a message that may hold something already: field by field, and false if a required field was not among the bytes |
| PbDecoders.CheckRequired | Prosjekt-kopi/Pods/nanopb/pb_decode.c:920-950 | true exactly when all required fields were seen, for the counts the bitmap is made for |
| PbBitmaps.Mark | Prosjekt-kopi/Pods/nanopb/pb_decode.c:908-913 | a one shifted by the low bits of the number, or-ed into the word its high bits name, marks just that field |
| PbBitmaps.AllSeen | Prosjekt-kopi/Pods/nanopb/pb_decode.c:936-949 | the whole words and the mask shifted for the rest are met exactly when all fields up to the count are marked |
| PbRoundTrips.RoundTrip | Prosjekt-kopi/Pods/nanopb/pb_decode.c:356-429 | over all descriptors and messages: what is encoded decodes to the present fields if and only if every string is terminated |
| PbRoundTrips.UnterminatedStringIsRefused | Prosjekt-kopi/Pods/nanopb/pb_decode.c:1299-1332 | the failing input: a string of one byte that fills its buffer is encoded, and its bytes are refused |
| PbRuns.EncodeAndDecode | Prosjekt-kopi/Pods/nanopb/pb_encode.c:480-489 | sizing, encoding into a buffer and decoding in turn: it encodes exactly when the buffer has the size, and then reads back |
| PbRuns.SameBytes | Prosjekt-kopi/Pods/nanopb/pb_encode.c:116-201 | the message that comes back encodes to the same bytes |

## Left out

Premises and simplifications:

- BackgroundCompactions.BackgroundCompaction: is about a version that does not change while the compaction works; `LateMeaning`, `LateOrder` and the runs take in tables that come meanwhile. What is left of a requested range after one turn is not modelled.
- DBRuns.SnapshotStability: runs leave out exactly the compactions and moves after which the levels are out of order or a read changes (`FinishRewrites`, `MoveRewrites`), which the code does not check for.
- BaseLevels.EntryKeptIffNeeded: takes sequence numbers to begin at 1, as they do, so that a value older than all others can be thought of.
- InstalledSearches.InstallKeepsSearches: is stated for a version without tables that came meanwhile.
- PbRoundTrips.RoundTrip: descriptors have no required field, or fewer than 64 and not 32 of them, as the bitmap's shift needs; encoded messages are shorter than 4 GB.
- PbDecoders.CheckRequired: has the same premise on the number of required fields.
- PbTyped.DecodedIsTyped: takes the defaults of required fields to be of their types.
- TableBuilders.TableBuilder.Add: that no block is written before it has reached its size is not stated.
- Recoveries.RecoverLogFile: is stated for logs of well-formed batches with fewer than 2^31 operations each; when a memtable counts as full is left open.
- Manifests.RecoverManifest: is stated for logs of well-formed records; the step from a record's metadata to the table's contents is a parameter. Compaction pointers are written and read but not kept in the version set.
- Tables.Table.InternalGet: is stated for files that were built as tables; on other files the model says what reading a block refuses, not what a lookup answers.
- Tables.Open: two filter policies of one name are one policy, as `include/leveldb/filter_policy.h` asks of their authors.
- WriteBatches.WriteBatch.Append: keys and values are shorter than 4 GB, as are the keys of `VersionEdits.RoundTrip`; the code would cut their lengths off.
- MergingIterators.MergingIterator.Next: the children share no entry, as the store's do.
- Crc32cs.Extend: a table is what dividing its index by the polynomial gives; that the literal arrays of numbers hold these values is not checked.
- Blooms.CreateFilter: the number of probes, which the code gets from bits per key by a floating-point product, is a parameter.

Not modelled:

- Parsing of unparsable internal keys, and the saved status of cursors.
- Output-size and grandparent limits of compactions: outputs may be closed anywhere.
- How levels are scored and seeks are counted: any level may be due, and any file worn out.
- I/O errors, except the statuses of the writer queue; file names, directories, locks, obsolete files.
- Reading a log from an initial offset above 0.
- The cursors under a merge are cursors over lists; the table's own cursor keeps the same contract but is not plugged in there.
- The block cache inside a table's block reader; Snappy.
- Blocks above 32-bit offsets, where the code would wrap: the builder reports failure instead.
- 32-bit wrap-around of key and value lengths added up in malformed blocks.
- Cache sharding, handles that are their own key, linked lists inside the cache (sequences here); keys in the cache are ranks.
- Memory ordering weaker than sequential consistency; the arena.
- The memtable's own encoding of entries in skip-list nodes: entries are the nodes' keys.
- nanopb callbacks, extensions, pointer fields, custom streams and proto3 singular fields; slots stand for struct offsets, and a message that does not fit its descriptor is a failure.
- The remaining parts of both libraries: options, statistics, repair, the C binding, environment and test code; and the app's own Swift code.
