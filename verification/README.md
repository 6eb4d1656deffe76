# TalusDB in Dafny

TalusDB is an embedded key-value store built as a log-structured merge tree. Writes go to a
write-ahead log and a skip-list memtable; full memtables are flushed to sorted tables; tables
live in seven levels that background compactions merge downwards; a MANIFEST of version edits
records which tables make up the database. This project models that machinery and proves
what it is for:

* **Reads are right.** `Version::Get` and `DBImpl::Get` return the newest entry at or below
  the snapshot among everything stored, though they look at few files (`Levels`).
* **Compaction is invisible.** From the choice of inputs (`CompactionInputs`, `Picking`)
  through the drop rule and the cutting of outputs (`Compaction.dfy`, module
  `CompactionWork`) to the installed version (`Install`, `CompactionRun`), no reading at a
  live snapshot changes. `MidCompactionFlush` treats memtables that are flushed while a
  compaction is at work.
* **The MANIFEST means what was installed.** Replaying edits through one builder is applying
  them one at a time, and a snapshot record restores its version (`VersionBuilder`,
  `Manifest`, `VersionEdits`).
* **Acknowledged writes survive.** `Durability`, `Background`, `Recovery` and `Runs` model
  the database as a state machine: a write in three steps, log rotation, flush, compaction
  and file removal in the steps the lock allows, readers that pin versions, snapshots, crash
  at any point, recovery. One invariant holds in every reachable state. From it follow that
  every read, at the counter or at a held snapshot, is a lookup in the plain map that the
  acknowledged operations leave, that acknowledged writes are never lost, that no file in use
  is deleted, and that removal leaves no file that is not (`Removal`). `Progress` shows that
  the steps lead somewhere: writes, flushes, compactions, removal and recovery can always be
  carried through.
* **Iterators walk the map.** Block, two-level, merging and database iterators show exactly
  the entries they should in both directions and across changes of direction (`Blocks`,
  `TwoLevelIterators`, `Merging`, `InputIterators`, `DbIter`), and an iterator made in any
  reachable state is a cursor on that plain map (`MapCursors`, `Iteration`).
* **Formats read back.** Varints, internal keys, blocks, tables, filters, write batches,
  version edits and logs, the last also when cut off at any byte (`Coding`, `Keys`,
  `Separators`, `Blocks`, `Filters`, `WriteBatches`, `Wal`), with the bytes themselves in
  `Layouts`. The checksum is the remainder of a division of polynomials (`CrcPolynomials`,
  `Crc32c`, `CrcVectors`). A lookup in the bytes
  of a table file gives what its rows give (`Tables`, `TableFormat`, `TableKeys`,
  `TableFiles`, `TableReading`).
* **The concurrent parts.** A skip-list search is right under every interleaving with one
  writer, whose insertion is a run of the steps modelled (`SkipLists`); queued writers commit
  in groups, once each, in order (`GroupCommit`); the cache deletes a handle once, when
  nobody holds it (`HandleTables`, `LruCaches`).

Code that updates objects or runs loops in the source is a class or a method with loops here,
proved against a specification function or a stated property; the laws are lemmas about those
functions. Protocols are state machines over their atomic steps. `Ordering` holds the
vocabulary: entries, the internal-key order, and `View(E, u, s)`, what user key `u` reads as
at snapshot `s` in a set of entries `E`. User keys are real numbers there;
`Keys.RankEmbedsOrder` shows that byte strings embed into them with their order, and
`Keys.EncodingRefinesOrder` that stored internal keys compare like the triples of the model.

One property the design suggests does not hold of the code. While a compaction runs, a flush
may put its table directly into the compaction's output level, in a gap between two input
files that an output file then spans. `MidCompactionFlush.FlushIntoGapLosesKey` is such a
run: afterwards the level overlaps and a stored key is not found.
`MidCompactionFlush.InterruptedCompactionValid` gives the exact condition, `FlushesClear`:
the installed version is valid if and only if no table flushed meanwhile into the output
level meets an output file. The step that records a compaction in the state machine carries
this condition as its guard, so the results of `Runs` are about runs in which it is met
whenever a compaction is recorded.

`dafny verify dfyconfig.toml` checks the project.

## Model

| member | source | states |
|---|---|---|
| Levels.FindFile | src/db/version_set.cc:77-91 | on a level of disjoint sorted files the binary search loop finds the first file that ends at or after the key |
| Levels.BisectFinds | src/db/version_set.cc:77-91 | on a level of disjoint sorted files that index splits the level: every file before it ends below the key, no file from it on does |
| Levels.CollectCovering | src/db/version_set.cc:241-262 | the level-0 candidates are exactly the files whose user-key range covers the key, in level order |
| Levels.NewestFirstSorts | src/db/version_set.cc:241-262 | ordering the candidates gives strictly descending file numbers and the same files |
| Levels.TableGetAnswers | src/db/version_set.cc:222-239 | one seek in a sorted table and the test of the entry it lands on gives the newest visible entry of that table, or nothing exactly if none is visible |
| Levels.ProbeLevelAnswers | src/db/version_set.cc:241-278 | in a sorted level one bisection and one table answer for all entries of all files of the level |
| Levels.Get | src/db/version_set.cc:280-349 | the imperative lookup, level 0 newest first and then level by level, returns on every valid version what the key reads as among all its entries |
| Levels.GetDeeper | src/db/version_set.cc:241-278 | the loop over levels 1 to 6, which stops at the first level with an answer, answers for all their entries together |
| Levels.GetReadsView | src/db/version_set.cc:280-349 | for every valid version, key and snapshot, the lookup returns the newest entry at or below the snapshot among all entries of all levels (a deletion or no entry reads as absent), although it opens at most one file per deeper level; that every reachable version is valid is `Runs.StateReadsHistory` |
| Levels.DbGetReadsView | src/db/db_impl.cc:1089-1130 | memtable, then immutable memtable, then version: the first answer is the newest visible entry of the three together, if newer tiers are above older ones; that they are in every reachable state is `Runs.StateReadsHistory` |
| CompactionInputs.GetRange | src/db/version_set.cc:1030-1057 | the loop returns the least smallest and the greatest largest key of the files |
| CompactionInputs.TotalSizeConcat | src/db/version_set.cc:50-56 | the size of two lists of files is the sum of their sizes, that of none is 0 |
| CompactionInputs.TotalSizeSnoc | src/db/version_set.cc:50-56 | one more file adds its size |
| CompactionInputs.GetOverlappingInputs | src/db/version_set.cc:438-472 | on a sorted level exactly the files that meet the range; on level 0, where the range grows and the scan restarts, the least set that contains those files and is closed under overlap |
| CompactionInputs.TouchesMeansCommonKey | src/db/version_set.cc:438-472 | a file meets a range exactly if some user key lies in both |
| CompactionInputs.OverlapMeansCommonKey | src/db/version_set.cc:438-472 | two files overlap exactly if some user key lies in both |
| CompactionInputs.FindSmallestBoundaryFile | src/db/version_set.cc:1148-1164 | of the files that continue the given key in the same user key, the one that starts first; none exactly if there is no such file |
| CompactionInputs.AddBoundaryInputs | src/db/version_set.cc:1166-1186 | the loop over boundary files terminates and returns `WithBoundary` |
| CompactionInputs.BoundaryExact | src/db/version_set.cc:1166-1186 | the boundary adds only files of the level that start with the user key a chosen file ends with, and leaves none that goes on after the last one |
| CompactionInputs.BoundaryCompletes | src/db/version_set.cc:1166-1186 | after adding boundary files the chosen files are complete: consecutive in their level, and no file left behind continues them |
| CompactionInputs.WholeRestNewer | src/db/version_set.cc:1166-1186 | when a choice is complete, whatever a left-behind file of the level has of a chosen user key is newer than what the chosen files have of it |
| CompactionInputs.PairedIsGood | src/db/version_set.cc:1188-1235 | inputs that fit together keep every user key in recency order: left-behind entries of both levels are newer, and left-behind files of the next level lie beside the hull of all inputs |
| CompactionInputs.NextInputsExact | src/db/version_set.cc:1188-1235 | of the next level exactly the files that span a user key of the inputs are taken, and those that go on where one of them ends |
| CompactionInputs.BoundarySorted | src/db/version_set.cc:1166-1186 | boundary files come after the files they are added to, so inputs of a sorted level stay in key order |
| CompactionWork.Compaction.SetupOtherInputs | src/db/version_set.cc:1188-1235 | the steps end with inputs that fit together; the inputs of this level are the files given with their boundary, or the wider choice exactly if that has more files, stays below the size limit and meets no more files of the next level; the grandparents are the files two levels down that meet the inputs |
| CompactionWork.OverlappedBelow | src/db/version_set.cc:1229-1231 | the grandparents are exactly the files two levels down that span a user key of the inputs, in order |
| Picking.TrivialMoveIsLone | src/db/version_set.cc:1283-1287 | a trivial move is one file that fits together with nothing, shares no user key with any file of the next level, and has few enough bytes two levels down |
| CompactionWork.Compaction.ShouldStopBefore | src/db/version_set.cc:1315-1333 | grandparents that end before the key are passed and counted from the second key on; the answer is yes exactly if the bytes counted since the last yes exceed the limit |
| Picking.FirstAfterPointer | src/db/version_set.cc:1099-1109 | a size compaction starts from the first file that ends after the compaction pointer, or from the first file of the level if none does |
| Picking.PickCompaction | src/db/version_set.cc:1087-1131 | a size compaction goes before a seek compaction; the result is null exactly if neither is due; otherwise it is ready to run, on the right level, and its inputs are what `SetupOtherInputs` makes of the file after the pointer or the file sought too often, on level 0 of all that overlap reaches from it |
| Picking.CompactRange | src/db/version_set.cc:1237-1263 | null exactly if no file meets the range; otherwise ready to run, with inputs made of the overlap closure of the range on level 0, and of the fewest first files that reach the size limit on deeper levels |
| Picking.CutAt | src/db/version_set.cc:1244-1255 | the fewest first files that reach the size limit, all of them if they do not, at least one |
| CompactionWork.Compaction.IsBaseLevelForKey | src/db/version_set.cc:1297-1313 | for keys asked in non-decreasing order the answer with remembered positions equals a full scan of all deeper levels |
| CompactionWork.PointerDecides | src/db/version_set.cc:1297-1313 | files before a remembered position end before the key and the file at it starts after the key, so no file of the level covers it |
| CompactionWork.ShouldDrop | src/db/db_impl.cc:1007-1027 | an entry is dropped exactly if the entry of its user key just before it is at or below the smallest snapshot, or if it is a deletion at or below it whose user key lies in no file range two or more levels down |
| CompactionWork.KeptIsDistilled | src/db/db_impl.cc:1007-1027 | of the merged input no deletion at or below the smallest snapshot is left unless a deeper file covers its key, no user key has two entries at or below the snapshot, and every entry that is missing is such a deletion or has a newer entry of its key at or below the snapshot |
| CompactionWork.KeptAreSurvivors | src/db/db_impl.cc:1007-1027 | remembering only the previous entry's sequence number decides shadowing among all entries; what is left is described by `KeptIsDistilled` |
| CompactionWork.SurvivorsKeepView | src/db/db_impl.cc:1007-1027 | replacing entries by their survivors changes no reading at any snapshot from the cutoff on |
| CompactionWork.AddToOutput | src/db/db_impl.cc:1029-1048 | one more kept entry goes to the open output file, which is finished exactly when that brings it to the maximal size |
| CompactionWork.StopIfCrowded | src/db/db_impl.cc:1000-1005 | an open output is finished before an entry exactly when the grandparents passed since counting began exceed the limit |
| CompactionWork.DoCompactionWork | src/db/db_impl.cc:978-1062 | the outputs hold the input distilled as `KeptIsDistilled` says, in order; every output is below the maximal size until its last entry and overlaps at most the limit of grandparent bytes, and every output but the last ended because it was full or because the next keys overlap too much |
| CompactionWork.PiecesSorted | src/db/db_impl.cc:900-942 | cutting a sorted run anywhere gives well-formed files with disjoint ascending ranges that hold the entries of the run |
| CompactionRun.MergeFilesSorts | src/db/version_set.cc:1059-1085 | merging the input files gives one sorted run with exactly their entries |
| CompactionRun.OutputsOfLoop | src/db/db_impl.cc:978-1062 | the output files are sorted, disjoint and hold exactly the survivors of the inputs |
| Install.EditApplicable | src/db/db_impl.cc:944-959 | the compaction's edit only removes files of the version and only adds unused numbers |
| Install.InstallCompactionResults | src/db/db_impl.cc:944-959 | the edit assembled in loops and applied by the builder gives `Next` of the compaction edit |
| Install.EditInstalls | src/db/db_impl.cc:944-959 | the new version holds per level the old files without the inputs, plus the outputs one level down, in level order |
| Install.InstallKeepsShape | src/db/db_impl.cc:944-959 | after the installation every level but 0 is sorted with disjoint ranges and no file number is used twice |
| Install.InstallKeepsRecency | src/db/db_impl.cc:944-959 | after the installation, entries of a shallower level are still newer than those of the same user key in any deeper level |
| Install.InstallKeepsValid | src/db/db_impl.cc:944-959 | installing a compaction keeps the version valid |
| Install.CompactionKeepsView | src/db/db_impl.cc:944-1087 | every user key reads the same before and after a compaction at every snapshot from the cutoff on, although shadowed entries and spent deletions are gone |
| CompactionRun.CompactionPreservesReads | src/db/db_impl.cc:961-1087 | for all valid versions, fitting inputs and ways to cut outputs: the compacted version is valid and `Version::Get` returns the same for every key and every snapshot from the cutoff on |
| CompactionRun.Compact | src/db/db_impl.cc:785-837 | the imperative path from a picked compaction to the installed version preserves every reading from the cutoff on, leaves the input distilled, cuts the outputs by the two limits and installs exactly the outputs for the inputs |
| CompactionRun.TrivialMovePreservesReads | src/db/db_impl.cc:813-827 | moving a single file one level down keeps the version valid and changes no reading at any snapshot |
| VersionBuilder.Builder.Apply | src/db/version_set.cc:551-575 | accumulating an edit: deletions collect, an added file cancels a pending deletion of its number |
| VersionBuilder.SaveLevel | src/db/version_set.cc:577-627 | the merge loop of base files and added files with its upper-bound steps equals `MergeLevel` |
| VersionBuilder.Builder.SaveTo | src/db/version_set.cc:577-627 | the saved version is `Save` of base and accumulated state, level by level |
| VersionBuilder.MergeMembers | src/db/version_set.cc:577-627 | a saved level holds exactly the files of base and edits that are not deleted |
| VersionBuilder.MergeOrdered | src/db/version_set.cc:577-627 | a saved level is ordered by smallest key and file number |
| VersionBuilder.OrderedUnique | src/db/version_set.cc:522-549 | two levels in that order with the same files are the same sequence, so the order in which edits arrived leaves no trace |
| VersionBuilder.NextEffect | src/db/version_set.cc:551-627 | the next version holds per level exactly the files not removed plus the files added, in order |
| Manifest.ReplayEqualsSteps | src/db/version_set.cc:746-871 | replaying any number of edits through one builder gives the version that installing them one at a time gave |
| Manifest.WriteSnapshot | src/db/version_set.cc:930-953 | the snapshot record lists every file of every level |
| Manifest.SnapshotRebuilds | src/db/version_set.cc:930-953 | applying a version's snapshot record to the empty version gives the version back |
| Manifest.Recover | src/db/version_set.cc:746-871 | recovery returns the replayed version and the last counters, or corruption exactly if the next-file, log or sequence counter never occurred |
| Manifest.FreshManifestRecovers | src/db/version_set.cc:670-871 | a MANIFEST that starts with a snapshot record and continues with logged edits recovers to the version those edits led to, with the counters of the last one |
| Flush.SomeFileOverlapsRange | src/db/version_set.cc:101-127 | the scan (level 0) and the single bisection (sorted level) both answer whether some file meets the range, open ends included |
| Flush.PickLevelForMemTableOutput | src/db/version_set.cc:414-436 | level 0 if a file there meets the range; else the deepest level up to 2 that can be reached without meeting a file on the way or having more than the limit of bytes two levels below a level passed |
| Flush.LevelDetermined | src/db/version_set.cc:414-436 | those conditions leave exactly one level |
| Flush.FlushEdit | src/db/db_impl.cc:493-533 | the flush's edit adds exactly its table |
| Flush.FlushKeepsValid | src/db/db_impl.cc:493-559 | installing a flushed table at the picked level keeps the version valid and adds exactly the table's entries |
| MidCompactionFlush.FlushGrows | src/db/db_impl.cc:988-997 | a flush during a compaction keeps the running compaction's input files in place |
| MidCompactionFlush.InterruptedCompactionKeepsView | src/db/db_impl.cc:988-997 | a compaction installed on a version that flushes have grown meanwhile keeps every reading from the cutoff on, as a set of entries |
| MidCompactionFlush.InterruptedCompactionValid | src/db/db_impl.cc:988-997 | the version installed then is valid if and only if the tables flushed into the output level lie beside the outputs |
| MidCompactionFlush.GapLevel | src/db/version_set.cc:414-436 | in the run of the next row, the compaction's output level is the only level the flush can choose |
| MidCompactionFlush.FlushIntoGapLosesKey | src/db/db_impl.cc:988-997 | a concrete run from a valid version: a compaction of the whole range picks two files, a table is flushed meanwhile into the gap between them (version still valid, key found), the compaction is recorded: the stored key is not found |
| History.InsertInto | src/db/write_batch.cc:107-129 | the memtable stays sorted and gains exactly one entry per operation, under consecutive sequence numbers: a value entry with the value for a put, a deletion entry for a delete |
| History.InsertOpsSorted | src/db/memtable.cc:109-131 | inserting a batch of new numbers keeps the memtable sorted and adds exactly its entries |
| History.WrittenUnique | src/db/db_impl.cc:576-607 | in a contiguous history no sequence number is used twice |
| History.WrittenIsNumbered | src/db/write_batch.cc:107-129 | the entries of a history are exactly those of its operations, operation k under number k + 1 |
| History.ReadsAsStore | src/db/db_impl.cc:1089-1130 | reading a history at sequence number s is looking the key up in the plain map that its first s operations leave, where a put sets a key and a deletion removes it |
| History.LastDecides | src/db/db_impl.cc:1089-1130 | in that map the last operation on a key decides: its value after a put, absent after a deletion or without any |
| Durability.BeginWriteInv | src/db/db_impl.cc:561-585 | starting a write keeps the invariant that ties memory, disk and acknowledged history together |
| Durability.LogWriteInv | src/db/db_impl.cc:586-594 | appending the batch to the log keeps it: what recovery would replay grows by exactly this batch |
| Durability.InsertExtends | src/db/db_impl.cc:594-596 | the memtable stays equal to the batches since the last rotation |
| Durability.ApplyWriteInv | src/db/db_impl.cc:595-607 | inserting into the memtable keeps the invariant |
| Durability.AcknowledgeInv | src/db/db_impl.cc:607-634 | publishing the new last sequence keeps it |
| Durability.RotateInv | src/db/db_impl.cc:713-740 | switching to a new log and memtable keeps it |
| Durability.ViewStack | src/db/db_impl.cc:1089-1130 | newer entries on top of two stores that read alike give stores that read alike |
| Durability.MirrorExtends | src/db/db_impl.cc:493-559 | a table of the next batches on top of a version that reads like a prefix of the history reads like the longer prefix |
| Background.FlushReserveInv | src/db/db_impl.cc:497-499 | reserving the table's file number keeps the invariant |
| Background.FlushBuildInv | src/db/db_impl.cc:501-516 | writing the table file keeps it |
| Background.FlushMirrors | src/db/db_impl.cc:535-559 | a flush carries the current version over exactly the batches of the immutable memtable |
| Background.FlushRecordInv | src/db/version_set.cc:670-744 | recording the flush with the new log number keeps it: the logs dropped from recovery are exactly those the table covers |
| Background.FlushInstallInv | src/db/db_impl.cc:535-559 | dropping the immutable memtable keeps it |
| Background.JobStartInv | src/db/db_impl.cc:972-979 | starting a compaction with the oldest snapshot as cutoff keeps it |
| Background.JobStartCutoff | src/db/db_impl.cc:972-976 | the cutoff of a compaction is the least snapshot held, or the newest sequence number if none is |
| Background.JobOutputInv | src/db/db_impl.cc:874-942 | writing an output file under a reserved number keeps it |
| Background.JobReadsLike | src/db/db_impl.cc:961-1087 | a whole compaction, with flushes between its start and its end, keeps every reading a snapshot can ask for |
| Background.ProducedIsDistilled | src/db/db_impl.cc:978-1062 | the outputs of a compaction step are its merged input, distilled |
| Background.JobRecordInv | src/db/version_set.cc:670-744 | recording the compaction keeps the invariant |
| Background.JobMoveInv | src/db/db_impl.cc:813-827 | a trivial move keeps it |
| Background.JobInstallInv | src/db/version_set.cc:655-668 | making the new version current keeps it |
| Background.JobAbandonInv | src/db/db_impl.cc:859-872 | giving up a compaction and releasing its reserved numbers keeps it |
| Background.SweepInv | src/db/db_impl.cc:255-311 | choosing the files to delete keeps it; which files are chosen is stated by `Removal.SweepMissesNothing` and `Runs.RemovalIsSafe` |
| Background.RemoveTableInv | src/db/db_impl.cc:306-311 | deleting a chosen table, with the lock released and anything happening in between, keeps it |
| Background.WithoutLogReplays | src/db/db_impl.cc:276-279 | deleting a log below the recorded log number changes nothing recovery replays |
| Background.RemoveLogInv | src/db/db_impl.cc:306-311 | deleting a chosen log keeps it |
| Background.PinInv | src/db/db_impl.cc:1132-1155 | an iterator or read that refers to the current version keeps it |
| Background.UnpinInv | src/db/db_impl.cc:68-79 | letting go of a version keeps it |
| Background.TakeSnapshotInv | src/db/db_impl.cc:1186-1189 | taking a snapshot keeps it |
| Background.ReleaseSnapshotInv | src/db/db_impl.cc:1191-1195 | releasing a snapshot keeps it |
| Recovery.RecoverLogFile | src/db/db_impl.cc:387-491 | replaying one log, with the memtable dumped to level 0 whenever it is full, yields tables that hold exactly the batches read so far, in order, under fresh numbers, and the largest sequence number seen; a table is written as soon as the memtable is full, and one for what is left at the end |
| Recovery.RecoverLogs | src/db/db_impl.cc:342-385 | replaying every log from the recorded number on, oldest first, yields tables for exactly the batches after the recorded version |
| Recovery.MaxSequenceIsEnd | src/db/db_impl.cc:443-447 | the largest sequence number of the replayed batches is the end of the history |
| Recovery.StackMirrors | src/db/db_impl.cc:313-385 | the replayed tables on top of the recorded version read like the whole history |
| Recovery.AllAtOnce | src/db/db_impl.cc:313-385 | adding the replayed tables in one edit gives the version that adding them one by one gives |
| Recovery.RecoveredVersion | src/db/db_impl.cc:313-385 | the recovered version reads like the whole history, its files are on disk, and its numbers are below the next one |
| Recovery.RecoveredSequence | src/db/db_impl.cc:372-385 | the recovered sequence counter is the end of the history |
| Recovery.CrashInv | src/db/db_impl.cc:313-385 | losing all memory at any step keeps the invariant of what is on disk |
| Recovery.LeftoverInv | src/db/db_impl.cc:255-311 | a stray table file keeps it |
| Recovery.LeftoverLogInv | src/db/db_impl.cc:1381-1393 | a new log created by an open that did not finish keeps it |
| Recovery.RecoverInv | src/db/db_impl.cc:1372-1414 | reopening re-establishes the invariant of a running database |
| Recovery.Open | src/db/db_impl.cc:1372-1414 | recover, start a log, record the edit: the state reached is one the recovery step allows |
| Runs.InitInv | src/db/db_impl.cc:210-245 | a new database satisfies the invariant |
| Runs.StepInv | src/db/db_impl.cc:255-1195 | every step of writer, flush, compaction, file removal, readers, crash and recovery keeps it |
| Runs.RunInv | src/db/db_impl.cc:255-1195 | every state of every run satisfies it |
| Runs.StateReadsHistory | src/db/db_impl.cc:1089-1155 | in every reachable state memtables are sorted, the version is valid, newer tiers are above older ones, and together they read as the acknowledged history |
| Runs.GetReadsHistory | src/db/db_impl.cc:1089-1130 | a read at any snapshot the state allows returns the newest acknowledged entry at or below it |
| Runs.ReadsAreStore | src/db/db_impl.cc:1089-1130 | in every reachable state of every run, a read at the counter or at a live snapshot s is a lookup in the plain map that the first s acknowledged operations leave |
| Runs.AcknowledgedSurvives | src/db/db_impl.cc:561-634 | whatever was acknowledged at some moment stays in the history, in order, at every later moment, through compactions, crashes and recoveries |
| Runs.RecoveryRestores | src/db/db_impl.cc:313-491 | after a crash and the recovery that ends it, everything acknowledged before is there again, at most the group being written comes on top as a whole, and every read is a lookup in the plain map those operations leave |
| Runs.AcknowledgedIsStored | src/db/db_impl.cc:535-559 | in every reachable state each acknowledged batch is covered by the recorded version or is in a log at or above the recorded number |
| Runs.WriteReadsBack | src/db/db_impl.cc:1089-1130 | an operation acknowledged earlier in a run and not followed by another on its key reads back at any later moment, across crashes: a put as its value, a deletion as absent |
| Runs.UnwrittenIsAbsent | src/db/db_impl.cc:1089-1130 | a key that no acknowledged operation is on reads as absent |
| Runs.SnapshotIsFixed | src/db/db_impl.cc:1186-1195 | a snapshot that is still held reads, for every key, as the database read when it was taken, whatever was written, flushed, compacted or removed since |
| Runs.CompactionsDistill | src/db/db_impl.cc:961-1087 | in every run, what a compaction installs is its input without old versions and spent deletions, all of them |
| Runs.EndOfHistory | src/db/db_impl.cc:595-607 | no acknowledged entry is numbered above the counter that new writes continue from |
| Runs.LiveFilesStay | src/db/version_set.cc:997-1006 | in every reachable state every file of every version anyone refers to is on disk with its contents |
| Runs.RemovalIsSafe | src/db/db_impl.cc:255-311 | in every reachable state a table about to be deleted is used by no referenced version and written by no one, and a log about to be deleted is below the first one recovery reads |
| Removal.AddLiveFiles | src/db/version_set.cc:997-1006 | the loop over versions, levels and files collects exactly the numbers in use by some version or pending |
| Removal.ObsoleteFiles | src/db/db_impl.cc:255-298 | of the files in the directory exactly these are chosen: tables and temporary files not in use, logs before the recorded one that are not the previous one, and old MANIFESTs |
| Removal.ChoosingIsSweep | src/db/db_impl.cc:255-298 | that choice is the step of the state machine |
| Removal.SweepMissesNothing | src/db/db_impl.cc:255-298 | after the choice every table not chosen is used by a live version or pending, and every log not chosen is at or above the recorded number |
| Removal.SweptIsClean | src/db/db_impl.cc:300-311 | once the chosen files are removed with no other step between, the tables on disk are exactly those of before that are in use, and the logs exactly those recovery needs |
| Removal.CleanUp | src/db/db_impl.cc:255-311 | from every reachable state with no edit under way a run leads there |
| Progress.WriteCompletes | src/db/db_impl.cc:561-634 | from every reachable state with no writer at work any operations can be written and acknowledged, under the next sequence numbers |
| Progress.WriteTakesEffect | src/db/db_impl.cc:561-634 | and then every key reads as the plain map with those operations done on it |
| Progress.RotateCompletes | src/db/db_impl.cc:714-745 | a memtable can be made immutable whenever none is waiting |
| Progress.FlushCompletes | src/db/db_impl.cc:535-559 | a waiting memtable can be flushed when the background thread is free: its table is in the version at the level chosen for it, the log is released, the number no longer pending |
| Progress.DrainCompletes | src/db/db_impl.cc:535-559 | so everything acknowledged can be brought into tables |
| Progress.CompactionCompletes | src/db/db_impl.cc:785-837 | fitting inputs can be compacted when the thread is free: the edit is installed, the outputs are the input distilled |
| Progress.MoveCompletes | src/db/db_impl.cc:813-827 | a lone file can be moved one level down |
| Progress.OpenCompletes | src/db/db_impl.cc:313-491 | a database that is down can be opened again with everything acknowledged |
| Progress.CrashAndOpen | src/db/db_impl.cc:313-491 | a crash at any moment followed by an open gives what was acknowledged and at most the logged group on top |
| Progress.SnapshotTaken | src/db/db_impl.cc:1186-1189 | a snapshot can be taken at any moment |
| Progress.VersionPinned | src/db/db_impl.cc:1132-1155 | the current version can be pinned at any moment |
| Progress.LetGo | src/db/db_impl.cc:1191-1195 | a snapshot can be released, a version let go, a compaction given up with its numbers |
| GroupCommit.BuildBatchGroup | src/db/db_impl.cc:636-674 | the longest allowed prefix of the queue, with its operations in order: at most 128 KiB more than a leader of up to 128 KiB, at most 1 MiB for a larger one, no sync writer behind a leader without, and it ends early only where the next writer would break one of these |
| GroupCommit.LeadInv | src/db/db_impl.cc:561-594 | forming a group keeps the queue invariant |
| GroupCommit.CommitInv | src/db/db_impl.cc:595-634 | committing it, with the followers woken, keeps it |
| GroupCommit.RunInv | src/db/db_impl.cc:561-674 | in every run writers complete exactly once and in order of arrival, groups take consecutive sequence numbers, and no writer that asks for a sync is in a group whose leader does not |
| GroupCommit.AllOrNone | src/db/db_impl.cc:595-607 | at the published counter a reader sees all of a writer's batch or none of it |
| GroupCommit.WriterIsWritten | src/db/db_impl.cc:561-634 | operation j of a completed writer is the operation of the history at that writer's own offset plus j |
| GroupCommit.ReadsAsQueue | src/db/db_impl.cc:561-634 | in every run a reader at the counter sees the plain map that the batches of the completed writers leave, in order of arrival |
| GroupCommit.AllComplete | src/db/db_impl.cc:561-634 | from every reachable state every writer that has arrived can complete |
| DbIter.ShownIsView | src/db/db_iter.cc:175-204 | an entry the iterator shows is what its key reads as at the snapshot |
| DbIter.ViewIsShown | src/db/db_iter.cc:175-204 | every key that reads as something is shown |
| DbIter.NextIsNextKey | src/db/db_iter.cc:139-173 | the entry after the current one in showing order is the least key of the map above it, with nothing between |
| DbIter.PrevIsPrevKey | src/db/db_iter.cc:206-230 | the entry before it is the greatest key of the map below it |
| DbIter.SeekIsSeekKey | src/db/db_iter.cc:274-285 | seeking lands on the least key of the map at or above the target |
| DbIter.EndsAreEndKeys | src/db/db_iter.cc:287-303 | the two ends are the least and the greatest key of the map |
| DbIter.DBIter.FindNextUserEntry | src/db/db_iter.cc:175-204 | the scan over newer, deleted and overwritten entries ends at the first shown entry |
| DbIter.DBIter.FindPrevUserEntry | src/db/db_iter.cc:232-272 | the backward scan with its saved key and value ends at the last shown entry before |
| DbIter.DBIter.Next | src/db/db_iter.cc:139-173 | one step forward, also after moving backward, shows the next key of the map |
| DbIter.DBIter.Prev | src/db/db_iter.cc:206-230 | one step backward, also after moving forward, shows the previous key of the map |
| DbIter.DBIter.Seek | src/db/db_iter.cc:274-285 | shows the first key at or above the target |
| DbIter.DBIter.SeekToFirst | src/db/db_iter.cc:287-296 | shows the first key |
| DbIter.DBIter.SeekToLast | src/db/db_iter.cc:298-303 | shows the last key |
| MapCursors.Step | src/db/db_iter.cc:139-303 | one move of the iterator, in either direction and after either, is the move of a cursor on a finite map from keys to what they read as |
| MapCursors.Drive | src/db/db_iter.cc:139-303 | every sequence of moves shows, move by move, what a cursor on that map shows |
| MapCursors.MovesDetermined | src/db/db_iter.cc:139-303 | the map determines where each move leads |
| Iteration.WalksHistory | src/db/db_impl.cc:1132-1177 | in every reachable state the iterator's children merge into one sorted run that reads as the plain map the acknowledged operations leave |
| Iteration.Iterate | src/db/db_impl.cc:1168-1177 | every sequence of moves of an iterator made in any reachable state, at the counter or at a live snapshot, shows what a cursor on that plain map shows |
| Merging.SmallestIsNext | src/table/marger.cc:127-140 | the smallest of the children's current keys is the next entry of the merged run |
| Merging.LargestIsLast | src/table/marger.cc:142-155 | the largest of the children's keys behind is the last entry before |
| Merging.TakeOne | src/table/marger.cc:54-90 | moving one child over that entry moves the cut of the merged run by one |
| Merging.MergingIterator.FindSmallest | src/table/marger.cc:127-140 | the current child stands on the merged run's next entry, or none does at the end |
| Merging.MergingIterator.FindLargest | src/table/marger.cc:142-155 | the mirror image for going backward |
| Merging.MergingIterator.Seek | src/table/marger.cc:46-52 | stands on the first merged entry at or after the target |
| Merging.MergingIterator.SeekToFirst | src/table/marger.cc:30-36 | stands on the first merged entry |
| Merging.MergingIterator.SeekToLast | src/table/marger.cc:38-44 | stands on the last merged entry |
| Merging.MergingIterator.TurnForward | src/table/marger.cc:54-70 | changing direction repositions every other child so that the shown entry stays and the children are cut there |
| Merging.MergingIterator.Next | src/table/marger.cc:54-70 | from entry `k` of the merged run to entry `k + 1`, whatever the direction before |
| Merging.MergingIterator.Prev | src/table/marger.cc:72-90 | from entry `k` to entry `k - 1`, whatever the direction before |
| InputIterators.LevelIterates | src/db/version_set.cc:129-192 | the files of a sorted level, found by their largest keys, are blocks of a two-level iterator over all the level's entries |
| InputIterators.InputsMerge | src/db/version_set.cc:1059-1085 | the children made for a compaction, level-0 tables one by one and other inputs one run a level, merge into the run that the drop rule is applied to |
| InputIterators.ReadsMerge | src/db/db_impl.cc:1132-1155 | memtables, level-0 tables and one run per deeper level are children of a merging iterator over everything they hold |
| TwoLevelIterators.TwoLevelIterator.Seek | src/table/two_level_iterator.cc:82-87 | stands where a seek in the concatenation of all blocks would land |
| TwoLevelIterators.TwoLevelIterator.SeekToFirst | src/table/two_level_iterator.cc:89-94 | stands on the first entry of all blocks |
| TwoLevelIterators.TwoLevelIterator.SeekToLast | src/table/two_level_iterator.cc:96-101 | stands on the last one |
| TwoLevelIterators.TwoLevelIterator.Next | src/table/two_level_iterator.cc:103-107 | moves to the next entry across block borders and empty blocks |
| TwoLevelIterators.TwoLevelIterator.Prev | src/table/two_level_iterator.cc:109-113 | moves to the previous one |
| TwoLevelIterators.TwoLevelIterator.SkipForward | src/table/two_level_iterator.cc:115-125 | empty and exhausted blocks are skipped to the first entry left |
| TwoLevelIterators.TwoLevelIterator.SkipBackward | src/table/two_level_iterator.cc:127-137 | and backward to the last entry before |
| TwoLevelIterators.SeekPlace | src/table/two_level_iterator.cc:82-87 | the block the index names for a target holds the target's place among all entries |
| TwoLevelIterators.TableIterates | src/table/table.cc:161-164 | a built table's index fits this iterator, which therefore walks exactly the rows added |
| Coding.FixedRoundTrip | src/util/coding.h:28-64 | decoding a fixed-width integer gives back every integer that fits |
| Coding.EncodeVarint | src/util/coding.cc:89-109 | the encoding loop writes seven bits a byte, low ones first |
| Coding.DecodeVarint | src/util/coding.cc:111-142 | the decoding loop equals the recursive definition on every input |
| Coding.Varint32RoundTrip | src/util/coding.cc:27-54 | every 32-bit integer is read back, leaving what followed it |
| Coding.Varint64RoundTrip | src/util/coding.cc:33-65 | every 64-bit integer is read back, leaving what followed it |
| Coding.LengthPrefixedRoundTrip | src/util/coding.cc:39-78 | every slice shorter than 4 GiB is read back, leaving what followed it |
| Keys.RankEmbedsOrder | include/slice.h:64-76 | numbers order byte strings exactly as the bytewise comparator does |
| Keys.ParseRoundTrip | src/db/dbformat.h:131-141 | parsing an encoded internal key gives it back |
| Keys.EncodingRefinesOrder | src/db/dbformat.cc:47-66 | comparing encoded internal keys is comparing user key, then sequence and type descending |
| Separators.FindShortestSeparator | src/util/comparator.cc:30-50 | for ordered keys the result is from the first on and below the second; it is cut after the first differing byte, raised by one, exactly if there is room for that below the second key, and unchanged otherwise |
| Separators.FindShortSuccessor | src/util/comparator.cc:52-62 | the first byte that is not 0xff is raised by one and the rest cut; the result is above the key and no key above it is shorter; only a key of all 0xff is left as it is |
| Separators.InternalSeparator | src/db/dbformat.cc:68-79 | the internal separator is at or above one key and below the other; it has the shortened user key with the largest sequence number exactly if shortening makes it shorter |
| Separators.InternalSuccessor | src/db/dbformat.cc:81-90 | the internal successor is at or above the key, and shorter whenever some byte before the last is not 0xff |
| Crc32c.Extend | src/util/crc32c.cc:32-45 | the complement of the result is the remainder, on division by the generator of section 12.1 of RFC 3720, of the message moved up by 32 places with the complement of the given checksum added to its first 32 coefficients, bits reflected |
| Crc32c.ExtendByte | src/util/crc32c.cc:18-30 | the register becomes the remainder of itself moved up by eight places, with the byte added to its leading coefficients |
| Crc32c.RunIsCongruent | src/util/crc32c.cc:32-45 | the register after a message is congruent, modulo the generator, to the message moved up by 32 plus the register before it moved up by the length of the message |
| CrcPolynomials.RemainderUnique | src/util/crc32c.cc:16-45 | division by the generator leaves one remainder |
| CrcPolynomials.ChecksumUnique | src/util/crc32c.cc:32-45 | so the characterization determines the checksum |
| CrcVectors.NineDigits | tests/crc32c_test.cc:11-13 | the checksum of "123456789" is 0xe3069283 |
| CrcVectors.Zeros | src/util/crc32c.cc:32-45 | the checksum of 32 zero bytes is the one of appendix B.4 of RFC 3720 |
| CrcVectors.Ones | src/util/crc32c.cc:32-45 | so is that of 32 bytes 0xff |
| Crc32c.ExtendConcat | src/util/crc32c.h:18-28 | extending the checksum of one string by another gives the checksum of both |
| Crc32c.OneByteDetected | src/util/crc32c.cc:18-45 | two strings that differ in one byte have different checksums |
| Crc32c.StoredRoundTrip | src/util/crc32c.h:31-41 | masking, storing, loading and unmasking gives the checksum back |
| Wal.FragmentsFit | src/db/log_writer.cc:31-71 | every fragment of a record fits into the block it starts in |
| Wal.FragmentsSpell | src/db/log_writer.cc:31-71 | the fragments of a record are typed full, or first, middle and last, and their payloads join to the record |
| Wal.LayAt | src/db/log_writer.cc:31-94 | each fragment's bytes stand at its start, inside one block |
| Wal.Writer.EmitPhysicalRecord | src/db/log_writer.cc:73-94 | checksum, length, type and payload are appended |
| Wal.Writer.AddRecord | src/db/log_writer.cc:31-71 | a record is appended as the layout of its fragments, block trailers filled with zeros |
| Wal.WriteLog | src/db/log_writer.cc:31-94 | a file of records is the layout of all their fragments |
| Wal.Reader.ReadPhysicalRecord | src/db/log_reader.cc:149-213 | on a log cut off anywhere, the next fragment is returned intact or the file has ended |
| Wal.Reader.ReadRecord | src/db/log_reader.cc:56-147 | on a log cut off anywhere, the next record is returned if it was written completely and none otherwise; nothing is reported as corrupt; and on any bytes whatever, with checksums on, a record returned is spelled by intact fragments of the file, each with its own length and checksum |
| Wal.DispatchAuthentic | src/db/log_reader.cc:56-147 | whatever comes out of a fragment is a record spelled by intact fragments, one marked whole or a first, middle ones and a last, or the beginning of one |
| Wal.ReadLog | src/db/log_reader.cc:56-213 | for every list of records and every prefix of their log: exactly the records wholly inside the prefix are read, in order, without a corruption report |
| Blocks.LengthsRoundTrip | src/table/block.cc:48-71 | the one-byte path and the varint path both decode the three lengths that were written |
| Blocks.SharedPrefix | src/table/block_build.cc:40-53 | the loop finds the longest common prefix |
| Blocks.BlockBuilder.Add | src/table/block_build.cc:40-74 | each entry shares its longest prefix with the key before, except at every restart interval |
| Blocks.BlockBuilder.CurrentSizeEstimate | src/table/block_build.cc:27-29 | the estimate is exactly the size of the block finished now |
| Blocks.BlockBuilder.Finish | src/table/block_build.cc:31-38 | the finished block is the layout of entries, restart offsets and their number |
| Blocks.BuildBlock | src/table/block_build.cc:31-74 | the block built from any entries is a good layout of exactly those entries |
| Blocks.OpenBlock | src/table/block.cc:15-35 | the trailer gives back where the entries end and how many restarts there are |
| Blocks.EntryAt | src/table/block.cc:48-71 | the bytes at an entry's offset decode to what the entry shares, its key and its value |
| Blocks.RestartAt | src/table/block.cc:97-100 | word `r` of the restart array is the offset of its entry |
| Blocks.Iter.ParseNextKey | src/table/block.cc:247-271 | the next entry's key is rebuilt from the key before it, and its value located |
| Blocks.Iter.SeekToFirst | src/table/block.cc:142-145 | stands on the first entry |
| Blocks.Iter.Next | src/table/block.cc:137-140 | stands on the next entry |
| Blocks.Iter.SeekToLast | src/table/block.cc:147-154 | stands on the last entry |
| Blocks.Iter.Prev | src/table/block.cc:218-234 | stands on the entry before, by way of the restart point before it |
| Blocks.Iter.SearchRestarts | src/table/block.cc:156-208 | the binary search over restart keys ends at the last one below the target |
| Blocks.Iter.Seek | src/table/block.cc:156-216 | stands on the first entry not below the target, wherever the iterator stood, for every strict order the entries are in |
| Blocks.ScanBlock | src/table/block.cc:137-271 | walking a finished block yields exactly the entries put in |
| TableFormat.HandleRoundTrip | src/table/format.cc:19-32 | a block handle is read back, leaving what follows it |
| TableFormat.FooterRoundTrip | src/table/format.cc:34-69 | the footer has its fixed size and gives both handles back |
| TableFormat.WriteRawBlock | src/table/table_builder.cc:199-218 | contents, type and masked checksum are appended and the handle says where |
| TableFormat.ReadBlock | src/table/format.cc:71-111 | contents that were written are read back, with or without checksum verification; in general a block is read exactly if it is in the file, its type is known and, when looked at, its checksum is right |
| TableKeys.InternalStrict | src/db/dbformat.cc:47-66 | the internal-key comparator is a strict total order on byte strings |
| TableKeys.BoundIsSeek | src/table/block.cc:156-216 | seeking an encoded key in a block of rows is seeking the key among the rows' entries |
| TableFiles.TableBuilder.constructor | src/table/table_builder.cc:44-86 | an empty builder |
| TableFiles.TableBuilder.Add | src/table/table_builder.cc:105-137 | a row above all before is appended; its user key goes to the filter, its encoding to the data block, and blocks, index, filter and file stay in step; the block is written exactly when it has reached the block size |
| TableFiles.TableBuilder.IndexPending | src/table/table_builder.cc:113-123 | the index entry of the block before: a key that separates it from the new row, and its handle |
| TableFiles.TableBuilder.Flush | src/table/table_builder.cc:139-154 | the data block is written and its handle kept; the filter starts the next block at the new offset; no row is lost |
| TableFiles.TableBuilder.WriteBlock | src/table/table_builder.cc:156-197 | the finished block stands framed at the handle and everything before it stays |
| TableFiles.TableBuilder.FinishFilter | src/table/table_builder.cc:231-234 | the filter block written denies no row at its block's offset |
| TableFiles.TableBuilder.Finish | src/table/table_builder.cc:224-276 | the finished file holds a table of exactly the rows added: data blocks, separating index, filter under its name, footer |
| TableReading.Open | src/table/table.cc:32-124 | the footer leads to the index, and the metaindex to the filter exactly if the reader's policy has its name |
| TableReading.InternalGet | src/table/table.cc:166-193 | on the bytes of a built file, index seek, filter, block read and block seek give what a lookup in all its rows gives |
| TableReading.BuildTable | src/db/builder.cc:16-60 | the file built from sorted rows holds exactly those rows |
| TableReading.BuildAndGet | src/table/table.cc:166-193 | building, opening and looking up gives what the rows give, whatever block size, restart interval, filter and checks |
| Tables.InternalGetIsTableGet | src/table/table.cc:166-193 | index seek, filter and one block give what a lookup in all rows gives, if the filter has no false negatives |
| Filters.SetProbes | src/util/bloom.cc:39-49 | exactly the probes of the key are set in addition |
| Filters.CreateFilter | src/util/bloom.cc:24-51 | the filter appended to the output matches every key: its last byte is the number of probes, 0.69 times the bits per key within 1 and 30, its size at least 64 bits and the bits per key times the keys rounded up to bytes, and its bits are exactly the probes of the keys |
| Filters.BloomMayMatch | src/util/bloom.cc:53-75 | matching tests exactly the bits at the hash plus multiples of its rotation, modulo 2^32 and the size, with the empty and reserved filters as the code has them |
| Filters.ProbeClosed | src/util/bloom.cc:41-48 | the hash after j additions with wrap-around is the hash plus j times its rotation modulo 2^32 |
| Filters.DeltaRotates | src/util/bloom.cc:42-43 | the second hash is the first rotated right by 17 bits |
| Filters.BitPlace | src/util/bloom.cc:45-46 | bit p is bit p modulo 8, the lowest being 0, of byte p / 8 |
| Filters.FilterBlockBuilder.StartBlock | src/table/filter_block.cc:29-36 | filters are generated up to the block's 2 KiB region |
| Filters.FilterBlockBuilder.AddKey | src/table/filter_block.cc:38-42 | the key counts for the current block offset |
| Filters.FilterBlockBuilder.GenerateFilter | src/table/filter_block.cc:59-82 | the pending keys become one filter, an empty one if there are none |
| Filters.FilterBlockBuilder.Finish | src/table/filter_block.cc:44-57 | every key added under a block offset may match at that offset in the finished block |
| Filters.KeyMayMatch | src/table/filter_block.cc:84-110 | the reader parses the offset array and tests one filter |
| Filters.GroupMayMatch | src/table/filter_block.cc:97-110 | no false negatives: a key of a region may match at every offset of the region |
| SkipLists.FindGreaterOrEqual | src/db/skiplist.h:227-246 | without interference the search finds, at each level, the last node below the key, and at the bottom the first that is not |
| SkipLists.SearchChooses | src/db/skiplist.h:298-304 | for a key not in the list the search gives the predecessors the insertion needs |
| SkipLists.SearchEnables | src/db/skiplist.h:298-311 | the search for an absent key yields exactly what the insertion step demands |
| SkipLists.ChooseInv | src/db/skiplist.h:298-311 | choosing height and predecessors keeps the list invariant |
| SkipLists.RaiseHeightInv | src/db/skiplist.h:306-312 | publishing a new height keeps it |
| SkipLists.NewNodeInv | src/db/skiplist.h:315 | a node not yet linked keeps it |
| SkipLists.StoreOwnInv | src/db/skiplist.h:317 | the new node's own pointer keeps it |
| SkipLists.LinkInv | src/db/skiplist.h:318 | linking the node into one level keeps it: sorted levels, each a sub-list of the one below |
| SkipLists.LoadInv | src/db/skiplist.h:227-285 | each load keeps the reader on the list behind its target |
| SkipLists.StoreOwnEnabled | src/db/skiplist.h:317 | the store of the new node's own pointer is always possible |
| SkipLists.LinkEnabled | src/db/skiplist.h:318 | the store that links it is always possible: its place has not changed since the search |
| SkipLists.LoadEnabled | src/db/skiplist.h:227-285 | a search can always go on |
| SkipLists.Insert | src/db/skiplist.h:298-320 | the insertion is a run of such steps, one per store, and puts the key in its place on the bottom list |
| SkipLists.InsertIsMemtableInsert | src/db/memtable.cc:109-131 | inserting into the skip list is inserting into the sorted run the rest of the model takes a memtable to be |
| SkipLists.RunInv | src/db/skiplist.h:227-320 | after every single store and load of every interleaving of one writer with a reader the invariant holds |
| SkipLists.SearchReturnsLeast | src/db/skiplist.h:227-285 | however its loads interleave with the writer's stores, a search returns the least key at or after its target, and the last below it (of the whole list, when it looks for the end), as of its last load |
| SkipLists.LinkedStays | src/db/skiplist.h:298-320 | a node a reader can meet at the bottom level stays there |
| SkipLists.ChainsUnique | src/db/skiplist.h:298-320 | memory determines the levels |
| HandleTables.FindPointer | src/util/cache.cc:85-92 | the first handle of the chain with the key and hash, or its end |
| HandleTables.HandleTable.Lookup | src/util/cache.cc:51-53 | the handle of the key, or none exactly if the table has none |
| HandleTables.HandleTable.Insert | src/util/cache.cc:55-67 | the handle is added, or takes the place of the one with its key, which is returned |
| HandleTables.HandleTable.Remove | src/util/cache.cc:69-78 | exactly the handle of the key is removed and returned |
| HandleTables.HandleTable.Resize | src/util/cache.cc:94-118 | the handles are the same after rehashing; there are at least as many chains as handles, the least power of two from 4 on |
| LruCaches.LRUCache.Lookup | src/util/cache.cc:200-207 | a hit is the cached handle of the key; the client holds one more reference and the handle is no longer evictable; a miss changes nothing; no handle changes its key or charge, and usage stays |
| LruCaches.LRUCache.Release | src/util/cache.cc:209-212 | a cached handle that its last client lets go becomes evictable, last in line; one that is no longer cached is deleted; every other handle and the usage stay |
| LruCaches.LRUCache.Insert | src/util/cache.cc:214-249 | the new handle has the key, hash and charge given and is cached unless capacity is 0; usage grows by its charge and shrinks by those of the handle replaced and the handles evicted; every other handle keeps its key and charge; unused handles are evicted oldest first, no more than needed, until usage fits or none is left |
| LruCaches.LRUCache.Erase | src/util/cache.cc:274-277 | exactly the key's handle leaves the table and usage shrinks by its charge; it is deleted unless a client holds it |
| LruCaches.LRUCache.EvictOldest | src/util/cache.cc:239-246 | the handle unused for longest is evicted and its charge given back |
| LruCaches.WithoutAt | src/util/cache.cc:187-190 | a handle is unlinked where it stands; the order of the others is kept |
| LruCaches.LRUCache.Prune | src/util/cache.cc:279-289 | exactly the handles that no client holds go, and usage shrinks by their charges |
| LruCaches.LookupOk | src/util/cache.cc:165-171 | one more reference keeps the counts, lists, charges and table consistent |
| LruCaches.ReleaseOk | src/util/cache.cc:173-185 | giving one back keeps them |
| LruCaches.EraseOk | src/util/cache.cc:263-272 | taking a handle out of the table keeps them; it is deleted exactly once, when no one holds it |
| LruCaches.ReplaceOk | src/util/cache.cc:228-234 | so does replacing a handle by one with the same key |
| WriteBatches.RecordReads | src/db/write_batch.cc:34-71 | a record is read back, leaving what follows it |
| WriteBatches.Iterate | src/db/write_batch.cc:34-71 | iterating the representation of a batch hands over exactly its operations, and the count agrees |
| WriteBatches.WriteBatch.Add | src/db/write_batch.cc:89-100 | one more record, the count raised, the representation that of the longer batch |
| WriteBatches.WriteBatch.Append | src/db/write_batch.cc:136-140 | the representation of both batches' operations in order |
| WriteBatches.WriteBatch.SetSequence | src/db/write_batch.cc:85-87 | the sequence number in place, the records as they were |
| WriteBatches.WriteBatch.SequenceIs | src/db/write_batch.cc:73-83 | the header fields read back as sequence number and count |
| VersionEdits.FieldReads | src/db/version_edit.cc:97-172 | tag and body of every kind of field are read back, leaving what follows |
| VersionEdits.EncodeTo | src/db/version_edit.cc:33-76 | the record lists scalars, compaction pointers, deletions and additions |
| VersionEdits.DecodeFrom | src/db/version_edit.cc:97-194 | decoding an encoded list of fields collects exactly those fields |
| VersionEdits.CollectFields | src/db/version_edit.cc:33-194 | the fields of an edit make up the edit again, whatever the order of its deletions |
| VersionEdits.RoundTrip | src/db/version_edit.cc:33-194 | encoding and decoding an edit gives the edit back |
| Layouts.Fixed32Bytes | src/util/coding.h:28-35 | four bytes, the lowest first |
| Layouts.Fixed64Bytes | src/util/coding.h:37-48 | eight bytes, the lowest first |
| Layouts.VarintBytes | src/util/coding.cc:89-109 | small numbers are one byte; two bytes hold seven bits each, low ones first, with the continuation bit on the first |
| Layouts.LogHeader | src/db/log_writer.cc:73-94 | a fragment on disk: four bytes of masked checksum of type and payload, two of length, the type, the payload |
| Layouts.LogTypes | src/db/log_format.h:5-15 | the type is 1 for a whole record, else 2 for the first fragment, 4 for the last and 3 between |
| Layouts.LogBlocks | src/db/log_writer.cc:31-71 | blocks are 32768 bytes: a fragment starts where seven bytes are left, after zeros if fewer were, and fills the block unless it is the last |
| Layouts.FooterBytes | src/table/format.cc:34-43 | the footer is 48 bytes: four varints, zeros up to 40, and the magic number, lowest byte first |
| Layouts.BlockTrailer | src/table/table_builder.cc:199-219 | after a block come the type byte 0 and the masked checksum of block and type |
| Layouts.KeyBytes | src/db/dbformat.cc:16-25 | an internal key is the user key, a byte 0 for a deletion or 1 for a value, and seven bytes of sequence number |
| Layouts.BatchBytes | src/db/write_batch.cc:73-87 | a batch is eight bytes of sequence number, four of count, and its records |
| Layouts.RecordBytes | src/db/write_batch.cc:89-100 | a record is the byte 1, key and value for a put, the byte 0 and the key for a deletion, each string after its length |
| Layouts.FieldBytes | src/db/version_edit.cc:6-76 | the fields of an edit with their tags 1 to 7 and 9 |
| Layouts.MaskValues | src/util/crc32c.h:24-35 | masking rotates right by 15 bits and adds 0xa282ead8 |

## Left out

- Levels.GetReadsView: table contents are carried inside the file datatype; opening tables through the table cache, and the statistics that trigger seek compactions, are not modelled.
- Keys.RankEmbedsOrder: the step from byte strings to ranks is proved for the bytewise comparator only; other user comparators are not modelled.
- CompactionWork.DoCompactionWork: how many bytes a table of some entries takes so far is a function parameter, and so are the two limits.
- CompactionWork.KeptAreSurvivors: the smallest snapshot is below the maximal sequence number, as every allocated number is.
- Picking.PickCompaction: the floating-point compaction scores and the seek budget that choose level or file are parameters.
- Flush.SomeFileOverlapsRange: stored sequence numbers are at most the maximal one, which the search key assumes.
- MidCompactionFlush.InterruptedCompactionKeepsView: about the entries as a set; lookups agree with it only under the condition of `InterruptedCompactionValid`.
- Runs.RunInv: a crash loses memory, not completed appends; loss of unsynced bytes is treated for single logs in `Wal.ReadLog`. Compactions are recorded only while `FlushesClear` holds.
- Removal.ObsoleteFiles: file names are taken as parsed; the parsing of names is not modelled.
- CrcVectors.Zeros: of the messages of appendix B.4 of RFC 3720 only the two constant ones are computed; the others follow from the characterization of `Crc32c.Extend`.
- Progress.CompactionCompletes: about compactions that write at most one output and are not interrupted by a flush.
- Runs.StepInv: the compaction step picks any fitting inputs; when a compaction is due is not part of the state machine.
- Recovery.Open: the MANIFEST write of an open is one atomic step; an open that fails earlier is a crash with leftover files. Log reuse, missing-file checks and repair are not modelled.
- Manifest.Recover: the checks on comparator name and the reuse of a MANIFEST file are not modelled.
- VersionEdits.DecodeFrom: proved for encoded edits; which message a malformed record gets is not stated.
- VersionEdits.EncodeTo: deletions come in an order the contract leaves open.
- WriteBatches.Iterate: proved for encoded batches; which error a malformed batch gets is not stated.
- Wal.Reader.ReadRecord: after damage in the middle of a log it is stated that only intact records come back, not how much is skipped and reported; reading from an initial offset is not modelled.
- Blocks.Iter.Seek: about blocks that were built, below 4 GiB; the corruption status for other bytes is not stated.
- Tables.InternalGetIsTableGet: about rows; `TableReading.InternalGet` is the lookup on bytes.
- TableFiles.TableBuilder.Finish: blocks are written uncompressed.
- TableReading.InternalGet: about files that were built and are below 4 GiB; the status that damaged files get is not stated.
- TableReading.Open: about files that were built and are below 4 GiB; the status that damaged files get is not stated.
- InputIterators.LevelIterates: a file's iterator is its run of entries; opening it through the table cache is not modelled.
- Iteration.Iterate: the iterator walks what the memtable held when it was made; entries added to that memtable later are above its sequence number.
- Filters.CreateFilter: the hash is an arbitrary function, so false-positive rates are not stated.
- Filters.FilterBlockBuilder.Finish: the guarantee is for filter blocks below 4 GiB.
- SkipLists.RunInv: nodes are indices; loads and stores are sequentially consistent, so the acquire and release orderings are not modelled; one reader at a time is followed.
- HandleTables.HandleTable.Resize: chains are sequences and the bucket is the hash modulo the number of chains, which is a power of two.
- LruCaches.LRUCache.Insert: the two circular lists are sequences; the shard lock and the sharding by hash are not modelled.
- Durability.RotateInv: waiting and slowing down before a rotation is not modelled, only the rotation.
- GroupCommit.RunInv: the log write and memtable insert of a group are one step here; `Durability` splits them.
- DbIter.DBIter.Seek: the inner iterator is a position in a sorted run, which is what `Merging` proves the merging iterator to be; the read-sampling of keys for seek compactions is not modelled.
- I/O errors, background errors and the paths that follow them.
- Compression of blocks, the arena, the thread pool and file system environment, option parsing, the C binding, benchmarks and tools: they would add no harder properties.
