# LevelDB, modelled and proved in Dafny

This project models LevelDB's storage engine and proves what it promises: reads through many layers agree with one
plain specification, compaction cannot be seen by any live snapshot, the database survives crashes between any two
steps, and the parts underneath (iterator, skip list, log format, checksums, codecs, group commit) do what the engine
relies on.

`dafny verify dfyconfig.toml` checks the whole project with Dafny 4.11.

## How it is built

**The engine.** `Engine` is a state machine over what is in memory and on disk. A step is a section of code run under
the mutex, or one file operation done outside it. Writers, readers, snapshots and one background thread interleave
freely; a crash may come between any two steps, may cut the unsynced tail of every log, and may leave a log or the
manifest torn in the middle of a record. `EngineInvariant` states the invariant, `EngineWrites`, `EngineFlush`,
`EngineMerge`, `EngineDisk`, `EngineRecovery` and `EngineTears` prove it step by step, `EngineRecords` follows the
edits in the manifest, `EngineRuns` puts the steps together, `EngineTheorems`, `EngineDurability`, `EngineCrashes` and
`EngineGarbage` hold the results about whole runs, and `EngineLosses` and `EngineMissing` the runs in which writes are
lost. The specification of reads is a map: `Maps.Fold` puts and deletes one operation after the other. Between the two
is `Keys.View`: the value of a user key at a sequence number is that of the newest entry at or below it, nothing if that
is a deletion. *History* is the set of all logged writes that no crash has taken; `EngineMaps` proves it to be a list of
operations in order and to show their map, `EngineReads` and `CommitReads` that reads follow the operations that are
published, and so the writes that are acknowledged. A run is *sound* if recovery never appends to a torn manifest;
unless it says so, a result is about all runs.

**The algorithms.** What the state machine takes as given about a step is proved of the code that does it, in the
code's own form. `Files`, `Inputs`, `Plans`, `Compactions` and `Picking` choose the inputs of a compaction; `Merging`,
`Results` and `Mergers` do the merge; `Layers` and `Invisibility` say why its results may be installed; `Lookup` is
the read path; `Builders`, `Manifests` and `VersionEdits` are the manifest; `Replays` is the replay of logs.
`EngineWork` joins them: from any state the invariant allows, the code of a compaction, automatic or manual, and of a
flush takes steps of the machine. `EngineCommit` does the same for group commit, `EngineOpening` for the opening of a
database.

**The parts.** `DbIters` (two-way iterator), `MergingIters` (the merging iterator below it), `SkipLists`,
`SkipListClass` and `SkipListRuns` (memtable), `LogFormat`, `LogWriter`, `LogReader`, `LogTears` and `LogResync` (log
files), `Crc`, `CrcPortable` and `CrcSse42` (CRC32C of section 12.1 of RFC 3720), `WriteBatches`, `Coding`, `Octets`
and `Slices` (encodings), `Formats` (what the bytes on disk are, apart from the code that writes and reads them),
`GroupCommit` (writer queue), `Snapshots` (list of live snapshots).

## Modelling decisions

- The user comparator may be any total order on byte strings. There are countably many of these, so every such order
  embeds in the rational numbers; a user key is its place in that order, a `real`.
- A table file is an immutable, strictly increasing sequence of entries.
- Integers are unbounded where the code cannot overflow; 32- and 64-bit lengths, 56-bit sequence numbers, 8-bit tags
  and the arithmetic of checksums are written out.
- Sequence numbers stay below 2^56 - 1. At that value itself the merge loop would drop everything, because it is also
  its marker for "no earlier entry".
- A CRC table entry is written as the operator it stands for: so many zero bytes fed to a register that holds the
  index. The upper half of the 64-bit register of the accelerated form is always zero and is not represented.
- Stores and loads of the skip list are sequentially consistent.
- A crash keeps on disk a prefix of the records of each log that is at least as long as what was synced, and may leave
  part of a record behind it. Records appended behind such a tear, when recovery goes on using the log, may not be
  found by the next reader: some of them, from the first one on, are then missing. A crash can tear the manifest only
  while a record is being appended to it, so during LogAndApply or recovery; what is then appended to a torn manifest
  may be missing at the next opening. `LogTears` proves of the log reader which cuts are tears, namely those through a
  fragment, in its header or in its payload, and when they hide records without a report; `LogResync` proves that what
  is found behind a tear is a run of the records appended there, and that those hidden stay hidden, unless wrong bytes
  have the right checksum. Logs and tables are numbered in separate name spaces.
- A failed sync or manifest write is a state from which no further write follows until the database is opened again.

## Where the code does not do what one would expect

Each of these is proved: an input for which the property fails, and when it holds.

- A crash may lose an unsynced write and keep a later one, because the old log is not synced at a memtable switch:
  `EngineLosses.CrashMayLoseTheMiddle`. `EngineCrashes.EveryCrashLeavesPrefix` says of a state, before any crash,
  exactly when every crash leaves a prefix of the writes; syncing the old log at a switch would be enough
  (`EngineCrashes.OlderSyncedLeavesPrefix`).
- With `reuse_logs`, a log torn by a crash is appended to, and a synced write to it can be lost:
  `EngineLosses.TornLogLosesSyncedWrite`. A synced write survives every crash exactly when its log has no tear and no
  table of a torn manifest in use is gone (`EngineDurability.SyncedSurvivesIffLogWhole`), so always in sound runs in
  which recovery uses no torn log again (`EngineDurability.SyncedWritesSurvive`), which it can tell by the length of
  the file. Reopened between two fragments a writer loses nothing (`LogTears.ReadReopened`); reopened at any other
  place (`LogTears.TornOrBoundary`) its records can be hidden without a report (`LogTears.TornTailHidesNext`,
  `LogTears.SyncedBatchHidden`); hidden are those that begin in the block of the tear (`LogResync.FoundBehindTear`).
- The same option appends to a torn manifest, and then everything that recovery flushed can be lost, although it was
  synced: `EngineLosses.TornManifestLosesSyncedWrite` for one run, `EngineLosses.TornManifestLosesFlushed` for all.
  And a table that the torn manifest listed can be removed; if a crash brings that manifest back, the database does
  not open for the missing file: `EngineMissing.TornManifestLosesTable` for one run, `EngineMissing.RemovedIsMissing`
  for all. In every state of every run, every crash leaves a write in a database that opens exactly when, by the
  manifest, it was flushed or is in the firm part of a log that is read and the tables listed are there, and, if the
  manifest was torn when recovery appended to it, the same holds by what it said then:
  `EngineDurability.SurvivesIffSafe`, `EngineDurability.RunSurvivesIffSafe`. Whatever opens reads right
  (`EngineTheorems.RecoveryShowsHistory`).
- A manual compaction may have gaps between its inputs, and a flush that lands in a gap while it runs leaves a level
  that is not disjoint: `Gaps.FlushIntoGapBreaksLevel`, with inputs that `Gaps.ManualCompactionLeavesGap` shows
  CompactRange to pick and the level that `Gaps.FlushGoesIntoGap` shows the flush to take. A lookup then does not find
  what was flushed: `Gaps.FlushedIsNotFound`. The results stay installable exactly when a flush to their level is on
  one side of all inputs (`Layers.FlushKeepsInstallable`); if it is not, the merge has a right result that leaves the
  level not disjoint (`Gaps.NotAsideBreaksLevel`). It is on one side for every flush exactly when the inputs leave no
  gap (`Gaps.ConnectedIffNoRoom`), and those of `PickCompaction` leave none.
- A file number that enters a level twice would make one builder differ from edits applied one at a time:
  `Builders.ReentryBreaksFolding`. No run does it: `EngineTheorems.ManifestRebuildsVersion`.
- Clearing an edit leaves its compaction pointers: `VersionEdits.DecodedIntoUsed`.
- A request to force a flush that waits behind a write can be absorbed into its group: it is told that all is well,
  and no memtable was switched for it (`GroupCommit.FlushRequestAbsorbed`). That happens exactly when it does not lead
  (`GroupCommit.FlushRequestsLeadOrJoin`).
- Keys and values of 2^32 bytes or more are cut silently (`WriteBatches.WriteBatch.Put`), and only those
  (`WriteBatches.CutKeepsWhole`).

## Model

| member | source | states |
|---|---|---|
| `EngineTheorems.ReadsSeeHistory` | db/db_impl.cc:1131-1152 | In every reachable state in which the database is open, at every live snapshot and at the last sequence number, a lookup over all layers gives the newest logged write for the key, whatever was flushed, merged, dropped, crashed and recovered on the way |
| `EngineTheorems.ReadsAreMap` | include/leveldb/db.h:63-73 | Over every run, crashes included, in every state in which the database is open: the answers to all reads, at every live snapshot and at the last sequence number, are one map, made by the logged writes in the order of their sequence numbers up to that of the reader; a put sets its key, a deletion removes it; each write has the number that its log record gave it |
| `EngineMaps.HistoryIsWrites` | db/db_impl.cc:1221-1241 | In every state of every run, open or not, the history is a list of operations that were logged, in strictly increasing sequence numbers, and shows at every number the map that the list up to it makes |
| `EngineReads.ReadsFollowWrites` | db/db_impl.cc:1204-1275 | From any open state on, and until the next crash, reads without a snapshot find the map there was with the operations published since applied in order, whatever other steps come in between; a record that is logged and not published changes nothing |
| `EngineReads.NewDatabaseFollowsWrites` | db/db_impl.cc:1204-1275 | A database that was never written to is empty when it is opened, so until the next crash the published operations alone make the map |
| `CommitReads.ReadsFollowAcknowledged` | db/db_impl.cc:1204-1275 | However steps of the writer queue, of readers and of the background thread interleave, and whatever syncs fail: reads of a key, as a byte string, find what the map there was holds for it after the writes acknowledged since, in order of arrival, puts and deletions |
| `EngineTheorems.GetSeesHistory` | db/db_impl.cc:1119-1163 | The first-hit search itself, on layers taken under the mutex at one state and read while the run goes on, returns what the history of that state shows, so what the map made by its writes holds, nothing for a deleted key; the files of the version are still on disk with their contents when they are read |
| `EngineTheorems.CapturedSeesHistory` | db/db_impl.cc:1131-1152 | Layers taken at a state and read after any number of further steps, with a memtable that has grown meanwhile, show the history of that state |
| `EngineTheorems.IteratorSeesHistory` | db/db_impl.cc:1081-1117 | The list that a database iterator walks, over layers taken at one state and read later, is the map that the history of that state shows at its sequence number, so the one its writes make |
| `EngineTheorems.SnapshotIsolation` | db/db_impl.cc:1185-1193 | While the database stays up, reads at a snapshot give the same answer at any two states of a run |
| `EngineTheorems.SnapshotIsOfNow` | db/db_impl.cc:1185-1188 | Until a new snapshot is released, reads at it find what reads without a snapshot found when it was taken, so every write published by then and none after |
| `EngineTheorems.SnapshotLives` | db/db_impl.cc:1190-1193 | A snapshot stays in the list until it is itself released |
| `EngineTheorems.PinCaptures` | db/db_impl.cc:1131-1161 | A reader that takes a reference to the version keeps it in use until it drops it, whoever else takes and drops references meanwhile |
| `EngineTheorems.MergesForOldestReader` | db/db_impl.cc:908-912 | The snapshot for which a merge drops entries is the least sequence number at which reads happen: the oldest live snapshot, or the last sequence number |
| `EngineTheorems.DiskHoldsHistory` | db/db_impl.cc:294-385 | In every reachable state, and after every crash in it, the manifest's files and the records of the logs from its log number on show exactly what the history shows, or what the crash left of it; the files are there while the database is open, and have their contents whenever they are there |
| `EngineTheorems.RecoveryShowsHistory` | db/db_impl.cc:1497-1528 | After every recovery, also from a manifest that a crash brought back, the last sequence number is at least every recovered one, and reads at it show the history that survived |
| `EngineTheorems.ManifestRebuildsVersion` | db/version_set.cc:777-860 | In every reachable state no number has entered a level twice by the edits recorded in the manifest, the version is what they amount to one by one, and feeding them all to one builder gives it too |
| `EngineTheorems.EditsAddUnseen` | db/version_set.cc:777-860 | The edit that any flush, merge or move hands to LogAndApply adds no number to a level that number has been on |
| `EngineTheorems.AlwaysLayered` | db/version_set.cc:470-495 | In every reachable state shallower layers hold newer sequence numbers per user key and levels above 0 are sorted and disjoint, for the current version and for the one in the manifest |
| `EngineTheorems.MergeSnapshotIsLowerBound` | db/db_impl.cc:908-912 | The snapshot a merge was started with is a lower bound for every snapshot that is live or may be taken while it runs |
| `EngineTheorems.FilesInUseExist` | db/db_impl.cc:227-292 | In every reachable state in which the database is open, each file of the current version, of a version pinned by a reader, of the version a merge works on and of the version in the manifest is on disk; in sound runs those of the manifest are also there when it is closed; none that is there was ever overwritten |
| `EngineTheorems.DeletedIsUnused` | db/db_impl.cc:227-292 | A table that is deleted is in no version in use and is no output of a running flush or merge |
| `EngineGarbage.GarbageGoes` | db/db_impl.cc:227-292 | When the removal of garbage has ended, exactly those tables are left that were listed by a version in use or were being written when it was looked for, and of the logs there were exactly those from the log number on |
| `EngineGarbage.OpeningRemovesGarbage` | db/db_impl.cc:1526-1529 | The same for an opening: of the tables exactly those of its version are left |
| `EngineGarbage.PendingIsUnderWay` | db/db_impl.cc:513-529 | In every state of every run the numbers kept from removal though no version lists them are exactly those of the flush and of the merge under way |
| `EngineDurability.SyncedWritesSurvive` | db/db_impl.cc:1233-1241 | In every sound run in which recovery uses no torn log again, a write logged with sync is in the history of every later state, across any number of crashes and recoveries, and no table is ever missing |
| `EngineDurability.SyncedSurvivesIffLogWhole` | db/db_impl.cc:474-493 | In every state the invariant allows: every crash right after a synced write, whatever it does to logs and manifest, leaves it in a database that opens, if and only if the log it went to has no tear and, if the manifest was torn when last opened, the tables it listed then are all there |
| `EngineDurability.SurvivesIffSafe` | db/db_impl.cc:345-363 | Of any state with logs of consistent size, before any crash: every crash leaves an entry of the history, with all tables of the manifest on disk, if and only if, by the manifest, it was flushed or is in a firm record of a log that is read and the tables are on disk and, if the manifest was torn when last opened, the same by what it said then |
| `EngineDurability.RunSurvivesIffSafe` | db/db_impl.cc:345-363 | The same in every state of every run, also of those in which recovery appends to a torn manifest; of the tables it is enough that files with their numbers are there, which is what opening looks at |
| `EngineCrashes.EveryCrashLeavesPrefix` | db/db_impl.cc:1355-1386 | Of a state, before any crash: every crash leaves a prefix of the logged writes if and only if a log some of whose entries can be lost is followed by none that holds any, and at most one record stands behind a tear; and, if the manifest was torn when last opened, the same from the log on that it pointed to then, and what it points to is a prefix of all |
| `EngineCrashes.CrashLeavesPrefix` | db/db_impl.cc:1355-1386 | What one crash leaves is a prefix if and only if each log kept a prefix, none lost records while a later one kept some, and all that a manifest it brought back does not point to is newer than what is left |
| `EngineCrashes.OlderSyncedLeavesPrefix` | db/db_impl.cc:1355-1386 | If all logs but the last are synced, none has a tear and nothing was appended to a torn manifest, every crash leaves a prefix |
| `EngineCrashes.SyncingSwitch` | db/db_impl.cc:1355-1386 | That would stay so if a memtable switch synced the old log; an append keeps it so |
| `EngineLosses.CrashMayLoseTheMiddle` | db/db_impl.cc:1355-1386 | A concrete run in which an unsynced write in the log before a memtable switch is lost and a later one survives: the old log is not synced at a switch |
| `EngineLosses.TornLogLosesSyncedWrite` | db/db_impl.cc:474-493 | A concrete run in which a torn log is used again and a synced write to it is lost at the next crash |
| `EngineLosses.TornManifestLosesSyncedWrite` | db/version_set.cc:995-1024 | A concrete run: the manifest is torn while the record of a flush is appended, recovery uses the last log and the manifest again, the log of a synced write is removed after its flush, and the next crash brings the old manifest back and the write is gone |
| `EngineLosses.TornManifestLosesFlushed` | db/version_set.cc:995-1024 | Whenever recovery appends to a torn manifest and flushes an entry of an older log, some crash after the removal of that log loses it |
| `EngineMissing.TornManifestLosesTable` | db/db_impl.cc:345-363 | A concrete run: the manifest is torn while a move is recorded, recovery uses it again, the table that it lists is merged into another and removed, and the next crash brings the old manifest back; the synced write is safe by either manifest, and a table is missing |
| `EngineMissing.RemovedIsMissing` | db/db_impl.cc:227-292 | Whenever a table is removed that the manifest listed when it was found torn, some crash leaves a manifest that lists it |
| `EngineMissing.RunStaysDown` | db/db_impl.cc:345-363 | From a state in which a table is missing no run opens the database again |
| `EngineRuns.StepKeepsInv` | db/db_impl.cc:664-704 | Each of the 24 steps keeps the invariant: writes, memtable switch, snapshots, pinned versions, flush, merge, trivial move, manifest write, install, removal of files, crash, death during recovery, recovery, also if it appends to a torn manifest |
| `EngineRuns.RunInv` | db/db_impl.cc:183-216 | The invariant holds in every state of every run from a new database |
| `EngineRuns.RunKeepsTables` | db/db_impl.cc:345-363 | In every state of every sound run all tables that the manifest lists are there |
| `EngineWrites.KeepAppend` | db/db_impl.cc:1233-1241 | Appending a record to the log, before it reaches the memtable, keeps disk and memory in step |
| `EngineWrites.KeepInsert` | db/db_impl.cc:1242-1256 | Inserting the record into the memtable and raising the last sequence number keeps the invariant |
| `EngineWrites.KeepSwitch` | db/db_impl.cc:1355-1386 | The memtable switch with its new log keeps the invariant |
| `EngineFlush.FlushNext` | db/db_impl.cc:551-582 | The manifest record of a flush stands for the old base plus the memtable, is layered, adds a number that was on no level, and leaves a merge under way installable if a flush to its output level is on one side of its inputs |
| `EngineFlush.KeepApplyFlush` | db/db_impl.cc:507-549 | Handing the flushed table to LogAndApply keeps the invariant |
| `EngineMerge.MergeStoreOk` | db/db_impl.cc:878-894 | Installing the results of a merge gives a version that is layered and answers, from the merge's snapshot on, for everything ever flushed |
| `EngineMerge.KeepApplyMerge` | db/db_impl.cc:878-894 | Handing the results of a merge to LogAndApply keeps the invariant |
| `EngineMerge.KeepApplyMove` | db/db_impl.cc:736-746 | A trivial move keeps the invariant and the contents |
| `EngineRecords.RecordMove` | db/db_impl.cc:736-746 | A trivial move adds a number to a level where it has not been, because files only sink |
| `EngineDisk.KeepWriteManifest` | db/version_set.cc:777-860 | The manifest write, with the mutex released, keeps the invariant: before and after it disk holds the history |
| `EngineDisk.KeepInstall` | db/version_set.cc:843-860 | Installing the version after the manifest write keeps the invariant |
| `EngineDisk.KeepFindGarbage` | db/db_impl.cc:227-282 | What is marked for deletion is in no version in use, not pending, and no log that recovery needs |
| `EngineDisk.KeepDeleteTable` | db/db_impl.cc:284-291 | Deleting a marked table later, with the mutex released, still harms no version in use |
| `EngineRecovery.KeepCrash` | db/db_impl.cc:387-504 | A crash that cuts unsynced log tails, tears logs and the manifest, and hides records behind older tears leaves a disk that stands for the remaining history |
| `EngineTears.KeepRevert` | db/version_set.cc:995-1024 | A crash that brings a torn manifest back as it was when recovery appended to it leaves a disk that stands for the remaining history, but for tables that may be missing |
| `EngineTears.RecoverFallback` | db/version_set.cc:995-1024 | When recovery appends to a torn manifest, what it found there stays well-formed as what a crash may bring back |
| `EngineOpening.OpenDatabase` | db/db_impl.cc:294-385 | In every state of every run in which the database is closed, the replay loop over its logs gives what recovery needs: the machine may take that step if and only if no table is missing; which log is used again and where the last sequence number comes from is as for RecoverLogs |
| `EngineRecovery.KeepRecover` | db/db_impl.cc:294-385 | Recovery from any such disk, using the last log again or not, appending to the manifest or starting a new one, reaches a state that keeps the invariant, with the obsolete files still to be removed |
| `EngineRecovery.RecoverRecorded` | db/db_impl.cc:1521-1525 | The tables of recovery carry numbers that were on no level, also when a new manifest starts with a snapshot of the version |
| `EngineWork.BackgroundCompaction` | db/db_impl.cc:706-785 | From any state the invariant allows, picking by size or seeks, merging and writing the outputs is a sequence of steps of the machine that ends where the result may be installed, or a trivial move may be made; the plan is the one that follows from the file to start from; it is a move if and only if the plan is one file with none on the next level and what it meets two levels down is within the limit; every file that comes to the next level, moved or written, is within the overlap bound; outputs hold nothing that could be dropped and none ends without need |
| `EngineWork.ManualCompaction` | db/db_impl.cc:706-785 | The same for a manual compaction: nothing to do exactly when no file overlaps; otherwise picking, merging and writing the outputs is a sequence of steps that ends where the result may be installed; the inputs follow from the seed, and the outputs are as few and as small as above |
| `EngineWork.PickAndMerge` | db/db_impl.cc:706-785 | PickCompaction, IsTrivialMove, the merging iterator and the merge loop in one: on any version in order the outcome is an installable result for closed, connected inputs, or a move; which inputs, when a move, and what the outputs hold is stated as for BackgroundCompaction, from the version and the plan |
| `EngineWork.MergePicked` | db/db_impl.cc:896-1018 | The merging iterator and the merge loop on any closed inputs in order give an installable result with consecutive file numbers, with nothing in it that could be dropped and no output that ends without need |
| `EngineWork.InputsShareNoKey` | db/version_set.cc:1386-1447 | The inputs picked on a version in order are sorted and share no internal key |
| `EngineWork.CompactMemTable` | db/db_impl.cc:507-549 | From any state the invariant allows, building the table and picking its level are steps of the machine; it may then apply the flush if and only if the table is beside the inputs of a merge whose results go to the same level, so always if these leave no gap |
| `EngineCommit.QueueRunInEngine` | db/db_impl.cc:1204-1275 | Every run of the writer queue without a failed append, in which no request to flush leads and while sequence numbers last, is a sequence of steps of the engine, one Append for each record and one Insert when it is published; all that was logged is in the history |
| `EngineCommit.JointRunInStep` | db/db_impl.cc:1204-1275 | However steps of the queue and all other steps of the engine interleave, from an open database on: both invariants hold, last sequence numbers agree, the record under way is the engine's, and all that was logged is in the history |
| `EngineCommit.BackgroundInStep` | db/db_impl.cc:1204-1275 | No step of a reader, of a snapshot or of the background thread disturbs the queue |
| `EngineCommit.QueueStepInEngine` | db/db_impl.cc:1223-1267 | Each step of the queue is matched by an Append, an Insert, a Switch for a request to flush that leads, or nothing; a record whose sync fails stays logged and is never inserted |
| `Replays.RecoverLogs` | db/db_impl.cc:329-385 | The replay loop over all logs hands recovery tables in order of age that hold exactly what has to be written; the last log is used again if and only if logs are to be reused and its records fit into one memtable; the last sequence number is above all, and is that of the manifest or of the end of a record; without records in any log nothing is written and the manifest is saved only if it is a new one |
| `Replays.ReplayLog` | db/db_impl.cc:387-504 | One log is replayed into tables of growing sequence numbers and a left-over memtable that together hold exactly its records; a memtable is made only if there is a record, and one is written out on the way if and only if one memtable for all would get too big |
| `Replays.InsertBatch` | db/write_batch.cc:131-152 | The operations of a record enter the sorted memtable with consecutive sequence numbers; if it showed a map before, it then shows that map with the operations applied in order |
| `Invisibility.CompactionInvisible` | db/db_impl.cc:896-1018 | For every user key and every sequence number from the merge's snapshot on, a lookup gives the same answer before and after the results are installed, though entries are dropped |
| `Invisibility.DropsInvisible` | db/db_impl.cc:965-979 | Dropping entries that are superseded below the snapshot, or deletions with nothing older left, changes no view from the snapshot on |
| `Invisibility.ResultComesFrom` | db/db_impl.cc:939-1018 | Every entry of an output was in an input |
| `Merging.DecideDrop` | db/db_impl.cc:949-982 | The code's drop decision from the previous entry alone: an entry goes if and only if an earlier one of its user key is at or below the snapshot, or it is itself a deletion at or below the snapshot and no file from level+2 on has the key in its range |
| `Merging.SurvivorsLean` | db/db_impl.cc:949-982 | Nothing is left that could have been dropped: at or below the snapshot one entry for each user key, and no deletion of a key that no deeper level covers |
| `Merging.DoCompactionWork` | db/db_impl.cc:925-1018 | The loop keeps exactly the entries that the drop rules spare, in order; in the outputs each user key has at most one entry at or below the snapshot, a deletion only if a file from level+2 on has the key in its range; each output's overlap with grandparents is bounded despite size splits and dropped keys; and an output ends before the last only because it reached the size or because, at a key between it and the next, more than the limit of grandparent bytes had been passed |
| `Merging.CountsBound` | db/version_set.cc:1539-1561 | Grandparents ending between an output's first key and its last key total at most the limit |
| `Results.Compact` | db/db_impl.cc:804-876 | The whole merge, from sorted input to files with ranges and numbers, is a result that may be installed, each file within the overlap bound; nothing in the files could have been dropped, and no file ends without need |
| `Results.FilesAreResult` | db/db_impl.cc:829-876 | Files cut from the survivors are sorted, apart from each other, and hold the survivors and nothing else |
| `Mergers.Merge` | table/merger.cc:31-79 | The merging iterator, forward from the first entry as a compaction uses it, yields all entries of its children in order, for children that share no key, as the inputs of every picked compaction do |
| `Mergers.FindSmallest` | table/merger.cc:148-161 | The smallest current child |
| `MergingIters.DriveMerged` | table/merger.cc:16-146 | For every sequence of seeks, next and previous, with all changes of direction, the merging iterator shows the entry that a plain cursor over the merged list shows |
| `MergingIters.MergingIterator.Next` | table/merger.cc:55-79 | To the next entry of the merged list, also after a change of direction |
| `MergingIters.MergingIterator.Prev` | table/merger.cc:81-109 | To the previous entry of the merged list, also after a change of direction |
| `MergingIters.MergingIterator.Seek` | table/merger.cc:47-53 | To the first entry at or after the target |
| `MergingIters.MergingIterator.SeekToFirst` | table/merger.cc:31-37 | To the first entry of all children |
| `MergingIters.MergingIterator.SeekToLast` | table/merger.cc:39-45 | To the last entry of all children |
| `MergingIters.MergingIterator.FindSmallest` | table/merger.cc:148-161 | The smallest current child is at the entry behind the cut through all children |
| `MergingIters.MergingIterator.FindLargest` | table/merger.cc:163-176 | The largest current child is at the entry before the cut |
| `Lookup.Get` | db/db_impl.cc:1131-1152 | Memtable, immutable memtable, then version: the answer is that of the newest visible entry over all three |
| `Lookup.SearchVersion` | db/version_set.cc:281-400 | Level by level, on layers in order the first hit is the newest visible entry of the whole version; on any others a hit is in the file that the search of its level comes to |
| `Lookup.SearchLevel` | db/version_set.cc:304-321 | One binary-searched file decides for its level, also when a user key spans two adjacent files; in a level that is not disjoint, a hit is in a file at which the search may end |
| `Lookup.SearchLevelZero` | db/version_set.cc:281-302 | Level 0, newest file first, finds its newest visible entry |
| `Lookup.SearchEntries` | db/memtable.cc:101-135 | The first entry at or after the lookup key is the newest visible one for the user key, or there is none |
| `Layers.FlushKeepsLayers` | db/version_set.cc:470-495 | A flush to a level it may be pushed to keeps the layer invariant |
| `Layers.InstallKeepsLayers` | db/db_impl.cc:878-894 | Installing merge results, or a trivial move, keeps the layer invariant |
| `Layers.PickInstallable` | db/version_set.cc:1386-1447 | Closed inputs may be merged and installed on the version they were chosen on |
| `Layers.FlushKeepsInstallable` | db/db_impl.cc:925-937 | A flush installed while a merge runs leaves its results installable if and only if, when it goes to the level of the results, it is on one side of all inputs |
| `Layers.ConnectedFlushAside` | db/version_set.cc:470-495 | A flush that lands clear of inputs without gaps is on one side of them all |
| `Gaps.ConnectedIffNoRoom` | db/version_set.cc:1449-1480 | Inputs are without gaps if and only if every file apart from each of them is on one side of them all, so if and only if no flush can harm them |
| `Gaps.NotAsideBreaksLevel` | db/db_impl.cc:925-937 | If a flush to the level of a merge's results is not on one side of all its inputs, then whatever the inputs hold, the merge has a right result after whose installation the level is not disjoint |
| `Gaps.FlushIntoGapBreaksLevel` | db/version_set.cc:1449-1480 | A concrete compaction with a gap between its inputs and a flush into the gap: the plan is closed, the flush lands clear, the merge is right, and the next level is no longer disjoint |
| `Gaps.FlushedIsNotFound` | db/version_set.cc:281-400 | After that, a lookup of the flushed key finds nothing, though its entry is in the version and the newest |
| `Gaps.ManualCompactionLeavesGap` | db/version_set.cc:1449-1480 | CompactRange over all of that version picks exactly that plan |
| `Gaps.FlushGoesIntoGap` | db/version_set.cc:470-495 | PickLevelForMemTableOutput sends that flush to exactly that level |
| `Files.FindFile` | db/version_set.cc:87-105 | The first file whose largest key is at or after the key, in a level that is sorted and disjoint; in any other, such a file next to one that ends before the key |
| `Files.SomeFileOverlapsRange` | db/version_set.cc:121-156 | True exactly when a file meets the user-key range, by scan or by binary search |
| `Inputs.GetOverlappingInputs` | db/version_set.cc:498-538 | Ends despite its restarts; at level 0 the files that meet the least range closed under overlap, at other levels exactly the overlapping files, in order |
| `Inputs.GetRange` | db/version_set.cc:1188-1207 | The hull of the files' internal keys, attained at both ends |
| `Inputs.FindLargestKey` | db/version_set.cc:1309-1323 | The largest key of the files, or none |
| `Inputs.FindSmallestBoundaryFile` | db/version_set.cc:1327-1345 | The least file that continues the user key, or none exists |
| `Inputs.AddBoundaryInputs` | db/version_set.cc:1361-1384 | Adds the chain of boundary files until none is left |
| `Compactions.SameSizeSameFiles` | db/version_set.cc:1415-1419 | The test on sizes alone forces the expanded level+1 inputs to be the same files |
| `Compactions.Compaction.SetupOtherInputs` | db/version_set.cc:1386-1447 | The inputs are those that follow from the seed: its boundary files, the files of the next level that meet it, and the growth of the level if, and only if, that is within the size limit and pulls in no further file of the next level. They are closed: no file left behind on the level holds older entries for an input key, none on the next level meets the range or continues the last key; inputs without gaps stay so; each input list is a run of its level, the grandparents are exactly the files two levels down that meet the range, sorted and disjoint |
| `Compactions.ChooseInputs` | db/version_set.cc:1390-1399 | Boundary files, up to the first file that does not continue the one before, and the next level's overlapping files make the inputs closed |
| `Compactions.TryExpansion` | db/version_set.cc:1401-1432 | The level grows if and only if the files that meet all inputs so far, with their boundary files, are more, their size with that of the next level is below the limit, and the next level contributes to them just the files it contributed already; it then grows to exactly these, and the plan stays closed |
| `Compactions.TakenOverUnique` | db/version_set.cc:1401-1432 | What a level contributes to a range of inputs is determined: the least closed selection on level 0, the overlapping run with its boundary files elsewhere |
| `Compactions.Compaction.IsBaseLevelForKey` | db/version_set.cc:1518-1537 | With its advancing pointers, true exactly when no deeper level covers the key |
| `Compactions.Compaction.ShouldStopBefore` | db/version_set.cc:1539-1561 | Counts the bytes of exactly the grandparents that end before the key and says stop when they exceed the limit |
| `Picking.PickLevelForMemTableOutput` | db/version_set.cc:470-495 | The level is clear down to where the table goes, at most level 2; no level was passed from which too many bytes two levels down would be met, and it stopped only for an overlap, too many such bytes or the maximum |
| `Picking.PickCompaction` | db/version_set.cc:1253-1305 | By size, from the first file after the compaction pointer, or by seeks, from the file that was sought in: the seed is that file alone, on level 0 all that it touches, and the inputs are those that follow from the seed; they are closed and without gaps, the grandparents are those that meet them, and no counter has moved |
| `Picking.CompactRange` | db/version_set.cc:1449-1480 | Nothing to do exactly when no file overlaps; otherwise the seed is the files of the least closed range on level 0, elsewhere the overlapping files up to and with the one that reaches the size limit, and the closed inputs are those that follow from it |
| `Picking.CutBySize` | db/version_set.cc:1461-1472 | The number of files at which the total size reaches the limit first, or all of them |
| `Picking.FileAfterPointer` | db/version_set.cc:1268-1280 | The first file that ends after the compaction pointer, the first of the level if there is none |
| `Builders.BuilderFolds` | db/version_set.cc:629-731 | Applying a history of edits in one builder equals applying them one version at a time, when no file number enters a level twice, which holds of every run |
| `Builders.ReentryBreaksFolding` | db/version_set.cc:629-731 | A concrete history in which a number enters a level twice and the two differ |
| `Builders.Builder.Apply` | db/version_set.cc:629-670 | Adds the edit's files and deletions to what is pending |
| `Builders.Builder.Save` | db/version_set.cc:672-731 | Merges base and added files in order, without the deleted ones |
| `Builders.SaveOneLevel` | db/version_set.cc:676-697 | The upper-bound merge of one level equals the plain merge of two ordered lists |
| `Manifests.SnapshotRestores` | db/version_set.cc:1070-1098 | The snapshot record alone rebuilds the file lists |
| `Manifests.Recover` | db/version_set.cc:862-993 | Replaying the records gives the fold of their edits and the last of each number, and fails exactly when one is missing |
| `Manifests.VersionSet.LogAndApply` | db/version_set.cc:777-860 | After a successful write, replaying the manifest gives the new file lists and numbers; after a failed one nothing changed; for edits that add no number to a level it has been on, as all edits of the engine are |
| `Manifests.VersionSet.Reopen` | db/version_set.cc:862-993 | Reopening finds the current file lists and log number, and a next file number above all in use |
| `VersionEdits.VersionEdit.EncodeTo` | db/version_edit.cc:41-85 | The bytes encode the fields that are set, the pointers, the deleted files in ascending order and the new files, and these give the edit back |
| `VersionEdits.VersionEdit.DecodeFrom` | db/version_edit.cc:105-203 | On every input: the fields that can be read one after the other are applied to a cleared edit, and the status is good exactly when they use up the input; encoded fields are read back in order |
| `VersionEdits.EncodedFields` | db/version_edit.cc:105-203 | The fields read from an encoding are the fields that were encoded, so an encoding has one meaning |
| `VersionEdits.RoundTrip` | db/version_edit.cc:25-203 | Encode then decode gives the edit back, if and only if the edit read into had no compaction pointers: clearing leaves them |
| `VersionEdits.DecodedIntoUsed` | db/version_edit.cc:25-39 | The same for all field lists: the left-over pointers are the only difference |
| `VersionEdits.FieldRoundTrip` | db/version_edit.cc:87-203 | Each field is read back as written, whatever follows it |
| `Formats.FieldTags` | db/version_edit.cc:14-24 | Each kind of field has its own tag |
| `Formats.FieldBytes` | db/version_edit.cc:60-84 | Fields of a new file, a deleted file and a compaction pointer, byte by byte |
| `Formats.SevenLevels` | db/version_edit.cc:95-103 | A level is read back if and only if it is one of the seven |
| `DbIters.Drive` | db/db_iter.cc:141-308 | For every sequence of seeks, next and previous, key and value equal those of a plain cursor over the sorted visible map |
| `DbIters.VisibleMapIsView` | db/db_iter.cc:28-39 | That map is sorted by key and holds exactly what lookups at the sequence number show |
| `DbIters.DbIter.Next` | db/db_iter.cc:141-175 | To the next visible entry, also after a change of direction |
| `DbIters.DbIter.Prev` | db/db_iter.cc:209-234 | To the previous visible entry, also after a change of direction |
| `DbIters.DbIter.Seek` | db/db_iter.cc:278-290 | To the first visible entry at or after the target |
| `DbIters.DbIter.SeekToFirst` | db/db_iter.cc:292-301 | To the first visible entry |
| `DbIters.DbIter.SeekToLast` | db/db_iter.cc:303-308 | To the last visible entry |
| `DbIters.DbIter.FindNextUserEntry` | db/db_iter.cc:177-207 | Passes hidden, deleted and skipped entries and no other |
| `DbIters.DbIter.FindPrevUserEntry` | db/db_iter.cc:236-276 | The last visible entry at or before the start, its value saved, the internal iterator left before all its versions |
| `SkipListRuns.StepKeepsInv` | db/skiplist.h:337-368 | After every single load and store of an inserter and a reader, each level is sorted and part of the levels below, and no node disappears |
| `SkipListRuns.SearchIsRight` | db/skiplist.h:261-281 | A search interleaved with stores returns the neighbours of its target in the level-0 list as of its last load, which holds everything that was there before it |
| `SkipListRuns.NeverStuck` | db/skiplist.h:261-281 | A search and an insertion can always take their next step |
| `SkipLists.PublishKeeps` | db/skiplist.h:363-368 | The store that publishes a node on a level keeps all levels sorted and nested |
| `SkipLists.OwnLinkKeeps` | db/skiplist.h:363-368 | Setting the new node's own link first changes no level |
| `SkipListClass.SkipList.Insert` | db/skiplist.h:337-368 | Adds exactly the key |
| `SkipListClass.SkipList.FindGreaterOrEqual` | db/skiplist.h:261-281 | The first node at or after the key, and on each level the last one before it |
| `SkipListClass.SkipList.FindLast` | db/skiplist.h:284-326 | The last node before the target, or the last of all |
| `SkipListClass.SkipList.Contains` | db/skiplist.h:371-378 | True exactly for keys in the list |
| `LogWriter.Writer.AddRecord` | db/log_writer.cc:34-80 | Appends the fragments of the record as the format lays them out at the end of the file |
| `LogWriter.Writer.EmitPhysicalRecord` | db/log_writer.cc:82-108 | Header with masked checksum, length and type, then the payload |
| `LogWriter.WriteAll` | db/log_writer.cc:23-30 | Records written one after the other, by one writer or by writers reopened between any two, give the same file |
| `LogReader.ReadAll` | db/log_reader.cc:56-174 | Of a log cut at any byte exactly the records that lie wholly inside are read, and nothing is reported; of the whole log, all of them |
| `LogReader.Reader.ReadRecord` | db/log_reader.cc:56-174 | The buffered reader returns, at every offset of every file, the record, the next offset and the reports that the plain definition over fragments gives |
| `LogReader.ReadsRecord` | db/log_reader.cc:56-174 | A record laid out at an offset is read there if all of it is in the file and otherwise nothing is; one that had begun before is given up, with a report if any of it was read |
| `LogReader.Reader.ReadPhysicalRecord` | db/log_reader.cc:189-271 | The buffered reader finds, at every offset of every file, what a reader without a buffer finds |
| `LogReader.FindsFragment` | db/log_reader.cc:189-271 | A fragment, after its filling, is found if it is wholly in the file, and otherwise the end of the file is |
| `LogTears.ReadReopened` | db/db_impl.cc:474-493 | A log cut between any two fragments, or in the filling of a block, and appended to by a reopened writer: the records that were whole and all new ones are read, with at most the report of the one that was given up |
| `LogTears.TornOrBoundary` | db/log_writer.cc:34-80 | Every cut of a log is between two fragments or in the filling of a block, or else goes through a fragment, never both |
| `LogTears.TornTailHidesNext` | db/db_impl.cc:474-493 | A log cut through any fragment, in its header or its payload, with any bytes appended that leave the file too short for what then stands at the tear: only the records before it are read, and nothing is reported |
| `LogTears.TooShortForPayload` | db/log_reader.cc:216-257 | Behind a header that is whole the file is too short if and only if it does not reach the end of the torn payload |
| `LogTears.SyncedBatchHidden` | db/db_impl.cc:474-493 | So a batch of any size that a reopened writer adds behind a torn payload is not found while it does not make up for what is missing; behind a torn header, if the bytes that complete it describe more than there is |
| `LogResync.FoundBehindTear` | db/log_reader.cc:56-174 | A log as a crash tore it, with any records a reopened writer added and any prefix of that left by a later crash: what is read is what was whole and a run of the added records, namely those that are whole and begin in a later block than the tear, unless the wrong bytes at the tear have the right checksum |
| `LogResync.ReadsOrphans` | db/log_reader.cc:121-142 | The rest of a record whose beginning was not seen is passed over |
| `LogResync.ReadsToTear` | db/log_reader.cc:216-257 | A reader that comes to a tear ends there or goes on at the next block |
| `LogTears.TornFragment` | db/log_reader.cc:216-257 | Behind a torn fragment a reader meets the end of the file, or drops the rest of the block unless the checksum of the wrong bytes is right |
| `LogFormat.ChecksumExtends` | db/log_writer.cc:93-96 | Extending the checksum of the type by the payload is the checksum of both |
| `LogFormat.MaskRoundTrip` | util/crc32c.h:29-38 | Unmasking gives the checksum back |
| `LogFormat.Fixed32RoundTrip` | util/coding.h:54-89 | Decoding gives the number back |
| `Formats.FragmentBytes` | doc/log_format.md:7-13 | Of every fragment: the first four bytes are the stored checksum of all from the type on, the next two the length of the payload, then the type and the payload |
| `Formats.MaskRotates` | util/crc32c.h:22-32 | The stored checksum is the sum rotated right by 15 bits plus 0xa282ead8 |
| `Formats.FragmentTypes` | doc/log_format.md:27-30 | Types 1 to 4 are a whole record, the first, a middle and the last part of one |
| `Formats.ThreeRecords` | doc/log_format.md:40-55 | Records of 1000, 97270 and 8000 bytes, whatever is in them, are laid out as the description of the format says, with a trailer of six zero bytes |
| `CrcPortable.ExtendPortable` | crc32c/crc32c_portable.cc:247-349 | The four-stride form equals the byte-at-a-time sum for every buffer, length and alignment; what that sum is, `Crc.Residue` and `Crc.SumOfZeros` say |
| `CrcPortable.Rotate` | crc32c/crc32c_portable.cc:321-330 | Giving the next word to the oldest stride keeps what the four partial results stand for |
| `CrcPortable.Strides` | crc32c/crc32c_portable.cc:298-338 | The 64-byte, 16-byte and word loops feed exactly the bytes they pass |
| `CrcPortable.Step4Advances` | crc32c/crc32c_portable.cc:260-266 | Four table lookups advance a stride by sixteen zero bytes |
| `CrcPortable.ByteTableBasis` | crc32c/crc32c_portable.cc:16-59 | The power-of-two entries of the byte table follow from the polynomial |
| `CrcSse42.ExtendSse42` | crc32c/crc32c_sse42.cc:122-252 | The three-way form on the CRC32 instruction equals the same sum |
| `CrcSse42.ThreeBlocks` | crc32c/crc32c_sse42.cc:181-232 | Three blocks summed side by side, joined by two skips, equal one pass over them |
| `CrcSse42.SkipBlockIsZeros` | crc32c/crc32c_sse42.cc:159-165 | Eight nibble lookups feed a whole block of zeros |
| `CrcSse42.Extend` | crc32c/crc32c.cc:18-28 | The choice between the forms does not show |
| `Crc.FeedLinear` | crc32c/crc32c_portable.cc:247-258 | What the register held before data contributes by itself, as if the data were zeros |
| `Crc.FeedWord` | crc32c/crc32c_read_le.h:16-28 | Four bytes read as a little-endian word are fed at once |
| `Crc.ByteByTable` | crc32c/crc32c_portable.cc:253-258 | One table lookup does eight bits |
| `Crc.Residue` | crc32c/crc32c_portable.cc:247-349 | The sum of any data followed by its own sum in four little-endian bytes is 0x48674bc7, the residue of CRC32C |
| `Crc.SumOfZeros` | util/crc32c_test.cc:12-17 | The sum of 32 zero bytes is 0x8a9136aa, as section B.4 of RFC 3720 gives it |
| `GroupCommit.WritersLeaveInOrder` | db/db_impl.cc:1258-1267 | Each writer leaves the queue exactly once, in order of arrival |
| `GroupCommit.LogHoldsAcknowledged` | db/db_impl.cc:1223-1267 | The log holds the operations of the writers that succeeded, in order of arrival, and nothing else but the record under way or one whose sync failed |
| `GroupCommit.RecordsAreSeparate` | db/db_impl.cc:1221-1241 | Records have disjoint, increasing ranges of sequence numbers, hold their writers' operations in queue order, and are synced if one of the writers asked for it |
| `GroupCommit.AllOrNothing` | db/db_impl.cc:1242-1256 | A reader at the last sequence number sees all of a group or nothing of it, also in the middle of its insertion |
| `GroupCommit.BuildBatchGroup` | db/db_impl.cc:1279-1325 | The longest prefix of the queue that may join the leader, its operations concatenated |
| `GroupCommit.GroupWithinLimit` | db/db_impl.cc:1286-1293 | A group that grew is of at most 1 MB, and at most 128 KB are added to a first write of at most 128 KB |
| `GroupCommit.GroupTakesAll` | db/db_impl.cc:1286-1315 | A write is left to the next group only if it asks for a sync that the first did not ask for, or if the group with it would exceed that limit |
| `GroupCommit.FlushRequestJoins` | db/db_impl.cc:1299-1323 | A request to force a flush at any place of the queue joins the group if and only if all before it do and it asks for no sync that the leader did not ask for |
| `GroupCommit.FlushRequestsLeadOrJoin` | db/db_impl.cc:1204-1275 | Over every run: a writer leaves without having led if and only if an earlier step formed a group of one that arrived before it with it inside, and that one led it; the memtable was switched for an acknowledged request to flush if and only if it led |
| `GroupCommit.FlushRequestAbsorbed` | db/db_impl.cc:1299-1323 | A concrete run in which a request to flush is acknowledged and no memtable was switched |
| `GroupCommit.StepKeepsInv` | db/db_impl.cc:1204-1275 | Every step of the queue, with append and sync failures, keeps these facts |
| `WriteBatches.Iterate` | db/write_batch.cc:45-83 | A batch that holds operations gives them back in order with the right count |
| `Formats.BatchBytes` | db/write_batch.cc:5-14 | A batch of a put and a deletion, byte by byte: sequence number, count, and each operation with its tag, key and value |
| `WriteBatches.InsertInto` | db/write_batch.cc:131-152 | Operation i is added with the batch's sequence number plus i |
| `WriteBatches.WriteBatch.Put` | db/write_batch.cc:101-113 | One operation more in the encoding; longer keys and values are cut to 32-bit lengths |
| `WriteBatches.CutKeepsWhole` | db/write_batch.cc:101-113 | A key or value is kept whole if and only if its length fits into 32 bits |
| `WriteBatches.WriteBatch.Delete` | db/write_batch.cc:115-124 | The same for a deletion |
| `WriteBatches.WriteBatch.Append` | db/write_batch.cc:163-167 | The other batch's operations follow this one's, or its own again if its buffer has room |
| `WriteBatches.WriteBatch.EnsureCapacity` | db/write_batch_internal.h:42-52 | Doubles until there is room; the contents stay |
| `Coding.VarintRoundTrip` | util/coding.cc:21-138 | A number of at most 7 times max bits is read back, whatever follows |
| `Formats.VarintDigits` | util/coding.cc:21-70 | The bytes of a varint are the digits of the number to the base 128, lowest first and without a leading zero, and all but the last have the top bit set |
| `Formats.TagsFit` | db/dbformat.h:65-67 | The tag of an internal key fits into eight bytes if and only if its sequence number is at most the largest |
| `Coding.LengthPrefixedRoundTrip` | util/coding.cc:72-75 | A byte string is read back, whatever follows |
| `Snapshots.SnapshotList.New` | db/snapshot.h:57-72 | The new snapshot is last in the ring; links and order hold |
| `Snapshots.SnapshotList.Delete` | db/snapshot.h:79-86 | Exactly that snapshot leaves the ring; links and order hold |
| `Snapshots.SnapshotList.Oldest` | db/snapshot.h:47-50 | Has the smallest number of all live snapshots |
| `Keys.Compare` | db/dbformat.cc:47-64 | The three-way comparison of internal keys is their order |
| `Keys.SeekKeySplits` | db/dbformat.h:55-61 | The seek key sorts after exactly the entries of its user key that are newer than the sequence number |

## Left out

- EngineRuns.StepKeepsInv: a flush to the level of a merge's results, into a gap between its inputs, is no step, because the level would not stay disjoint (see `Gaps`).
- EngineTheorems.DiskHoldsHistory: records behind a tear of a log in use count as held until a crash hides them and takes them out of the history (its second half); which writes no crash can take is `EngineDurability.SurvivesIffSafe`.
- EngineCommit.QueueStepInEngine: a failed append is not carried over; the writer's place in its block then differs from the file's, and what a reader finds of later records is not modelled.
- EngineCommit.QueueRunInEngine: room for a request to flush that leads is made when the memtable before is flushed, so such runs are in `EngineCommit.JointRunInStep` only.
- A manifest on which opening fails with an error: one in which the reader finds a checksum mismatch, and one that was cut exactly between two fragments of a record and appended to there, where the next opening reports a partial record (db/version_set.cc:862-930). In both cases the database does not open.
- Mergers.Merge: forward from the first entry only; `MergingIters` has both directions.
- WriteBatches.WriteBatch.Append: a batch appended to itself without room in its buffer is excluded; the code then copies from a buffer that it has just given back.
- CrcPortable.ByteTableBasis: the other literal table entries are not written out; each table is its operator.
- Reads served between a failed sync or manifest write and the next open.
- Contents of table files: blocks, filters, compression, the table cache and the block cache.
- Compaction scores, seek statistics and read sampling, which only decide when a compaction starts.
- FindShortestSeparator and FindShortSuccessor, which only shorten keys in index blocks.
- Repair, which puts all tables on level 0 and does not promise their order.
- The reader of log files from an offset other than 0, which no caller uses.
- The CURRENT file and the switch to a new manifest file: a manifest is replaced as a whole.
- Weak memory order in the skip list.
- File names, properties, dumps, the C interface and the environment.
