# KayaDB in Dafny

A model of KayaDB, an LSM key-value store with snapshot-isolation transactions,
cross-shard two-phase commit, secondary indexes and a change feed, and proofs about it.
`dafny verify dfyconfig.toml` checks the project.

## What is modelled

**Storage and its log.** A store is a write-ahead log plus an elaborate index over it: a
multi-version memtable and tables probed newest first, kept by flush, all-table compaction
with a collection watermark, and replay (`Versions`, `WriteAheadLog`, `Storage`,
`Memtable`, `MemtableRuns`). The invariant is layering: if a source holds a version of a key older than
some version of a later source, it holds that version too. It makes first-hit lookup agree
with the log at every bound. `Scan` adds the bounded merge that pops the largest key.

**Transactions.** `EngineModel` is the engine with its intent table; `SnapshotIsolation` is a
reference machine with a flat log, whose transactions buffer writes and carry the log
position they began at. `EngineRefinement` proves that the engine answers every operation of
every history as the reference machine does, and the isolation theorems are proved of the
latter. `Database` is the engine updated in place, each method proved to perform the step of
the model.

**Crashes.** `SimDisk` is the content-only crash model; `CrashRecovery` lists the disk steps of
put, flush and compaction, lets a crash fall after any of them and any number of openings
crash as well, and proves what reopening finds. `DiskPath` drives the disk object through
those steps, which the object records, and `CrashPoints` says which bytes are durable at each
crash point.

**Two-phase commit.** `TwoPhase` gives each participant operation as the list of durable writes
it issues; a crash keeps a prefix, recovery may crash too. `TwoPhaseSystem` runs any number
of participants under a coordinator that sends no prepare after an acknowledged one, records
a commit only when every participant acknowledged, sends commits and decisions as recorded,
and sends aborts of what it recorded as aborted or gave up before any commit was recorded.
`TwoPhaseHistory` follows the intents of an acknowledged prepare through such runs. `TxnKeys`
proves that the byte-string keys keep the tables apart, `Participant` is the participant over
the byte store, and `TwoPhaseOnDisk` runs its writes, its crashes and the recovery that opening
makes through the storage engine.

**Derived data and codecs.** `Indexes`, `IndexKeys`, `IndexExposure` and `IndexStore` (secondary
indexes with online backfill, as sets of entries and as keys in the store),
`CdcText` and `CdcFeed` (the change log's text and its delivery), `Crc32c` and `Manifest`
(framed edits and damaged logs), `HybridClock`, `BlockCache` and `RangeCache`.

`ByteStrings`, `Integers` and `SystemKeys` hold what the others share.

## Where the code and its documentation differ, and what the code does

- A scan limit of zero returns one row, because the limit is checked after the first push
  (`Scan.ZeroLimitYieldsOne`; `Scan.ScanWithinLimit` has the exact condition).
- The watermark drops the newest version below it when a newer one exists, so not every
  snapshot read at or above the watermark survives (`Storage.WatermarkReadLost` loses one;
  `Storage.CompactSnapshotExact` has the exact condition).
- The coordinator's module comment says an undecided prepared record is aborted on recovery;
  the engine leaves it in doubt, as its own comments say, and the model follows the engine.
- `commit_cross_group` ignores the outcome of recording the abort and still sends aborts
  after a commit decision that only timed out; participants do not check. Such an abort breaks
  agreement exactly when its participant is undecided and another has chosen to commit
  (`TwoPhaseSystem.StrayAbortExact`, and `TwoPhaseSystem.SplitIsReachable` for a run). Aborts
  sent while no commit was ever recorded are safe, recorded or not
  (`TwoPhaseSystem.AllowedAbortIsSafe`).
- Prepares take no locks: two transactions may hold an intent on one key, and if both commit
  the key ends with the value of the later one (`TwoPhase.LastCommitWins`).
- A transaction's commit writes its mutations one after the other with a sync each; a crash in
  between keeps a part of them (`CrashPoints.TornCommit`; `CrashPoints.CommitCrashAtomicity` has
  the exact condition for one crash and `CrashPoints.CommitAtomicExact` for all of them).
- A first flush interrupted between the manifest sync and the CURRENT rename leaves its edit
  behind, so a later reopen lists table 1 twice (`CrashPoints.TableListedTwice`). The ids are
  distinct exactly when the durable manifest names no table before the first CURRENT
  (`CrashPoints.FirstPublishExact`); reads are right either way.
- Index creation accepts prefixes inside the transaction key space, whose writes no
  maintenance covers (`Indexes.RecordMakesStale`). `Indexes.ExactIffSheltered` says exactly
  which prefixes and extractors an index is right for.
- An aborted record is overwritten by a late prepare of the same transaction, and can then be
  committed (`TwoPhase.LatePrepareRevives`). `TwoPhase.ForwardExact` says exactly which
  operations move every record forward.
- A change log cut inside its last line, before the closing brace, makes the whole log fail to
  load instead of dropping that line (`CdcText.TruncatedLogExact`).

## Standing conditions

Strict durability, no injected disk faults, and calls that return Ok unless the statement is
about a crash or an error return. Sequences, transaction ids in `EngineModel` and table ids
are unbounded; two-phase-commit ids, packed timestamps, frame fields and change-log sequences
have the source's widths. A latest read has no upper bound. The log is one list of records
that is never truncated, and a table file is the exact set of its versions: the log's and the
tables' own file formats are not part of this model. Prefix scans inside two-phase commit and
the indexes are full scans, which is what `Scan.ScanUnderCaps` gives below the caps.

## Model

| member | source | states |
|---|---|---|
| Versions.GetAt | crates/kaya-engine/src/memtable.rs:62-84 | lookup in one source returns the newest version of the key the read bound admits, or nothing exactly when there is none |
| Versions.FirstHitIsNewest | crates/kaya-engine/src/memtable.rs:62-84 | when every source is layered above the later ones, the first source with a hit answers with the newest version any source holds |
| Storage.LayersAreOrdered | crates/kaya-engine/src/memtable.rs:62-84 | memtable then tables newest first is such a layering in every state the invariant admits |
| Storage.ReadRefinesLog | crates/kaya-engine/src/memtable.rs:62-84 | with nothing collected, the layered read at any bound is the newest logged version at or below it |
| Storage.LatestReadRefinesLog | crates/kaya-engine/src/memtable.rs:62-84 | under any watermark history, a latest read is the fold of the write-ahead log |
| Storage.ConflictCheckExact | crates/kaya-engine/src/txn.rs:268-283 | the conflict check sees the newest logged version of a key exactly when that version still exists or never did |
| Storage.AppendKeeps | crates/kaya-engine/src/index.rs:836-876 | a logged write keeps the layering, the completeness of the sources and the order of sequences |
| Storage.FlushKeeps | crates/kaya-engine/src/flush.rs:56-156 | a flush moves the memtable into a new table and keeps the layering and everything held |
| Storage.CompactKeeps | crates/kaya-engine/src/lib.rs:399-633 | merging all live tables keeps the layering, and every version at watermark 0 |
| Storage.SyncKeeps | crates/kaya-engine/src/lib.rs:336-338 | raising the next sequence keeps the store invariant |
| Storage.CompactionKeepsLatestReads | crates/kaya-engine/src/lib.rs:424-453 | compaction preserves every latest read for any watermark |
| Storage.CompactSnapshotExact | crates/kaya-engine/src/lib.rs:424-453 | a snapshot read at or above the watermark survives compaction exactly when the memtable answers it, or its version was absent, a tombstone, at or above the watermark, or the tables' newest |
| Storage.WatermarkReadLost | crates/kaya-engine/src/lib.rs:424-453 | a store with watermark 2 in which compaction loses the read of a key at 2: its version 1 is dropped because version 3 exists |
| Versions.CollectKeepsPrefix | crates/kaya-engine/src/lib.rs:640-663 | the versions of a key that survive collection are a newest-first prefix |
| Versions.CollectKeepsLatest | crates/kaya-engine/src/lib.rs:640-663 | collection never changes the newest value of a key |
| Versions.CollectSnapshotExact | crates/kaya-engine/src/lib.rs:640-663 | the exact condition under which collection preserves a snapshot read in one table |
| Database.SelectVersionsForGc | crates/kaya-engine/src/lib.rs:640-663 | the selection loop returns a prefix of the newest-first list holding exactly the versions the watermark rules keep |
| Database.SelectionIsCollect | crates/kaya-engine/src/lib.rs:640-663 | what the loop selects for a key is what collection keeps of the merged table |
| WriteAheadLog.NewestIsContents | crates/kaya-engine/src/recovery.rs:140-151 | the newest version of a key in the replayed versions is its value after folding the log |
| WriteAheadLog.SnapshotIsContents | crates/kaya-engine/src/recovery.rs:140-151 | reading at the last sequence of a log prefix is looking the key up in the fold of that prefix |
| Database.Engine.GetInner | crates/kaya-engine/src/memtable.rs:62-84 | the probing loop returns the read of the model state and changes nothing |
| Database.Engine.FlushMemtable | crates/kaya-engine/src/flush.rs:56-156 | the in-memory effect of a flush, and nothing else, changes |
| Database.Engine.Write | crates/kaya-engine/src/index.rs:836-918 | log, memtable insert, counters and automatic flush as one write of the model |
| Database.Engine.PutOrDelete | crates/kaya-engine/src/memtable.rs:10-50 | refused keys and values change nothing; others are written |
| Database.Engine.CompactTables | crates/kaya-engine/src/lib.rs:399-633 | grouping by key, selection and rebuilding the table list amount to the model's compaction |
| Database.Engine.BeginTxn | crates/kaya-engine/src/txn.rs:60-73 | a fresh id with the current last sequence as snapshot |
| Database.Engine.TxnRead | crates/kaya-engine/src/txn.rs:141-156 | own intent first, else the read at the snapshot; unknown transactions are refused |
| Database.Engine.CheckWriteConflict | crates/kaya-engine/src/txn.rs:249-266 | conflict exactly on another's intent or a version above the snapshot |
| Database.Engine.StageIntent | crates/kaya-engine/src/txn.rs:229-246 | stages the intent and records the key, or changes nothing on conflict |
| Database.Engine.PrepareCommit | crates/kaya-engine/src/txn.rs:90-116 | re-checks every staged key and collects the mutations in key order |
| Database.Engine.ApplyMutations | crates/kaya-engine/src/txn.rs:185-200 | writes the mutations one after the other |
| Database.Engine.CommitTxn | crates/kaya-engine/src/txn.rs:118-213 | on conflict nothing changes; otherwise the transaction is removed and its writes are applied |
| Database.Engine.RollbackTxn | crates/kaya-engine/src/txn.rs:215-227 | drops exactly the transaction and the intents it owns |
| EngineRefinement.StepRefines | crates/kaya-engine/src/txn.rs:60-283 | each engine operation answers as the reference snapshot-isolation machine and keeps the two in step |
| EngineRefinement.EngineIsSnapshotIsolated | crates/kaya-engine/src/txn.rs:60-283 | over every interleaving of transactions, plain writes, flushes, compactions and sequence jumps, each answer is the reference machine's |
| EngineRefinement.ConflictRefines | crates/kaya-engine/src/txn.rs:249-283 | the intent and version check is the reference clash: another open writer, or a logged record of the key after the snapshot |
| SnapshotIsolation.NoLostUpdate | crates/kaya-engine/src/txn.rs:90-127 | of two commits, the later began after the earlier or they wrote disjoint keys |
| SnapshotIsolation.NoVersionSinceSnapshot | crates/kaya-engine/src/txn.rs:249-266 | no committed key has a version by anyone between the snapshot and the commit |
| SnapshotIsolation.CommitsAreAtomic | crates/kaya-engine/src/txn.rs:185-213 | a snapshot contains all records of a commit or none |
| SnapshotIsolation.RepeatableRead | crates/kaya-engine/src/txn.rs:141-156 | while a transaction is open, a key it does not write reads the same |
| Memtable.SeekFindsNewest | crates/kaya-lsm/src/lib.rs:113-125 | seeking in the ordered map finds exactly the newest version the bound admits |
| Memtable.ScanPrefixAtExact | crates/kaya-lsm/src/lib.rs:134-167 | the one-pass scan returns a key under the prefix exactly when its newest visible version is a put, with that value |
| Memtable.ScanAscends | crates/kaya-lsm/src/lib.rs:134-167 | scan rows come in key order, one per key, all under the prefix |
| Memtable.SizeAfterInsert | crates/kaya-lsm/src/lib.rs:82-105 | the byte count stays the sum of the entry sizes; the saturating subtraction never saturates |
| Memtable.Memtable.Write | crates/kaya-lsm/src/lib.rs:82-105 | inserting or replacing a version updates the contents at that key only and keeps order and size |
| Memtable.Memtable.Get | crates/kaya-lsm/src/lib.rs:113-125 | the seek loop returns the newest visible version of the contents |
| Memtable.Memtable.Scan | crates/kaya-lsm/src/lib.rs:134-167 | the scan loop returns exactly the visible puts under the prefix, in key order |
| MemtableRuns.MemtableFollowsStore | crates/kaya-engine/src/recovery.rs:140-151 | over every run of writes, flushes, compactions and crashes the ordered memtable, fed with the logged writes, replaced at flushes and rebuilt by replay, answers every read as the store's memtable does and has its byte count |
| MemtableRuns.ReplayMirrors | crates/kaya-engine/src/recovery.rs:140-151 | replaying a log into an empty memtable gives its versions and its bytes |
| Memtable.EncodeKeyRoundTrip | crates/kaya-lsm/src/internal_key.rs:64-97 | the wire form gives back user key and sequence |
| Memtable.EncodedOrder | crates/kaya-lsm/src/internal_key.rs:52-70 | the wire form orders versions of a key, and user keys neither of which is a prefix of the other, like typed keys |
| Memtable.EncodedOrderExact | crates/kaya-lsm/src/internal_key.rs:5-10 | for any two keys the wire order is the typed order if and only if, should the smaller user key be a proper prefix of the other, its inverted sequence sorts before what follows the prefix |
| Memtable.WireOrderBreaksOnPrefix | crates/kaya-lsm/src/internal_key.rs:6-10 | for every user key, extending it by a zero byte makes the wire order disagree with the typed order |
| Scan.OfferKeepsWindow | crates/kaya-engine/src/memtable.rs:104-139 | offering a row and popping the largest key keeps the window the smallest keys offered so far, each with its highest sequence |
| Scan.WindowIsFirstKeys | crates/kaya-engine/src/memtable.rs:104-139 | the merged window is exactly the first `max_scan_results` keys of all offered, tombstones included |
| Scan.WindowAgreesWithProbe | crates/kaya-engine/src/memtable.rs:95-158 | every window entry is what a point lookup of its key finds |
| Scan.ScanAgreesWithGet | crates/kaya-engine/src/memtable.rs:95-158 | whatever the caps cut off, returned pairs ascend and each is what a point read returns |
| Scan.ScanUnderCaps | crates/kaya-engine/src/memtable.rs:95-158 | while the keys with a version the bound admits fit the cap, the scan returns precisely the first visible pairs up to the limit |
| Scan.ScanForAnyCaps | crates/kaya-engine/src/memtable.rs:95-158 | for any caps, a scan reads the first `max_scan_results` of the keys with an admitted version, skips tombstones and cuts off at the limit and the byte cap |
| Scan.TakeWithinBytes | crates/kaya-engine/src/memtable.rs:143-155 | the byte cap holds from the second pair on, and the output stops early only where the next pair would exceed it |
| Scan.ScanWithinLimit | crates/kaya-engine/src/memtable.rs:140-158 | a scan returns at most its limit if and only if the limit is not zero or there is nothing to return |
| Scan.LatestScanSeesLog | crates/kaya-engine/src/memtable.rs:95-158 | a latest scan sees exactly the fold of the log under the prefix |
| Scan.ZeroLimitYieldsOne | crates/kaya-engine/src/memtable.rs:140-158 | a store with one put, scanned with a limit of zero, returns the pair |
| Scan.ScanPrefix | crates/kaya-engine/src/memtable.rs:95-158 | the merge and output loops compute the scan result of the model |
| SimDisk.SimDisk.WriteAt | crates/kaya-io/src/sim.rs:270-302 | overwrites in place, growing the file with zeros; durable content unchanged |
| SimDisk.SimDisk.FsyncFile | crates/kaya-io/src/sim.rs:354-370 | makes the written content durable; a missing file is an error |
| SimDisk.SimDisk.FsyncDir | crates/kaya-io/src/sim.rs:372-409 | recorded as a call; names are durable at once in the content-only model |
| SimDisk.SimDisk.Rename | crates/kaya-io/src/sim.rs:426-448 | moves the file with both contents, replacing the target; a missing source is an error |
| SimDisk.SimDisk.Crash | crates/kaya-io/src/sim.rs:148-186 | every file falls back to its durable content |
| CrashRecovery.JobCovered | crates/kaya-engine/src/flush.rs:100-148 | at every disk step of a put, flush or compaction each step succeeds and the durable bytes stand for the state before or after it |
| CrashRecovery.CrashPointTablesComplete | crates/kaya-engine/src/flush.rs:100-148 | at every crash point, before the first CURRENT too, each table the durable manifest names has a complete, synced file |
| CrashRecovery.FlushCovered | crates/kaya-engine/src/flush.rs:100-148 | the same for a flush, including the very first, where CURRENT does not exist yet |
| CrashRecovery.CompactCovered | crates/kaya-engine/src/lib.rs:455-595 | the same for a compaction, with and without an output table |
| CrashRecovery.ReopenOk | crates/kaya-engine/src/recovery.rs:88-138 | durable bytes that stand for a log and tables always reopen, into a store that holds the whole log |
| CrashRecovery.CrashIsRecovered | crates/kaya-engine/src/lib.rs:205-244 | after a crash at any disk step, and any number of crashed openings, the engine reopens with the acknowledged log or that plus the write in flight; latest reads fold it and new sequences exceed all stored ones |
| CrashRecovery.AcknowledgedWritesSurvive | crates/kaya-engine/src/lib.rs:205-244 | over any run of writes, flushes, compactions and crashes the engine reopens and has every acknowledged write |
| CrashPoints.ManifestAtCrash | crates/kaya-engine/src/flush.rs:125-138 | at every crash point the durable manifest is the old one or has all of the job edits behind it |
| CrashPoints.TableListedTwice | crates/kaya-engine/src/flush.rs:125-148 | one put, a first flush that crashes between the manifest sync and the CURRENT rename, a second flush and a reopen: table 1 is live twice |
| CrashPoints.FirstPublishExact | crates/kaya-engine/src/recovery.rs:88-138 | the first publication makes loading yield distinct ids if and only if the durable manifest before it names no table |
| CrashPoints.LoadedDistinct | crates/kaya-engine/src/recovery.rs:88-138 | loading yields distinct ids if and only if the manifest lists no table twice |
| CrashPoints.IdsStayDistinct | crates/kaya-engine/src/lib.rs:205-244 | once CURRENT exists and ids are distinct they stay so in every run, whatever crashes |
| CrashPoints.CompactionRestoresDistinct | crates/kaya-engine/src/lib.rs:455-595 | a compaction lists every table once, however often it was listed before |
| CrashPoints.CommitCrashKeepsPrefix | crates/kaya-engine/src/txn.rs:185-213 | a crash inside a commit leaves the log with exactly the mutations written before it, and the one in flight if its record was synced |
| CrashPoints.CommitCrashAtomicity | crates/kaya-engine/src/txn.rs:185-213 | such a crash leaves all or nothing if and only if it falls before the first record or after the last one is synced |
| CrashPoints.CommitAtomicExact | crates/kaya-engine/src/txn.rs:185-213 | a commit is all or nothing at every crash point if and only if it has at most one mutation |
| CrashPoints.TornCommit | crates/kaya-engine/src/txn.rs:185-213 | a fresh engine that crashes inside a commit of two keys, the first record synced, reopens with one of the two |
| DiskPath.FlushMemtable | crates/kaya-engine/src/flush.rs:56-156 | issues exactly the disk calls of the flush script, in its order, and installs the new table |
| DiskPath.CompactTables | crates/kaya-engine/src/lib.rs:455-633 | issues exactly the disk calls of the compaction script, in its order, and replaces the merged tables |
| DiskPath.LogAndApply | crates/kaya-engine/src/index.rs:836-876 | issues exactly the disk calls of a write: log append and sync before the memtable, then the automatic flush |
| DiskPath.ReplayLog | crates/kaya-engine/src/recovery.rs:140-151 | replaying the records builds the table of all logged versions and its byte count |
| DiskPath.LoadLiveTables | crates/kaya-engine/src/recovery.rs:88-138 | CURRENT, manifest fold, table files and newest-first order as the model's reload |
| DiskPath.OpenEngine | crates/kaya-engine/src/lib.rs:205-244 | removes the temporary files and opens what the disk holds |
| TxnKeys.KeysApart | crates/kaya-engine/src/txn2pc.rs:89-121 | ids and keys never share a record, decision or intent key, and the tables are disjoint |
| TxnKeys.ParseRecTxnId | crates/kaya-engine/src/txn2pc.rs:130-140 | parses exactly the record keys and gives back their id |
| TxnKeys.FromStateByte | crates/kaya-engine/src/txn2pc.rs:55-70 | inverse of the state byte, refusing every other byte |
| TxnKeys.DecodeIntentValue | crates/kaya-engine/src/txn2pc.rs:161-195 | inverse of the intent encoding, refusing everything else |
| TxnKeys.WriteRepresented | crates/kaya-engine/src/txn2pc.rs:89-195 | an encoded write acts on the byte store exactly as on the record, decision, intent and user tables |
| TxnKeys.IntentScan | crates/kaya-engine/src/txn2pc.rs:115-127 | the prefix scan of a transaction yields its intents and no other's, in key order |
| Participant.Participant.Prepare | crates/kaya-engine/src/txn2pc.rs:200-233 | writes the prepare script; ok exactly when no mutation is refused |
| Participant.Participant.Commit | crates/kaya-engine/src/txn2pc.rs:246-287 | writes the commit script for the state found; refused exactly when aborted |
| Participant.Participant.Abort | crates/kaya-engine/src/txn2pc.rs:293-315 | writes the abort script; refused exactly when the commit is chosen |
| Participant.Participant.Decide | crates/kaya-engine/src/txn2pc.rs:323-361 | records the decision once, refuses a flip, resolves the local record |
| Participant.Participant.LoadIntents | crates/kaya-engine/src/txn2pc.rs:470-485 | decodes exactly the transaction's intents |
| Participant.Participant.ScanRecords | crates/kaya-engine/src/txn2pc.rs:404-417 | lists every record once with its state |
| Participant.Participant.Recover | crates/kaya-engine/src/txn2pc.rs:404-446 | writes the recovery script over the scanned rows and reports the undecided ones |
| TwoPhase.PrepareInstalls | crates/kaya-engine/src/txn2pc.rs:200-233 | a completed prepare leaves the record prepared and, per key, the last mutation as intent, over what an earlier prepare left |
| TwoPhase.CommitEffect | crates/kaya-engine/src/txn2pc.rs:246-287 | a completed commit applies exactly the intents, clears them, marks the record and touches nothing else |
| TwoPhase.AbortEffect | crates/kaya-engine/src/txn2pc.rs:293-315 | a completed abort clears exactly the intents and marks the record |
| TwoPhase.OpGuarded | crates/kaya-engine/src/txn2pc.rs:246-446 | every write of every operation but prepare lands in a state that justifies it |
| TwoPhase.DecisionNeverFlips | crates/kaya-engine/src/txn2pc.rs:323-342 | at every crash point of every operation a durable decision is what it was |
| TwoPhase.PhaseMovesForward | crates/kaya-engine/src/txn2pc.rs:250-311 | outside a prepare of that transaction the record only moves forward and committing never reaches aborted |
| TwoPhase.LastCommitWins | crates/kaya-engine/src/txn2pc.rs:250-295 | two transactions prepared on one key both commit and the key has the value of the one that commits last |
| TwoPhase.ForwardExact | crates/kaya-engine/src/txn2pc.rs:200-311 | a record moves forward at every crash point of an operation if and only if the operation is not a prepare of a transaction already past preparing |
| TwoPhase.LatePrepareRevives | crates/kaya-engine/src/txn2pc.rs:200-311 | a late prepare turns an aborted record into a prepared one, and a commit then applies it |
| TwoPhase.PrepareKeeps | crates/kaya-engine/src/txn2pc.rs:200-233 | a prepare, however far it got, changes only its own record and intents |
| TwoPhase.UserKeysChangeOnlyByCommit | crates/kaya-engine/src/txn2pc.rs:246-315 | at every crash point a user key differs only if a transaction with an intent on it has its commit chosen |
| TwoPhase.CommitIsAllOrNothing | crates/kaya-engine/src/txn2pc.rs:246-287 | once committing is durable, however commit and recoveries crash, the first completed recovery leaves the record committed, no intents, and every key at exactly the prepared mutation; only where another transaction with an intent on that key has its commit settled too may the key hold that one instead |
| TwoPhase.CommitSparesInDoubt | crates/kaya-engine/src/txn2pc.rs:246-446 | throughout that, every other transaction in doubt keeps its record and all its intents |
| TwoPhase.CommitTouchesOnlyItself | crates/kaya-engine/src/txn2pc.rs:246-287 | however far a commit got, no other record, decision or intent changed |
| TwoPhase.RecoveredValue | crates/kaya-engine/src/txn2pc.rs:404-446 | after a completed recovery every user key holds the intent of the last record, in scan order, that recovery finished and that has one, and else its old value |
| TwoPhase.RowsEffect | crates/kaya-engine/src/txn2pc.rs:404-446 | a completed recovery gives each listed record its outcome, clears the intents of those it resolved and keeps all others (user keys are in TwoPhase.RecoveredValue) |
| TwoPhase.RecoveryIsIdempotent | crates/kaya-engine/src/txn2pc.rs:404-468 | a second recovery writes nothing; the report is exactly the in-doubt set both times |
| TwoPhase.InDoubtIsNeverAltered | crates/kaya-engine/src/txn2pc.rs:404-446 | wherever recovery crashes, an undecided prepared transaction keeps its record and intents |
| TwoPhaseSystem.StepKeeps | crates/kaya-engine/src/txn2pc.rs:200-446 | every step keeps the protocol invariant: a recorded commit means everyone acknowledged, every record and every write still to come agrees with the recorded decision, and an acknowledged participant has a durable record |
| TwoPhaseSystem.Agreement | crates/kaya-engine/src/txn2pc.rs:200-446 | in no reachable state is a transaction committing or committed at one participant and aborted at another |
| TwoPhaseSystem.CommitNeedsEveryPrepare | crates/kaya-server/src/cluster/txn_coord.rs:162-233 | a commit chosen anywhere means every participant durably prepared and none gave up |
| TwoPhaseSystem.StrayAbortExact | crates/kaya-server/src/cluster/txn_coord.rs:194-216 | in every reachable state an abort sent to a participant, in step with the coordinator or not, keeps agreement if and only if that participant is not undecided or no participant has chosen to commit |
| TwoPhaseSystem.AllowedAbortIsSafe | crates/kaya-server/src/cluster/txn_coord.rs:205-216 | an abort of a transaction whose abort was recorded, or that was given up before any commit was recorded, never meets a participant that chose to commit, whether or not recording the abort succeeded |
| TwoPhaseSystem.SplitIsReachable | crates/kaya-server/src/cluster/txn_coord.rs:197-216 | a run with two participants in which the recorded commit resolves the first and a stray abort of the second then breaks agreement |
| TwoPhaseHistory.AcknowledgedPrepareIsHonoured | crates/kaya-engine/src/txn2pc.rs:200-311 | in every continuation of every run, until the transaction is doomed, the last mutation of each key of an acknowledged prepare is still an intent, or its intent was taken away with that value in the user key; and at a participant that ends up committed it was |
| TwoPhaseHistory.IntentGoes | crates/kaya-engine/src/txn2pc.rs:250-311 | the one step that removes an intent of an acknowledged prepare finds its value in the user key, unless the transaction is doomed |
| TwoPhaseHistory.ScriptMarked | crates/kaya-engine/src/txn2pc.rs:200-446 | no operation clears an intent of a decided commit except behind its committing mark |
| TwoPhaseHistory.RunKeepsAll | crates/kaya-engine/src/txn2pc.rs:200-446 | along every run a committed record has no intents left and a running prepare is on its way to the last mutation of every key |
| TwoPhaseOnDisk.ScriptOnDisk | crates/kaya-engine/src/txn2pc.rs:200-446 | an operation run through the storage engine, one logged put per durable write, leaves a store whose bytes are the tables its script gives |
| TwoPhaseOnDisk.CrashLeavesPrefix | crates/kaya-engine/src/txn2pc.rs:200-446 | whatever disk step an operation crashes at, and however often opening crashes after it, the engine reopens with the tables behind a prefix of its writes, the one under way included exactly if its record was synced |
| TwoPhaseOnDisk.ReadsAreTables | crates/kaya-engine/src/txn2pc.rs:200-446 | from a fresh engine, over any history of two-phase operations, completed or cut off at a disk step and reopened, and plain writes, every latest read is the value of the tables |
| TwoPhaseOnDisk.TriesAreRestarts | crates/kaya-engine/src/lib.rs:308-317 | any number of openings whose recovery crashes at a disk step amount to recoveries that crash between two writes |
| TwoPhaseOnDisk.CommitSurvivesOutages | crates/kaya-engine/src/lib.rs:308-317 | a commit whose committing mark was synced crashes at any disk step and openings crash in their recovery: the first opening to complete reads the record as committed and every key at the prepared mutation, or at that of a rival whose commit is settled too |
| TwoPhaseSystem.OnlyCommitsChangeUserKeys | crates/kaya-engine/src/txn2pc.rs:200-446 | anywhere in a run a step other than a plain write changes a user key only to the intent of a transaction that no participant has aborted at any later point |
| Crc32c.Compute | crates/kaya-core/src/lib.rs:439-449 | the nested loop refines the recursive checksum whose error detection is proved |
| Crc32c.KnownVector | crates/kaya-core/src/lib.rs:456-458 | the published check value of the ASCII digits |
| Crc32c.ShiftInjective | crates/kaya-core/src/lib.rs:443-446 | one register shift is injective |
| Crc32c.OneByteChangesChecksum | crates/kaya-core/src/lib.rs:439-449 | messages that differ in exactly one byte have different checksums, as the loop computes them |
| Manifest.MetadataRoundTrip | crates/kaya-lsm/src/manifest.rs:200-256 | table metadata reads back from its payload |
| Manifest.FrameRoundTrip | crates/kaya-lsm/src/manifest.rs:291-432 | an encoded edit reads back, whatever follows it |
| Manifest.FrameCutShort | crates/kaya-lsm/src/manifest.rs:328-388 | a frame cut anywhere is incomplete, never an edit |
| Manifest.DamagedFrame | crates/kaya-lsm/src/manifest.rs:328-432 | a change confined to one byte of a frame always decodes as invalid |
| Manifest.TruncatedReplay | crates/kaya-lsm/src/manifest.rs:438-473 | replaying any truncation folds the longest prefix of whole edits and warns exactly when an edit was cut |
| Manifest.DamagedReplay | crates/kaya-lsm/src/manifest.rs:438-473 | damage to one byte of an edit stops replay with exactly the edits before it, for any checksum that sees one-byte changes |
| Manifest.DamagedManifest | crates/kaya-lsm/src/manifest.rs:438-473 | the same for the CRC the manifest uses |
| Manifest.ManifestState.Apply | crates/kaya-lsm/src/manifest.rs:97-110 | create appends, delete removes every table with the id, set-last replaces the sequence |
| Manifest.ReplayManifest | crates/kaya-lsm/src/manifest.rs:438-473 | the offset loop over the manifest bytes refines the replay of which truncation and damage are characterised |
| CdcText.HexRoundTrip | crates/kaya-engine/src/cdc.rs:97-130 | hex decoding undoes hex encoding for all bytes |
| CdcText.DecimalRoundTrip | crates/kaya-engine/src/cdc.rs:133-153 | the decimal parser reads every printed number back |
| CdcText.SplitJoined | crates/kaya-engine/src/cdc.rs:218-253 | the field splitter takes a printed body apart into its fields |
| CdcText.LineRoundTrip | crates/kaya-engine/src/cdc.rs:133-281 | decoding an encoded line returns the event, for any bytes and any 64-bit sequence |
| CdcText.PutLineFormat | crates/kaya-engine/src/cdc.rs:133-145 | the text of a put line, field by field |
| CdcText.DeleteLineFormat | crates/kaya-engine/src/cdc.rs:146-152 | the text of a delete line, field by field |
| CdcText.LogRoundTrip | crates/kaya-engine/src/cdc.rs:315-345 | loading a log of appended lines returns the events |
| CdcText.TruncatedLogExact | crates/kaya-engine/src/cdc.rs:333-345 | a log cut anywhere loads if and only if the cut is at the end of a line or just before its newline, and then gives the events of those lines; any other cut is an error |
| CdcText.PrintHex | crates/kaya-engine/src/cdc.rs:97-105 | the printing loop computes the hex text |
| CdcText.ReadHex | crates/kaya-engine/src/cdc.rs:107-121 | the reading loop computes the hex decoding, errors included |
| CdcText.ParseJsonString | crates/kaya-engine/src/cdc.rs:255-281 | the scanner loop computes the string up to the closing quote, escapes and errors included |
| CdcText.SplitJsonFields | crates/kaya-engine/src/cdc.rs:218-253 | the splitter loop computes the field list, errors included |
| CdcFeed.AfterTaking | crates/kaya-engine/src/cdc.rs:449-462 | moving the cursor to the last polled event leaves exactly the unpolled ones |
| CdcFeed.CompactionKeepsPending | crates/kaya-engine/src/cdc.rs:506-532 | compaction loses nothing for a cursor exactly when no event lies between the cursor and the cutoff |
| CdcFeed.ExactDelivery | crates/kaya-engine/src/cdc.rs:435-532 | a registered consumer's polls, interleaved with appends, other consumers and default compactions, concatenate to exactly the events above its start |
| CdcFeed.UnregisteredLosesEvents | crates/kaya-engine/src/cdc.rs:493-500 | a consumer that has not polled yet loses events to compaction at another's position |
| CdcFeed.Changefeed.Poll | crates/kaya-engine/src/cdc.rs:435-463 | returns the first events above the cursor, advances it and the recorded position |
| CdcFeed.Changefeed.Compact | crates/kaya-engine/src/cdc.rs:506-532 | keeps exactly the events above the cutoff and counts the removed ones |
| CdcFeed.FindLowest | crates/kaya-engine/src/cdc.rs:493-500 | the lowest consumer position, 0 without consumers |
| HybridClock.Clock.Update | crates/kaya-core/src/hlc.rs:53-72 | the branches compute the merged stamp and store it |
| HybridClock.Clock.CheckedUpdate | crates/kaya-core/src/hlc.rs:84-103 | refuses exactly a remote sample beyond the offset, leaving the clock alone |
| HybridClock.MergedPassesLocal | crates/kaya-core/src/hlc.rs:53-72 | a merge moves strictly past the local stamp if and only if the counter is not saturated or the milliseconds move |
| HybridClock.MergedPassesRemote | crates/kaya-core/src/hlc.rs:53-72 | the same for the remote stamp |
| HybridClock.PackRoundTrip | crates/kaya-core/src/hlc.rs:117-128 | unpacking undoes packing in range |
| HybridClock.PackMonotone | crates/kaya-core/src/hlc.rs:117-120 | packed values compare like stamps in range |
| HybridClock.SaturatedClockRepeats | crates/kaya-core/src/hlc.rs:57-65 | at the counter's end a stalled wall clock repeats a timestamp |
| HybridClock.Causality | crates/kaya-core/src/hlc.rs:53-128 | over any run of nodes exchanging stamps, happens-before implies a strictly larger packed timestamp while stamps stay in range |
| HybridClock.LeadBounded | crates/kaya-core/src/hlc.rs:84-111 | with checked merges and a wall clock that does not go back, a clock leads it by at most the offset |
| HybridClock.WaitIsNeverCutShort | crates/kaya-engine/src/lib.rs:373-385 | the capped write wait equals the lead, and the wall clock has caught up when it ends |
| BlockCache.BlockCache.Get | crates/kaya-lsm/src/block_cache.rs:49-60 | a hit returns the block and makes the offset most recent; a miss changes only the counter |
| BlockCache.BlockCache.Insert | crates/kaya-lsm/src/block_cache.rs:62-78 | replaces, or evicts the least recently used when full, and appends |
| BlockCache.HoldsMostRecent | crates/kaya-lsm/src/block_cache.rs:49-78 | after any trace the cache holds exactly the most recently used distinct offsets that fit, in order of use |
| BlockCache.StackProperty | crates/kaya-lsm/src/block_cache.rs:49-78 | a smaller cache's recency list is a suffix of a larger one's |
| BlockCache.HitsGrowWithCapacity | crates/kaya-lsm/src/block_cache.rs:49-78 | hits never decrease and misses never increase with capacity |
| BlockCache.HoldsLastInserted | crates/kaya-lsm/src/block_cache.rs:62-78 | every cached offset maps to the block last inserted for it |
| RangeCache.CacheInvariant | crates/kaya-client/src/lib.rs:93-104 | from an empty cache the ranges stay sorted and pairwise disjoint, and are exactly the reported descriptors nothing later displaced |
| RangeCache.NeverStale | crates/kaya-client/src/lib.rs:76-130 | a lookup returns the group of the last reported descriptor covering the key exactly when nothing displaced it since, and nothing otherwise |
| RangeCache.CoveringOverlaps | crates/kaya-client/src/lib.rs:107-130 | two ranges that cover a common key overlap |
| RangeCache.RangeCache.LookupGroup | crates/kaya-client/src/lib.rs:76-86 | the loop returns the group of the first covering range |
| RangeCache.RangeCache.ApplyDescriptors | crates/kaya-client/src/lib.rs:93-104 | drops displaced ranges per descriptor, appends it, sorts by start, raises the epoch |
| IndexKeys.ExtractField | crates/kaya-engine/src/index.rs:50-67 | the cursor loop finds the field of that number in the split value, or none |
| IndexKeys.DataKeyRoundTrip | crates/kaya-engine/src/index.rs:327-378 | an entry key gives back its secondary and primary |
| IndexKeys.DecodeExact | crates/kaya-engine/src/index.rs:353-378 | whatever decodes under a name is that entry's key |
| IndexKeys.DataKeyInjective | crates/kaya-engine/src/index.rs:327-340 | different entries never share a key, across indexes too |
| IndexKeys.EntryPut | crates/kaya-engine/src/index.rs:327-340 | writing an entry key adds exactly that entry to its own index and leaves every other index alone |
| IndexKeys.EntryDelete | crates/kaya-engine/src/index.rs:327-340 | deleting an entry key removes exactly that entry from its own index and leaves every other index alone |
| IndexKeys.OutsideKeeps | crates/kaya-engine/src/index.rs:353-378 | no key outside the entry space, rows and metadata included, touches an index |
| IndexKeys.ScanEntries | crates/kaya-engine/src/index.rs:514-535 | scanning the key range and decoding yields exactly the stored entries whose secondary has the prefix, in key order |
| Indexes.MaintainPutEffect | crates/kaya-engine/src/index.rs:760-783 | the branches of put maintenance replace the old entry by the new one |
| Indexes.StepKeepsIndex | crates/kaya-engine/src/index.rs:593-649 | a backfill step adds no extra entry, covers everything up to its cursor, and is exact when it completes |
| Indexes.SyncBackfillExact | crates/kaya-engine/src/index.rs:447-478 | a synchronous backfill indexes exactly the extracted primaries |
| Indexes.IndexMatchesRows | crates/kaya-engine/src/index.rs:388-650 | across any writes, creations, drops and backfill steps an index under whose prefix no two-phase write has a secondary never holds an extra entry and is exact once complete |
| Indexes.ExactIffSheltered | crates/kaya-engine/src/index.rs:388-478 | a complete index is exact in every run if and only if no record, decision or intent that two-phase commit can write under its prefix has a secondary, a condition on prefix and extractor that creation does not check |
| Indexes.RecordMakesStale | crates/kaya-engine/src/index.rs:836-876 | the first write of a prepare makes a complete whole-value index over the record prefix inexact |
| Indexes.ScriptMakesStale | crates/kaya-engine/src/index.rs:836-876 | so does any list of two-phase writes that ends in one with a secondary under the prefix |
| IndexExposure.ShownIsExposed | crates/kaya-engine/src/txn2pc.rs:88-189 | the condition holds of every prefix and extractor for which some record, decision or intent write has a secondary |
| IndexExposure.ExposedIsShown | crates/kaya-engine/src/txn2pc.rs:88-189 | and of no others: from the condition, a write with the key and value encoding of two-phase commit that has one |
| IndexExposure.WriteIsIssued | crates/kaya-engine/src/txn2pc.rs:200-370 | every such write is made by an operation of a participant that holds nothing yet |
| IndexStore.IndexScanExact | crates/kaya-engine/src/index.rs:514-535 | at the end of any run, whatever keys stand for the state, scanning a complete index returns exactly the pairs of extracted secondary and primary whose secondary has the prefix |
| IndexStore.IndexedStore.ScanByIndex | crates/kaya-engine/src/index.rs:514-535 | refused for unknown names; pairs in key order, never one the rows do not call for, and once the backfill is complete exactly those they do |
| IndexStore.IndexedStore.VerifyIndex | crates/kaya-engine/src/index.rs:656-708 | scans and decodes the entry keys and reports exactly the stored entries the rows do not call for and the called-for entries not stored; nothing for a complete index |
| IndexStore.IndexedStore.Put | crates/kaya-engine/src/index.rs:740-783 | row and entry keys after a put are those of the model, and the index invariant is kept |
| IndexStore.IndexedStore.Delete | crates/kaya-engine/src/index.rs:786-811 | the same for a delete |
| IndexStore.IndexedStore.TxnWrite | crates/kaya-engine/src/index.rs:836-876 | system writes change rows without maintaining an index |
| IndexStore.IndexedStore.MaintainAfterPut | crates/kaya-engine/src/index.rs:740-783 | the loop writes and deletes entry keys so that each index whose prefix covers the key, and no other, replaces the old entry by the new |
| IndexStore.IndexedStore.MaintainAfterDelete | crates/kaya-engine/src/index.rs:786-811 | the loop deletes the old entry key of each such index |
| IndexStore.IndexedStore.MaintainOnePut | crates/kaya-engine/src/index.rs:760-783 | the branches for one index: moved secondary, unchanged secondary, new secondary |
| IndexStore.IndexedStore.InsertEntryFor | crates/kaya-engine/src/index.rs:814-833 | writes the entry key of a row that has a secondary |
| IndexStore.IndexedStore.Create | crates/kaya-engine/src/index.rs:388-478 | registers a valid new name, with a complete backfill unless online |
| IndexStore.IndexedStore.Drop | crates/kaya-engine/src/index.rs:491-510 | the entry keys that decode under the name are gone and every other index is as it was |
| IndexStore.IndexedStore.BackfillStep | crates/kaya-engine/src/index.rs:593-650 | writes the entry keys of up to a batch of keys behind the cursor and moves it; paused and complete backfills stay as they are |
| IndexStore.IndexedStore.Visit | crates/kaya-engine/src/index.rs:624-649 | the batch loop with its counter writes the entries of the first keys and says whether it ran out of them |
| IndexStore.IndexedStore.Pause | crates/kaya-engine/src/index.rs:548-559 | pauses a running backfill and nothing else |
| IndexStore.IndexedStore.Resume | crates/kaya-engine/src/index.rs:562-588 | resumes a paused or idle backfill and nothing else |
| Indexes.CleanReportMeansExact | crates/kaya-engine/src/index.rs:653-655 | the report is empty exactly when the entries are the expected set |
| Indexes.Compare | crates/kaya-engine/src/index.rs:656-708 | the comparison of scanned entries with the rows, both kinds of divergence exact |
| Versions.CollectedHit | crates/kaya-engine/src/lib.rs:640-663 | collection leaves every lookup the version it had or nothing, never an older one |
| Database.Engine.CollectHeld | crates/kaya-engine/src/txn.rs:102-110 | the loop over the staged keys keeps, in key order, the intents the transaction still owns |
| DiskPath.PublishAll | crates/kaya-engine/src/flush.rs:100-148 | issues the table file calls before the edits that name it, and CURRENT last |
| Storage.ProbeIsNewestHeld | crates/kaya-engine/src/memtable.rs:62-84 | in every state the invariant admits, collected or not, first-hit lookup finds the newest version any source still holds |
| Storage.NextIsFresh | crates/kaya-engine/src/lib.rs:226-231 | the next sequence exceeds every logged one |
| Database.Engine.constructor | crates/kaya-engine/src/lib.rs:205-244 | a fresh engine over an empty log |
| Database.Engine.ProbeSources | crates/kaya-engine/src/memtable.rs:62-84 | the early-exit loop over memtable and tables finds the first hit in probe order |
| Database.Engine.RemoveTxn | crates/kaya-engine/src/txn.rs:118-135 | forgets the transaction and exactly the intents it still owns |
| SnapshotIsolation.RunKeeps | crates/kaya-engine/src/txn.rs:60-283 | what every history keeps: snapshots are log positions, no two open transactions stage one key, and commits occupy disjoint runs of the log free of clashes |
| EngineRefinement.RunRefines | crates/kaya-engine/src/txn.rs:60-283 | answers and correspondence along every history from any matching pair of states |
| EngineRefinement.CommitStep | crates/kaya-engine/src/txn.rs:90-213 | a commit fails on both sides together, and otherwise logs the same records in key order and forgets the same transaction |
| EngineRefinement.ReadStep | crates/kaya-engine/src/txn.rs:141-156 | a transactional read through the layers equals own write or the fold of the log prefix at begin |
| Scan.AllRowsExact | crates/kaya-engine/src/memtable.rs:110-139 | the rows all sources offer are versions they hold, and every key's newest visible version is among them |
| Scan.MergeInto | crates/kaya-engine/src/memtable.rs:111-122 | the inner loop folds a source's rows into the window |
| Scan.MergeTables | crates/kaya-engine/src/memtable.rs:110-123 | the outer loop visits the tables oldest first |
| Scan.MergeMemtable | crates/kaya-engine/src/memtable.rs:124-139 | the memtable's raw versions, those above the bound skipped |
| Scan.EmitWindow | crates/kaya-engine/src/memtable.rs:140-158 | the output loop skips tombstones and stops at the row limit or before the byte cap, but never before the first row |
| Scan.RawScanExact | crates/kaya-lsm/src/lib.rs:171-188 | the raw memtable scan offers only versions held, and every key's newest visible one |
| Scan.ScanPrefixAtExact | crates/kaya-engine/src/memtable.rs:110-112 | a table scan offers, per key under the prefix, its newest visible version |
| Memtable.KeyLessTotal | crates/kaya-lsm/src/internal_key.rs:52-58 | typed keys are totally ordered |
| Memtable.KeyLessTransitive | crates/kaya-lsm/src/internal_key.rs:52-58 | the typed order is transitive |
| Memtable.InsertedOk | crates/kaya-lsm/src/lib.rs:82-105 | ordered insertion stays ordered and sets exactly the one version |
| Memtable.ScanItems | crates/kaya-lsm/src/lib.rs:134-167 | the single pass with its current-key and selected flags refines the recursive scan of which exactness is proved |
| SimDisk.SimDisk.AppendTo | crates/kaya-io/src/sim.rs:304-352 | extends the written content only, creating the file if missing |
| SimDisk.SimDisk.RemoveFile | crates/kaya-io/src/sim.rs:450-470 | the file is gone, written and durable content alike |
| CrashRecovery.OpenedIsComplete | crates/kaya-engine/src/lib.rs:205-244 | replaying the whole log over any sound tables, collected ones included, restores every version |
| CrashRecovery.ReloadOk | crates/kaya-engine/src/recovery.rs:88-138 | loading finds the tables newest first, all of them ones the durable manifest stands for |
| CrashRecovery.RunKeepsOk | crates/kaya-engine/src/lib.rs:205-244 | no run of writes, flushes, compactions, watermark moves and crashes gets stuck or breaks the agreement of memory and disk |
| DiskPath.WriteTable | crates/kaya-engine/src/flush.rs:100-108 | issues write to a temporary file, sync, rename and directory sync in that order |
| DiskPath.WriteEdits | crates/kaya-engine/src/flush.rs:125-138 | issues one append per edit, then the manifest sync |
| DiskPath.WriteCurrent | crates/kaya-engine/src/flush.rs:140-148 | issues write, sync, rename and directory sync for CURRENT in that order |
| DiskPath.ReplayEdits | crates/kaya-engine/src/recovery.rs:88-138 | the fold of the manifest edits to the live ids |
| DiskPath.SortedAfterLoading | crates/kaya-engine/src/recovery.rs:88-138 | loading in manifest order and sorting afterwards is inserting in id order, failures included |
| DiskPath.RemoveTemps | crates/kaya-engine/src/recovery.rs:153-177 | removes the temporary files and nothing else |
| TwoPhaseSystem.RunKeeps | crates/kaya-engine/src/txn2pc.rs:200-446 | the system invariant along every legal run of crashes, recoveries and messages |
| TxnKeys.IntentScanExact | crates/kaya-engine/src/txn2pc.rs:115-127 | a key has the scan prefix exactly when it is an intent key of the transaction, and stripping inverts it |
| Participant.Participant.ReadState | crates/kaya-engine/src/txn2pc.rs:380-387 | the phase of the record, decoded from its stored byte |
| Participant.Participant.ReadDecision | crates/kaya-engine/src/txn2pc.rs:365-377 | the recorded decision, decoded from its stored byte |
| Participant.Participant.ScanIntents | crates/kaya-engine/src/txn2pc.rs:470-495 | the user keys of exactly this transaction's intents, in order |
| Participant.Participant.MaterializeIntents | crates/kaya-engine/src/txn2pc.rs:279-282 | writes every intent to its user key, keeping the intents |
| Participant.Participant.FinishCommit | crates/kaya-engine/src/txn2pc.rs:279-286 | materialize, clear, mark committed: the tail of a commit, which recovery re-runs |
| Participant.Participant.ClearIntents | crates/kaya-engine/src/txn2pc.rs:487-495 | deletes exactly the transaction's intents |
| Participant.Participant.Resolve | crates/kaya-engine/src/txn2pc.rs:350-361 | commits or aborts as decided if the record is still prepared; never fails |
| Participant.Participant.RecoverRow | crates/kaya-engine/src/txn2pc.rs:417-443 | finishes one record by its phase and decision, or leaves it in doubt |
| Crc32c.FeedBytes | crates/kaya-core/src/lib.rs:441-447 | the byte loop refines the recursive register feed |
| Manifest.PayloadRoundTrip | crates/kaya-lsm/src/manifest.rs:258-290 | the payload of each kind of edit reads back under its record type |
| Manifest.CrcIsSensitive | crates/kaya-core/src/lib.rs:439-449 | the checksum the manifest uses sees every one-byte change |
| Manifest.ReplayLoop | crates/kaya-lsm/src/manifest.rs:438-473 | the offset loop refines the recursive replay, for any decoder that consumes at least a byte |
| CdcText.ScanPlain | crates/kaya-engine/src/cdc.rs:255-281 | scanning a printed string stops at its own closing quote |
| CdcText.ReadField | crates/kaya-engine/src/cdc.rs:218-253 | one key and value, quoted or bare, and the rest of the text |
| CdcFeed.Changefeed.Append | crates/kaya-engine/src/cdc.rs:392-403 | adds the event at the end and keeps the positions |
| CdcFeed.Collect | crates/kaya-engine/src/cdc.rs:449-462 | the early-exit loop takes the first events above the cursor, up to the limit |
| BlockCache.InsertKeeps | crates/kaya-lsm/src/block_cache.rs:62-78 | recency list and block map agree, without repeats and within capacity |
| BlockCache.RemoveFirst | crates/kaya-lsm/src/block_cache.rs:49-60 | drops one occurrence from the recency list |
| IndexKeys.ScanPrefixCovers | crates/kaya-engine/src/index.rs:342-350 | the scan prefix reaches every entry whose secondary has the value prefix |
| Indexes.PutKeepsIndex | crates/kaya-engine/src/index.rs:740-783 | put maintenance keeps the index right at every stage of a backfill |
| Indexes.DeleteKeepsIndex | crates/kaya-engine/src/index.rs:786-811 | delete maintenance keeps the index right at every stage of a backfill |
| Indexes.RunKeepsDb | crates/kaya-engine/src/index.rs:388-649 | the index invariant along every run |
| Indexes.FindExtras | crates/kaya-engine/src/index.rs:676-694 | finds exactly the entries no row calls for, and notes the matched primaries |
| Indexes.FindMissing | crates/kaya-engine/src/index.rs:696-705 | finds exactly the called-for entries not noted |

## Left out

- Wall clocks, sleeping, locks, statistics, histograms, event logs and operation counters.
- Log segments and the log's and tables' on-disk formats, block compression and encryption, and the other disk backends.
- Relaxed durability, injected faults and strict namespace durability of the simulated disk.
- Leveled and size-tiered compaction and pinned tables; the default policy merges all live tables.
- Snapshot export and install, Raft replication and membership, servers, clients and tools.
- Raft-path commit that takes the intents before proposing.
- Histories in which `txn_prepare_commit` and `txn_finish` are called on their own; a commit step is prepare, remove, apply.
- Index metadata encoding and reopening during an online backfill; crashes between a row write and its index and change-log writes; entry keys beyond the configured key length, which make a put fail after its row was written.
- Two-phase commit and the transaction engine run without registered indexes and without the change feed.
- Change-feed cursor files, consumer id validation, the disabled feed and the rewrite of the log file by compaction.
- Backfill counters, recovery counters and the capacity of 64-bit counters.
- EngineRefinement.EngineIsSnapshotIsolated: the collection watermark stays at its default 0; above it Storage.CompactSnapshotExact and Storage.ConflictCheckExact say exactly which reads and conflict checks still agree with the log.
- Participant.Participant.Prepare: the key and value length refusals of the raw write are left out; only reserved keys are refused.
- SimDisk.SimDisk.WriteAt: files are lists of items, one per call, so byte offsets inside an item and partly overwritten content are not modelled.
- CdcText.ParseJsonString: scans characters where the source scans bytes; the two differ only beyond ASCII, which the printer never emits.
- TwoPhaseSystem.Agreement: holds for coordinators that send no abort once a commit is recorded; TwoPhaseSystem.StrayAbortExact says exactly which other aborts break it.
- TwoPhaseHistory.AcknowledgedPrepareIsHonoured: the handed-over value is in the user key when the intent goes; later writes of the key, plain or by another transaction, may replace it.
- CrashRecovery.Open: rebuilds the store only; the two-phase recovery writes that opening makes follow as puts of the same run (TwoPhaseOnDisk.TriesAreRestarts, TwoPhaseOnDisk.CommitSurvivesOutages).
- HybridClock.Causality: needs every stamp below the saturation limits; HybridClock.MergedPassesLocal and HybridClock.SaturatedClockRepeats say what happens beyond.
- Indexes.IndexMatchesRows: needs a prefix under which no two-phase write has a secondary; Indexes.ExactIffSheltered says that this is exactly when it holds. Starting rows in the transaction key space are taken to be records, decisions and intents, the only rows the engine puts there.
- CdcFeed.ExactDelivery: needs a registered consumer; CdcFeed.CompactionKeepsPending is the exact condition for one compaction.
