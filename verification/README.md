# Verification of the opheap engine

opheap is an embedded persistent object heap. Named roots hold value trees; transactions change them
optimistically; a write-ahead journal and a snapshot file make commits durable; a bounded cache keeps
payloads in memory. Beside the engine the repository has a JSON reader and writer and a small SQL layer.
This project models that logic in Dafny and proves what it is for. `dafny verify dfyconfig.toml` checks it.

## How it is arranged

| files | what they model |
|---|---|
| Bytes, BinaryIO | little-endian scalars, the byte writer and reader |
| Crc32c, CrcDivision | CRC32C: the register, burst errors, and the polynomial division that defines it |
| JournalFormat, SnapshotFormat, Ordering | the bytes of journal records and of the snapshot file |
| Layouts, SnapshotLayout | the same as fields at fixed places, and exactly which bytes are accepted |
| Scanning, Recovery, Accepts, Commits, Replay, Histories | replay of a journal: transactions, torn tails, repeated replay, and exactly which journals are accepted |
| Storage, Standing, Engine | files and crashes: the engine as a step machine that refines a map from name to version, type and payload |
| Files, SnapshotStore, JournalFile, HeapState | the classes that read and write the files, shown to take the engine's steps, to keep its invariant, and to leave on the disk only what recovers |
| ReusedIds, Corruption | transaction ids that start again at every open, and records changed on the disk |
| Cache, Loading | the payload cache, and loads interleaved with the engine's commits and checkpoints |
| Transactions, Observables, Mutations, Sessions | optimistic transactions, dirty tracking, the transaction object |
| ValueCodec, Codes | the binary form of value trees, and exactly which bytes decode |
| Json, JsonCharacters, JsonNumbers, JsonGrammar, JsonPrinting | the JSON form, and that it is that of RFC 8259 |
| SqlParser, SqlLexer, SqlTables, SqlSelect, Doubles | the WHERE parser, tokenizer and statement splitter, tables and queries, integers as doubles |
| SqlGrammar, SqlTokens, SqlMeaning | what these accept and mean, said apart from how they work |
| Durability | transactions over loads, the engine's steps, crashes and reopenings together |

The recovery and engine theorems are proved for every record and snapshot format that obeys stated laws
and for every checksum function; `JournalFormat.FormatLaws`, `SnapshotFormat.FormatLaws` and
`HeapState.FormatsSound` show that the real bytes obey them. `Law` values and invariants stated under
`Opened` are ordinary definitions, written so that a proof looks into them only where it says so.

A crash keeps any prefix of an unflushed append, and either the old or the new result of an unsynced
rename or truncation. `Files.Disk` carries what a crash may leave and counts the calls that failed; the
contracts of the heap are stated over both. Numbers are unbounded in the model; where the program stores
them in 16, 32 or 64 bits, the theorems assume that they fit (`Recovery.Fitting`, `SnapshotFormat.Fits`,
`ValueCodec.Storable`). These include the two bounds that readers enforce and writers do not: frames of at
most 2^40 bytes (journal.hpp:98) and snapshots of at most 10,000,000 roots (snapshot.hpp:68).

Where the code and its comments disagree the model follows the code: NULLs come first under DESC
(`SqlSelect.NullsLastIff`), comparing a value with a literal of another kind is an error and not an unknown
(`SqlMeaning.EvaluateMeans`; compare_value_literal.hpp:14), and recovery cuts the journal after the last
complete record, not after the last complete transaction (`Histories.ReuseAfterCut` says exactly when that
makes a later recovery fail, and `ReusedIds.ReusedIdBreaksRecovery` gives the run).

## Model

| member | source | states |
|---|---|---|
| `Engine.StepRefines` | libraries/libopheap-core/include/opheap/detail/heap_state.hpp:28-160 | every step of open, commit, checkpoint (each sub-step), crash and reopen keeps the invariant over files and memory and changes the abstract map from name to version, type and payload only as allowed: by all updates of a commit that returns, or all or none of one a crash cut short |
| `Engine.RunSafe` | libraries/libopheap-core/include/opheap/detail/heap_state.hpp:28-160 | the invariant holds after every run from any safe state |
| `Engine.IndexIsRecovery` | libraries/libopheap-core/include/opheap/detail/heap_state.hpp:28-160 | in every reachable idle state with no commit in flight, the root index in memory equals, versions and locators included, what recovery computes from the snapshot and the journal, all locators are readable, and the index denotes the store that the run's commits define; the guard of the commit step is that no update was left open in the journal under its transaction id |
| `HeapState.IndexIsRecoveryOnBytes` | libraries/libopheap-core/include/opheap/detail/heap_state.hpp:28-160 | the same for the real byte formats |
| `Engine.CrashRecovers` | libraries/libopheap-core/include/opheap/detail/heap_state.hpp:94-160 | a crash in any phase, with any surviving prefix of an unflushed append and either outcome of an unsynced rename or truncation, leaves files from which recovery yields the store with the transaction in flight wholly applied or wholly absent |
| `Engine.CheckpointCrashKeeps` | libraries/libopheap-core/include/opheap/detail/heap_state.hpp:140-160 | with nothing in flight, a crash at any sub-step of a checkpoint recovers the same versions, types and payload bytes, whichever snapshot and journal survive |
| `Engine.CrashedRunReopens` | libraries/libopheap-core/include/opheap/detail/heap_state.hpp:28-43 | after every run that ends in a crash the files can be opened again and hold the store |
| `HeapState.CrashedRunReopensOnBytes` | libraries/libopheap-core/include/opheap/detail/heap_state.hpp:28-43 | the same for the real byte formats |
| `Standing.FlightResolves` | libraries/libopheap-core/include/opheap/detail/journal.hpp:179-208 | however much of an unacknowledged transaction reached the file, recovery applies all of it or none |
| `Standing.FlightLands` | libraries/libopheap-core/include/opheap/detail/heap_state.hpp:111-129 | once a transaction's bytes are all on the file, publishing its locators gives the index recovery computes and applies exactly its updates |
| `Standing.CheckpointStands` | libraries/libopheap-core/include/opheap/detail/heap_state.hpp:140-160 | installing the new snapshot over the old journal changes locators only; replaying the journal over it changes nothing |
| `Standing.ImageStands` | libraries/libopheap-core/include/opheap/detail/journal.hpp:230-233 | the new snapshot with an empty journal stands for the same cells |
| `Standing.ReopenStands` | libraries/libopheap-core/include/opheap/detail/journal.hpp:166-177 | cutting the torn tail leaves a file that recovers, whole, to the same index |
| `Histories.PrefixRecovers` | libraries/libopheap-core/include/opheap/detail/journal.hpp:89-177 | every byte prefix of a journal built by appends recovers without corruption to exactly the index after the transactions whose COMMIT record lies wholly in it |
| `Histories.BuiltRecovers` | libraries/libopheap-core/include/opheap/detail/journal.hpp:72-177 | the whole journal recovers to the index after all its transactions, with nothing left pending |
| `Histories.ReusedIdReadable` | libraries/libopheap-core/include/opheap/detail/journal.hpp:131-147 | a journal to which a transaction is appended recovers if and only if no update is left open in it under that transaction's id; otherwise recovery reports a count mismatch |
| `Histories.ReuseAfterCut` | libraries/libopheap-core/include/opheap/detail/journal.hpp:131-177 | a transaction is cut after k bytes, recovery cuts the torn tail, and a transaction with the same id is appended whole: the next recovery succeeds if and only if the cut came before the end of the first update record |
| `ReusedIds.ReusedIdBreaksRecovery` | libraries/libopheap-core/include/opheap/detail/heap_state.hpp:199 | the run of the engine, on the real bytes, in which that happens: ids restart at every open, so after a first commit cut short, a crash, a reopening and the flush of the cut, whatever a first commit that succeeds leaves is a journal the next open rejects, exactly if the cut came after the first update record |
| `Commits.CommittedBatch` | libraries/libopheap-core/include/opheap/detail/journal.hpp:140-161 | a whole transaction whose id has nothing open is applied, its updates published at the locators recovery computes |
| `Commits.CutBatch` | libraries/libopheap-core/include/opheap/detail/journal.hpp:89-101 | a transaction cut anywhere inside its bytes leaves exactly the records that are whole within the cut, and none of them commits |
| `Commits.CutLeavesOpen` | libraries/libopheap-core/include/opheap/detail/journal.hpp:131-137 | updates stay open under its id exactly if its first update record is whole |
| `Commits.LeftoverDooms` | libraries/libopheap-core/include/opheap/detail/journal.hpp:142-147 | updates left open under a transaction's id make its COMMIT record fail with a count mismatch |
| `Replay.ReplayAbsorbed` | libraries/libopheap-core/include/opheap/detail/journal.hpp:148-157 | replaying a whole journal over an index that already has all its versions leaves that index |
| `Replay.ReplayResumes` | libraries/libopheap-core/include/opheap/detail/journal.hpp:125-128 | replaying the whole journal over the state after any first part of it gives the state after all of it |
| `Replay.ReplayIdempotent` | libraries/libopheap-core/include/opheap/detail/journal.hpp:148-157 | recovery over its own result gives that result |
| `Replay.TruncationHarmless` | libraries/libopheap-core/include/opheap/detail/journal.hpp:166-173 | recovering the file cut after its last complete record gives the same state and cuts nothing more |
| `Replay.UpdatesGrow` | libraries/libopheap-core/include/opheap/detail/journal.hpp:148-157 | applying updates never lowers a version |
| `Accepts.RecoverMeans` | libraries/libopheap-core/include/opheap/detail/journal.hpp:72-164 | recovery accepts a journal if and only if the journal is records, each acceptable after those before it, and a torn tail: sequence numbers that grow or that the snapshot covers, updates and commits only of a transaction begun since its last commit, the count of its updates, and versions that chain; what it recovers is said by the records alone |
| `Accepts.UpdatesMean` | libraries/libopheap-core/include/opheap/detail/journal.hpp:148-157 | a commit's updates are applied if and only if each is not newer than what is there or was made from exactly that; each root then holds what the update that reached its last version brought |
| `Scanning.ScanLog` | libraries/libopheap-core/include/opheap/detail/journal.hpp:89-164 | scanning the frames of records followed by a torn tail is applying the records in order, each at its own offset |
| `JournalFormat.ScanReadsFrame` | libraries/libopheap-core/include/opheap/detail/make_record.hpp:16-35 | a complete frame is read back as its record, whatever follows it |
| `JournalFormat.ScanTornFrame` | libraries/libopheap-core/include/opheap/detail/journal.hpp:90-101 | every strict prefix of a frame is taken for a torn tail, never for corruption |
| `JournalFormat.ScanExtends` | libraries/libopheap-core/include/opheap/detail/journal.hpp:90-121 | the scan looks only at the frame it finds |
| `JournalFormat.ParseOfUpdate` | libraries/libopheap-core/include/opheap/detail/decode_update.hpp:17-35 | recovery decodes the update that was encoded, with the file locator of its payload |
| `JournalFormat.LocatorSelects` | libraries/libopheap-core/include/opheap/detail/encode_update.hpp:11-21 | that locator selects exactly the payload's bytes inside the record's frame |
| `JournalFormat.MakeRecord` | libraries/libopheap-core/include/opheap/detail/make_record.hpp:16-35 | the two writers produce the frame of the record |
| `JournalFormat.EncodeUpdate` | libraries/libopheap-core/include/opheap/detail/encode_update.hpp:11-21 | the writer produces the update's bytes, and the offset taken midway is the size of what precedes the payload |
| `JournalFormat.DecodeUpdate` | libraries/libopheap-core/include/opheap/detail/decode_update.hpp:17-35 | the reader accepts and rejects exactly as the parsing function, error for error |
| `JournalFormat.FormatLaws` | libraries/libopheap-core/include/opheap/detail/journal.hpp:89-137 | the journal's bytes obey every law the recovery argument uses |
| `Layouts.ScanMeans` | libraries/libopheap-core/include/opheap/detail/journal.hpp:90-121 | the scan finds a record exactly where its fields lie at their places, with the format's literal numbers, and takes for a torn tail exactly a prefix too short for the header or for the length announced; all else is corruption |
| `Layouts.FrameLaidOut` | libraries/libopheap-core/include/opheap/detail/make_record.hpp:16-35 | what the writer makes has its fields at these places |
| `Layouts.UpdateMeans` | libraries/libopheap-core/include/opheap/detail/decode_update.hpp:17-35 | an update's payload is read if and only if its fields lie so and fill it; what is recovered are these fields and where the payload lies in the file |
| `Layouts.UpdateLaidOut` | libraries/libopheap-core/include/opheap/detail/encode_update.hpp:11-21 | what the writer makes has its fields at these places |
| `JournalFile.ReadRecord` | libraries/libopheap-core/include/opheap/detail/journal.hpp:90-121 | one turn of the scan: a record, the torn end, or the corruption that is reported |
| `JournalFile.ScanFile` | libraries/libopheap-core/include/opheap/detail/journal.hpp:72-164 | the scan loop computes the recovery function: same state, same end of the last complete record, same error |
| `JournalFile.ApplyPending` | libraries/libopheap-core/include/opheap/detail/journal.hpp:148-157 | the loop over a committed transaction's updates, with version skipping and the version chain check |
| `JournalFile.MakeBatch` | libraries/libopheap-core/include/opheap/detail/journal.hpp:179-203 | the batch is the frames of BEGIN, the updates and COMMIT, and the locators are counted from its start |
| `JournalFile.LocatorsMove` | libraries/libopheap-core/include/opheap/detail/journal.hpp:204-205 | locators counted from the start of the batch, moved by its place in the file, are the ones the recovery scan computes |
| `JournalFile.Journal.Recover` | libraries/libopheap-core/include/opheap/detail/journal.hpp:72-177 | the file is cut at the end of its last complete record, the cut is flushed, and the result is the recovery function's; or nothing changes and its error is reported; a storage fault is reported exactly if a call of the disk failed |
| `JournalFile.Journal.Append` | libraries/libopheap-core/include/opheap/detail/journal.hpp:179-208 | the whole batch is appended and flushed, so that a crash can leave nothing but the file with all of it, and its locators are returned; or a call of the disk failed, some prefix of the batch was appended, and a crash may leave any part of that; sequence numbers are used up either way |
| `JournalFile.Journal.Reset` | libraries/libopheap-core/include/opheap/detail/journal.hpp:230-233 | the journal is emptied and the empty file is what a crash leaves, or a call failed and a crash leaves the old journal or the empty one |
| `SnapshotFormat.FormatLaws` | libraries/libopheap-core/include/opheap/detail/snapshot.hpp:46-163 | an image loads back as exactly the index that saving returned, and every placed locator selects the payload saved |
| `SnapshotFormat.LayoutLoads` | libraries/libopheap-core/include/opheap/detail/snapshot.hpp:46-98 | loading a saved image gives the placed roots and the sequence number |
| `SnapshotFormat.RegionHolds` | libraries/libopheap-core/include/opheap/detail/snapshot.hpp:134-144 | every payload lies whole in its own region of the file |
| `SnapshotFormat.RegionsDisjoint` | libraries/libopheap-core/include/opheap/detail/ordered_roots.hpp:21-28 | regions of different roots do not overlap |
| `SnapshotFormat.LayoutRows` | libraries/libopheap-core/include/opheap/detail/ordered_roots.hpp:14-30 | the layout lists every root once, without gaps |
| `SnapshotFormat.PlacedSelects` | libraries/libopheap-core/include/opheap/detail/snapshot.hpp:151-162 | only a root's locator changes, and it selects the same payload |
| `SnapshotStore.OrderedRoots` | libraries/libopheap-core/include/opheap/detail/ordered_roots.hpp:14-30 | the layout in name order, or an overflow error exactly when some payload would end beyond a 64-bit offset |
| `SnapshotStore.CopyPayload` | libraries/libopheap-core/include/opheap/detail/snapshot.hpp:136-143 | the chunked copy writes the whole payload, for any size |
| `SnapshotStore.WriteImage` | libraries/libopheap-core/include/opheap/detail/snapshot.hpp:104-144 | the temporary file holds header, index and all payloads |
| `SnapshotStore.Save` | libraries/libopheap-core/include/opheap/detail/snapshot.hpp:100-163 | on success the snapshot is the whole image, durable with its name, and the result the placed index; on failure it is the old one or the whole new one, to readers and to a crash; without a fault of the disk saving readable payloads succeeds |
| `SnapshotStore.Load` | libraries/libopheap-core/include/opheap/detail/snapshot.hpp:46-98 | header, index and locators are checked as the loading function says, or a read failed; a missing or empty file is an empty image |
| `SnapshotLayout.LoadMeans` | libraries/libopheap-core/include/opheap/detail/snapshot.hpp:46-98 | a file loads as roots and a sequence number if and only if it has the snapshot's fields at their places: magic, format, counts, sizes and checksums, entries that fill the index one after another, one name each, payloads within the file |
| `Ordering.OrderUnique` | libraries/libopheap-core/include/opheap/detail/ordered_roots.hpp:18-20 | a set of names has only one sorted listing, so the sort's result does not depend on the order of the hash map |
| `HeapState.Heap.Open` | libraries/libopheap-core/include/opheap/detail/heap_state.hpp:28-43 | opening yields the engine's state after reopening these files, with transaction ids starting at 1; it succeeds exactly if recovery does and no call of the disk failed, and reports the corruption or the fault otherwise; the open heap stands for the cells the files recover to, and what is on the disk is durable |
| `HeapState.Heap.Commit` | libraries/libopheap-core/include/opheap/detail/heap_state.hpp:94-132 | nothing happens on an empty, closed, poisoned or conflicting commit; otherwise the effect is the engine's commit, perhaps with a checkpoint after it, or an append that failed and poisoned the heap; the heap then stands for the store with all the updates, or, only if the append failed, for the store with the updates left open; after success every pair of files that a crash may leave recovers to the store with the updates, and the journal is shorter than the checkpoint limit or empty; without a fault of the disk a commit of current versions succeeds |
| `HeapState.Heap.CheckpointIfLong` | libraries/libopheap-core/include/opheap/detail/heap_state.hpp:131 | a checkpoint is taken exactly if the journal is at least as long as the limit |
| `HeapState.LeavingsRecover` | libraries/libopheap-core/include/opheap/detail/heap_state.hpp:94-160 | of an idle heap with nothing in flight, every pair of files that a crash of the disk may leave recovers to the store |
| `HeapState.Heap.CheckpointLocked` | libraries/libopheap-core/include/opheap/detail/heap_state.hpp:140-160 | the effect is the engine's checkpoint, or one of its steps at which it was given up; the heap stands for the same cells either way, and what a crash may leave stays what the engine allows; without a fault of the disk it succeeds |
| `HeapState.Heap.Load` | libraries/libopheap-core/include/opheap/detail/heap_state.hpp:51-81 | a root's current version with the cached payload or, after a second lookup, the one its locator selects, read and checked; on a heap that stands for a store and when no call of the disk fails, the load succeeds and yields exactly the store's version and payload, and the cache stays in agreement |
| `HeapState.CommitKeeps` | libraries/libopheap-core/include/opheap/detail/heap_state.hpp:94-129 | both outcomes of a commit keep the engine's invariant with the matching change of the store |
| `HeapState.CheckpointSafe` | libraries/libopheap-core/include/opheap/detail/heap_state.hpp:140-160 | all outcomes of a checkpoint, given up anywhere or not, keep the engine's invariant and the cells |
| `HeapState.OpenSafe` | libraries/libopheap-core/include/opheap/detail/heap_state.hpp:28-43 | what opening yields satisfies the engine's invariant for the cells the files recover to |
| `HeapState.FilledAgrees` | libraries/libopheap-core/include/opheap/detail/heap_state.hpp:119-129 | putting a commit's payloads into the cache keeps it in agreement with the store: no entry is newer than its root, and at the root's version it is the root's payload |
| `HeapState.CommitRuns` | libraries/libopheap-core/include/opheap/detail/heap_state.hpp:94-129 | a commit is a run of the engine's steps |
| `HeapState.FailureRuns` | libraries/libopheap-core/include/opheap/detail/heap_state.hpp:112-117 | so is a commit whose append fails |
| `HeapState.CheckpointRuns` | libraries/libopheap-core/include/opheap/detail/heap_state.hpp:140-160 | so is a checkpoint |
| `HeapState.FormatsSound` | libraries/libopheap-core/include/opheap/detail/journal.hpp:72-208 | the journal's and the snapshot's bytes together satisfy what the engine's theorems assume, for every checksum function |
| `Loading.LoadWasCurrent` | libraries/libopheap-core/include/opheap/detail/heap_state.hpp:51-81 | over the engine's own steps on the real bytes, with files, index and locators, under every interleaving of loads, commits, checkpoints and evictions, a load returns a version that was current in some epoch during the call with exactly the payload committed at that version, or nothing if the root was absent during the call |
| `Loading.StepKeeps` | libraries/libopheap-core/include/opheap/detail/heap_state.hpp:51-160 | every step of a load, of a commit and its cache insertions, and of a checkpoint keeps the invariant that the engine is safe, cached payloads are the ones committed at their version, and what each load has seen was current |
| `Loading.ReadFinds` | libraries/libopheap-core/include/opheap/detail/heap_state.hpp:67-78 | under the commit lock the file holds the current payload at the locator looked up again, so only a fault keeps it from being read |
| `Loading.OldLocatorFails` | libraries/libopheap-core/include/opheap/detail/heap_state.hpp:67-75 | a journal locator looked up before the lock cannot be read once a checkpoint has run: the second lookup is needed |
| `Loading.UnsyncedLoads` | libraries/libopheap-core/include/opheap/detail/snapshot.hpp:148-149 | after the rename, when the directory was not synced and the index still describes the old snapshot: payloads in the journal, and those the new file has at the same place, are loaded; a locator beyond the new file's end is a fault; and no payload of another checksum is returned |
| `Loading.HitIsRecorded` | libraries/libopheap-core/include/opheap/detail/cache.hpp:22-33 | a hit yields the payload committed at that version; an entry of a commit still being published cannot be hit |
| `HeapState.LookupIsCurrent` | libraries/libopheap-core/include/opheap/detail/heap_state.hpp:53-61 | a lookup in any phase of a commit or checkpoint finds the root's current version and type |
| `HeapState.LockedReadIsCurrent` | libraries/libopheap-core/include/opheap/detail/heap_state.hpp:70-78 | under the commit lock, reading the file at the root's locator yields the current payload |
| `Cache.RunHolds` | libraries/libopheap-core/include/opheap/detail/cache.hpp:22-80 | over any run of get and put the cached bytes stay within the limit, each name is held once, and what is held under a name is what was last put under it |
| `Cache.HitIsLastPut` | libraries/libopheap-core/include/opheap/detail/cache.hpp:22-33 | a hit returns the payload last put under exactly that name and version |
| `Cache.EvictedLongest` | libraries/libopheap-core/include/opheap/detail/cache.hpp:44-47 | eviction keeps the longest recency prefix that still fits |
| `Cache.PayloadCache.Get` | libraries/libopheap-core/include/opheap/detail/cache.hpp:22-33 | hit, move to front, or removal of a stale entry, with the counters |
| `Cache.PayloadCache.Put` | libraries/libopheap-core/include/opheap/detail/cache.hpp:36-53 | the entry goes to the front after eviction, unless it is larger than the cache; list and index stay in bijection and the byte count is that of the payloads |
| `Cache.PayloadCache.Erase` | libraries/libopheap-core/include/opheap/detail/cache.hpp:76-80 | list, index and byte count lose exactly that entry |
| `Transactions.Serializable` | libraries/libopheap-core/include/opheap/transaction.hpp:85-136 | every interleaved run in which, at each commit that passes, the roots that were opened but not dirtied still hold the payload read, has the effect of the committed transactions run one after another, each once, in commit order |
| `Transactions.DirtyingAllIsFaithful` | libraries/libopheap-core/include/opheap/transaction.hpp:119-135 | dirtying every opened root is enough |
| `Transactions.CommitIsSerial` | libraries/libopheap-core/include/opheap/detail/heap_state.hpp:100-129 | a commit that passes validation does what its whole program would do alone at that moment |
| `Transactions.SerialIffFaithful` | libraries/libopheap-core/include/opheap/detail/heap_state.hpp:100-109 | of a commit that passes validation: every transaction that may have come to it has the same effect on the heap when run alone at that moment, if and only if every root opened and not dirtied still holds the payload read |
| `Transactions.WriteSkew` | libraries/libopheap-core/include/opheap/detail/heap_state.hpp:100-109 | two transactions that each read what the other writes both commit, with the effect of no serial order |
| `Durability.DurablySerializable` | libraries/libopheap-core/include/opheap/detail/heap_state.hpp:28-160 | over every run from a fresh directory of transactions that open roots by loads, in which at each commit the roots only read still hold what was read and no update is left open under its id, with loads, cache insertions, commits, checkpoints, evictions, crashes and reopenings interleaved on the real bytes: the store is that of the listed transactions run one after another, which are the acknowledged ones in commit order and at most one more per crash; and the files a crash leaves reopen to that store |
| `Durability.RunLists` | libraries/libopheap-core/include/opheap/detail/heap_state.hpp:94-132 | a transaction once listed keeps its place in the list through all later steps, crashes included |
| `Durability.LoadOpens` | libraries/libopheap-core/include/opheap/transaction.hpp:85-108 | opening a root by a load that ran while commits went on is opening it in some epoch of the store |
| `Sessions.UnmarkedIsUnchanged` | libraries/libopheap-core/include/opheap/transaction.hpp:103-117 | after any sequence of mutators on any nodes of the opened roots, every node is bound to its root's token, and a root that is not dirty holds exactly the tree that was loaded |
| `Sessions.DirtyStays` | libraries/libopheap-core/include/opheap/transaction.hpp:103-117 | a root that is dirty, such as one that did not exist, stays dirty through all mutators |
| `Sessions.CommitsItsWrites` | libraries/libopheap-core/include/opheap/transaction.hpp:119-135 | the updates the transaction object hands over are those of the concurrency argument |
| `Sessions.ParsedOfEncode` | libraries/libopheap-core/include/opheap/transaction.hpp:94-98 | a stored root payload loads back as the value, with no trailing bytes |
| `Sessions.NullPayload` | libraries/libopheap-core/include/opheap/transaction.hpp:94-98 | what the concurrency argument takes for the payload of null is its encoding |
| `Sessions.Transaction.Root` | libraries/libopheap-core/include/opheap/transaction.hpp:85-108 | a root is loaded once, with its version, and its tree, bound to its token, is the decoding of the payload that the cache or the file holds for that version, which is the payload in the store the heap stands for; a missing root is null and dirty; an inactive transaction or an empty name is an error |
| `Sessions.Transaction.Changed` | libraries/libopheap-core/include/opheap/transaction.hpp:114-117 | a notification marks the root of that token and no other |
| `Sessions.Transaction.Commit` | libraries/libopheap-core/include/opheap/transaction.hpp:119-136 | the dirty roots go to the heap encoded, in the order they were opened, and the store changes by them; the transaction ends only if the commit succeeds |
| `Mutations.ApplyAtStorable` | libraries/libopheap-core/include/opheap/value.hpp:91-204 | a mutator with machine values as arguments, on any node, leaves a tree that can be stored: 64-bit integers and lengths, keys in order |
| `Observables.ApplyAtWatched` | libraries/libopheap-core/include/opheap/value.hpp:91-204 | a mutator on any node leaves the tree bound and notifies the root's token whenever it changes the value |
| `Observables.ApplyPlain` | libraries/libopheap-core/include/opheap/vector.hpp:33-106 | bindings, reallocation and shifting do not show: each mutator does to the value what it does to a plain one |
| `Observables.ObjectWatched` | libraries/libopheap-core/include/opheap/map.hpp:31-78 | the same for operator[], try_emplace, erase and clear of an object |
| `Observables.NotifiesIff` | libraries/libopheap-core/include/opheap/value.hpp:91-204 | a mutator on a bound node notifies the node's token, and no other, if and only if it changes the value; assignment and appending always notify, erasing part of a string if it starts within it, reserving if the storage moves |
| `Observables.Erased` | libraries/libopheap-core/include/opheap/string.hpp:61-64 | what erasing part of a string leaves, byte by byte |
| `Observables.Bind` | libraries/libopheap-core/include/opheap/value.hpp:154-164 | binding reaches every node and changes no value |
| `ValueCodec.DecodeOfEncode` | libraries/libopheap-core/include/opheap/codec_value.hpp:42-125 | the encoding of a tree followed by any bytes decodes to that tree and leaves those bytes |
| `ValueCodec.EncodingsPrefixFree` | libraries/libopheap-core/include/opheap/codec_value.hpp:42-125 | encodings are injective and none is a prefix of another |
| `ValueCodec.Decode` | libraries/libopheap-core/include/opheap/codec_value.hpp:61-125 | on every byte string the decoder ends, with an error or a strictly shorter rest |
| `ValueCodec.DecodedStorable` | libraries/libopheap-core/include/opheap/codec_value.hpp:98-125 | whatever decodes, from any bytes, has integers and lengths in range and keys in order |
| `ValueCodec.DecodeEncodeDecode` | libraries/libopheap-core/include/opheap/codec_value.hpp:61-125 | encoding a decoded tree and decoding it again gives the same tree |
| `Codes.DecodesIff` | libraries/libopheap-core/include/opheap/codec_value.hpp:61-125 | a byte string decodes to a value and a rest if and only if it is a code of that value in front of that rest: a tag, then a scalar, a string, or a count and that many codes |
| `Codes.EncodeWrites` | libraries/libopheap-core/include/opheap/codec_value.hpp:42-59 | what is written is the code with 1 for true and each field once, in key order |
| `Codes.FieldsMean` | libraries/libopheap-core/include/opheap/codec_value.hpp:113-125 | the fields of a decoded object are in key order, and of those with one key the last counts |
| `ValueCodec.EncodeValue` | libraries/libopheap-core/include/opheap/codec_value.hpp:42-59 | the writer loops produce the encoding |
| `ValueCodec.DecodeValue` | libraries/libopheap-core/include/opheap/codec_value.hpp:61-92 | the reader loops accept and reject exactly as the decoding function |
| `Values.PutAllRebuilds` | libraries/libopheap-core/include/opheap/codec_value.hpp:113-125 | inserting ordered fields one by one rebuilds the object |
| `BinaryIO.Writer.Scalar` | libraries/libopheap-core/include/opheap/detail/writer.hpp:19-26 | appends the little-endian bytes |
| `BinaryIO.Reader.Scalar` | libraries/libopheap-core/include/opheap/detail/reader.hpp:21-32 | assembles the scalar, or reports truncation without moving |
| `BinaryIO.Reader.String` | libraries/libopheap-core/include/opheap/detail/reader.hpp:43-48 | reads a length-prefixed string, or reports a length beyond the payload |
| `Bytes.FromLeOfLe` | libraries/libopheap-core/include/opheap/detail/writer.hpp:19-26 | a scalar in range comes back from its bytes |
| `Bytes.ReadStringBytes` | libraries/libopheap-core/include/opheap/detail/reader.hpp:43-48 | a string comes back from its bytes and leaves what follows |
| `Bytes.LessIff` | libraries/libopheap-core/include/opheap/detail/ordered_roots.hpp:18-20 | names and keys are ordered by the first byte in which they differ, unsigned |
| `Crc.ByteChangesChecksum` | libraries/libopheap-core/include/opheap/detail/crc32c.hpp:9-19 | changing any one byte of a buffer changes its CRC32C (section 12.1 of RFC 3720) |
| `Crc.BitsFed` | libraries/libopheap-core/include/opheap/detail/crc32c.hpp:9-19 | feeding bytes through the loop is feeding their bits, low bit first, one shift each |
| `Crc.BurstChangesChecksum` | libraries/libopheap-core/include/opheap/detail/crc32c.hpp:9-19 | so does any change within 32 consecutive bits, wherever they begin, of a buffer of any length |
| `Crc.BytesNearby` | libraries/libopheap-core/include/opheap/detail/crc32c.hpp:9-19 | any change within four consecutive bytes is one |
| `Crc.SealBreaks` | libraries/libopheap-core/include/opheap/detail/journal.hpp:107-113 | a buffer and its stored checksum, changed within 32 consecutive bits that may lie in both, no longer match |
| `Crc.Crc32c` | libraries/libopheap-core/include/opheap/detail/crc32c.hpp:9-19 | the two nested loops compute the checksum function, of which CrcDivision.ChecksumByDivision says what it is |
| `CrcDivision.ChecksumByDivision` | libraries/libopheap-core/include/opheap/detail/crc32c.hpp:9-19 | for every buffer the checksum is CRC32C as section 12.1 of RFC 3720 defines it: the message's bits, each byte's lowest first, times x^32, with the first 32 complemented; the remainder of long division by x^32 + x^28 + x^27 + ... + 1 (0x11edc6f41); complemented, with the coefficient of x^31 as the lowest bit |
| `CrcDivision.DivisionHolds` | libraries/libopheap-core/include/opheap/detail/crc32c.hpp:9-19 | that division is one: what is divided is a multiple of the generator and the remainder |
| `CrcDivision.ShiftDivides` | libraries/libopheap-core/include/opheap/detail/crc32c.hpp:12-16 | one shift of the register is one step of it |
| `Corruption.ChangedRecordRejected` | libraries/libopheap-core/include/opheap/detail/journal.hpp:107-113 | the scan rejects a complete record whose body and checksum were changed within 32 consecutive bits, whatever follows it |
| `Corruption.ChangedJournalRejected` | libraries/libopheap-core/include/opheap/detail/journal.hpp:89-113 | recovery fails on every journal in which one complete record was changed in this way |
| `Corruption.ChangedSnapshotRejected` | libraries/libopheap-core/include/opheap/detail/snapshot.hpp:46-76 | a snapshot file changed within 32 consecutive bits, some of them in its header or its index, does not load |
| `Corruption.ChangedPayloadRejected` | libraries/libopheap-core/include/opheap/detail/journal.hpp:218-228 | a payload, in either file, touched by such a change is not loaded |
| `Corruption.CrcDetects` | libraries/libopheap-core/include/opheap/detail/crc32c.hpp:9-19 | CRC32C is a checksum for which all of these hold |
| `Corruption.EnlargedLengthTears` | libraries/libopheap-core/include/opheap/detail/journal.hpp:97-101 | the length field is outside the checksum: a record passes for a torn tail exactly if its length was enlarged beyond the end of the file and within the accepted bound |
| `Corruption.EnlargedLengthDrops` | libraries/libopheap-core/include/opheap/detail/journal.hpp:97-101 | recovery then reports nothing and yields what stood before that record: it and all that follow, committed transactions included, are dropped |
| `JsonText.RoundTrip` | libraries/libopheap-utils-serialization-json/include/opheap/utils/serialization/json/write_json.hpp:13-48 | for every tree, with arbitrary byte strings, all 64-bit integers and doubles: parsing the printed text returns the same tree with no trailing input if and only if every double in it has a text that converts to it and does not read as a 64-bit integer |
| `JsonText.RoundTripNoDoubles` | libraries/libopheap-utils-serialization-json/include/opheap/utils/serialization/json/write_json.hpp:13-48 | every tree without doubles comes back |
| `JsonText.ParseOfPrint` | libraries/libopheap-utils-serialization-json/include/opheap/utils/serialization/json/json_parser.hpp:55-66 | inside a larger text the tree reads back with each double as its text reads, and what follows it is left |
| `JsonText.StringReads` | libraries/libopheap-utils-serialization-json/include/opheap/utils/serialization/json/write_string.hpp:8-29 | every byte string comes back from its escaped text (section 7 of RFC 8259) |
| `JsonText.NumberReads` | libraries/libopheap-utils-serialization-json/include/opheap/utils/serialization/json/json_parser.hpp:185-222 | every 64-bit integer comes back from its digits (section 6 of RFC 8259) |
| `JsonText.DoubleReturns` | libraries/libopheap-utils-serialization-json/include/opheap/utils/serialization/json/write_json.hpp:20-24 | a double comes back exactly under that condition; printed like a 64-bit integer it comes back as the integer, and a non-finite one cannot be read |
| `Json.Parser.ParseText` | libraries/libopheap-utils-serialization-json/include/opheap/utils/serialization/json/json_parser.hpp:21-27 | the parser computes the parsing function on every input |
| `Json.Parser.ValueFrom` | libraries/libopheap-utils-serialization-json/include/opheap/utils/serialization/json/json_parser.hpp:55-66 | dispatch on the first byte; every call consumes input or fails |
| `Json.Parser.StringFrom` | libraries/libopheap-utils-serialization-json/include/opheap/utils/serialization/json/json_parser.hpp:104-146 | the character loop, with all escapes and surrogate pairs, computes the parsing function, of which JsonCharacters says what it reads |
| `Json.Parser.NumberFrom` | libraries/libopheap-utils-serialization-json/include/opheap/utils/serialization/json/json_parser.hpp:185-222 | sign, digits, fraction and exponent; an integer in range stays one |
| `Json.Parser.ArrayFrom` | libraries/libopheap-utils-serialization-json/include/opheap/utils/serialization/json/json_parser.hpp:148-161 | the element loop |
| `Json.Parser.ObjectFrom` | libraries/libopheap-utils-serialization-json/include/opheap/utils/serialization/json/json_parser.hpp:163-183 | the member loop, which rejects a repeated key |
| `JsonCharacters.CharacterOfUtf8` | libraries/libopheap-utils-serialization-json/include/opheap/utils/serialization/json/json_parser.hpp:86-103 | the bytes made for a scalar value are its UTF-8 form: a decoder by the table of section 4 of RFC 3629 reads that value back and leaves what follows |
| `JsonCharacters.Utf8OfCharacter` | libraries/libopheap-utils-serialization-json/include/opheap/utils/serialization/json/json_parser.hpp:86-103 | whatever that decoder accepts is a scalar value, with the bytes made for it |
| `JsonCharacters.EscapedCharacter` | libraries/libopheap-utils-serialization-json/include/opheap/utils/serialization/json/json_parser.hpp:104-146 | every escape, short, hexadecimal in either case or a surrogate pair, reads as the UTF-8 form of its code point |
| `JsonCharacters.EscapeExists` | libraries/libopheap-utils-serialization-json/include/opheap/utils/serialization/json/json_parser.hpp:104-146 | every scalar value has a hexadecimal escape |
| `JsonCharacters.CharsSpelled` | libraries/libopheap-utils-serialization-json/include/opheap/utils/serialization/json/json_parser.hpp:104-146 | a string spelled by any such characters reads as their text |
| `JsonNumbers.NumberSpelled` | libraries/libopheap-utils-serialization-json/include/opheap/utils/serialization/json/json_parser.hpp:185-222 | a number spelled by its parts (section 6 of RFC 8259) reads as the integer it denotes, if it has no fraction or exponent and fits 64 bits, and as the double of its text otherwise |
| `JsonGrammar.ParseOfText` | libraries/libopheap-utils-serialization-json/include/opheap/utils/serialization/json/json_parser.hpp:21-27 | the text of any document of the grammar of RFC 8259, with any white space around its tokens, parses to what the document denotes; as in the parser, unescaped characters are bytes and surrogate escapes come in pairs |
| `JsonGrammar.ParsesIff` | libraries/libopheap-utils-serialization-json/include/opheap/utils/serialization/json/json_parser.hpp:21-27 | a text parses to a value if and only if it is the text of a document that denotes it |
| `JsonGrammar.ObjectMeans` | libraries/libopheap-utils-serialization-json/include/opheap/utils/serialization/json/json_parser.hpp:163-183 | an object denotes a value if and only if its members do and no key comes twice; each key then has what its member denotes, in key order |
| `JsonPrinting.PrintSpells` | libraries/libopheap-utils-serialization-json/include/opheap/utils/serialization/json/write_json.hpp:13-48 | what the printer writes is a document of the grammar without white space and without escapes that are not needed |
| `Json.WriteJson` | libraries/libopheap-utils-serialization-json/include/opheap/utils/serialization/json/write_json.hpp:13-48 | the printer writes the printed text |
| `Json.WriteString` | libraries/libopheap-utils-serialization-json/include/opheap/utils/serialization/json/write_string.hpp:8-29 | the loop over bytes writes the escaped text |
| `SqlParser.ParseOfTokens` | libraries/libopheap-module-sql/include/opheap/module/sql/parse_statement.hpp:98-127 | parsing the tokens of any WHERE expression, written with only the parentheses precedence requires, returns that expression and stops at the first token that cannot continue it |
| `SqlParser.PrecedenceRegroups` | libraries/libopheap-module-sql/include/opheap/module/sql/parse_statement.hpp:111-127 | without its parentheses an OR beside an AND is regrouped |
| `SqlGrammar.ParsesIff` | libraries/libopheap-module-sql/include/opheap/module/sql/parse_statement.hpp:98-127 | an expression is read from the front of a token list if and only if a sentence of the grammar that means it is there, parentheses where it likes, and what follows does not go on with it |
| `SqlParser.ParseUnary` | libraries/libopheap-module-sql/include/opheap/module/sql/parse_statement.hpp:98-109 | on every token list that ends in end the parser ends, with an error or a strictly shorter list |
| `SqlParser.TokenStream.OrFrom` | libraries/libopheap-module-sql/include/opheap/module/sql/parse_statement.hpp:120-127 | the OR loop computes the parsing function |
| `SqlParser.TokenStream.AndFrom` | libraries/libopheap-module-sql/include/opheap/module/sql/parse_statement.hpp:111-118 | so does the AND loop |
| `SqlParser.TokenStream.Next` | libraries/libopheap-module-sql/include/opheap/module/sql/parse_statement.hpp:39-43 | the stream never moves past its last token |
| `SqlLexer.SplitterAgreesIff` | libraries/libopheap-module-sql/include/opheap/module/sql/statement_splitter.hpp:15-28 | on every text that can be tokenized, comments and all, the splitter cuts exactly at the first semicolon token, or finds none if there is none, if and only if the text is steady: seen by the splitter, comments and, after comments with an odd number of quotes, strings show no semicolon before that one, and it is outside quotes there; the tokens of the whole are those of the piece, the semicolon and those of the rest |
| `SqlLexer.SplitterAgrees` | libraries/libopheap-module-sql/include/opheap/module/sql/statement_splitter.hpp:15-28 | in particular if every comment before that semicolon has an even number of quotes and shows no semicolon outside them |
| `SqlLexer.HarmlessIff` | libraries/libopheap-module-sql/include/opheap/module/sql/statement_splitter.hpp:15-28 | that is exactly when the splitter passes over a comment whatever follows it |
| `SqlLexer.OddCommentsMislead` | libraries/libopheap-module-sql/include/opheap/module/sql/statement_splitter.hpp:15-28 | if the comments before the first semicolon token have an odd number of quotes together, the splitter misses it |
| `SqlLexer.CommentMisleads` | libraries/libopheap-module-sql/include/opheap/module/sql/statement_splitter.hpp:15-28 | a quote in a comment hides a semicolon from the splitter but not from the tokenizer |
| `SqlLexer.TokenizeEnds` | libraries/libopheap-module-sql/include/opheap/module/sql/tokenize.hpp:127-129 | token lists end in end, and only there |
| `SqlLexer.TokenizeText` | libraries/libopheap-module-sql/include/opheap/module/sql/tokenize.hpp:44-129 | the loop computes the tokenizing function |
| `SqlTokens.TokenizeOfSpelling` | libraries/libopheap-module-sql/include/opheap/module/sql/tokenize.hpp:44-129 | tokenizing the text of any tokens, with white space, comments or nothing between them where they stay apart, gives those tokens: keywords in any case and by all their names, other words as written, digits by their value, strings with quotes doubled, both signs for not equal |
| `SqlTokens.TokenizesIff` | libraries/libopheap-module-sql/include/opheap/module/sql/tokenize.hpp:44-129 | a text tokenizes to a list of tokens if and only if it is a spelling of them |
| `SqlTokens.GapsKeepApart` | libraries/libopheap-module-sql/include/opheap/module/sql/tokenize.hpp:49-52 | white space or a comment always keeps tokens apart |
| `SqlLexer.ExtractStatement` | libraries/libopheap-module-sql/include/opheap/module/sql/statement_splitter.hpp:15-28 | the loop returns the piece before the first semicolon outside quotes and how much to drop |
| `SqlTables.RunTyped` | libraries/libopheap-module-sql/include/opheap/module/sql/interpreter.hpp:109-254 | over any run of statements every stored row has exactly its table's column names, each NULL or of the first declared type |
| `SqlTables.ExecuteTyped` | libraries/libopheap-module-sql/include/opheap/module/sql/interpreter.hpp:127-254 | every statement keeps that |
| `SqlTables.CoerceTypes` | libraries/libopheap-module-sql/include/opheap/module/sql/coerce.hpp:15-37 | a coerced literal has its column's type |
| `SqlMeaning.EvaluateMeans` | libraries/libopheap-module-sql/include/opheap/module/sql/interpreter.hpp:80-107 | a condition evaluates to whether the row meets it, or fails if it has no answer: equality of values, the order of their type, nothing for NULL, and the connectives, said apart from the evaluation; it has no answer if a column is missing or kinds differ in a comparison that is reached |
| `SqlMeaning.LessTextIff` | libraries/libopheap-module-sql/include/opheap/module/sql/compare_value_literal.hpp:20-24 | texts are ordered by the first place where they differ |
| `SqlMeaning.FittingAnswers` | libraries/libopheap-module-sql/include/opheap/module/sql/interpreter.hpp:80-107 | on a typed row every condition whose columns exist and are compared with literals of their kind has an answer |
| `SqlMeaning.MeansItself` | libraries/libopheap-module-sql/include/opheap/module/sql/compare_value_literal.hpp:33-36 | integers within 2^53 are compared as themselves |
| `SqlMeaning.FilteredPlaces` | libraries/libopheap-module-sql/include/opheap/module/sql/interpreter.hpp:176-183 | filtering keeps exactly the rows that match, or exactly those that do not, each once and in order; it fails exactly if the condition has no answer on some row |
| `SqlMeaning.ExecuteMeans` | libraries/libopheap-module-sql/include/opheap/module/sql/interpreter.hpp:109-254 | a statement succeeds if and only if it can be carried out; it changes its own table alone, and what each row and column holds afterwards is said: INSERT keeps the old rows and adds rows with the last value given for each column and NULL elsewhere, UPDATE stores the last value assigned in the matching rows and nothing else, DELETE leaves exactly the rows that do not match, in order |
| `SqlMeaning.TypeOfFirst` | libraries/libopheap-module-sql/include/opheap/module/sql/interpreter.hpp:136-137 | a column's type is that of the first column declared with its name |
| `SqlSelect.BelowIsWeakOrder` | libraries/libopheap-module-sql/include/opheap/module/sql/less_for_sort.hpp:12-18 | on data of one column type the sort comparator is a strict weak order |
| `SqlSelect.SameTypeCompares` | libraries/libopheap-module-sql/include/opheap/module/sql/compare_value_literal.hpp:15-42 | and never fails |
| `SqlSelect.SelectSorts` | libraries/libopheap-module-sql/include/opheap/module/sql/interpreter.hpp:162-212 | on a typed table ORDER BY never fails on types; the result is the shown columns of the matching rows in their stable sorted order, cut at any limit |
| `SqlMeaning.SelectMeans` | libraries/libopheap-module-sql/include/opheap/module/sql/interpreter.hpp:162-212 | a SELECT on a typed table is answered if and only if its columns exist and its condition has an answer on every row; it then shows the data of exactly the matching rows, in the table's order or stably by the values of the sort column, as many as the limit lets through |
| `SqlMeaning.LinesSorted` | libraries/libopheap-module-sql/include/opheap/module/sql/interpreter.hpp:185-212 | a sort column of any type comes out sorted by its values, NULLs last, or first if descending |
| `SqlSelect.SortFromSorted` | libraries/libopheap-module-sql/include/opheap/module/sql/interpreter.hpp:185-194 | the order is sorted, and equivalent rows keep theirs |
| `SqlSelect.StableOrderUnique` | libraries/libopheap-module-sql/include/opheap/module/sql/interpreter.hpp:185-194 | there is only one such order |
| `SqlSelect.NullsLastIff` | libraries/libopheap-module-sql/include/opheap/module/sql/interpreter.hpp:191-192 | NULLs come last if and only if the order is ascending or there are not both NULLs and values; the comment at less_for_sort.hpp:11 says otherwise |
| `SqlSelect.SmallColumnSorted` | libraries/libopheap-module-sql/include/opheap/module/sql/interpreter.hpp:180-212 | a column whose integers lie within 2^53 comes out of ORDER BY sorted by value, at any limit and with any columns shown |
| `SqlSelect.LargeColumnUnsorted` | libraries/libopheap-module-sql/include/opheap/module/sql/compare_value_literal.hpp:33-36 | beyond that it may not: a table of 2^53 + 1 and 2^53, in that order, comes out of ORDER BY as it went in |
| `SqlSelect.ComparesByValueIff` | libraries/libopheap-module-sql/include/opheap/module/sql/compare_value_literal.hpp:33-36 | integers within a bound are compared by value if and only if the bound is at most 2^53 |
| `Doubles.ToDoubleRounds` | libraries/libopheap-module-sql/include/opheap/module/sql/compare_value_literal.hpp:33-36 | rounding to 53 significant bits, ties to even, obeys the laws these results assume of the conversion: it keeps order, is exact up to 2^53, and maps 2^53 + 1 to 2^53 |
| `SqlInterpreter.Interpreter.Run` | libraries/libopheap-module-sql/include/opheap/module/sql/interpreter.hpp:109-254 | the statement's loops compute the new table, of which SqlMeaning.ExecuteMeans says what it holds; a statement that fails changes nothing |
| `SqlInterpreter.Interpreter.Select` | libraries/libopheap-module-sql/include/opheap/module/sql/interpreter.hpp:162-212 | checks of the columns, filter, stable sort, LIMIT and projection compute the lines of which SqlMeaning.SelectMeans says what they show |
| `SqlInterpreter.EraseRows` | libraries/libopheap-module-sql/include/opheap/module/sql/interpreter.hpp:243-252 | erasing while iterating leaves exactly the rows the filter rejects, in order; SqlMeaning.FilteredPlaces says which these are |

## Left out

- Operating-system files (native_file, native_storage_backend, io_error): replaced by `Files.Disk`, whose calls may fail at any time.
- Relaxed durability: it promises no barrier, so no crash claim is made for it.
- A run that goes on after sync_directory failed behind the rename: live locators then describe a replaced file. The state itself is modelled (`HeapState.GivesUp`), with what a crash leaves and what loads yield (`Loading.UnsyncedLoads`); nothing is claimed of further commits and checkpoints.
- A run that goes on after the flush of the truncated journal failed: until a later flush succeeds a crash may bring the old journal back in place of what was appended since. That state, too, is modelled with what a crash leaves, and nothing is claimed of further calls.
- heap_state::integrity: a second scan with no new property.
- Locks: the step machines of Engine, Loading and Transactions have the regions the locks make atomic as steps; lock fairness and deadlock are not modelled.
- Limits of size_t and of memory, and the errors that report them.
- Observables: tree nodes are values reached by paths, so aliasing and update in place are not captured; a mutator called through a reference is an operation at a path. Assigning a value to itself notifies in the model, while the program returns early; so the model marks a root at least as often as the program does.
- Moved-from values, moved transactions and memory resources: memory-level behaviour.
- property<T> and the codecs of vectors, maps and single scalars: easier repeats of the value codec.
- The second copy of decoded elements in codec<value>::decode: it rebuilds what was decoded.
- Conversion of doubles to and from text, and double arithmetic: a double is its 64 bits in the codec and in JSON, with conversion a parameter; in SQL it is a real number, so NaN and infinities are not modelled, and the widening of integers is a parameter with stated laws.
- std::sort and std::stable_sort: modelled by insertion, with the order they must produce proved unique.
- Result messages and row counts of SQL statements: they only add easy members.
- The parsers of whole SQL statements around the WHERE expression, list_tables, the catalog's encoding as a root, and the storage of tables in the heap.
- CLI, REPL, usage text, the credentials example, benchmarks and stress drivers: input and output.
