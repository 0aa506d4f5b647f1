/** The heap: the index in memory over its journal, its snapshot and its cache.

Open, commit and checkpoint are shown to do what the engine's steps do, and to keep the engine's
invariant with the matching change of the store. A checkpoint that failed between the rename and
the end of its directory sync, or between the truncation of the journal and the end of its flush,
leaves the heap in the middle of those steps; what a crash then leaves is proved, and nothing is
claimed of calls on such a heap.
 */
module HeapState {
  import opened Bytes
  import opened Records
  import opened Recovery
  import opened Commits
  import opened Storage
  import opened Standing
  import opened Engine
  import opened Files
  import opened JournalFile
  import Cache
  import SnapshotStore
  import SnapshotFormat
  import JournalFormat
  import Scanning

  /** "opheap.value.v1" */
  const VALUE_TYPE: Blob := [111, 112, 104, 101, 97, 112, 46, 118, 97, 108, 117, 101, 46, 118, 49]

  /** The journal's and the snapshot's bytes, with one choice of checksums. */
  ghost function FormatsOf(c: Checks): Formats {
    Formats(JournalFormat.FormatOf(c), SnapshotFormat.FormatOf(c))
  }

  lemma {:induction false} FormatsSound(c: Checks)
    ensures Sound(FormatsOf(c)).Kept?
  {
    JournalFormat.FormatLaws(c);
    SnapshotFormat.FormatLaws(c);
  }

  // ------------------------------------------------------------------
  // Publishing
  // ------------------------------------------------------------------

  function PublishAt(roots: Index, updates: seq<RootUpdate>, locations: seq<Loc>): Index
    requires |updates| == |locations|
    decreases |updates|
  {
    if updates == [] then roots
    else PublishAt(roots[updates[0].name := RootRecord(updates[0].next, updates[0].tag, locations[0])], updates[1..], locations[1..])
  }

  /** The cache after the payloads of a commit went in. */
  function CacheAll(s: seq<Cache.Entry>, limit: nat, updates: seq<RootUpdate>): seq<Cache.Entry>
    decreases |updates|
  {
    if updates == [] then s
    else CacheAll(Cache.AfterPut(s, limit, Cache.Entry(updates[0].name, updates[0].next, updates[0].payload)), limit, updates[1..])
  }

  /** The payloads of a commit went into the cache one after another. */
  ghost predicate CacheFilled(s: seq<Cache.Entry>, limit: nat, updates: seq<RootUpdate>, s': seq<Cache.Entry>) {
    forall k: nat {:trigger Opened(k)} :: Opened(k) ==> s' == CacheAll(s, limit, updates)
  }

  /** Publishing at the locators the append returned is publishing what recovery would locate. */
  lemma {:induction false} PublishesLocated(c: Checks, roots: Index, tx: nat, updates: seq<RootUpdate>, sequence: nat, offset: nat)
    ensures var f := JournalFormat.FormatOf(c);
            PublishAt(roots, updates, LocsOf(LocatedAll(f, tx, updates, sequence, offset)))
            == Publish(roots, LocatedAll(f, tx, updates, sequence, offset))
    decreases |updates|
  {
    if updates != [] {
      var f := JournalFormat.FormatOf(c);
      var u := updates[0];
      var one := f.located(u, offset);
      var rest := LocatedAll(f, tx, updates[1..], sequence + 1,
                             offset + |f.frame(Record(ROOT_UPDATE, sequence, tx, f.updateBytes(u)))|);
      assert one == RecoveredUpdate(u.name, u.expected, u.next, u.tag, one.payload);
      PublishesLocated(c, roots[u.name := RootRecord(u.next, u.tag, one.payload)], tx, updates[1..], sequence + 1,
                       offset + |f.frame(Record(ROOT_UPDATE, sequence, tx, f.updateBytes(u)))|);
      LocsCons(one, rest);
      assert ([one] + rest)[1..] == rest && ([one.payload] + LocsOf(rest))[1..] == LocsOf(rest);
    }
  }

  predicate VersionsMatch(roots: Index, updates: seq<RootUpdate>) {
    forall i | 0 <= i < |updates| :: VersionOf(roots, updates[i].name) == updates[i].expected
  }

  /** The first update that does not start from its root's current version is reported. */
  predicate Conflicts(roots: Index, updates: seq<RootUpdate>, e: Error) {
    exists i :: 0 <= i < |updates| && e == Conflict(updates[i].name) && VersionOf(roots, updates[i].name) != updates[i].expected
                && VersionsMatch(roots, updates[..i])
  }

  // ------------------------------------------------------------------
  // Runs of the engine
  // ------------------------------------------------------------------

  ghost function InstallActs(): seq<Action> {
    [Renames, DirectorySyncs, RootsPublish, WalTruncates, WalFlushes]
  }

  ghost function CheckpointActs(image: Blob): seq<Action> {
    [CheckpointStarts] + ([TempWritten(image)] + ([TempFlushed] + InstallActs()))
  }

  /** The machine after a checkpoint. */
  ghost function Checkpointed(fs: Formats, m: Machine): Machine {
    var image := ImageOf(fs, m.snap, m.wal, m.roots, m.lastSequence);
    Machine(Some(image), image, [], Ready, fs.snapshot.placed(m.roots), m.lastSequence, m.poisoned, None)
  }

  lemma {:induction false} RunCons(fs: Formats, m: Machine, act: Action, rest: seq<Action>)
    requires Enabled(fs, m, act) && Runs(fs, After(fs, m, act), rest)
    ensures Runs(fs, m, [act] + rest) && Ran(fs, m, [act] + rest) == Ran(fs, After(fs, m, act), rest)
  {
    assert ([act] + rest)[1..] == rest;
  }

  /** Saving the image leads to any run that starts once it is flushed. */
  lemma {:induction false} SaveRuns(fs: Formats, m: Machine, image: Blob, rest: seq<Action>)
    requires m.phase == Ready && fs.snapshot.fits(m.roots, m.lastSequence)
    requires image == ImageOf(fs, m.snap, m.wal, m.roots, m.lastSequence)
    requires Runs(fs, m.(phase := Flushed, temp := image), rest)
    ensures var acts := [CheckpointStarts] + ([TempWritten(image)] + ([TempFlushed] + rest));
            Runs(fs, m, acts) && Ran(fs, m, acts) == Ran(fs, m.(phase := Flushed, temp := image), rest)
  {
    var m1 := m.(phase := Writing);
    RunCons(fs, m1.(temp := image), TempFlushed, rest);
    RunCons(fs, m1, TempWritten(image), [TempFlushed] + rest);
    RunCons(fs, m, CheckpointStarts, [TempWritten(image)] + ([TempFlushed] + rest));
  }

  lemma {:induction false} InstallRuns(fs: Formats, m: Machine)
    requires m.phase == Flushed
    ensures Runs(fs, m, InstallActs())
    ensures Ran(fs, m, InstallActs())
            == Machine(Some(m.temp), m.temp, [], Ready, fs.snapshot.placed(m.roots), m.lastSequence, m.poisoned, None)
  {
    var m4 := m.(phase := Renamed(m.snap), snap := Some(m.temp));
    var m5 := m4.(phase := Synced(m.snap));
    var m6 := m5.(phase := Published, roots := fs.snapshot.placed(m.roots));
    var m7 := m6.(phase := Truncated(m.wal), wal := []);
    RunCons(fs, m7, WalFlushes, []);
    RunCons(fs, m6, WalTruncates, [WalFlushes]);
    RunCons(fs, m5, RootsPublish, [WalTruncates, WalFlushes]);
    RunCons(fs, m4, DirectorySyncs, [RootsPublish, WalTruncates, WalFlushes]);
    RunCons(fs, m, Renames, [DirectorySyncs, RootsPublish, WalTruncates, WalFlushes]);
  }

  /** A checkpoint of an idle machine is a run of its steps. */
  lemma {:induction false} CheckpointRuns(fs: Formats, m: Machine)
    requires m.phase == Ready && fs.snapshot.fits(m.roots, m.lastSequence)
    ensures var acts := CheckpointActs(ImageOf(fs, m.snap, m.wal, m.roots, m.lastSequence));
            Runs(fs, m, acts) && Ran(fs, m, acts) == Checkpointed(fs, m)
  {
    var image := ImageOf(fs, m.snap, m.wal, m.roots, m.lastSequence);
    InstallRuns(fs, m.(phase := Flushed, temp := image));
    SaveRuns(fs, m, image, InstallActs());
  }

  /** The machine after a commit that succeeded. */
  ghost function Committed(fs: Formats, m: Machine, tx: nat, updates: seq<RootUpdate>): Machine {
    var fl := FlightOf(m, tx, updates);
    m.(wal := m.wal + BatchOf(fs.journal, fl), roots := Publish(m.roots, LocatedOf(fs.journal, fl)), lastSequence := LastOf(fl))
  }

  /** A commit that the machine allows is a run of its steps. */
  lemma {:induction false} CommitRuns(fs: Formats, m: Machine, tx: nat, updates: seq<RootUpdate>)
    requires MayCommit(fs, m, tx, updates)
    ensures var acts := [CommitAppends(tx, updates), CommitReturns];
            Runs(fs, m, acts) && Ran(fs, m, acts) == Committed(fs, m, tx, updates)
  {
    var m1 := After(fs, m, CommitAppends(tx, updates));
    var bytes := BatchOf(fs.journal, FlightOf(m, tx, updates));
    assert bytes[..|bytes|] == bytes;
    RunCons(fs, m1, CommitReturns, []);
    RunCons(fs, m, CommitAppends(tx, updates), [CommitReturns]);
  }

  /** The machine after a commit whose append failed with some of its bytes written. */
  ghost function Failed(fs: Formats, m: Machine, tx: nat, updates: seq<RootUpdate>, written: nat): Machine {
    InFlight(fs, m, tx, updates, written).(poisoned := true)
  }

  /** So is one whose append fails. */
  lemma {:induction false} FailureRuns(fs: Formats, m: Machine, tx: nat, updates: seq<RootUpdate>, written: nat)
    requires MayCommit(fs, m, tx, updates) && written <= |BatchOf(fs.journal, FlightOf(m, tx, updates))|
    ensures Runs(fs, m, [AppendFails(tx, updates, written)])
    ensures Ran(fs, m, [AppendFails(tx, updates, written)]) == Failed(fs, m, tx, updates, written)
  {
    RunCons(fs, m, AppendFails(tx, updates, written), []);
  }

  // ------------------------------------------------------------------
  // Reading payloads
  // ------------------------------------------------------------------

  function ReadPayload(snap: Option<Blob>, wal: Blob, record: RootRecord, offset: nat, count: nat): Result<Blob> {
    ReadPart(FileOf(snap, wal, record.payload.source), record.payload, offset, count)
  }

  function PayloadReaderOf(snap: Option<Blob>, wal: Blob): SnapshotStore.PayloadReader {
    (record: RootRecord, offset: nat, count: nat) => ReadPayload(snap, wal, record, offset, count)
  }

  lemma {:induction false} PartsYield(snap: Option<Blob>, wal: Blob, record: RootRecord)
    ensures SnapshotStore.Yields(PayloadReaderOf(snap, wal), record, PayloadAt(FileOf(snap, wal, record.payload.source), record.payload))
  {
    var file, where, read := FileOf(snap, wal, record.payload.source), record.payload, PayloadReaderOf(snap, wal);
    forall offset: nat, count: nat | 0 < count && offset + count <= where.size && read(record, offset, count).Ok?
      ensures && |read(record, offset, count).value| == count
              && (offset + count == where.size ==> |PayloadAt(file, where)| == where.size)
              && (|PayloadAt(file, where)| == where.size ==>
                    read(record, offset, count).value == PayloadAt(file, where)[offset..offset + count])
    {
      if InBounds(file, where.offset, where.size) {
        SliceSlice(file, where.offset, where.size, offset, count);
      }
    }
  }

  lemma {:induction false} ReaderAgrees(snap: Option<Blob>, wal: Blob, roots: Index)
    ensures SnapshotStore.Agrees(PayloadReaderOf(snap, wal), roots, Payloads(snap, wal, roots))
  {
    forall name | name in roots
      ensures SnapshotStore.Yields(PayloadReaderOf(snap, wal), roots[name], Payloads(snap, wal, roots)[name])
    {
      PartsYield(snap, wal, roots[name]);
    }
  }

  // ------------------------------------------------------------------
  // What the calls do, as steps of the engine
  // ------------------------------------------------------------------

  lemma {:induction false} PartGrows(c: Checks, wal: Blob, last: nat, tx: nat, updates: seq<RootUpdate>, wal': Blob)
    requires AppendedSome(c, wal, last, tx, updates, wal')
    ensures wal <= wal'
  {
    assert Opened(0);
  }

  ghost predicate CommitDone(c: Checks, m: Machine, tx: nat, updates: seq<RootUpdate>, m': Machine) {
    forall k: nat {:trigger Opened(k)} :: Opened(k) ==> m' == Committed(FormatsOf(c), m, tx, updates)
  }

  ghost predicate CommitFails(c: Checks, m: Machine, tx: nat, updates: seq<RootUpdate>, m': Machine) {
    forall k: nat {:trigger Opened(k)} :: Opened(k) ==>
      exists written: nat ::
        && written <= |BatchOf(FormatsOf(c).journal, FlightOf(m, tx, updates))|
        && m' == Failed(FormatsOf(c), m, tx, updates, written)
  }

  lemma {:induction false} AppendCommits(c: Checks, m: Machine, tx: nat, updates: seq<RootUpdate>, wal': Blob, locations: seq<Loc>)
    requires |locations| == |updates| && AppendedAll(c, m.wal, m.lastSequence, tx, updates, wal', locations)
    ensures CommitDone(c, m, tx, updates,
                    m.(wal := wal', roots := PublishAt(m.roots, updates, locations), lastSequence := m.lastSequence + |updates| + 2))
  {
    assert Opened(0);
    var fl := FlightOf(m, tx, updates);
    PublishesLocated(c, m.roots, tx, updates, fl.first + 1,
                     fl.at + |JournalFormat.FormatOf(c).frame(BeginRecord(tx, fl.first))|);
  }

  lemma {:induction false} AppendFailure(c: Checks, m: Machine, tx: nat, updates: seq<RootUpdate>, wal': Blob)
    requires AppendedSome(c, m.wal, m.lastSequence, tx, updates, wal')
    ensures CommitFails(c, m, tx, updates,
                        m.(wal := wal', lastSequence := m.lastSequence + |updates| + 2, poisoned := true,
                           flight := Some(FlightOf(m, tx, updates))))
  {
    assert Opened(0);
    var batch := BatchOf(FormatsOf(c).journal, FlightOf(m, tx, updates));
    var written: nat :| written <= |batch| && wal' == Partly(m.wal, batch, written);
    assert m.(wal := wal', lastSequence := m.lastSequence + |updates| + 2, poisoned := true,
              flight := Some(FlightOf(m, tx, updates))) == Failed(FormatsOf(c), m, tx, updates, written);
  }

  ghost predicate CheckpointDone(c: Checks, m: Machine, m': Machine) {
    forall k: nat {:trigger Opened(k)} :: Opened(k) ==> m.phase == Ready ==> m' == Checkpointed(FormatsOf(c), m)
  }

  /** A checkpoint that failed: before the rename nothing has changed that can be seen; after it
      the directory was not synced; once the index is published the journal was not emptied, or
      that was not flushed. */
  ghost predicate GivesUp(fs: Formats, m: Machine, m': Machine) {
    var image, placed := Some(ImageOf(fs, m.snap, m.wal, m.roots, m.lastSequence)), fs.snapshot.placed(m.roots);
    || m' == m.(temp := m'.temp)
    || m' == m.(temp := m'.temp, snap := image, phase := Renamed(m.snap))
    || m' == m.(temp := m'.temp, snap := image, roots := placed)
    || m' == m.(temp := m'.temp, snap := image, roots := placed, wal := [], phase := Truncated(m.wal))
  }

  ghost predicate CheckpointFails(c: Checks, m: Machine, m': Machine) {
    forall k: nat {:trigger Opened(k)} :: Opened(k) ==> m.phase == Ready ==> GivesUp(FormatsOf(c), m, m')
  }

  lemma {:induction false} SaveCheckpoints(c: Checks, m: Machine, m': Machine, image: Blob)
    requires image == SnapshotFormat.Image(c, m.roots, m.lastSequence, Payloads(m.snap, m.wal, m.roots))
    requires m.phase == Ready ==> m' == Machine(Some(image), image, [], Ready, SnapshotFormat.Placed(m.roots), m.lastSequence, m.poisoned, None)
    ensures CheckpointDone(c, m, m')
  {
  }

  lemma {:induction false} SaveGivenUp(c: Checks, m: Machine, m': Machine, image: Blob)
    requires image == SnapshotFormat.Image(c, m.roots, m.lastSequence, Payloads(m.snap, m.wal, m.roots))
    requires m.phase == Ready ==>
             || m' == m.(temp := m'.temp)
             || m' == m.(temp := m'.temp, snap := Some(image), phase := Renamed(m.snap))
    ensures CheckpointFails(c, m, m')
  {
  }

  lemma {:induction false} ResetGivenUp(c: Checks, m: Machine, m': Machine, image: Blob)
    requires image == SnapshotFormat.Image(c, m.roots, m.lastSequence, Payloads(m.snap, m.wal, m.roots))
    requires m.phase == Ready ==>
             || m' == m.(temp := m'.temp, snap := Some(image), roots := SnapshotFormat.Placed(m.roots))
             || m' == m.(temp := m'.temp, snap := Some(image), roots := SnapshotFormat.Placed(m.roots), wal := [], phase := Truncated(m.wal))
    ensures CheckpointFails(c, m, m')
  {
  }

  // ------------------------------------------------------------------
  // What the calls keep
  // ------------------------------------------------------------------

  /** The engine's invariant on the journal's and the snapshot's bytes. */
  ghost function SafeOn(c: Checks, m: Machine, a: Store): Law {
    Safe(FormatsOf(c), GroundOf(FormatsOf(c)), m, a)
  }

  /** A checkpoint may start, and the roots fit a snapshot. */
  ghost predicate Savable(c: Checks, m: Machine) {
    m.phase == Ready && FormatsOf(c).snapshot.fits(m.roots, m.lastSequence)
  }

  /** A commit may start, and the roots after it fit a snapshot. */
  ghost predicate Committable(c: Checks, m: Machine, tx: nat, updates: seq<RootUpdate>) {
    MayCommit(FormatsOf(c), m, tx, updates) && Savable(c, Committed(FormatsOf(c), m, tx, updates))
  }

  lemma {:induction false} CheckpointedSafe(fs: Formats, m: Machine, a: Store)
    requires Sound(fs).Kept? && Safe(fs, GroundOf(fs), m, a).Kept? && m.phase == Ready && fs.snapshot.fits(m.roots, m.lastSequence)
    ensures Safe(fs, GroundOf(fs), Checkpointed(fs, m), Store(a.cells, None)).Kept?
  {
    ImageInstalls(fs, m.snap, m.wal, m.flight, m.roots, a.cells, m.lastSequence);
  }

  /** A checkpoint that was given up leaves the engine in the middle of its steps. */
  lemma {:induction false} GivenUpOrder(fs: Formats, g: Ground, m: Machine, a: Store, temp: Blob, image: Blob)
    requires Safe(fs, g, m, a).Kept? && m.phase == Ready
    requires Installed(g, m.(snap := Some(image)), m.wal, fs.snapshot.placed(m.roots), a.cells)
    ensures Safe(fs, g, m.(temp := temp), a).Kept?
    ensures Safe(fs, g, m.(temp := temp, snap := Some(image), phase := Renamed(m.snap)), a).Kept?
    ensures Safe(fs, g, m.(temp := temp, snap := Some(image), roots := fs.snapshot.placed(m.roots)), a).Kept?
    ensures Safe(fs, g, m.(temp := temp, snap := Some(image), roots := fs.snapshot.placed(m.roots), wal := [], phase := Truncated(m.wal)), a).Kept?
  {
  }

  lemma {:induction false} GivenUpSafe(fs: Formats, m: Machine, a: Store, m': Machine)
    requires Sound(fs).Kept? && Safe(fs, GroundOf(fs), m, a).Kept? && m.phase == Ready && fs.snapshot.fits(m.roots, m.lastSequence)
    requires GivesUp(fs, m, m')
    ensures Safe(fs, GroundOf(fs), m', a).Kept?
  {
    ImageInstalls(fs, m.snap, m.wal, m.flight, m.roots, a.cells, m.lastSequence);
    GivenUpOrder(fs, GroundOf(fs), m, a, m'.temp, ImageOf(fs, m.snap, m.wal, m.roots, m.lastSequence));
  }

  /** A checkpoint keeps the invariant and the cells, however it ends. */
  lemma {:induction false} CheckpointSafe(c: Checks, m: Machine, a: Store, ok: bool, m': Machine)
    requires SafeOn(c, m, a).Kept? && Savable(c, m)
    requires if ok then CheckpointDone(c, m, m') else CheckpointFails(c, m, m')
    ensures SafeOn(c, m', if ok then Store(a.cells, None) else a).Kept?
  {
    assert Opened(0);
    FormatsSound(c);
    if ok {
      CheckpointedSafe(FormatsOf(c), m, a);
    } else {
      GivenUpSafe(FormatsOf(c), m, a, m');
    }
  }

  lemma {:induction false} CommittedSafe(fs: Formats, m: Machine, a: Store, tx: nat, updates: seq<RootUpdate>)
    requires Sound(fs).Kept? && Safe(fs, GroundOf(fs), m, a).Kept? && MayCommit(fs, m, tx, updates)
    ensures Safe(fs, GroundOf(fs), Committed(fs, m, tx, updates), Store(ApplyCells(a.cells, updates), None)).Kept?
  {
    CommitRuns(fs, m, tx, updates);
    var appends := CommitAppends(tx, updates);
    StepRefines(fs, m, a, appends);
    StepRefines(fs, After(fs, m, appends), StoreAfter(fs, m, a, appends), CommitReturns);
    assert [appends, CommitReturns][1..] == [CommitReturns] && [CommitReturns][1..] == [];
  }

  lemma {:induction false} FailedSafe(fs: Formats, m: Machine, a: Store, tx: nat, updates: seq<RootUpdate>, written: nat)
    requires Sound(fs).Kept? && Safe(fs, GroundOf(fs), m, a).Kept? && MayCommit(fs, m, tx, updates)
    requires written <= |BatchOf(fs.journal, FlightOf(m, tx, updates))|
    ensures Safe(fs, GroundOf(fs), Failed(fs, m, tx, updates, written), Store(a.cells, Some(updates))).Kept?
  {
    StepRefines(fs, m, a, AppendFails(tx, updates, written));
  }

  lemma {:induction false} CurrentOnCells(roots: Index, cells: Cells, updates: seq<RootUpdate>)
    requires Lists(roots, cells) && UpdatesCurrent(roots, updates)
    ensures CellsCurrent(cells, updates)
  {
  }

  /** A commit keeps the invariant: all of its updates happen, or they are left to recovery. */
  lemma {:induction false} CommitKeeps(c: Checks, m: Machine, a: Store, tx: nat, updates: seq<RootUpdate>, ok: bool, m': Machine)
    requires SafeOn(c, m, a).Kept? && MayCommit(FormatsOf(c), m, tx, updates)
    requires if ok then CommitDone(c, m, tx, updates, m') else CommitFails(c, m, tx, updates, m')
    ensures SafeOn(c, m', if ok then Store(ApplyCells(a.cells, updates), None) else Store(a.cells, Some(updates))).Kept?
    ensures CellsCurrent(a.cells, updates)
  {
    assert Opened(0);
    FormatsSound(c);
    LookupIsCurrent(FormatsOf(c), m, a);
    CurrentOnCells(m.roots, a.cells, updates);
    if ok {
      CommittedSafe(FormatsOf(c), m, a, tx, updates);
    } else {
      var written: nat :|
        && written <= |BatchOf(FormatsOf(c).journal, FlightOf(m, tx, updates))|
        && m' == Failed(FormatsOf(c), m, tx, updates, written);
      FailedSafe(FormatsOf(c), m, a, tx, updates, written);
    }
  }

  lemma {:induction false} CommitSavable(c: Checks, m: Machine, tx: nat, updates: seq<RootUpdate>, m': Machine)
    requires CommitDone(c, m, tx, updates, m')
    ensures Committable(c, m, tx, updates) ==> Savable(c, m')
  {
    assert Opened(0);
  }

  /** What reopening gives stands for what the files recover to. */
  lemma {:induction false} OpenSafe(c: Checks, snap: Option<Blob>, temp: Blob, wal: Blob, cells: Cells, seen: Machine)
    requires Recoverable(FormatsOf(c), snap, wal, cells).Kept? && Opens(FormatsOf(c), snap, temp, wal, seen)
    ensures SafeOn(c, seen, Store(cells, None)).Kept?
  {
    FormatsSound(c);
    ReopenedSafe(FormatsOf(c), Machine(snap, temp, wal, Down, map[], 0, false, None), cells);
  }

  lemma {:induction false} ReopenedSafe(fs: Formats, m: Machine, cells: Cells)
    requires Sound(fs).Kept? && m.phase == Down && m.flight == None && Recoverable(fs, m.snap, m.wal, cells).Kept?
    requires RecoverDisk(fs, m.snap, m.wal).Ok?
    ensures Safe(fs, GroundOf(fs), Reopened(fs, m).(phase := Ready), Store(cells, None)).Kept?
  {
    var a := Store(cells, None);
    assert Safe(fs, GroundOf(fs), m, a).Kept?;
    ReopenSafe(fs, m, a);
    if Reopened(fs, m).phase.Trimming? {
      FlushOrder(fs, GroundOf(fs), Reopened(fs, m), a);
    }
  }

  // What a crash may leave.

  /** Everything a crash of the disk may leave is what the engine allows of the machine. */
  ghost predicate LeftBy(m: Machine, snaps: iset<Option<Blob>>, wals: iset<Blob>) {
    && m.wal in wals
    && (forall s | s in snaps :: SnapMayBe(m, s))
    && (forall w | w in wals :: WalMayBe(m, w))
  }

  /** An appended and flushed transaction. */
  lemma {:induction false} LeftAppended(m: Machine, m': Machine, snaps: iset<Option<Blob>>, wals: iset<Blob>)
    requires LeftBy(m, snaps, wals) && m.phase == Ready && m'.phase == Ready && m'.snap == m.snap && m'.flight == None
    ensures LeftBy(m', snaps, iset{m'.wal})
  {
  }

  /** One that failed: any part of what was appended may be left. */
  lemma {:induction false} LeftPart(m: Machine, m': Machine, snaps: iset<Option<Blob>>, wals: iset<Blob>, fl: Flight)
    requires LeftBy(m, snaps, wals) && m.phase == Ready && m.flight == None
    requires m'.phase == Ready && m'.snap == m.snap && m'.flight == Some(fl) && fl.at == |m.wal| && m.wal <= m'.wal
    ensures LeftBy(m', snaps, wals + iset w: Blob | Between(m.wal, w, m'.wal))
  {
  }

  /** A checkpoint that did not get beyond the rename: nothing was left by it, or either snapshot. */
  lemma {:induction false} LeftSaved(m: Machine, m': Machine, snaps: iset<Option<Blob>>, snaps': iset<Option<Blob>>, wals: iset<Blob>)
    requires LeftBy(m, snaps, wals) && m.phase == Ready && m'.wal == m.wal && m'.flight == m.flight
    requires (m'.snap == m.snap && snaps' == snaps) || snaps' == snaps + iset{m'.snap}
    requires m'.phase == if m'.snap == m.snap then Ready else Renamed(m.snap)
    ensures LeftBy(m', snaps', wals)
  {
  }

  /** One that did not get beyond the truncation: the new snapshot, with either journal. */
  lemma {:induction false} LeftReset(m: Machine, m': Machine, snaps: iset<Option<Blob>>, wals: iset<Blob>, wals': iset<Blob>)
    requires LeftBy(m, snaps, wals) && m.phase == Ready && m'.flight == m.flight
    requires (m'.wal == m.wal && wals' == wals) || (m'.wal == [] && wals' == wals + iset{[]})
    requires m'.phase == if m'.wal == m.wal then Ready else Truncated(m.wal)
    ensures LeftBy(m', iset{m'.snap}, wals')
  {
  }

  lemma {:induction false} LeftSettled(m: Machine)
    requires m.phase == Ready && m.flight == None
    ensures LeftBy(m, iset{m.snap}, iset{m.wal})
  {
  }

  /** Every pair of files that a crash may leave of an idle heap recovers to the store. */
  lemma {:induction false} LeavingsRecover(c: Checks, m: Machine, a: Store, snaps: iset<Option<Blob>>, wals: iset<Blob>, snap: Option<Blob>, wal: Blob)
    requires SafeOn(c, m, a).Kept? && m.phase != Down && m.flight == None
    requires LeftBy(m, snaps, wals) && snap in snaps && wal in wals
    ensures Recoverable(FormatsOf(c), snap, wal, a.cells).Kept?
  {
    FormatsSound(c);
    CrashRecovers(FormatsOf(c), m, a, snap, wal);
  }

  lemma {:induction false} NothingOpen(c: Checks, m: Machine, cells: Cells)
    requires SafeOn(c, m, Store(cells, None)).Kept?
    ensures m.flight == None
  {
  }

  /** The heap can read every payload of an idle machine. */
  lemma {:induction false} SafeWritable(c: Checks, m: Machine, a: Store)
    requires SafeOn(c, m, a).Kept? && Savable(c, m)
    ensures SnapshotStore.Writable(m.roots, PayloadReaderOf(m.snap, m.wal))
  {
    SafeReadable(FormatsOf(c), m.snap, m.wal, m.flight, m.roots, a.cells, m.lastSequence);
    forall name | name in m.roots
      ensures SnapshotStore.Serves(PayloadReaderOf(m.snap, m.wal), m.roots[name])
    {
      ReadableServes(c, m.snap, m.wal, m.roots[name]);
    }
    FitsEnd(m.roots, m.lastSequence);
  }

  lemma {:induction false} SafeReadable(fs: Formats, snap: Option<Blob>, wal: Blob, flight: Option<Flight>, roots: Index, cells: Cells, last: nat)
    requires OnFiles(fs, snap, wal, flight, roots, cells, last).Kept?
    ensures AllReadable(fs.journal.digest, snap, wal, roots)
  {
    var st := StateOn(fs, snap, wal, flight, roots, cells, last);
    BaseReadable(fs, snap, wal, flight, st, cells, last);
  }

  lemma {:induction false} ReadableServes(c: Checks, snap: Option<Blob>, wal: Blob, record: RootRecord)
    requires Readable(c.digest, FileOf(snap, wal, record.payload.source), record.payload)
    ensures SnapshotStore.Serves(PayloadReaderOf(snap, wal), record)
  {
  }

  lemma {:induction false} FitsEnd(roots: Index, sequence: nat)
    requires SnapshotFormat.Fits(roots, sequence)
    ensures SnapshotStore.AllEnd(SnapshotFormat.Layout(roots))
  {
    SnapshotFormat.LayoutRows(roots);
  }

  // What the cache holds.

  /** Entries are not newer than their roots, and at a root's version they hold its payload. */
  predicate CacheAgrees(s: seq<Cache.Entry>, cells: Cells) {
    forall e | e in s :: EntryAgrees(e, cells)
  }

  predicate EntryAgrees(e: Cache.Entry, cells: Cells) {
    && e.name in cells && e.version <= cells[e.name].version
    && (e.version == cells[e.name].version ==> e.payload == cells[e.name].payload)
  }

  lemma {:induction false} WithoutSubset(s: seq<Cache.Entry>, name: Blob, e: Cache.Entry)
    requires e in Cache.Without(s, name)
    ensures e in s
    decreases |s|
  {
    if s != [] && s[0].name != name && e != s[0] {
      WithoutSubset(s[1..], name, e);
    }
  }

  lemma {:induction false} GetSubset(s: seq<Cache.Entry>, name: Blob, version: nat, e: Cache.Entry)
    requires e in Cache.AfterGet(s, name, version)
    ensures e in s
  {
    if e in Cache.Without(s, name) {
      WithoutSubset(s, name, e);
    }
  }

  lemma {:induction false} PutSubset(s: seq<Cache.Entry>, limit: nat, one: Cache.Entry, e: Cache.Entry)
    requires e in Cache.AfterPut(s, limit, one)
    ensures e == one || e in s
  {
    if e !in s && Cache.Admits(limit, one) && e != one {
      var rest := Cache.Without(s, one.name);
      assert e in Cache.Evicted(rest, limit - |one.payload|);
      assert e in rest;
      WithoutSubset(s, one.name, e);
    }
  }

  lemma {:induction false} GetAgrees(s: seq<Cache.Entry>, cells: Cells, name: Blob, version: nat)
    requires CacheAgrees(s, cells)
    ensures CacheAgrees(Cache.AfterGet(s, name, version), cells)
  {
    forall e | e in Cache.AfterGet(s, name, version)
      ensures EntryAgrees(e, cells)
    {
      GetSubset(s, name, version, e);
    }
  }

  lemma {:induction false} PutAgrees(s: seq<Cache.Entry>, limit: nat, one: Cache.Entry, cells: Cells)
    requires CacheAgrees(s, cells) && EntryAgrees(one, cells)
    ensures CacheAgrees(Cache.AfterPut(s, limit, one), cells)
  {
    forall e | e in Cache.AfterPut(s, limit, one)
      ensures EntryAgrees(e, cells)
    {
      PutSubset(s, limit, one, e);
    }
  }

  /** The payload of a root is what the cache holds for its version, or what the file holds at its locator. */
  predicate Yielded(c: Checks, m: Machine, s: seq<Cache.Entry>, name: Blob, payload: Blob)
    requires name in m.roots
  {
    || Cache.Hit(s, name, m.roots[name].version) == Some(payload)
    || LoadWhole(c, FileOf(m.snap, m.wal, m.roots[name].payload.source), m.roots[name].payload) == Ok(payload)
  }

  /** The cache after a load asked it, and put in what it did not have. */
  predicate Consulted(s: seq<Cache.Entry>, limit: nat, name: Blob, version: nat, r: Result<Option<(nat, Blob)>>, s': seq<Cache.Entry>) {
    || s' == Cache.AfterGet(s, name, version)
    || (r.Ok? && r.value.Some?
        && s' == Cache.AfterPut(Cache.AfterGet(s, name, version), limit, Cache.Entry(name, version, r.value.value.1)))
  }

  /** The version and payload of a root, as a client sees it. */
  function Shown(cells: Cells, name: Blob): Option<(nat, Blob)> {
    if name in cells then Some((cells[name].version, cells[name].payload)) else None
  }

  lemma {:induction false} YieldedCurrent(c: Checks, m: Machine, a: Store, s: seq<Cache.Entry>, name: Blob, payload: Blob)
    requires SafeOn(c, m, a).Kept? && m.phase == Ready && CacheAgrees(s, a.cells)
    requires name in m.roots && Yielded(c, m, s, name, payload)
    ensures Shown(a.cells, name) == Some((m.roots[name].version, payload))
  {
    LookupIsCurrent(FormatsOf(c), m, a);
    LockedReadIsCurrent(c, m, a, name);
    if Cache.Hit(s, name, m.roots[name].version) == Some(payload) {
      assert EntryAgrees(Cache.Find(s, name).value, a.cells);
    }
  }

  /** Only a fault of the disk keeps a load of a value from yielding what the store holds. */
  lemma {:induction false} LoadSucceeds(c: Checks, m: Machine, a: Store, s: seq<Cache.Entry>, name: Blob,
                                        r: Result<Option<(nat, Blob)>>, faulted: bool)
    requires SafeOn(c, m, a).Kept? && m.phase == Ready && CacheAgrees(s, a.cells)
    requires name in a.cells ==> a.cells[name].tag == VALUE_TYPE
    requires name !in m.roots ==> r == Ok(None) && !faulted
    requires name in m.roots && r.Ok? ==>
               r.value.Some? && r.value.value.0 == m.roots[name].version && Yielded(c, m, s, name, r.value.value.1)
    requires !faulted && r.Err? && name in m.roots && m.roots[name].tag == VALUE_TYPE ==>
               LoadWhole(c, FileOf(m.snap, m.wal, m.roots[name].payload.source), m.roots[name].payload).Err?
    requires faulted ==> r == Err(StorageFault)
    ensures r == if !faulted then Ok(Shown(a.cells, name)) else Err(StorageFault)
  {
    LookupIsCurrent(FormatsOf(c), m, a);
    if name in m.roots {
      LockedReadIsCurrent(c, m, a, name);
      if r.Ok? {
        YieldedCurrent(c, m, a, s, name, r.value.value.1);
      }
    }
  }

  /** A load yields what the store holds, and leaves the cache in agreement with it. */
  lemma {:induction false} LoadKeeps(c: Checks, m: Machine, a: Store, s: seq<Cache.Entry>, limit: nat, name: Blob,
                                     r: Result<Option<(nat, Blob)>>, s': seq<Cache.Entry>)
    requires SafeOn(c, m, a).Kept? && m.phase == Ready && CacheAgrees(s, a.cells)
    requires name !in m.roots ==> r == Ok(None) && s' == s
    requires name in m.roots && m.roots[name].tag != VALUE_TYPE ==> r.Err? && s' == s
    requires name in m.roots && r.Ok? ==>
               r.value.Some? && r.value.value.0 == m.roots[name].version && Yielded(c, m, s, name, r.value.value.1)
    requires name in m.roots && m.roots[name].tag == VALUE_TYPE ==> Consulted(s, limit, name, m.roots[name].version, r, s')
    ensures CacheAgrees(s', a.cells) && (r.Ok? ==> r.value == Shown(a.cells, name))
  {
    LookupIsCurrent(FormatsOf(c), m, a);
    if name in m.roots {
      if r.Ok? {
        YieldedCurrent(c, m, a, s, name, r.value.value.1);
      }
      GetAgrees(s, a.cells, name, m.roots[name].version);
      if r.Ok? {
        PutAgrees(Cache.AfterGet(s, name, m.roots[name].version), limit,
                  Cache.Entry(name, m.roots[name].version, r.value.value.1), a.cells);
      }
    }
  }

  lemma {:induction false} FilledSubset(s: seq<Cache.Entry>, limit: nat, updates: seq<RootUpdate>, e: Cache.Entry)
    requires e in CacheAll(s, limit, updates)
    ensures e in s || exists i {:trigger updates[i]} :: 0 <= i < |updates| && e == Cache.Entry(updates[i].name, updates[i].next, updates[i].payload)
    decreases |updates|
  {
    if updates != [] {
      var one := Cache.Entry(updates[0].name, updates[0].next, updates[0].payload);
      FilledSubset(Cache.AfterPut(s, limit, one), limit, updates[1..], e);
      if e in Cache.AfterPut(s, limit, one) {
        PutSubset(s, limit, one, e);
      } else {
        var i :| 0 <= i < |updates[1..]| && e == Cache.Entry(updates[1..][i].name, updates[1..][i].next, updates[1..][i].payload);
        assert updates[1..][i] == updates[i + 1];
      }
    }
  }

  /** The updates start from the current versions of distinct roots. */
  predicate CellsCurrent(cells: Cells, updates: seq<RootUpdate>) {
    && (forall i | 0 <= i < |updates| :: VersionIn(cells, updates[i].name) == updates[i].expected < updates[i].next)
    && (forall i, j | 0 <= i < j < |updates| :: updates[i].name != updates[j].name)
  }

  lemma {:induction false} OldEntryAgrees(e: Cache.Entry, cells: Cells, updates: seq<RootUpdate>)
    requires EntryAgrees(e, cells) && CellsCurrent(cells, updates)
    ensures EntryAgrees(e, ApplyCells(cells, updates))
  {
    if i :| 0 <= i < |updates| && updates[i].name == e.name {
      AppliedAt(cells, updates, i);
    } else {
      AppliedOther(cells, updates, e.name);
    }
  }

  /** Filling the cache with what is committed keeps it in agreement. */
  lemma {:induction false} FilledAgrees(s: seq<Cache.Entry>, limit: nat, cells: Cells, updates: seq<RootUpdate>, s': seq<Cache.Entry>)
    requires CacheAgrees(s, cells) && CellsCurrent(cells, updates) && CacheFilled(s, limit, updates, s')
    ensures CacheAgrees(s', ApplyCells(cells, updates))
  {
    assert Opened(0);
    forall e | e in s'
      ensures EntryAgrees(e, ApplyCells(cells, updates))
    {
      FilledSubset(s, limit, updates, e);
      if e in s {
        OldEntryAgrees(e, cells, updates);
      } else {
        var i :| 0 <= i < |updates| && e == Cache.Entry(updates[i].name, updates[i].next, updates[i].payload);
        AppliedAt(cells, updates, i);
      }
    }
  }

  /** What a commit of current versions does: it happens, perhaps with a checkpoint after it
      that may fail, or its append fails. */
  ghost predicate CommitEffect(c: Checks, m: Machine, tx: nat, updates: seq<RootUpdate>, r: Result<()>, m': Machine) {
    forall k: nat {:trigger Opened(k)} :: Opened(k) ==>
      || (r.Err? && CommitFails(c, m, tx, updates, m'))
      || CommitThen(c, m, tx, updates, r, m')
  }

  ghost predicate CommitThen(c: Checks, m: Machine, tx: nat, updates: seq<RootUpdate>, r: Result<()>, m': Machine) {
    exists m1 {:trigger CommitDone(c, m, tx, updates, m1)} ::
      && CommitDone(c, m, tx, updates, m1)
      && ((r.Ok? && m' == m1) || (r.Ok? && CheckpointDone(c, m1, m')) || (r.Err? && CheckpointFails(c, m1, m')))
  }

  lemma {:induction false} InstallFails(c: Checks, m: Machine, tx: nat, updates: seq<RootUpdate>, m': Machine, e: Error)
    requires CommitFails(c, m, tx, updates, m')
    ensures CommitEffect(c, m, tx, updates, Err(e), m')
  {
  }

  lemma {:induction false} CommitCloses(c: Checks, m: Machine, tx: nat, updates: seq<RootUpdate>, m1: Machine, r: Result<()>, m': Machine)
    requires CommitDone(c, m, tx, updates, m1)
    requires || (r.Ok? && m' == m1)
             || (r.Ok? && CheckpointDone(c, m1, m'))
             || (r.Err? && CheckpointFails(c, m1, m'))
    ensures CommitEffect(c, m, tx, updates, r, m')
  {
  }

  // ------------------------------------------------------------------
  // The heap
  // ------------------------------------------------------------------

  /** The machine is what reopening the files gives, once the cut is flushed. */
  ghost predicate Opens(fs: Formats, snap: Option<Blob>, temp: Blob, wal: Blob, seen: Machine) {
    && RecoverDisk(fs, snap, wal).Ok?
    && seen == Reopened(fs, Machine(snap, temp, wal, Down, map[], 0, false, None)).(phase := Ready)
  }

  function Flaw<T>(r: Result<T>): Error {
    if r.Err? then r.error else StorageFault
  }

  class Heap {
    const disk: Disk
    const checks: Checks
    const wal: Journal
    const cache: Cache.PayloadCache
    const checkpointBytes: nat
    var roots: Index
    var lastSequence: nat
    var nextTransaction: nat
    var closed: bool
    var poisoned: bool
    ghost var flight: Option<Flight>
    ghost var phase: Phase

    ghost predicate Valid()
      reads this, wal, cache
    {
      && wal.disk == disk && wal.checks == checks && cache.Valid()
      && (poisoned || (flight == None && lastSequence == wal.lastSequence))
    }

    /** The heap as a state of the engine. */
    ghost function Seen(): Machine
      reads this, disk, wal
    {
      Machine(disk.snapshot, disk.temporary, disk.wal, phase, roots, wal.lastSequence, poisoned, flight)
    }

    /** The heap stands for the store: files and index do, and so does what the cache holds. */
    ghost predicate Stands(a: Store)
      requires cache.Valid()
      reads this, disk, wal, cache
    {
      SafeOn(checks, Seen(), a).Kept? && CacheAgrees(cache.Contents(), a.cells)
    }

    /** Whatever a crash leaves of the files is what the engine allows of the heap. */
    ghost predicate Durable()
      reads this, disk, wal
    {
      LeftBy(Seen(), disk.snapshotLeft, disk.walLeft)
    }

    constructor (disk: Disk, wal: Journal, roots: Index, cacheBytes: nat, checkpointBytes: nat)
      requires wal.disk == disk
      ensures Valid() && this.disk == disk && this.checks == wal.checks && fresh(cache)
      ensures Seen() == Machine(disk.snapshot, disk.temporary, disk.wal, Ready, roots, wal.lastSequence, false, None)
      ensures cache.Contents() == [] && nextTransaction == 1 && !closed
      ensures cache.limit == cacheBytes && this.checkpointBytes == checkpointBytes
    {
      this.disk, this.checks, this.wal, this.roots, this.checkpointBytes := disk, wal.checks, wal, roots, checkpointBytes;
      cache := new Cache.PayloadCache(cacheBytes);
      lastSequence, nextTransaction, closed, poisoned, flight, phase := wal.lastSequence, 1, false, false, None, Ready;
    }

    /** Loads the snapshot, replays the journal over it and cuts the torn tail. Transaction ids
        start again at 1. */
    static method Open(disk: Disk, checks: Checks, cacheBytes: nat, checkpointBytes: nat) returns (r: Result<Heap>)
      modifies disk`wal, disk`walLeft, disk`faults
      ensures r.Ok? ==> fresh(r.value) && r.value.Valid() && r.value.disk == disk && r.value.checks == checks
      ensures r.Ok? ==> Opens(FormatsOf(checks), disk.snapshot, disk.temporary, old(disk.wal), r.value.Seen())
      ensures r.Ok? ==> r.value.nextTransaction == 1 && r.value.cache.Contents() == [] && !r.value.closed
      ensures r.Ok? ==> r.value.cache.limit == cacheBytes && r.value.checkpointBytes == checkpointBytes
      ensures r.Ok? ==> forall cells | Recoverable(FormatsOf(checks), disk.snapshot, old(disk.wal), cells).Kept? ::
                          r.value.Stands(Store(cells, None))
      ensures r.Ok? && old(disk.Settled()) ==> r.value.Durable()
      ensures if disk.faults == old(disk.faults) then r.Ok? || r == Err(Flaw(RecoverDisk(FormatsOf(checks), disk.snapshot, old(disk.wal))))
              else r == Err(StorageFault)
      ensures disk.faults == old(disk.faults) && RecoverDisk(FormatsOf(checks), disk.snapshot, old(disk.wal)).Ok? ==> r.Ok?
    {
      var image :- SnapshotStore.Load(disk, checks);
      var wal := new Journal(disk, checks);
      var recovered :- wal.Recover(image.0, image.1);
      var heap := new Heap(disk, wal, recovered.roots, cacheBytes, checkpointBytes);
      forall cells | Recoverable(FormatsOf(checks), disk.snapshot, old(disk.wal), cells).Kept?
        ensures SafeOn(checks, heap.Seen(), Store(cells, None)).Kept?
      {
        OpenSafe(checks, disk.snapshot, disk.temporary, old(disk.wal), cells, heap.Seen());
      }
      LeftSettled(heap.Seen());
      r := Ok(heap);
    }

    /** What a commit needs of the roots. */
    method Validate(updates: seq<RootUpdate>) returns (r: Result<()>)
      ensures r.Ok? <==> VersionsMatch(roots, updates)
      ensures r.Err? ==> Conflicts(roots, updates, r.error)
    {
      for i := 0 to |updates|
        invariant forall j | 0 <= j < i :: VersionOf(roots, updates[j].name) == updates[j].expected
      {
        var version := if updates[i].name in roots then roots[updates[i].name].version else 0;
        if version != updates[i].expected {
          assert VersionsMatch(roots, updates[..i]);
          return Err(Conflict(updates[i].name));
        }
      }
      r := Ok(());
    }

    method PublishUpdates(updates: seq<RootUpdate>, locations: seq<Loc>)
      requires cache.Valid() && |updates| == |locations|
      modifies this`roots, cache
      ensures cache.Valid()
      ensures roots == PublishAt(old(roots), updates, locations)
      ensures CacheFilled(old(cache.Contents()), cache.limit, updates, cache.Contents())
    {
      for i := 0 to |updates|
        invariant cache.Valid()
        invariant PublishAt(roots, updates[i..], locations[i..]) == PublishAt(old(roots), updates, locations)
        invariant CacheAll(cache.Contents(), cache.limit, updates[i..]) == CacheAll(old(cache.Contents()), cache.limit, updates)
      {
        assert updates[i..][1..] == updates[i + 1..] && locations[i..][1..] == locations[i + 1..];
        roots := roots[updates[i].name := RootRecord(updates[i].next, updates[i].tag, locations[i])];
        var _ := cache.Put(updates[i].name, updates[i].next, updates[i].payload);
      }
    }

    /** After a failed append nothing more is committed. */
    method Poison(ghost m: Machine, tx: nat, updates: seq<RootUpdate>)
      requires wal.disk == disk && wal.checks == checks && cache.Valid()
      requires AppendedSome(checks, m.wal, m.lastSequence, tx, updates, disk.wal)
      requires Seen() == m.(wal := disk.wal, lastSequence := m.lastSequence + |updates| + 2)
      modifies this`poisoned, this`flight
      ensures Valid() && poisoned && CommitFails(checks, m, tx, updates, Seen()) && flight == Some(FlightOf(m, tx, updates))
    {
      AppendFailure(checks, m, tx, updates, disk.wal);
      poisoned := true;
      flight := Some(FlightOf(m, tx, updates));
    }

    /** Appends and publishes a transaction. A failed append poisons the heap and leaves the
        transaction's fate to recovery. */
    method AppendAndPublish(tx: nat, updates: seq<RootUpdate>) returns (r: Result<()>)
      requires Valid() && !poisoned
      modifies this`roots, this`poisoned, this`lastSequence, this`flight, disk`wal, disk`walLeft, disk`faults, wal`lastSequence, cache
      ensures Valid()
      ensures if r.Ok? then disk.faults == old(disk.faults) else disk.faults > old(disk.faults)
      ensures r.Ok? ==> flight == old(flight) && disk.walLeft == iset{disk.wal}
      ensures r.Err? ==> flight == Some(FlightOf(old(Seen()), tx, updates)) && old(disk.wal) <= disk.wal
                         && disk.walLeft == old(disk.walLeft) + iset w: Blob | Between(old(disk.wal), w, disk.wal)
      ensures match r
              case Ok(_) =>
                && CommitDone(checks, old(Seen()), tx, updates, Seen())
                && CacheFilled(old(cache.Contents()), cache.limit, updates, cache.Contents())
              case Err(e) =>
                && e == StorageFault && CommitFails(checks, old(Seen()), tx, updates, Seen())
                && cache.Contents() == old(cache.Contents())
    {
      ghost var m := Seen();
      var appended := wal.Append(tx, updates);
      if appended.Err? {
        Poison(m, tx, updates);
        PartGrows(checks, m.wal, m.lastSequence, tx, updates, disk.wal);
        return Err(appended.error);
      }
      AppendCommits(checks, m, tx, updates, disk.wal, appended.value);
      PublishUpdates(updates, appended.value);
      lastSequence := wal.lastSequence;
      r := Ok(());
    }

    /** The same, of the store: the commit happens, or its updates stay open. */
    method Install(tx: nat, updates: seq<RootUpdate>) returns (r: Result<()>)
      requires Valid() && !poisoned
      modifies this`roots, this`poisoned, this`lastSequence, this`flight, disk`wal, disk`walLeft, disk`faults, wal`lastSequence, cache
      ensures Valid()
      ensures if r.Ok? then disk.faults == old(disk.faults) else disk.faults > old(disk.faults) && r.error == StorageFault
      ensures old(Durable()) && phase == Ready ==> Durable()
      ensures if r.Ok? then CommitDone(checks, old(Seen()), tx, updates, Seen()) else CommitFails(checks, old(Seen()), tx, updates, Seen())
      ensures r.Ok? && old(Committable(checks, Seen(), tx, updates)) ==> Savable(checks, Seen())
      ensures forall a | old(Stands(a)) && old(Committable(checks, Seen(), tx, updates)) ::
                Stands(if r.Ok? then Store(ApplyCells(a.cells, updates), None) else Store(a.cells, Some(updates)))
    {
      ghost var m, entries := Seen(), cache.Contents();
      r := AppendAndPublish(tx, updates);
      if r.Ok? {
        CommitSavable(checks, m, tx, updates, Seen());
      }
      if old(Durable()) && phase == Ready {
        if r.Ok? {
          LeftAppended(m, Seen(), disk.snapshotLeft, old(disk.walLeft));
        } else {
          LeftPart(m, Seen(), disk.snapshotLeft, old(disk.walLeft), FlightOf(m, tx, updates));
        }
      }
      forall a | SafeOn(checks, m, a).Kept? && CacheAgrees(entries, a.cells) && Committable(checks, m, tx, updates)
        ensures SafeOn(checks, Seen(), if r.Ok? then Store(ApplyCells(a.cells, updates), None) else Store(a.cells, Some(updates))).Kept?
        ensures CacheAgrees(cache.Contents(), if r.Ok? then ApplyCells(a.cells, updates) else a.cells)
      {
        CommitKeeps(checks, m, a, tx, updates, r.Ok?, Seen());
        if r.Ok? {
          FilledAgrees(entries, cache.limit, a.cells, updates, cache.Contents());
        }
      }
    }

    /** Saves the index and all payloads, installs the new index and empties the journal. */
    method CheckpointLocked() returns (r: Result<()>)
      requires Valid()
      modifies this`roots, this`lastSequence, this`flight, this`phase, disk
      ensures Valid()
      ensures if r.Ok? then CheckpointDone(checks, old(Seen()), Seen()) else CheckpointFails(checks, old(Seen()), Seen())
      ensures forall a | old(Stands(a)) && old(Savable(checks, Seen())) ::
                && Stands(if r.Ok? then Store(a.cells, None) else a)
                && if disk.faults == old(disk.faults) then r.Ok? else r == Err(StorageFault)
      ensures r.Ok? ==> disk.wal == [] && disk.faults == old(disk.faults) && phase == old(phase)
      ensures old(Durable()) && old(phase) == Ready ==> Durable()
    {
      r := SaveAndReset();
      forall a | old(Stands(a)) && old(Savable(checks, Seen()))
        ensures SafeOn(checks, Seen(), if r.Ok? then Store(a.cells, None) else a).Kept?
        ensures SnapshotStore.Writable(old(roots), PayloadReaderOf(old(disk.snapshot), old(disk.wal)))
      {
        CheckpointSafe(checks, old(Seen()), a, r.Ok?, Seen());
        SafeWritable(checks, old(Seen()), a);
      }
    }

    method SaveAndReset() returns (r: Result<()>)
      requires Valid()
      modifies this`roots, this`lastSequence, this`flight, this`phase, disk
      ensures Valid()
      ensures if r.Ok? then CheckpointDone(checks, old(Seen()), Seen()) else CheckpointFails(checks, old(Seen()), Seen())
      ensures r.Ok? ==> disk.wal == [] && disk.faults == old(disk.faults) && phase == old(phase)
      ensures r.Err? && SnapshotStore.Writable(old(roots), PayloadReaderOf(old(disk.snapshot), old(disk.wal))) ==>
                r.error == StorageFault && disk.faults > old(disk.faults)
      ensures old(Durable()) && old(phase) == Ready ==> Durable()
    {
      ghost var m := Seen();
      ghost var payloads := Payloads(disk.snapshot, disk.wal, roots);
      ghost var image := SnapshotFormat.Image(checks, roots, wal.lastSequence, payloads);
      ReaderAgrees(disk.snapshot, disk.wal, roots);
      var written := SnapshotStore.Save(disk, checks, roots, wal.lastSequence, PayloadReaderOf(disk.snapshot, disk.wal), payloads);
      if written.Err? {
        if phase == Ready && disk.snapshot != m.snap {
          phase := Renamed(m.snap);
        }
        SaveGivenUp(checks, m, Seen(), image);
        if old(Durable()) && m.phase == Ready {
          LeftSaved(m, Seen(), old(disk.snapshotLeft), disk.snapshotLeft, disk.walLeft);
        }
        return Err(written.error);
      }
      roots, lastSequence := written.value.0, written.value.1;
      r := ResetJournal(m);
      if r.Err? {
        ResetGivenUp(checks, m, Seen(), image);
      } else {
        SaveCheckpoints(checks, m, Seen(), image);
      }
    }

    /** Empties the journal once the new snapshot is in place. */
    method ResetJournal(ghost m: Machine) returns (r: Result<()>)
      requires wal.disk == disk && m.wal == disk.wal && m.phase == phase && m.flight == flight
      requires Valid()
      modifies this`flight, this`phase, disk`wal, disk`walLeft, disk`faults
      ensures Valid()
      ensures r.Ok? ==> disk.wal == [] && flight == None && phase == m.phase && disk.faults == old(disk.faults)
      ensures r.Err? ==> r.error == StorageFault && disk.faults > old(disk.faults) && flight == m.flight
      ensures r.Err? && m.phase == Ready ==>
                || (disk.wal == m.wal && phase == Ready)
                || (disk.wal == [] && phase == Truncated(m.wal))
      ensures LeftBy(m, iset{m.snap}, old(disk.walLeft)) && m.phase == Ready && disk.snapshotLeft == iset{disk.snapshot} ==> Durable()
    {
      r := wal.Reset();
      if r.Err? {
        if phase == Ready && disk.wal != m.wal {
          phase := Truncated(m.wal);
        }
        if LeftBy(m, iset{m.snap}, old(disk.walLeft)) && m.phase == Ready && disk.snapshotLeft == iset{disk.snapshot} {
          LeftReset(m, Seen(), iset{m.snap}, old(disk.walLeft), disk.walLeft);
        }
        return;
      }
      flight := None;
    }

    method Checkpoint() returns (r: Result<()>)
      requires Valid()
      modifies this`roots, this`lastSequence, this`flight, this`phase, disk
      ensures Valid()
      ensures closed ==> r == Err(HeapClosed) && Seen() == old(Seen())
      ensures !closed ==>
                if r.Ok? then CheckpointDone(checks, old(Seen()), Seen()) else CheckpointFails(checks, old(Seen()), Seen())
      ensures forall a | old(Stands(a)) && (closed || old(Savable(checks, Seen()))) :: Stands(if r.Ok? then Store(a.cells, None) else a)
      ensures forall a | !closed && old(Stands(a)) && old(Savable(checks, Seen())) ::
                if disk.faults == old(disk.faults) then r.Ok? else r == Err(StorageFault)
      ensures old(Durable()) && old(phase) == Ready ==> Durable()
    {
      if closed {
        return Err(HeapClosed);
      }
      r := CheckpointLocked();
    }

    /** Commits updates of current versions, and takes a checkpoint if the journal has grown long. */
    method CommitCurrent(tx: nat, updates: seq<RootUpdate>) returns (r: Result<()>)
      requires Valid() && !poisoned
      modifies this`roots, this`poisoned, this`lastSequence, this`flight, this`phase, disk, wal`lastSequence, cache
      ensures Valid()
      ensures CommitEffect(checks, old(Seen()), tx, updates, r, Seen())
      ensures r.Ok? ==> (|disk.wal| < checkpointBytes || disk.wal == []) && phase == old(phase)
      ensures forall a | old(Stands(a)) && old(Committable(checks, Seen(), tx, updates)) ::
                && (Stands(Store(ApplyCells(a.cells, updates), None)) || (r.Err? && Stands(Store(a.cells, Some(updates)))))
                && (r.Ok? ==> Stands(Store(ApplyCells(a.cells, updates), None)))
                && if disk.faults == old(disk.faults) then r.Ok? else r == Err(StorageFault)
      ensures old(Durable()) && old(phase) == Ready ==> Durable()
    {
      ghost var m := Seen();
      r := Install(tx, updates);
      if r.Err? {
        InstallFails(checks, m, tx, updates, Seen(), r.error);
        return;
      }
      ghost var m1 := Seen();
      r := CheckpointIfLong();
      CommitCloses(checks, m, tx, updates, m1, r, Seen());
    }

    /** Takes a checkpoint exactly if the journal is at least as long as the limit. */
    method CheckpointIfLong() returns (r: Result<()>)
      requires Valid()
      modifies this`roots, this`lastSequence, this`flight, this`phase, disk
      ensures Valid()
      ensures r.Ok? ==> phase == old(phase)
      ensures |old(disk.wal)| < checkpointBytes ==> r.Ok? && Seen() == old(Seen())
      ensures |old(disk.wal)| >= checkpointBytes ==>
                if r.Ok? then CheckpointDone(checks, old(Seen()), Seen()) && disk.wal == [] else CheckpointFails(checks, old(Seen()), Seen())
      ensures forall a: Store | a.open == None && old(Stands(a)) && old(Savable(checks, Seen())) ::
                Stands(a) && if disk.faults == old(disk.faults) then r.Ok? else r == Err(StorageFault)
      ensures old(Durable()) && old(phase) == Ready ==> Durable()
    {
      r := Ok(());
      if |disk.wal| >= checkpointBytes {
        r := CheckpointLocked();
      }
    }

    /** Commits a transaction: all of its updates, if each starts from its root's current version.
        An error after the append means that the transaction may still have happened. */
    method Commit(tx: nat, updates: seq<RootUpdate>) returns (r: Result<()>)
      requires Valid()
      modifies this`roots, this`poisoned, this`lastSequence, this`flight, this`phase, disk, wal`lastSequence, cache
      ensures Valid()
      ensures updates == [] ==> r.Ok? && Seen() == old(Seen())
      ensures updates != [] && (closed || old(poisoned)) ==>
                r == Err(if closed then HeapClosed else HeapPoisoned) && Seen() == old(Seen())
      ensures updates != [] && !closed && !old(poisoned) && !VersionsMatch(old(roots), updates) ==>
                r.Err? && Conflicts(old(roots), updates, r.error) && Seen() == old(Seen())
      ensures updates == [] || closed || old(poisoned) || !VersionsMatch(old(roots), updates) ==>
                cache.Contents() == old(cache.Contents())
      ensures updates != [] && !closed && !old(poisoned) && VersionsMatch(old(roots), updates) ==>
                && CommitEffect(checks, old(Seen()), tx, updates, r, Seen())
                && (r.Ok? ==> |disk.wal| < checkpointBytes || disk.wal == [])
      ensures forall a | updates != [] && !closed && old(Stands(a)) && old(Committable(checks, Seen(), tx, updates)) ::
                && (Stands(Store(ApplyCells(a.cells, updates), None)) || (r.Err? && Stands(Store(a.cells, Some(updates)))))
                && (r.Ok? ==> Stands(Store(ApplyCells(a.cells, updates), None)))
                && if disk.faults == old(disk.faults) then r.Ok? else r == Err(StorageFault)
      ensures old(Durable()) && old(phase) == Ready ==> Durable()
      ensures forall a, snap, wal | updates != [] && !closed && r.Ok? && old(Durable())
                                    && old(Stands(a)) && old(Committable(checks, Seen(), tx, updates))
                                    && snap in disk.snapshotLeft && wal in disk.walLeft ::
                Recoverable(FormatsOf(checks), snap, wal, ApplyCells(a.cells, updates)).Kept?
    {
      if updates == [] {
        return Ok(());
      }
      if closed {
        return Err(HeapClosed);
      }
      if poisoned {
        return Err(HeapPoisoned);
      }
      var _ :- Validate(updates);
      r := CommitCurrent(tx, updates);
      forall a, snap, wal | r.Ok? && old(Durable()) && old(Stands(a)) && old(Committable(checks, Seen(), tx, updates))
                            && snap in disk.snapshotLeft && wal in disk.walLeft
        ensures Recoverable(FormatsOf(checks), snap, wal, ApplyCells(a.cells, updates)).Kept?
      {
        NothingOpen(checks, Seen(), ApplyCells(a.cells, updates));
        LeavingsRecover(checks, Seen(), Store(ApplyCells(a.cells, updates), None), disk.snapshotLeft, disk.walLeft, snap, wal);
      }
    }

    /** A payload from the file its locator names, checked. */
    method LoadPayload(where: Loc) returns (r: Result<Blob>)
      modifies disk`faults
      ensures || (r == LoadWhole(checks, FileOf(disk.snapshot, disk.wal, where.source), where) && disk.faults == old(disk.faults))
              || (r == Err(StorageFault) && disk.faults == old(disk.faults) + 1)
    {
      var bytes :- disk.Read(FileOf(disk.snapshot, disk.wal, where.source), where.offset, where.size);
      if checks.on && checks.digest(bytes) != where.checksum {
        return Err(Corruption(ChecksumMismatch));
      }
      r := Ok(bytes);
    }

    /** The payload of a root of the given type, from the cache if it is there. After a miss the root
        is looked up once more: in the program another thread may have moved its payload by then. */
    method LoadRoot(name: Blob) returns (r: Result<Option<(nat, Blob)>>)
      requires Valid()
      modifies cache, disk`faults
      ensures Valid()
      ensures name !in roots ==> r == Ok(None) && cache.Contents() == old(cache.Contents())
      ensures name in roots && roots[name].tag != VALUE_TYPE ==> r == Err(WrongType) && cache.Contents() == old(cache.Contents())
      ensures name in roots && r.Ok? ==> r.value.Some? && r.value.value.0 == roots[name].version
      ensures name in roots && r.Ok? ==> Yielded(checks, Seen(), old(cache.Contents()), name, r.value.value.1)
      ensures disk.faults == old(disk.faults) && r.Err? && name in roots && roots[name].tag == VALUE_TYPE ==>
                LoadWhole(checks, FileOf(disk.snapshot, disk.wal, roots[name].payload.source), roots[name].payload).Err?
      ensures disk.faults != old(disk.faults) ==> r == Err(StorageFault) && name in roots
      ensures name in roots && roots[name].tag == VALUE_TYPE ==>
                Consulted(old(cache.Contents()), cache.limit, name, roots[name].version, r, cache.Contents())
    {
      if name !in roots {
        return Ok(None);
      }
      var record := roots[name];
      if record.tag != VALUE_TYPE {
        return Err(WrongType);
      }
      var cached := cache.Get(name, record.version);
      if cached.Some? {
        return Ok(Some((record.version, cached.value)));
      }
      if name !in roots {
        return Ok(None);
      }
      record := roots[name];
      var bytes :- LoadPayload(record.payload);
      var shared := cache.Put(name, record.version, bytes);
      r := Ok(Some((record.version, shared)));
    }

    /** The current version and payload of a root. */
    method Load(name: Blob) returns (r: Result<Option<(nat, Blob)>>)
      requires Valid()
      modifies cache, disk`faults
      ensures Valid()
      ensures name !in roots ==> r == Ok(None)
      ensures name in roots && roots[name].tag != VALUE_TYPE ==> r == Err(WrongType)
      ensures name in roots && r.Ok? ==> r.value.Some? && r.value.value.0 == roots[name].version
      ensures name in roots && r.Ok? ==> Yielded(checks, Seen(), old(cache.Contents()), name, r.value.value.1)
      ensures forall a | old(Stands(a)) && phase == Ready :: Stands(a) && (r.Ok? ==> r.value == Shown(a.cells, name))
      ensures forall a | old(Stands(a)) && phase == Ready && (name in a.cells ==> a.cells[name].tag == VALUE_TYPE) ::
                r == if disk.faults == old(disk.faults) then Ok(Shown(a.cells, name)) else Err(StorageFault)
    {
      ghost var m, entries := Seen(), cache.Contents();
      r := LoadRoot(name);
      forall a | SafeOn(checks, m, a).Kept? && CacheAgrees(entries, a.cells) && m.phase == Ready
        ensures CacheAgrees(cache.Contents(), a.cells) && (r.Ok? ==> r.value == Shown(a.cells, name))
      {
        LoadKeeps(checks, m, a, entries, cache.limit, name, r, cache.Contents());
      }
      forall a | SafeOn(checks, m, a).Kept? && CacheAgrees(entries, a.cells) && m.phase == Ready
                 && (name in a.cells ==> a.cells[name].tag == VALUE_TYPE)
        ensures r == if disk.faults == old(disk.faults) then Ok(Shown(a.cells, name)) else Err(StorageFault)
      {
        LoadSucceeds(checks, m, a, entries, name, r, disk.faults != old(disk.faults));
      }
    }

    method Close()
      modifies this`closed
      ensures closed
    {
      closed := true;
    }
  }

  // ------------------------------------------------------------------
  // What loads see
  // ------------------------------------------------------------------

  /** The index lists the store's roots with their versions and types. */
  predicate Lists(roots: Index, cells: Cells) {
    && roots.Keys == cells.Keys
    && forall name | name in roots :: roots[name].version == cells[name].version && roots[name].tag == cells[name].tag
  }

  lemma {:induction false} OnFilesLists(fs: Formats, snap: Option<Blob>, wal: Blob, flight: Option<Flight>, roots: Index, cells: Cells, last: nat)
    requires OnFiles(fs, snap, wal, flight, roots, cells, last).Kept?
    ensures Lists(roots, cells)
  {
    var st := StateOn(fs, snap, wal, flight, roots, cells, last);
    var base := BaseOf(wal, flight);
    assert Contents(snap, base, roots) == cells;
    forall name | name in roots
      ensures name in cells && cells[name] == CellOf(snap, base, roots[name])
    {
      assert name in Contents(snap, base, roots);
    }
  }

  /** A lookup in the index, in any phase of a commit or a checkpoint, finds the root's current
      version and type. */
  lemma {:induction false} LookupIsCurrent(fs: Formats, m: Machine, a: Store)
    requires Safe(fs, GroundOf(fs), m, a).Kept? && m.phase != Down
    ensures Lists(m.roots, a.cells)
  {
    match m.phase
    case Renamed(was) => OnFilesLists(fs, was, m.wal, m.flight, m.roots, a.cells, m.lastSequence);
    case Synced(was) => OnFilesLists(fs, was, m.wal, m.flight, m.roots, a.cells, m.lastSequence);
    case Truncated(full) => OnFilesLists(fs, m.snap, full, m.flight, m.roots, a.cells, m.lastSequence);
    case _ => OnFilesLists(fs, m.snap, m.wal, m.flight, m.roots, a.cells, m.lastSequence);
  }

  lemma {:induction false} ReadableLoads(c: Checks, file: Blob, where: Loc)
    requires Readable(c.digest, file, where)
    ensures LoadWhole(c, file, where) == Ok(PayloadAt(file, where))
  {
  }

  /** While no commit and no checkpoint is under way, reading the file at a root's locator yields
      the root's current payload. */
  lemma {:induction false} LockedReadIsCurrent(c: Checks, m: Machine, a: Store, name: Blob)
    requires Safe(FormatsOf(c), GroundOf(FormatsOf(c)), m, a).Kept? && m.phase == Ready && name in m.roots
    ensures name in a.cells
    ensures LoadWhole(c, FileOf(m.snap, m.wal, m.roots[name].payload.source), m.roots[name].payload) == Ok(a.cells[name].payload)
  {
    LockedFile(FormatsOf(c), m.snap, m.wal, m.flight, m.roots, a.cells, m.lastSequence, name);
    ReadableLoads(c, FileOf(m.snap, m.wal, m.roots[name].payload.source), m.roots[name].payload);
  }

  lemma {:induction false} LockedFile(fs: Formats, snap: Option<Blob>, wal: Blob, flight: Option<Flight>, roots: Index, cells: Cells,
                                      last: nat, name: Blob)
    requires OnFiles(fs, snap, wal, flight, roots, cells, last).Kept? && name in roots
    ensures name in cells
    ensures var where := roots[name].payload;
            var file := FileOf(snap, wal, where.source);
            Readable(fs.journal.digest, file, where) && PayloadAt(file, where) == cells[name].payload
  {
    var st := StateOn(fs, snap, wal, flight, roots, cells, last);
    BaseReadable(fs, snap, wal, flight, st, cells, last);
    assert name in Contents(snap, wal, roots);
  }

  // ------------------------------------------------------------------
  // The engine on the real bytes
  // ------------------------------------------------------------------

  /** In every reachable idle state with nothing in flight the index is what recovery computes from
      the journal's and the snapshot's bytes, and it denotes the store. */
  lemma {:induction false} IndexIsRecoveryOnBytes(c: Checks, acts: seq<Action>)
    requires Runs(FormatsOf(c), FRESH, acts)
    requires Ran(FormatsOf(c), FRESH, acts).phase == Ready && Ran(FormatsOf(c), FRESH, acts).flight == None
    ensures var m := Ran(FormatsOf(c), FRESH, acts);
            && RecoverDisk(FormatsOf(c), m.snap, m.wal).Ok?
            && RecoverDisk(FormatsOf(c), m.snap, m.wal).value.0.roots == m.roots
            && Contents(m.snap, m.wal, m.roots) == StoreRan(FormatsOf(c), FRESH, Store(map[], None), acts).cells
  {
    FormatsSound(c);
    IndexIsRecovery(FormatsOf(c), acts);
  }

  /** After every run that ends in a crash, the bytes on the disk reopen to the store. */
  lemma {:induction false} CrashedRunReopensOnBytes(c: Checks, acts: seq<Action>)
    requires Runs(FormatsOf(c), FRESH, acts) && Ran(FormatsOf(c), FRESH, acts).phase == Down
    ensures var m := Ran(FormatsOf(c), FRESH, acts);
            && Enabled(FormatsOf(c), m, Reopens)
            && Contents(m.snap, Reopened(FormatsOf(c), m).wal, Reopened(FormatsOf(c), m).roots)
               == StoreRan(FormatsOf(c), FRESH, Store(map[], None), acts).cells
  {
    FormatsSound(c);
    CrashedRunReopens(FormatsOf(c), acts);
  }
}
