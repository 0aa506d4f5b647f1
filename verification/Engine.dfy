/** The durable engine as a step machine over its files, its memory and crashes.

The files are as the operating system shows them. What a crash may leave of changes
that were not yet flushed depends on the phase. The machine refines an abstract store:
a map from names to cells, and at most one transaction whose fate is open.
 */
module Engine {
  import opened Bytes
  import opened Records
  import opened Scanning
  import opened Recovery
  import opened Commits
  import opened Storage
  import opened Standing

  /** Where the process is. `Renamed`, `Truncated` and `Trimming` keep what an unflushed
      change replaced, since a crash may bring it back; `Synced` keeps the file that the locators
      in memory still describe. */
  datatype Phase =
    | Down
    | Ready
    | Appending
    | Writing
    | Flushed
    | Renamed(was: Option<Blob>)
    | Synced(was: Option<Blob>)
    | Published
    | Truncated(full: Blob)
    | Trimming(full: Blob)

  datatype Machine = Machine(
    snap: Option<Blob>, temp: Blob, wal: Blob,
    phase: Phase,
    roots: Index, lastSequence: nat, poisoned: bool,
    flight: Option<Flight>)

  datatype Action =
    | CommitAppends(tx: nat, updates: seq<RootUpdate>)
    | CommitReturns
    | AppendFails(tx: nat, updates: seq<RootUpdate>, written: nat)
    | FlushFails
    | CheckpointStarts
    | TempWritten(bytes: Blob)
    | TempFlushed
    | SaveFails
    | Renames
    | DirectorySyncs
    | RootsPublish
    | WalTruncates
    | ResetFails
    | WalFlushes
    | Crashes(snapAfter: Option<Blob>, walAfter: Blob)
    | Reopens
    | TrimFlushes

  // ------------------------------------------------------------------
  // The steps
  // ------------------------------------------------------------------

  function FlightOf(m: Machine, tx: nat, updates: seq<RootUpdate>): Flight {
    Flight(tx, updates, m.lastSequence + 1, |m.wal|)
  }

  /** The open transactions in the journal, as recovery would see them. */
  function OpenIn(fs: Formats, m: Machine): Open {
    match RecoverDisk(fs, m.snap, m.wal)
    case Ok((st, _)) => st.pending
    case Err(_) => map[]
  }

  /** What a commit needs: versions are current, fields are in range, and no update was left
      open in the journal under this transaction's id. */
  ghost predicate MayCommit(fs: Formats, m: Machine, tx: nat, updates: seq<RootUpdate>) {
    && m.phase == Ready && !m.poisoned && m.flight == None && updates != []
    && Fitting(fs.journal, tx, updates, m.lastSequence + 1).Kept?
    && PendingOf(OpenIn(fs, m), tx).updates == []
    && UpdatesCurrent(m.roots, updates)
  }

  /** The file after a crash, when the bytes of the transaction in flight may not all be there. */
  predicate Survives(wal: Blob, flight: Option<Flight>, after: Blob) {
    if flight.None? then after == wal
    else flight.value.at <= |after| <= |wal| && after == wal[..|after|]
  }

  predicate WalMayBe(m: Machine, after: Blob) {
    match m.phase
    case Truncated(full) => after == [] || Survives(full, m.flight, after)
    case Trimming(full) => after == m.wal || after == full
    case _ => Survives(m.wal, m.flight, after)
  }

  predicate SnapMayBe(m: Machine, after: Option<Blob>) {
    after == m.snap || (m.phase.Renamed? && after == m.phase.was)
  }

  ghost predicate Enabled(fs: Formats, m: Machine, act: Action) {
    match act
    case CommitAppends(tx, updates) => MayCommit(fs, m, tx, updates)
    case CommitReturns => m.phase == Appending
    case AppendFails(tx, updates, written) =>
      MayCommit(fs, m, tx, updates) && written <= |BatchOf(fs.journal, FlightOf(m, tx, updates))|
    case FlushFails => m.phase == Appending
    case CheckpointStarts => m.phase == Ready && fs.snapshot.fits(m.roots, m.lastSequence)
    case TempWritten(_) => m.phase == Writing
    case TempFlushed => m.phase == Writing && m.temp == ImageOf(fs, m.snap, m.wal, m.roots, m.lastSequence)
    case SaveFails => m.phase == Writing || m.phase == Flushed
    case Renames => m.phase == Flushed
    case DirectorySyncs => m.phase.Renamed?
    case RootsPublish => m.phase.Synced?
    case WalTruncates => m.phase == Published
    case ResetFails => m.phase == Published
    case WalFlushes => m.phase.Truncated?
    case Crashes(snapAfter, walAfter) => m.phase != Down && SnapMayBe(m, snapAfter) && WalMayBe(m, walAfter)
    case Reopens => m.phase == Down && RecoverDisk(fs, m.snap, m.wal).Ok?
    case TrimFlushes => m.phase.Trimming?
  }

  function InFlight(fs: Formats, m: Machine, tx: nat, updates: seq<RootUpdate>, written: nat): Machine {
    var fl := FlightOf(m, tx, updates);
    var bytes := BatchOf(fs.journal, fl);
    m.(wal := m.wal + (if written <= |bytes| then bytes[..written] else bytes), lastSequence := LastOf(fl), flight := Some(fl))
  }

  function Reopened(fs: Formats, m: Machine): Machine {
    match RecoverDisk(fs, m.snap, m.wal)
    case Ok((st, end)) =>
      Machine(m.snap, m.temp, m.wal[..end], if end == |m.wal| then Ready else Trimming(m.wal),
              st.roots, st.lastSequence, false, None)
    case Err(_) => m
  }

  function After(fs: Formats, m: Machine, act: Action): Machine {
    match act
    case CommitAppends(tx, updates) =>
      InFlight(fs, m, tx, updates, |BatchOf(fs.journal, FlightOf(m, tx, updates))|).(phase := Appending)
    case CommitReturns =>
      if m.flight.None? then m
      else m.(phase := Ready, roots := Publish(m.roots, LocatedOf(fs.journal, m.flight.value)), flight := None)
    case AppendFails(tx, updates, written) => InFlight(fs, m, tx, updates, written).(poisoned := true)
    case FlushFails => m.(phase := Ready, poisoned := true)
    case CheckpointStarts => m.(phase := Writing)
    case TempWritten(bytes) => m.(temp := bytes)
    case TempFlushed => m.(phase := Flushed)
    case SaveFails => m.(phase := Ready)
    case Renames => m.(phase := Renamed(m.snap), snap := Some(m.temp))
    case DirectorySyncs => if m.phase.Renamed? then m.(phase := Synced(m.phase.was)) else m
    case RootsPublish => m.(phase := Published, roots := fs.snapshot.placed(m.roots))
    case WalTruncates => m.(phase := Truncated(m.wal), wal := [])
    case ResetFails => m.(phase := Ready)
    case WalFlushes => m.(phase := Ready, flight := None)
    case Crashes(snapAfter, walAfter) => Machine(snapAfter, m.temp, walAfter, Down, map[], 0, false, None)
    case Reopens => Reopened(fs, m)
    case TrimFlushes => m.(phase := Ready)
  }

  // ------------------------------------------------------------------
  // The abstract store
  // ------------------------------------------------------------------

  /** The cells, and the updates of a transaction that may or may not have happened. */
  datatype Store = Store(cells: Cells, open: Option<seq<RootUpdate>>)

  function UpdatesOf(flight: Option<Flight>): Option<seq<RootUpdate>> {
    if flight.Some? then Some(flight.value.updates) else None
  }

  /** What each step may do to the store. Cells change only when a commit returns, or when a
      crash settles a transaction in flight, and then by all of its updates. */
  predicate Allowed(a: Store, act: Action, a': Store) {
    match act
    case CommitAppends(_, updates) => a.open == None && a' == Store(a.cells, Some(updates))
    case AppendFails(_, updates, _) => a.open == None && a' == Store(a.cells, Some(updates))
    case CommitReturns => a.open.Some? && a' == Store(ApplyCells(a.cells, a.open.value), None)
    case Crashes(_, _) =>
      if a.open == None then a' == a
      else a' == Store(a.cells, None) || a' == Store(ApplyCells(a.cells, a.open.value), None)
    case WalFlushes => a' == Store(a.cells, None)
    case _ => a' == a
  }

  // ------------------------------------------------------------------
  // The invariant
  // ------------------------------------------------------------------

  /** The files stand for the store's cells, and recovery would compute this very index. */
  ghost function OnFiles(fs: Formats, snap: Option<Blob>, wal: Blob, flight: Option<Flight>, roots: Index, cells: Cells, last: nat): Law {
    if exists st: Replayed {:trigger Stands(fs, snap, wal, flight, st, cells, last)} ::
         st.roots == roots && Stands(fs, snap, wal, flight, st, cells, last).Kept?
    then Kept else Broken
  }

  /** The state recovery computes from the base of the journal. */
  lemma {:induction false} StateOn(fs: Formats, snap: Option<Blob>, wal: Blob, flight: Option<Flight>, roots: Index, cells: Cells, last: nat)
    returns (st: Replayed)
    requires OnFiles(fs, snap, wal, flight, roots, cells, last).Kept?
    ensures st.roots == roots && Stands(fs, snap, wal, flight, st, cells, last).Kept?
  {
    st :| st.roots == roots && Stands(fs, snap, wal, flight, st, cells, last).Kept?;
  }

  /** What standing on files means, kept abstract where only the order of steps matters. */
  datatype Ground = Ground(
    on: (Option<Blob>, Blob, Option<Flight>, Index, Cells, nat) -> Law,
    recovers: (Option<Blob>, Blob, Cells) -> Law)

  ghost function GroundOf(fs: Formats): Ground {
    Ground((snap: Option<Blob>, wal: Blob, flight: Option<Flight>, roots: Index, cells: Cells, last: nat) =>
             OnFiles(fs, snap, wal, flight, roots, cells, last),
           (snap: Option<Blob>, wal: Blob, cells: Cells) => Recoverable(fs, snap, wal, cells))
  }

  /** With the image installed the files stand for the same cells, journal or no journal. */
  predicate Installed(g: Ground, m: Machine, wal: Blob, placed: Index, cells: Cells) {
    && g.on(m.snap, wal, m.flight, placed, cells, m.lastSequence).Kept?
    && g.on(m.snap, [], None, placed, cells, m.lastSequence).Kept?
  }

  /** The machine stands on its own files and index. */
  predicate OnOwn(g: Ground, m: Machine, cells: Cells) {
    g.on(m.snap, m.wal, m.flight, m.roots, cells, m.lastSequence).Kept?
  }

  predicate Inv(fs: Formats, g: Ground, m: Machine, a: Store) {
    && a.open == UpdatesOf(m.flight)
    && (m.flight.Some? ==> m.poisoned || m.phase == Appending)
    && match m.phase
       case Down => m.flight == None && g.recovers(m.snap, m.wal, a.cells).Kept?
       case Ready => OnOwn(g, m, a.cells)
       case Appending =>
         && OnOwn(g, m, a.cells) && m.flight.Some?
         && |m.wal| == m.flight.value.at + |BatchOf(fs.journal, m.flight.value)|
       case Writing => OnOwn(g, m, a.cells) && fs.snapshot.fits(m.roots, m.lastSequence)
       case Flushed =>
         && OnOwn(g, m, a.cells) && fs.snapshot.fits(m.roots, m.lastSequence)
         && m.temp == ImageOf(fs, m.snap, m.wal, m.roots, m.lastSequence)
       case Renamed(was) =>
         && g.on(was, m.wal, m.flight, m.roots, a.cells, m.lastSequence).Kept?
         && Installed(g, m, m.wal, fs.snapshot.placed(m.roots), a.cells)
       case Synced(was) =>
         && g.on(was, m.wal, m.flight, m.roots, a.cells, m.lastSequence).Kept?
         && Installed(g, m, m.wal, fs.snapshot.placed(m.roots), a.cells)
       case Published => Installed(g, m, m.wal, m.roots, a.cells)
       case Truncated(full) => m.wal == [] && Installed(g, m, full, m.roots, a.cells)
       case Trimming(full) => m.flight == None && OnOwn(g, m, a.cells) && g.recovers(m.snap, full, a.cells).Kept?
  }

  function Safe(fs: Formats, g: Ground, m: Machine, a: Store): Law {
    if Inv(fs, g, m, a) then Kept else Broken
  }

  // ------------------------------------------------------------------
  // What the steps do to files the engine stands on
  // ------------------------------------------------------------------

  lemma {:induction false} Footing(fs: Formats, snap: Option<Blob>, wal: Blob, flight: Option<Flight>, st: Replayed, cells: Cells, last: nat)
    requires Stands(fs, snap, wal, flight, st, cells, last).Kept?
    ensures OnFiles(fs, snap, wal, flight, st.roots, cells, last).Kept?
  {
  }

  lemma {:induction false} FlightCurrent(f: Format, roots: Index, fl: Flight)
    requires Lawful(f).Kept? && Fitting(f, fl.tx, fl.updates, fl.first).Kept? && UpdatesCurrent(roots, fl.updates)
    ensures Current(roots, LocatedOf(f, fl))
  {
    FittingOpens(f, fl.tx, fl.updates, fl.first);
    LocatedCurrent(f, roots, fl.tx, fl.updates, fl.first + 1, fl.at + |f.frame(BeginRecord(fl.tx, fl.first))|);
  }

  /** A commit puts its transaction in flight. */
  lemma {:induction false} CommitStarts(fs: Formats, snap: Option<Blob>, wal: Blob, roots: Index, cells: Cells, last: nat, fl: Flight, written: nat)
    requires Sound(fs).Kept? && OnFiles(fs, snap, wal, None, roots, cells, last).Kept?
    requires fl.first == last + 1 && fl.at == |wal| && written <= |BatchOf(fs.journal, fl)|
    requires Fitting(fs.journal, fl.tx, fl.updates, fl.first).Kept? && UpdatesCurrent(roots, fl.updates)
    requires RecoverDisk(fs, snap, wal).Ok? ==> PendingOf(RecoverDisk(fs, snap, wal).value.0.pending, fl.tx).updates == []
    ensures OnFiles(fs, snap, wal + BatchOf(fs.journal, fl)[..written], Some(fl), roots, cells, LastOf(fl)).Kept?
  {
    var st := StateOn(fs, snap, wal, None, roots, cells, last);
    FlightCurrent(fs.journal, roots, fl);
    FlightStarts(fs, snap, wal, st, cells, last, fl, written);
    Footing(fs, snap, wal + BatchOf(fs.journal, fl)[..written], Some(fl), st, cells, LastOf(fl));
  }

  /** When the whole transaction is on the file, publishing it applies its updates. */
  lemma {:induction false} CommitEnds(fs: Formats, snap: Option<Blob>, wal: Blob, roots: Index, cells: Cells, last: nat, fl: Flight)
    requires Sound(fs).Kept? && OnFiles(fs, snap, wal, Some(fl), roots, cells, last).Kept?
    requires |wal| == fl.at + |BatchOf(fs.journal, fl)|
    ensures OnFiles(fs, snap, wal, None, Publish(roots, LocatedOf(fs.journal, fl)), ApplyCells(cells, fl.updates), last).Kept?
  {
    var st := StateOn(fs, snap, wal, Some(fl), roots, cells, last);
    var st' := FlightLands(fs, snap, wal, fl, st, cells, last);
    Footing(fs, snap, wal, None, st', ApplyCells(cells, fl.updates), last);
  }

  /** The installed image stands for the same cells, over the journal and without it. */
  lemma {:induction false} ImageInstalls(fs: Formats, snap: Option<Blob>, wal: Blob, flight: Option<Flight>, roots: Index, cells: Cells, last: nat)
    requires Sound(fs).Kept? && OnFiles(fs, snap, wal, flight, roots, cells, last).Kept? && fs.snapshot.fits(roots, last)
    ensures var image := Some(ImageOf(fs, snap, wal, roots, last));
            && OnFiles(fs, image, wal, flight, fs.snapshot.placed(roots), cells, last).Kept?
            && OnFiles(fs, image, [], None, fs.snapshot.placed(roots), cells, last).Kept?
  {
    var st := StateOn(fs, snap, wal, flight, roots, cells, last);
    var image, placed := Some(ImageOf(fs, snap, wal, roots, last)), fs.snapshot.placed(roots);
    CheckpointStands(fs, snap, wal, flight, st, cells, last);
    Footing(fs, image, wal, flight, Rebased(st, placed, last), cells, last);
    ImageStands(fs, snap, wal, flight, st, cells, last);
    Footing(fs, image, [], None, Start(placed, last), cells, last);
  }

  /** The cells that a crash leaves on the disk. */
  function SettledCells(fs: Formats, wal: Blob, flight: Option<Flight>, cells: Cells): Cells {
    if flight.Some? && |wal| == flight.value.at + |BatchOf(fs.journal, flight.value)|
    then ApplyCells(cells, flight.value.updates) else cells
  }

  /** Whatever survives of the journal, recovery settles the transaction in flight one way or the other. */
  lemma {:induction false} Settles(fs: Formats, snap: Option<Blob>, wal: Blob, flight: Option<Flight>, roots: Index, cells: Cells, last: nat, after: Blob)
    requires Sound(fs).Kept? && OnFiles(fs, snap, wal, flight, roots, cells, last).Kept? && Survives(wal, flight, after)
    ensures Recoverable(fs, snap, after, SettledCells(fs, after, flight, cells)).Kept?
  {
    var st := StateOn(fs, snap, wal, flight, roots, cells, last);
    if flight.None? {
      StandingRecovers(fs, snap, wal, st, cells, last);
    } else {
      FlightCut(fs, snap, wal, flight.value, st, cells, last, |after|);
      FlightResolves(fs, snap, after, flight.value, st, cells, last);
    }
  }

  /** Reopening stands on the cut journal. */
  lemma {:induction false} ReopenFooting(fs: Formats, snap: Option<Blob>, wal: Blob, cells: Cells)
    requires Sound(fs).Kept? && Recoverable(fs, snap, wal, cells).Kept?
    ensures RecoverDisk(fs, snap, wal).Ok?
    ensures var (st, end) := RecoverDisk(fs, snap, wal).value;
            OnFiles(fs, snap, wal[..end], None, st.roots, cells, st.lastSequence).Kept?
  {
    ReopenStands(fs, snap, wal, cells);
    var (st, end) := RecoverDisk(fs, snap, wal).value;
    Footing(fs, snap, wal[..end], None, st, cells, st.lastSequence);
  }

  // ------------------------------------------------------------------
  // Every step keeps the invariant
  // ------------------------------------------------------------------

  /** The store after a crash. */
  function SettledStore(fs: Formats, m: Machine, a: Store, walAfter: Blob): Store {
    Store(if m.phase.Truncated? && walAfter == [] then a.cells
          else SettledCells(fs, walAfter, m.flight, a.cells), None)
  }

  /** The store after a step. */
  function StoreAfter(fs: Formats, m: Machine, a: Store, act: Action): Store {
    match act
    case CommitAppends(_, updates) => Store(a.cells, Some(updates))
    case AppendFails(_, updates, _) => Store(a.cells, Some(updates))
    case CommitReturns => if a.open.Some? then Store(ApplyCells(a.cells, a.open.value), None) else a
    case Crashes(_, walAfter) => SettledStore(fs, m, a, walAfter)
    case WalFlushes => Store(a.cells, None)
    case _ => a
  }

  // The order of the steps, whatever standing on files means.

  lemma {:induction false} CommitOrder(fs: Formats, g: Ground, m: Machine, a: Store, tx: nat, updates: seq<RootUpdate>, written: nat)
    requires Safe(fs, g, m, a).Kept? && m.phase == Ready && m.flight == None
    requires written <= |BatchOf(fs.journal, FlightOf(m, tx, updates))|
    requires OnOwn(g, InFlight(fs, m, tx, updates, written), a.cells)
    ensures Safe(fs, g, After(fs, m, AppendFails(tx, updates, written)), Store(a.cells, Some(updates))).Kept?
    ensures written == |BatchOf(fs.journal, FlightOf(m, tx, updates))| ==>
              Safe(fs, g, After(fs, m, CommitAppends(tx, updates)), Store(a.cells, Some(updates))).Kept?
    ensures a.open == None
  {
    ConcatParts(m.wal, BatchOf(fs.journal, FlightOf(m, tx, updates)));
    var bytes := BatchOf(fs.journal, FlightOf(m, tx, updates));
    assert bytes[..|bytes|] == bytes;
  }

  lemma {:induction false} ReturnOrder(fs: Formats, g: Ground, m: Machine, a: Store)
    requires Safe(fs, g, m, a).Kept? && m.phase == Appending
    requires m.flight.Some? && OnOwn(g, After(fs, m, CommitReturns), ApplyCells(a.cells, m.flight.value.updates))
    ensures a.open.Some? && Safe(fs, g, After(fs, m, CommitReturns), Store(ApplyCells(a.cells, a.open.value), None)).Kept?
  {
  }

  lemma {:induction false} RenameOrder(fs: Formats, g: Ground, m: Machine, a: Store)
    requires Safe(fs, g, m, a).Kept? && m.phase == Flushed
    requires Installed(g, After(fs, m, Renames), m.wal, fs.snapshot.placed(m.roots), a.cells)
    ensures Safe(fs, g, After(fs, m, Renames), a).Kept?
  {
  }

  lemma {:induction false} ReopenOrder(fs: Formats, g: Ground, m: Machine, a: Store, st: Replayed, end: nat)
    requires Safe(fs, g, m, a).Kept? && m.phase == Down && m.flight == None
    requires RecoverDisk(fs, m.snap, m.wal) == Ok((st, end)) && end <= |m.wal|
    requires g.on(m.snap, m.wal[..end], None, st.roots, a.cells, st.lastSequence).Kept?
    ensures Safe(fs, g, Reopened(fs, m), a).Kept?
  {
  }

  /** Steps of a checkpoint that only move it on. */
  lemma {:induction false} SaveOrder(fs: Formats, g: Ground, m: Machine, a: Store, act: Action)
    requires Safe(fs, g, m, a).Kept? && Enabled(fs, m, act)
    requires act.CheckpointStarts? || act.TempWritten? || act.TempFlushed? || act.SaveFails?
    ensures Safe(fs, g, After(fs, m, act), a).Kept?
  {
  }

  lemma {:induction false} InstallOrder(fs: Formats, g: Ground, m: Machine, a: Store, act: Action)
    requires Safe(fs, g, m, a).Kept? && Enabled(fs, m, act)
    requires act.DirectorySyncs? || act.RootsPublish? || act.WalTruncates? || act.ResetFails?
    ensures Safe(fs, g, After(fs, m, act), a).Kept?
  {
  }

  lemma {:induction false} FlushOrder(fs: Formats, g: Ground, m: Machine, a: Store)
    requires Safe(fs, g, m, a).Kept?
    ensures m.phase.Truncated? ==> Safe(fs, g, After(fs, m, WalFlushes), Store(a.cells, None)).Kept?
    ensures m.phase.Trimming? ==> Safe(fs, g, After(fs, m, TrimFlushes), a).Kept?
    ensures m.phase == Appending ==> Safe(fs, g, After(fs, m, FlushFails), a).Kept?
  {
  }

  // The same steps, on real files.

  lemma {:induction false} CommitSafe(fs: Formats, m: Machine, a: Store, tx: nat, updates: seq<RootUpdate>, written: nat)
    requires Sound(fs).Kept? && Safe(fs, GroundOf(fs), m, a).Kept? && MayCommit(fs, m, tx, updates)
    requires written <= |BatchOf(fs.journal, FlightOf(m, tx, updates))|
    ensures OnOwn(GroundOf(fs), InFlight(fs, m, tx, updates, written), a.cells)
  {
    CommitStarts(fs, m.snap, m.wal, m.roots, a.cells, m.lastSequence, FlightOf(m, tx, updates), written);
  }

  lemma {:induction false} ReturnSafe(fs: Formats, m: Machine, a: Store)
    requires Sound(fs).Kept? && Safe(fs, GroundOf(fs), m, a).Kept? && m.phase == Appending
    ensures m.flight.Some? && OnOwn(GroundOf(fs), After(fs, m, CommitReturns), ApplyCells(a.cells, m.flight.value.updates))
  {
    CommitEnds(fs, m.snap, m.wal, m.roots, a.cells, m.lastSequence, m.flight.value);
  }

  lemma {:induction false} RenameSafe(fs: Formats, m: Machine, a: Store)
    requires Sound(fs).Kept? && Safe(fs, GroundOf(fs), m, a).Kept? && m.phase == Flushed
    ensures Installed(GroundOf(fs), After(fs, m, Renames), m.wal, fs.snapshot.placed(m.roots), a.cells)
  {
    ImageInstalls(fs, m.snap, m.wal, m.flight, m.roots, a.cells, m.lastSequence);
  }

  /** Between the rename and the directory sync either snapshot may survive. */
  lemma {:induction false} CrashRenamed(fs: Formats, m: Machine, a: Store, was: Option<Blob>, snapAfter: Option<Blob>, walAfter: Blob)
    requires Sound(fs).Kept? && Safe(fs, GroundOf(fs), m, a).Kept? && m.phase == Renamed(was)
    requires (snapAfter == m.snap || snapAfter == was) && Survives(m.wal, m.flight, walAfter)
    ensures Recoverable(fs, snapAfter, walAfter, SettledCells(fs, walAfter, m.flight, a.cells)).Kept?
  {
    if snapAfter == m.snap {
      Settles(fs, m.snap, m.wal, m.flight, fs.snapshot.placed(m.roots), a.cells, m.lastSequence, walAfter);
    } else {
      Settles(fs, was, m.wal, m.flight, m.roots, a.cells, m.lastSequence, walAfter);
    }
  }

  /** Between the truncation and its flush the journal may survive whole or be gone. */
  lemma {:induction false} CrashTruncated(fs: Formats, m: Machine, a: Store, full: Blob, walAfter: Blob)
    requires Sound(fs).Kept? && Safe(fs, GroundOf(fs), m, a).Kept? && m.phase == Truncated(full)
    requires walAfter == [] || Survives(full, m.flight, walAfter)
    ensures Recoverable(fs, m.snap, walAfter, SettledStore(fs, m, a, walAfter).cells).Kept?
  {
    if walAfter == [] {
      Settles(fs, m.snap, [], None, m.roots, a.cells, m.lastSequence, []);
    } else {
      Settles(fs, m.snap, full, m.flight, m.roots, a.cells, m.lastSequence, walAfter);
    }
  }

  /** While the torn tail is being cut it may survive or be gone. */
  lemma {:induction false} CrashTrimming(fs: Formats, m: Machine, a: Store, full: Blob, walAfter: Blob)
    requires Sound(fs).Kept? && Safe(fs, GroundOf(fs), m, a).Kept? && m.phase == Trimming(full)
    requires walAfter == m.wal || walAfter == full
    ensures Recoverable(fs, m.snap, walAfter, a.cells).Kept?
  {
    if walAfter == m.wal {
      Settles(fs, m.snap, m.wal, None, m.roots, a.cells, m.lastSequence, walAfter);
    }
  }

  /** In the other phases the machine stands on its own files, the image installed or not. */
  lemma {:induction false} CrashElsewhere(fs: Formats, m: Machine, a: Store, walAfter: Blob)
    requires Sound(fs).Kept? && Safe(fs, GroundOf(fs), m, a).Kept?
    requires !m.phase.Down? && !m.phase.Renamed? && !m.phase.Truncated? && !m.phase.Trimming?
    requires Survives(m.wal, m.flight, walAfter)
    ensures Recoverable(fs, m.snap, walAfter, SettledCells(fs, walAfter, m.flight, a.cells)).Kept?
  {
    var roots := if m.phase.Synced? then fs.snapshot.placed(m.roots) else m.roots;
    Settles(fs, m.snap, m.wal, m.flight, roots, a.cells, m.lastSequence, walAfter);
  }

  /** A crash in any phase, with any outcome of what was not flushed, leaves files that recover
      to the store, a transaction in flight settled. */
  lemma {:induction false} CrashRecovers(fs: Formats, m: Machine, a: Store, snapAfter: Option<Blob>, walAfter: Blob)
    requires Sound(fs).Kept? && Safe(fs, GroundOf(fs), m, a).Kept? && Enabled(fs, m, Crashes(snapAfter, walAfter))
    ensures Recoverable(fs, snapAfter, walAfter, SettledStore(fs, m, a, walAfter).cells).Kept?
  {
    match m.phase
    case Renamed(was) => CrashRenamed(fs, m, a, was, snapAfter, walAfter);
    case Truncated(full) => CrashTruncated(fs, m, a, full, walAfter);
    case Trimming(full) => CrashTrimming(fs, m, a, full, walAfter);
    case _ => CrashElsewhere(fs, m, a, walAfter);
  }

  /** With no transaction in flight, a crash in any phase of a checkpoint, whichever snapshot and
      whichever journal survive, recovers the same versions, types and payloads. */
  lemma {:induction false} CheckpointCrashKeeps(fs: Formats, m: Machine, a: Store, snapAfter: Option<Blob>, walAfter: Blob)
    requires Sound(fs).Kept? && Safe(fs, GroundOf(fs), m, a).Kept? && m.flight == None
    requires Enabled(fs, m, Crashes(snapAfter, walAfter))
    ensures RecoverDisk(fs, snapAfter, walAfter).Ok?
    ensures var (st, end) := RecoverDisk(fs, snapAfter, walAfter).value;
            Contents(snapAfter, walAfter[..end], st.roots) == a.cells
  {
    CrashRecovers(fs, m, a, snapAfter, walAfter);
    ReopenHolds(fs, snapAfter, walAfter, a.cells);
  }

  lemma {:induction false} CrashOrder(fs: Formats, g: Ground, m: Machine, a: Store, snapAfter: Option<Blob>, walAfter: Blob)
    requires Safe(fs, g, m, a).Kept? && Enabled(fs, m, Crashes(snapAfter, walAfter))
    requires g.recovers(snapAfter, walAfter, SettledStore(fs, m, a, walAfter).cells).Kept?
    ensures Safe(fs, g, After(fs, m, Crashes(snapAfter, walAfter)), SettledStore(fs, m, a, walAfter)).Kept?
    ensures Allowed(a, Crashes(snapAfter, walAfter), SettledStore(fs, m, a, walAfter))
  {
  }

  lemma {:induction false} ReopenSafe(fs: Formats, m: Machine, a: Store)
    requires Sound(fs).Kept? && Safe(fs, GroundOf(fs), m, a).Kept? && Enabled(fs, m, Reopens)
    ensures Safe(fs, GroundOf(fs), Reopened(fs, m), a).Kept?
  {
    ReopenFooting(fs, m.snap, m.wal, a.cells);
    var (st, end) := RecoverDisk(fs, m.snap, m.wal).value;
    ReopenOrder(fs, GroundOf(fs), m, a, st, end);
  }

  /** Every step of the engine keeps the invariant and does to the store only what is allowed. */
  lemma {:induction false} StepRefines(fs: Formats, m: Machine, a: Store, act: Action)
    requires Sound(fs).Kept? && Safe(fs, GroundOf(fs), m, a).Kept? && Enabled(fs, m, act)
    ensures Safe(fs, GroundOf(fs), After(fs, m, act), StoreAfter(fs, m, a, act)).Kept?
    ensures Allowed(a, act, StoreAfter(fs, m, a, act))
  {
    var g := GroundOf(fs);
    match act
    case CommitAppends(tx, updates) =>
      var all := |BatchOf(fs.journal, FlightOf(m, tx, updates))|;
      CommitSafe(fs, m, a, tx, updates, all);
      CommitOrder(fs, g, m, a, tx, updates, all);
    case AppendFails(tx, updates, written) =>
      CommitSafe(fs, m, a, tx, updates, written);
      CommitOrder(fs, g, m, a, tx, updates, written);
    case CommitReturns =>
      ReturnSafe(fs, m, a);
      ReturnOrder(fs, g, m, a);
    case Renames =>
      RenameSafe(fs, m, a);
      RenameOrder(fs, g, m, a);
    case Crashes(snapAfter, walAfter) =>
      CrashRecovers(fs, m, a, snapAfter, walAfter);
      CrashOrder(fs, g, m, a, snapAfter, walAfter);
    case Reopens => ReopenSafe(fs, m, a);
    case WalFlushes => FlushOrder(fs, g, m, a);
    case TrimFlushes => FlushOrder(fs, g, m, a);
    case FlushFails => FlushOrder(fs, g, m, a);
    case CheckpointStarts => SaveOrder(fs, g, m, a, act);
    case TempWritten(_) => SaveOrder(fs, g, m, a, act);
    case TempFlushed => SaveOrder(fs, g, m, a, act);
    case SaveFails => SaveOrder(fs, g, m, a, act);
    case _ => InstallOrder(fs, g, m, a, act);
  }

  // ------------------------------------------------------------------
  // Whole runs
  // ------------------------------------------------------------------

  /** A heap directory before it is first opened. */
  const FRESH := Machine(None, [], [], Down, map[], 0, false, None)

  ghost predicate Runs(fs: Formats, m: Machine, acts: seq<Action>)
    decreases |acts|
  {
    acts == [] || (Enabled(fs, m, acts[0]) && Runs(fs, After(fs, m, acts[0]), acts[1..]))
  }

  function Ran(fs: Formats, m: Machine, acts: seq<Action>): Machine
    decreases |acts|
  {
    if acts == [] then m else Ran(fs, After(fs, m, acts[0]), acts[1..])
  }

  function StoreRan(fs: Formats, m: Machine, a: Store, acts: seq<Action>): Store
    decreases |acts|
  {
    if acts == [] then a else StoreRan(fs, After(fs, m, acts[0]), StoreAfter(fs, m, a, acts[0]), acts[1..])
  }

  lemma {:induction false} FreshSafe(fs: Formats)
    requires Sound(fs).Kept?
    ensures Safe(fs, GroundOf(fs), FRESH, Store(map[], None)).Kept?
  {
    EmptyJournal(fs.journal, map[], 0);
  }

  lemma {:induction false} RunSafe(fs: Formats, m: Machine, a: Store, acts: seq<Action>)
    requires Sound(fs).Kept? && Safe(fs, GroundOf(fs), m, a).Kept? && Runs(fs, m, acts)
    ensures Safe(fs, GroundOf(fs), Ran(fs, m, acts), StoreRan(fs, m, a, acts)).Kept?
    decreases |acts|
  {
    if acts != [] {
      StepRefines(fs, m, a, acts[0]);
      RunSafe(fs, After(fs, m, acts[0]), StoreAfter(fs, m, a, acts[0]), acts[1..]);
    }
  }

  /** In every reachable state that is idle and has nothing in flight, the index in memory is,
      versions and locators included, what recovery computes from the files, and it denotes the
      store that the run's commits and crashes define. */
  lemma {:induction false} IndexIsRecovery(fs: Formats, acts: seq<Action>)
    requires Sound(fs).Kept? && Runs(fs, FRESH, acts)
    ensures var m := Ran(fs, FRESH, acts);
            var a := StoreRan(fs, FRESH, Store(map[], None), acts);
            m.phase == Ready && m.flight == None ==>
              && RecoverDisk(fs, m.snap, m.wal).Ok?
              && RecoverDisk(fs, m.snap, m.wal).value.1 == |m.wal|
              && RecoverDisk(fs, m.snap, m.wal).value.0.roots == m.roots
              && RecoverDisk(fs, m.snap, m.wal).value.0.lastSequence == m.lastSequence
              && AllReadable(fs.journal.digest, m.snap, m.wal, m.roots)
              && Contents(m.snap, m.wal, m.roots) == a.cells
  {
    FreshSafe(fs);
    RunSafe(fs, FRESH, Store(map[], None), acts);
    var m := Ran(fs, FRESH, acts);
    var a := StoreRan(fs, FRESH, Store(map[], None), acts);
    if m.phase == Ready && m.flight == None {
      var st := StateOn(fs, m.snap, m.wal, None, m.roots, a.cells, m.lastSequence);
    }
  }

  lemma {:induction false} DownReopens(fs: Formats, m: Machine, a: Store)
    requires Sound(fs).Kept? && Safe(fs, GroundOf(fs), m, a).Kept? && m.phase == Down
    ensures Enabled(fs, m, Reopens) && a.open == None
    ensures Contents(m.snap, Reopened(fs, m).wal, Reopened(fs, m).roots) == a.cells
  {
    ReopenHolds(fs, m.snap, m.wal, a.cells);
  }

  lemma {:induction false} ReopenHolds(fs: Formats, snap: Option<Blob>, wal: Blob, cells: Cells)
    requires Recoverable(fs, snap, wal, cells).Kept?
    ensures RecoverDisk(fs, snap, wal).Ok?
    ensures var (st, end) := RecoverDisk(fs, snap, wal).value;
            Contents(snap, wal[..end], st.roots) == cells
  {
  }

  /** After every run that ends in a crash the files can be reopened, and hold the store. */
  lemma {:induction false} CrashedRunReopens(fs: Formats, acts: seq<Action>)
    requires Sound(fs).Kept? && Runs(fs, FRESH, acts) && Ran(fs, FRESH, acts).phase == Down
    ensures var m := Ran(fs, FRESH, acts);
            var a := StoreRan(fs, FRESH, Store(map[], None), acts);
            && Enabled(fs, m, Reopens) && a.open == None
            && Contents(m.snap, Reopened(fs, m).wal, Reopened(fs, m).roots) == a.cells
  {
    FreshSafe(fs);
    RunSafe(fs, FRESH, Store(map[], None), acts);
    DownReopens(fs, Ran(fs, FRESH, acts), StoreRan(fs, FRESH, Store(map[], None), acts));
  }
}
