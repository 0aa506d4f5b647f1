/** What files and an in-memory index must satisfy for the engine to stand on them. */
module Standing {
  import opened Bytes
  import opened Records
  import opened Scanning
  import opened Recovery
  import opened Commits
  import opened Replay
  import opened Storage

  /** A transaction whose bytes, whole or cut, end the journal but are not yet acknowledged. */
  datatype Flight = Flight(tx: nat, updates: seq<RootUpdate>, first: nat, at: nat)

  function BaseOf(wal: Blob, flight: Option<Flight>): Blob {
    if flight.Some? && flight.value.at <= |wal| then wal[..flight.value.at] else wal
  }

  function LastOf(fl: Flight): nat {
    fl.first + |fl.updates| + 1
  }

  function BatchOf(f: Format, fl: Flight): Blob {
    Batch(f, fl.tx, fl.updates, fl.first)
  }

  function LocatedOf(f: Format, fl: Flight): seq<RecoveredUpdate> {
    OpeningLocated(f, fl.tx, fl.updates, fl.first, fl.at)
  }

  /** The transaction fits, starts from current versions, and its id has nothing left open. */
  ghost predicate Admissible(f: Format, snapshotSequence: nat, st: Replayed, fl: Flight) {
    && Fitting(f, fl.tx, fl.updates, fl.first).Kept?
    && PendingOf(st.pending, fl.tx).updates == []
    && Current(st.roots, LocatedOf(f, fl))
    && Sequenced(st.lastSequence, fl.first, LastOf(fl), snapshotSequence)
  }

  /** The end of the journal is a prefix of the transaction's bytes. */
  predicate Tail(f: Format, wal: Blob, fl: Flight) {
    && fl.at <= |wal| <= fl.at + |BatchOf(f, fl)|
    && wal == wal[..fl.at] + BatchOf(f, fl)[..|wal| - fl.at]
  }

  /** The journal up to `base` recovers, whole, to the index, whose locators are all good
      and denote the cells. */
  predicate Grounded(fs: Formats, snap: Option<Blob>, base: Blob, st: Replayed, cells: Cells) {
    && RecoverDisk(fs, snap, base) == Ok((st, |base|))
    && AllReadable(fs.journal.digest, snap, base, st.roots)
    && Contents(snap, base, st.roots) == cells
  }

  ghost predicate Flies(fs: Formats, snap: Option<Blob>, wal: Blob, st: Replayed, fl: Flight, last: nat) {
    && LoadSnapshot(fs.snapshot, snap).Ok?
    && Admissible(fs.journal, LoadSnapshot(fs.snapshot, snap).value.1, st, fl)
    && Tail(fs.journal, wal, fl)
    && st.lastSequence <= last == LastOf(fl)
  }

  ghost predicate StandsOn(fs: Formats, snap: Option<Blob>, wal: Blob, flight: Option<Flight>, st: Replayed, cells: Cells, last: nat) {
    && Grounded(fs, snap, BaseOf(wal, flight), st, cells)
    && (if flight.None? then st.lastSequence == last else Flies(fs, snap, wal, st, flight.value, last))
  }

  /** The engine's invariant over its files: `st` is what recovery computes from them. */
  ghost function Stands(fs: Formats, snap: Option<Blob>, wal: Blob, flight: Option<Flight>, st: Replayed, cells: Cells, last: nat): Law {
    if StandsOn(fs, snap, wal, flight, st, cells, last) then Kept else Broken
  }

  /** Files from which recovery yields the cells, once it has cut the torn tail. */
  predicate RecoversCells(fs: Formats, snap: Option<Blob>, wal: Blob, cells: Cells) {
    && RecoverDisk(fs, snap, wal).Ok?
    && var (st, end) := RecoverDisk(fs, snap, wal).value;
       && AllReadable(fs.journal.digest, snap, wal[..end], st.roots)
       && Contents(snap, wal[..end], st.roots) == cells
  }

  function Recoverable(fs: Formats, snap: Option<Blob>, wal: Blob, cells: Cells): Law {
    if RecoversCells(fs, snap, wal, cells) then Kept else Broken
  }

  // ------------------------------------------------------------------
  // Commit
  // ------------------------------------------------------------------

  /** A transaction put at the end of the journal, in whole or in part. */
  lemma {:induction false} FlightStarts(fs: Formats, snap: Option<Blob>, wal: Blob, st: Replayed, cells: Cells, last: nat, fl: Flight, k: nat)
    requires Stands(fs, snap, wal, None, st, cells, last).Kept?
    requires fl.at == |wal| && fl.first == last + 1 && k <= |BatchOf(fs.journal, fl)|
    requires Fitting(fs.journal, fl.tx, fl.updates, fl.first).Kept? && PendingOf(st.pending, fl.tx).updates == []
    requires Current(st.roots, LocatedOf(fs.journal, fl))
    ensures Stands(fs, snap, wal + BatchOf(fs.journal, fl)[..k], Some(fl), st, cells, LastOf(fl)).Kept?
  {
    ConcatParts(wal, BatchOf(fs.journal, fl)[..k]);
  }

  /** Cutting the unflushed end of the journal leaves the transaction in flight. */
  lemma {:induction false} FlightCut(fs: Formats, snap: Option<Blob>, wal: Blob, fl: Flight, st: Replayed, cells: Cells, last: nat, k: nat)
    requires Stands(fs, snap, wal, Some(fl), st, cells, last).Kept? && fl.at <= k <= |wal|
    ensures Stands(fs, snap, wal[..k], Some(fl), st, cells, last).Kept?
  {
    var batch := BatchOf(fs.journal, fl);
    assert wal[..k][..fl.at] == wal[..fl.at];
    assert wal[..k] == wal[..fl.at] + batch[..k - fl.at];
  }

  /** The journal, with the whole transaction on it, recovers to the published index. */
  lemma {:induction false} FlightLands(fs: Formats, snap: Option<Blob>, wal: Blob, fl: Flight, st: Replayed, cells: Cells, last: nat)
    returns (st': Replayed)
    requires Sound(fs).Kept? && Stands(fs, snap, wal, Some(fl), st, cells, last).Kept?
    requires |wal| == fl.at + |BatchOf(fs.journal, fl)|
    ensures Stands(fs, snap, wal, None, st', ApplyCells(cells, fl.updates), last).Kept?
    ensures st'.roots == Publish(st.roots, LocatedOf(fs.journal, fl))
  {
    st' := AfterCommit(fs.journal, st, fl.tx, fl.updates, fl.first, fl.at);
    assert wal == wal[..fl.at] + BatchOf(fs.journal, fl);
    FlightRecovers(fs, snap, wal[..fl.at], fl, st, LoadSnapshot(fs.snapshot, snap).value);
    LandedCells(fs.journal, snap, wal[..fl.at], fl, st.roots, cells);
  }

  lemma {:induction false} FlightRecovers(fs: Formats, snap: Option<Blob>, base: Blob, fl: Flight, st: Replayed, image: (Index, nat))
    requires Sound(fs).Kept? && LoadSnapshot(fs.snapshot, snap) == Ok(image)
    requires RecoverDisk(fs, snap, base) == Ok((st, |base|)) && fl.at == |base|
    requires Admissible(fs.journal, image.1, st, fl)
    ensures RecoverDisk(fs, snap, base + BatchOf(fs.journal, fl))
            == Ok((AfterCommit(fs.journal, st, fl.tx, fl.updates, fl.first, fl.at), |base + BatchOf(fs.journal, fl)|))
  {
    StepperReplays(fs.journal, image.1);
    FlightScans(fs.journal, base, fl, st, Start(image.0, image.1), image.1, Stepper(fs.journal, image.1));
  }

  lemma {:induction false} FlightScans(f: Format, base: Blob, fl: Flight, st: Replayed, st0: Replayed, snapshotSequence: nat, step: Step<Replayed>)
    requires Lawful(f).Kept? && Replays(f, snapshotSequence, step).Kept?
    requires ScanAll(f, base, 0, st0, step) == Ok((st, |base|)) && fl.at == |base|
    requires Admissible(f, snapshotSequence, st, fl)
    ensures ScanAll(f, base + BatchOf(f, fl), 0, st0, step)
            == Ok((AfterCommit(f, st, fl.tx, fl.updates, fl.first, fl.at), |base + BatchOf(f, fl)|))
  {
    CommittedBatch(f, base, fl.tx, fl.updates, fl.first, st0, st, snapshotSequence, step);
  }

  lemma {:induction false} LandedCells(f: Format, snap: Option<Blob>, base: Blob, fl: Flight, roots: Index, cells: Cells)
    requires Lawful(f).Kept? && Fitting(f, fl.tx, fl.updates, fl.first).Kept? && fl.at == |base|
    requires AllReadable(f.digest, snap, base, roots) && Contents(snap, base, roots) == cells
    ensures AllReadable(f.digest, snap, base + BatchOf(f, fl), Publish(roots, LocatedOf(f, fl)))
    ensures Contents(snap, base + BatchOf(f, fl), Publish(roots, LocatedOf(f, fl))) == ApplyCells(cells, fl.updates)
  {
    ContentsExtend(f.digest, snap, base, BatchOf(f, fl), roots);
    BatchHolds(f, base, fl.tx, fl.updates, fl.first);
    PublishedContents(f.digest, snap, base + BatchOf(f, fl), roots, fl.updates, LocatedOf(f, fl));
  }

  // ------------------------------------------------------------------
  // Crash and reopen
  // ------------------------------------------------------------------

  /** Files the engine stands on, with nothing in flight, recover to what they denote. */
  lemma {:induction false} StandingRecovers(fs: Formats, snap: Option<Blob>, wal: Blob, st: Replayed, cells: Cells, last: nat)
    requires Stands(fs, snap, wal, None, st, cells, last).Kept?
    ensures Recoverable(fs, snap, wal, cells).Kept?
  {
    assert wal[..|wal|] == wal;
  }

  /** A transaction cut short leaves no trace: the files recover to what they denoted before it. */
  lemma {:induction false} CutRecovers(fs: Formats, snap: Option<Blob>, wal: Blob, fl: Flight, st: Replayed, cells: Cells, last: nat)
    requires Sound(fs).Kept? && Stands(fs, snap, wal, Some(fl), st, cells, last).Kept?
    requires |wal| < fl.at + |BatchOf(fs.journal, fl)|
    ensures Recoverable(fs, snap, wal, cells).Kept?
  {
    var base, k := wal[..fl.at], |wal| - fl.at;
    var end, st' := CutScan(fs, snap, base, fl, st, LoadSnapshot(fs.snapshot, snap).value, k);
    var more := wal[fl.at..end];
    assert wal[..end] == base + more;
    ContentsExtend(fs.journal.digest, snap, base, more, st.roots);
  }

  lemma {:induction false} CutScan(fs: Formats, snap: Option<Blob>, base: Blob, fl: Flight, st: Replayed, image: (Index, nat), k: nat)
    returns (end: nat, st': Replayed)
    requires Sound(fs).Kept? && LoadSnapshot(fs.snapshot, snap) == Ok(image)
    requires RecoverDisk(fs, snap, base) == Ok((st, |base|)) && fl.at == |base|
    requires Admissible(fs.journal, image.1, st, fl) && k < |BatchOf(fs.journal, fl)|
    ensures |base| <= end <= |base| + k && st'.roots == st.roots
    ensures RecoverDisk(fs, snap, base + BatchOf(fs.journal, fl)[..k]) == Ok((st', end))
  {
    var i;
    StepperReplays(fs.journal, image.1);
    i, end := CutBatch(fs.journal, base, fl.tx, fl.updates, fl.first, k, Start(image.0, image.1), st, image.1, Stepper(fs.journal, image.1));
    st' := AfterSome(fs.journal, st, fl.tx, fl.updates, fl.first, fl.at, i);
  }

  /** However much of an unacknowledged transaction reached the file, it is applied as a whole or not at all. */
  lemma {:induction false} FlightResolves(fs: Formats, snap: Option<Blob>, wal: Blob, fl: Flight, st: Replayed, cells: Cells, last: nat)
    requires Sound(fs).Kept? && Stands(fs, snap, wal, Some(fl), st, cells, last).Kept?
    ensures |wal| < fl.at + |BatchOf(fs.journal, fl)| ==> Recoverable(fs, snap, wal, cells).Kept?
    ensures |wal| == fl.at + |BatchOf(fs.journal, fl)| ==> Recoverable(fs, snap, wal, ApplyCells(cells, fl.updates)).Kept?
    ensures |wal| <= fl.at + |BatchOf(fs.journal, fl)|
  {
    if |wal| < fl.at + |BatchOf(fs.journal, fl)| {
      CutRecovers(fs, snap, wal, fl, st, cells, last);
    } else {
      var st' := FlightLands(fs, snap, wal, fl, st, cells, last);
      StandingRecovers(fs, snap, wal, st', ApplyCells(cells, fl.updates), last);
    }
  }

  /** Reopening cuts the torn tail and stands on what is left; the cut file recovers the same. */
  lemma {:induction false} ReopenStands(fs: Formats, snap: Option<Blob>, wal: Blob, cells: Cells)
    requires Sound(fs).Kept? && Recoverable(fs, snap, wal, cells).Kept?
    ensures RecoverDisk(fs, snap, wal).Ok?
    ensures var (st, end) := RecoverDisk(fs, snap, wal).value;
            Stands(fs, snap, wal[..end], None, st, cells, st.lastSequence).Kept?
  {
    var image := LoadSnapshot(fs.snapshot, snap).value;
    TruncationHarmless(fs.journal, wal, image.0, image.1);
  }

  // ------------------------------------------------------------------
  // Checkpoint
  // ------------------------------------------------------------------

  lemma {:induction false} PlacedVersions(fs: Formats, roots: Index, sequence: nat, payloads: map<Blob, Blob>)
    requires Sound(fs).Kept? && fs.snapshot.fits(roots, sequence) && Supplies(roots, payloads, fs.journal.digest)
    ensures forall name: Blob :: VersionOf(fs.snapshot.placed(roots), name) == VersionOf(roots, name)
  {
    assert fs.snapshot.placed(roots).Keys == roots.Keys;
    forall name: Blob
      ensures VersionOf(fs.snapshot.placed(roots), name) == VersionOf(roots, name)
    {
      if name in roots {
        assert PlacesAt(fs.snapshot, roots, sequence, payloads, name);
      }
    }
  }

  /** The image a checkpoint writes. */
  function ImageOf(fs: Formats, snap: Option<Blob>, wal: Blob, roots: Index, last: nat): Blob {
    fs.snapshot.image(roots, last, Payloads(snap, wal, roots))
  }

  /** The old journal replayed over the new snapshot leaves the placed index as it is. */
  lemma {:induction false} CheckpointAbsorbs(fs: Formats, snap: Option<Blob>, base: Blob, st: Replayed, placed: Index, image: Blob, last: nat)
    requires RecoverDisk(fs, snap, base) == Ok((st, |base|)) && st.lastSequence <= last
    requires LoadSnapshot(fs.snapshot, Some(image)) == Ok((placed, last))
    requires forall name: Blob :: VersionOf(placed, name) == VersionOf(st.roots, name)
    ensures RecoverDisk(fs, Some(image), base) == Ok((Replayed(placed, last, st.pending, st.records), |base|))
  {
    var was := LoadSnapshot(fs.snapshot, snap).value;
    ReplayAbsorbed(fs.journal, base, was.0, was.1, placed, last);
  }

  lemma {:induction false} CurrentPlaced(roots: Index, placed: Index, located: seq<RecoveredUpdate>)
    requires Current(roots, located)
    requires forall name: Blob :: VersionOf(placed, name) == VersionOf(roots, name)
    ensures Current(placed, located)
  {
  }

  /** The base of the journal, seen within the whole journal. */
  lemma {:induction false} BaseReadable(fs: Formats, snap: Option<Blob>, wal: Blob, flight: Option<Flight>, st: Replayed, cells: Cells, last: nat)
    requires Stands(fs, snap, wal, flight, st, cells, last).Kept?
    ensures AllReadable(fs.journal.digest, snap, wal, st.roots)
    ensures Contents(snap, wal, st.roots) == cells
  {
    var base := BaseOf(wal, flight);
    assert wal == base + wal[|base|..];
    ContentsExtend(fs.journal.digest, snap, base, wal[|base|..], st.roots);
  }

  /** The state recovery computes once the image is installed and the journal is still there. */
  function Rebased(st: Replayed, placed: Index, last: nat): Replayed {
    Replayed(placed, last, st.pending, st.records)
  }

  /** Installing the image over any journal the engine stands on changes locators only. */
  lemma {:induction false} CheckpointStands(fs: Formats, snap: Option<Blob>, wal: Blob, flight: Option<Flight>, st: Replayed, cells: Cells, last: nat)
    requires Sound(fs).Kept? && Stands(fs, snap, wal, flight, st, cells, last).Kept?
    requires fs.snapshot.fits(st.roots, last)
    ensures var image := ImageOf(fs, snap, wal, st.roots, last);
            var placed := fs.snapshot.placed(st.roots);
            Stands(fs, Some(image), wal, flight, Rebased(st, placed, last), cells, last).Kept?
  {
    var roots := st.roots;
    var image, placed := ImageOf(fs, snap, wal, roots, last), fs.snapshot.placed(roots);
    BaseReadable(fs, snap, wal, flight, st, cells, last);
    PayloadsSupply(fs.journal.digest, snap, wal, roots);
    PlacedVersions(fs, roots, last, Payloads(snap, wal, roots));
    PlacedLoads(fs, snap, wal, roots, last);
    PlacedContents(fs, snap, wal, roots, last, BaseOf(wal, flight));
    CheckpointAbsorbs(fs, snap, BaseOf(wal, flight), st, placed, image, last);
    if flight.Some? {
      CurrentPlaced(roots, placed, LocatedOf(fs.journal, flight.value));
    }
  }

  /** The image alone, with an empty journal, stands for the same cells; nothing is left open. */
  lemma {:induction false} ImageStands(fs: Formats, snap: Option<Blob>, wal: Blob, flight: Option<Flight>, st: Replayed, cells: Cells, last: nat)
    requires Sound(fs).Kept? && Stands(fs, snap, wal, flight, st, cells, last).Kept?
    requires fs.snapshot.fits(st.roots, last)
    ensures var image := ImageOf(fs, snap, wal, st.roots, last);
            var placed := fs.snapshot.placed(st.roots);
            Stands(fs, Some(image), [], None, Start(placed, last), cells, last).Kept?
  {
    var roots := st.roots;
    var placed := fs.snapshot.placed(roots);
    BaseReadable(fs, snap, wal, flight, st, cells, last);
    PlacedLoads(fs, snap, wal, roots, last);
    PlacedContents(fs, snap, wal, roots, last, []);
    EmptyJournal(fs.journal, placed, last);
  }

  lemma {:induction false} EmptyJournal(f: Format, base: Index, sequence: nat)
    requires Lawful(f).Kept?
    ensures Recover(f, [], base, sequence) == Ok((Start(base, sequence), 0))
  {
    var none: Blob := [];
    assert none[0..] == none;
  }
}
