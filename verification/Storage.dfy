/** Files, locators and what recovery makes of them. */
module Storage {
  import opened Bytes
  import opened Records
  import opened Scanning
  import opened Recovery
  import opened Commits

  /** What a root holds, as a client sees it. */
  datatype Cell = Cell(version: nat, tag: Blob, payload: Blob)

  type Cells = map<Blob, Cell>

  function VersionIn(cells: Cells, name: Blob): nat {
    if name in cells then cells[name].version else 0
  }

  /** The snapshot file format: an image of all roots, and where it places each payload. */
  datatype SnapFormat = SnapFormat(
    image: (Index, nat, map<Blob, Blob>) -> Blob,
    placed: Index -> Index,
    load: Blob -> Result<(Index, nat)>,
    fits: (Index, nat) -> bool)

  datatype Formats = Formats(journal: Format, snapshot: SnapFormat)

  function FileOf(snap: Option<Blob>, wal: Blob, source: Source): Blob {
    match source
    case JournalFile => wal
    case SnapshotFile => if snap.Some? then snap.value else []
  }

  /** The locator lies within its file and its checksum is that of the bytes there. */
  predicate Readable(digest: Digest, file: Blob, where: Loc) {
    InBounds(file, where.offset, where.size) && digest(Slice(file, where.offset, where.size)) == where.checksum
  }

  predicate AllReadable(digest: Digest, snap: Option<Blob>, wal: Blob, roots: Index) {
    forall name | name in roots :: Readable(digest, FileOf(snap, wal, roots[name].payload.source), roots[name].payload)
  }

  function PayloadAt(file: Blob, where: Loc): Blob {
    if InBounds(file, where.offset, where.size) then Slice(file, where.offset, where.size) else []
  }

  function CellOf(snap: Option<Blob>, wal: Blob, r: RootRecord): Cell {
    Cell(r.version, r.tag, PayloadAt(FileOf(snap, wal, r.payload.source), r.payload))
  }

  /** The map from name to version, type and payload bytes that an index denotes. */
  function Contents(snap: Option<Blob>, wal: Blob, roots: Index): Cells {
    map name | name in roots :: CellOf(snap, wal, roots[name])
  }

  function Payloads(snap: Option<Blob>, wal: Blob, roots: Index): map<Blob, Blob> {
    map name | name in roots :: CellOf(snap, wal, roots[name]).payload
  }

  // ------------------------------------------------------------------
  // The laws of the snapshot format
  // ------------------------------------------------------------------

  predicate Supplies(roots: Index, payloads: map<Blob, Blob>, digest: Digest) {
    forall name | name in roots ::
      && name in payloads && |payloads[name]| == roots[name].payload.size
      && digest(payloads[name]) == roots[name].payload.checksum
  }

  /** A saved image loads back as the roots it placed. */
  predicate Reloads(g: SnapFormat, roots: Index, sequence: nat, payloads: map<Blob, Blob>) {
    g.image(roots, sequence, payloads) != [] &&
    g.load(g.image(roots, sequence, payloads)) == Ok((g.placed(roots), sequence))
  }

  /** Only the locator of a root changes, and it selects the same payload. */
  predicate PlacesAt(g: SnapFormat, roots: Index, sequence: nat, payloads: map<Blob, Blob>, name: Blob)
    requires name in roots && name in payloads
  {
    && name in g.placed(roots)
    && var r := g.placed(roots)[name];
       && r.version == roots[name].version && r.tag == roots[name].tag
       && r.payload.source == SnapshotFile
       && r.payload.size == roots[name].payload.size && r.payload.checksum == roots[name].payload.checksum
       && InBounds(g.image(roots, sequence, payloads), r.payload.offset, r.payload.size)
       && Slice(g.image(roots, sequence, payloads), r.payload.offset, r.payload.size) == payloads[name]
  }

  ghost predicate Snapshots(g: SnapFormat, digest: Digest) {
    && (forall roots, sequence, payloads {:trigger Reloads(g, roots, sequence, payloads)}
        | g.fits(roots, sequence) && Supplies(roots, payloads, digest) :: Reloads(g, roots, sequence, payloads))
    && (forall roots {:trigger g.placed(roots)} :: g.placed(roots).Keys == roots.Keys)
    && (forall roots, sequence, payloads, name {:trigger PlacesAt(g, roots, sequence, payloads, name)}
        | g.fits(roots, sequence) && Supplies(roots, payloads, digest) && name in roots
        :: PlacesAt(g, roots, sequence, payloads, name))
  }

  ghost function Sound(fs: Formats): Law {
    if Lawful(fs.journal).Kept? && Snapshots(fs.snapshot, fs.journal.digest) then Kept else Broken
  }

  // ------------------------------------------------------------------
  // Recovery of a disk
  // ------------------------------------------------------------------

  /** A missing or empty snapshot file is an empty image. */
  function LoadSnapshot(g: SnapFormat, snap: Option<Blob>): Result<(Index, nat)> {
    if snap.None? || snap.value == [] then Ok((map[], 0)) else g.load(snap.value)
  }

  function RecoverDisk(fs: Formats, snap: Option<Blob>, wal: Blob): (r: Result<(Replayed, nat)>)
    ensures r.Ok? ==> r.value.1 <= |wal|
  {
    var image :- LoadSnapshot(fs.snapshot, snap);
    Recover(fs.journal, wal, image.0, image.1)
  }

  /** Contents depend only on the bytes the locators select, so a longer journal changes nothing. */
  lemma {:induction false} ContentsExtend(digest: Digest, snap: Option<Blob>, wal: Blob, more: Blob, roots: Index)
    requires AllReadable(digest, snap, wal, roots)
    ensures AllReadable(digest, snap, wal + more, roots)
    ensures Contents(snap, wal + more, roots) == Contents(snap, wal, roots)
  {
    forall name | name in roots
      ensures Readable(digest, FileOf(snap, wal + more, roots[name].payload.source), roots[name].payload)
      ensures CellOf(snap, wal + more, roots[name]) == CellOf(snap, wal, roots[name])
    {
      var where := roots[name].payload;
      assert Readable(digest, FileOf(snap, wal, where.source), where);
      if where.source == JournalFile {
        SliceExtend(wal, more, where.offset, where.size);
      }
    }
  }

  lemma {:induction false} PayloadsSupply(digest: Digest, snap: Option<Blob>, wal: Blob, roots: Index)
    requires AllReadable(digest, snap, wal, roots)
    ensures Supplies(roots, Payloads(snap, wal, roots), digest)
  {
  }

  /** The record is readable and denotes the cell. */
  predicate Denotes(digest: Digest, snap: Option<Blob>, wal: Blob, r: RootRecord, cell: Cell) {
    Readable(digest, FileOf(snap, wal, r.payload.source), r.payload) && CellOf(snap, wal, r) == cell
  }

  lemma {:induction false} ContentsAre(digest: Digest, snap: Option<Blob>, wal: Blob, roots: Index, cells: Cells)
    requires roots.Keys == cells.Keys
    requires forall name | name in roots :: Denotes(digest, snap, wal, roots[name], cells[name])
    ensures AllReadable(digest, snap, wal, roots)
    ensures Contents(snap, wal, roots) == cells
  {
    forall name | name in roots
      ensures Readable(digest, FileOf(snap, wal, roots[name].payload.source), roots[name].payload)
      ensures Contents(snap, wal, roots)[name] == cells[name]
    {
      assert Denotes(digest, snap, wal, roots[name], cells[name]);
    }
  }

  /** What a checkpoint installs denotes what the index denoted, whatever the journal holds. */
  lemma {:induction false} PlacedContents(fs: Formats, snap: Option<Blob>, wal: Blob, roots: Index, sequence: nat, wal': Blob)
    requires Sound(fs).Kept? && AllReadable(fs.journal.digest, snap, wal, roots) && fs.snapshot.fits(roots, sequence)
    ensures var image := fs.snapshot.image(roots, sequence, Payloads(snap, wal, roots));
            && AllReadable(fs.journal.digest, Some(image), wal', fs.snapshot.placed(roots))
            && Contents(Some(image), wal', fs.snapshot.placed(roots)) == Contents(snap, wal, roots)
  {
    var image := fs.snapshot.image(roots, sequence, Payloads(snap, wal, roots));
    var cells := Contents(snap, wal, roots);
    var placed := fs.snapshot.placed(roots);
    PayloadsSupply(fs.journal.digest, snap, wal, roots);
    forall name | name in placed
      ensures Denotes(fs.journal.digest, Some(image), wal', placed[name], cells[name])
    {
      PlacedCell(fs, snap, wal, roots, sequence, wal', name);
    }
    ContentsAre(fs.journal.digest, Some(image), wal', placed, cells);
  }

  /** And it loads back as the roots it placed. */
  lemma {:induction false} PlacedLoads(fs: Formats, snap: Option<Blob>, wal: Blob, roots: Index, sequence: nat)
    requires Sound(fs).Kept? && AllReadable(fs.journal.digest, snap, wal, roots) && fs.snapshot.fits(roots, sequence)
    ensures LoadSnapshot(fs.snapshot, Some(fs.snapshot.image(roots, sequence, Payloads(snap, wal, roots))))
            == Ok((fs.snapshot.placed(roots), sequence))
  {
    PayloadsSupply(fs.journal.digest, snap, wal, roots);
    assert Reloads(fs.snapshot, roots, sequence, Payloads(snap, wal, roots));
  }

  lemma {:induction false} PlacedCell(fs: Formats, snap: Option<Blob>, wal: Blob, roots: Index, sequence: nat, wal': Blob, name: Blob)
    requires Sound(fs).Kept? && fs.snapshot.fits(roots, sequence) && name in roots
    requires Supplies(roots, Payloads(snap, wal, roots), fs.journal.digest)
    ensures name in fs.snapshot.placed(roots)
    ensures Denotes(fs.journal.digest, Some(fs.snapshot.image(roots, sequence, Payloads(snap, wal, roots))), wal',
                    fs.snapshot.placed(roots)[name], CellOf(snap, wal, roots[name]))
  {
    assert PlacesAt(fs.snapshot, roots, sequence, Payloads(snap, wal, roots), name);
  }

  // ------------------------------------------------------------------
  // What a commit publishes
  // ------------------------------------------------------------------

  /** The cells after the updates, in order. */
  function ApplyCells(cells: Cells, updates: seq<RootUpdate>): Cells
    decreases |updates|
  {
    if updates == [] then cells
    else ApplyCells(cells[updates[0].name := Cell(updates[0].next, updates[0].tag, updates[0].payload)], updates[1..])
  }

  lemma {:induction false} AppliedOther(cells: Cells, updates: seq<RootUpdate>, name: Blob)
    requires forall i | 0 <= i < |updates| :: updates[i].name != name
    ensures name in ApplyCells(cells, updates) <==> name in cells
    ensures name in cells ==> ApplyCells(cells, updates)[name] == cells[name]
    decreases |updates|
  {
    if updates != [] {
      AppliedOther(cells[updates[0].name := Cell(updates[0].next, updates[0].tag, updates[0].payload)], updates[1..], name);
    }
  }

  lemma {:induction false} AppliedAt(cells: Cells, updates: seq<RootUpdate>, i: nat)
    requires i < |updates| && forall a, b | 0 <= a < b < |updates| :: updates[a].name != updates[b].name
    ensures updates[i].name in ApplyCells(cells, updates)
    ensures ApplyCells(cells, updates)[updates[i].name] == Cell(updates[i].next, updates[i].tag, updates[i].payload)
    decreases |updates|
  {
    var cells1 := cells[updates[0].name := Cell(updates[0].next, updates[0].tag, updates[0].payload)];
    if i > 0 {
      AppliedAt(cells1, updates[1..], i - 1);
    } else {
      AppliedOther(cells1, updates[1..], updates[0].name);
    }
  }

  function RecordOf(u: RecoveredUpdate): RootRecord {
    RootRecord(u.next, u.tag, u.payload)
  }

  /** A root and the cell the journal file holds for it, if its locator is good. */
  datatype Held = Held(name: Blob, cell: Option<Cell>)

  function HeldAt(digest: Digest, wal: Blob, l: RecoveredUpdate): Held {
    Held(l.name,
         if l.payload.source == JournalFile && Readable(digest, wal, l.payload)
         then Some(Cell(l.next, l.tag, Slice(wal, l.payload.offset, l.payload.size))) else None)
  }

  datatype Holdings = Nothing | Holding(first: Held, rest: Holdings)

  function HeldAll(digest: Digest, wal: Blob, located: seq<RecoveredUpdate>): Holdings
    decreases |located|
  {
    if located == [] then Nothing else Holding(HeldAt(digest, wal, located[0]), HeldAll(digest, wal, located[1..]))
  }

  function Carried(u: RootUpdate): Held {
    Held(u.name, Some(Cell(u.next, u.tag, u.payload)))
  }

  function CarriedAll(updates: seq<RootUpdate>): Holdings
    decreases |updates|
  {
    if updates == [] then Nothing else Holding(Carried(updates[0]), CarriedAll(updates[1..]))
  }

  lemma {:induction false} HeldCons(digest: Digest, wal: Blob, l: RecoveredUpdate, rest: seq<RecoveredUpdate>)
    ensures HeldAll(digest, wal, [l] + rest) == Holding(HeldAt(digest, wal, l), HeldAll(digest, wal, rest))
  {
    assert ([l] + rest)[0] == l && ([l] + rest)[1..] == rest;
  }

  /** One record in place: its locator selects the payload it carries. */
  lemma {:induction false} RecordHolds(f: Format, u: RootUpdate, rec: Record, bytes: Blob, offset: nat)
    requires Lawful(f).Kept?
    requires f.updateFits(u) && f.fits(rec) && rec.payload == f.updateBytes(u)
    requires offset <= |bytes| && f.frame(rec) <= bytes[offset..]
    ensures HeldAt(f.digest, bytes, f.located(u, offset)) == Carried(u)
  {
    assert ReadsUpdate(f, u, offset);
    assert Selects(f, u, rec, offset);
    var where := f.located(u, offset).payload;
    SliceInside(bytes, offset, f.frame(rec), where.offset - offset, where.size);
  }

  lemma {:induction false} SliceInside(bytes: Blob, offset: nat, frame: Blob, start: nat, size: nat)
    requires offset <= |bytes| && frame <= bytes[offset..] && start + size <= |frame|
    ensures InBounds(bytes, offset + start, size)
    ensures Slice(bytes, offset + start, size) == frame[start..start + size]
  {
    assert frame == bytes[offset..][..|frame|];
    assert bytes[offset..][..|frame|][start..start + size] == bytes[offset + start..offset + start + size];
  }

  /** Every update of a transaction whose records lie in the file is held there. */
  lemma {:induction false} UpdatesHold(f: Format, tx: nat, updates: seq<RootUpdate>, sequence: nat, bytes: Blob, offset: nat)
    requires Lawful(f).Kept?
    requires AllFit(f, UpdateRecords(f, tx, updates, sequence))
    requires UpdatesFit(f, updates)
    requires offset <= |bytes| && Log(f, UpdateRecords(f, tx, updates, sequence)) <= bytes[offset..]
    ensures HeldAll(f.digest, bytes, LocatedAll(f, tx, updates, sequence, offset)) == CarriedAll(updates)
    decreases |updates|
  {
    if updates != [] {
      var rec := Record(ROOT_UPDATE, sequence, tx, f.updateBytes(updates[0]));
      var rest := UpdateRecords(f, tx, updates[1..], sequence + 1);
      LogCons(f, rec, rest);
      FrontLies(bytes, offset, f.frame(rec), Log(f, rest));
      ConsFits(f, rec, rest);
      RecordHolds(f, updates[0], rec, bytes, offset);
      UpdatesHold(f, tx, updates[1..], sequence + 1, bytes, offset + |f.frame(rec)|);
      HeldCons(f.digest, bytes, f.located(updates[0], offset),
               LocatedAll(f, tx, updates[1..], sequence + 1, offset + |f.frame(rec)|));
    }
  }

  lemma {:induction false} LogCons(f: Format, rec: Record, rest: seq<Record>)
    ensures Log(f, [rec] + rest) == f.frame(rec) + Log(f, rest)
  {
    assert ([rec] + rest)[0] == rec && ([rec] + rest)[1..] == rest;
  }

  lemma {:induction false} ConsFits(f: Format, rec: Record, rest: seq<Record>)
    requires AllFit(f, [rec] + rest)
    ensures f.fits(rec) && AllFit(f, rest)
  {
    var recs := [rec] + rest;
    assert recs[0] == rec;
    assert forall i | 0 <= i < |rest| :: rest[i] == recs[i + 1];
  }

  lemma {:induction false} FrontLies(bytes: Blob, offset: nat, a: Blob, b: Blob)
    requires offset <= |bytes| && a + b <= bytes[offset..]
    ensures a <= bytes[offset..]
    ensures offset + |a| <= |bytes| && b <= bytes[offset + |a|..]
  {
    assert bytes[offset..][..|a|] == a;
    assert bytes[offset + |a|..] == bytes[offset..][|a|..];
    assert bytes[offset..][|a|..][..|b|] == b;
  }

  /** Publishing the located updates changes the cells exactly as the updates say. */
  lemma {:induction false} PublishedContents(digest: Digest, snap: Option<Blob>, wal: Blob, roots: Index,
                                             updates: seq<RootUpdate>, located: seq<RecoveredUpdate>)
    requires AllReadable(digest, snap, wal, roots) && HeldAll(digest, wal, located) == CarriedAll(updates)
    ensures AllReadable(digest, snap, wal, Publish(roots, located))
    ensures Contents(snap, wal, Publish(roots, located)) == ApplyCells(Contents(snap, wal, roots), updates)
    decreases |updates|
  {
    if updates != [] {
      var u, l := updates[0], located[0];
      HeldFirst(digest, wal, updates, located);
      var roots1 := roots[l.name := RecordOf(l)];
      OneMoreCell(digest, snap, wal, roots, u, l);
      PublishedContents(digest, snap, wal, roots1, updates[1..], located[1..]);
    }
  }

  lemma {:induction false} HeldFirst(digest: Digest, wal: Blob, updates: seq<RootUpdate>, located: seq<RecoveredUpdate>)
    requires updates != [] && HeldAll(digest, wal, located) == CarriedAll(updates)
    ensures located != [] && HeldAt(digest, wal, located[0]) == Carried(updates[0])
    ensures HeldAll(digest, wal, located[1..]) == CarriedAll(updates[1..])
  {
  }

  lemma {:induction false} OneMoreCell(digest: Digest, snap: Option<Blob>, wal: Blob, roots: Index, u: RootUpdate, l: RecoveredUpdate)
    requires AllReadable(digest, snap, wal, roots) && HeldAt(digest, wal, l) == Carried(u)
    ensures AllReadable(digest, snap, wal, roots[l.name := RecordOf(l)])
    ensures Contents(snap, wal, roots[l.name := RecordOf(l)])
            == Contents(snap, wal, roots)[u.name := Cell(u.next, u.tag, u.payload)]
  {
    assert CellOf(snap, wal, RecordOf(l)) == Cell(u.next, u.tag, u.payload);
  }

  /** A whole batch at the end of the journal holds its transaction's updates. */
  lemma {:induction false} BatchHolds(f: Format, wal: Blob, tx: nat, updates: seq<RootUpdate>, sequence: nat)
    requires Lawful(f).Kept?
    requires Fitting(f, tx, updates, sequence).Kept?
    ensures HeldAll(f.digest, wal + Batch(f, tx, updates, sequence), OpeningLocated(f, tx, updates, sequence, |wal|))
            == CarriedAll(updates)
  {
    BatchLies(f, wal, tx, updates, sequence);
    LyingHold(f, tx, updates, sequence + 1, wal + Batch(f, tx, updates, sequence), |wal| + |f.frame(BeginRecord(tx, sequence))|);
  }

  /** The update records of a transaction lie in the bytes. */
  ghost predicate UpdatesLie(f: Format, tx: nat, updates: seq<RootUpdate>, sequence: nat, bytes: Blob, offset: nat) {
    forall k: nat {:trigger Opened(k)} :: Opened(k) ==>
      && UpdatesFit(f, updates) && AllFit(f, UpdateRecords(f, tx, updates, sequence))
      && offset <= |bytes| && Log(f, UpdateRecords(f, tx, updates, sequence)) <= bytes[offset..]
  }

  lemma {:induction false} LyingHold(f: Format, tx: nat, updates: seq<RootUpdate>, sequence: nat, bytes: Blob, offset: nat)
    requires Lawful(f).Kept? && UpdatesLie(f, tx, updates, sequence, bytes, offset)
    ensures HeldAll(f.digest, bytes, LocatedAll(f, tx, updates, sequence, offset)) == CarriedAll(updates)
  {
    assert Opened(0);
    UpdatesHold(f, tx, updates, sequence, bytes, offset);
  }

  lemma {:induction false} BatchLies(f: Format, wal: Blob, tx: nat, updates: seq<RootUpdate>, sequence: nat)
    requires Fitting(f, tx, updates, sequence).Kept?
    ensures UpdatesLie(f, tx, updates, sequence + 1, wal + Batch(f, tx, updates, sequence), |wal| + |f.frame(BeginRecord(tx, sequence))|)
  {
    FittingOpens(f, tx, updates, sequence);
    BatchMiddle(f, wal, tx, updates, sequence);
  }

  lemma {:induction false} BatchMiddle(f: Format, wal: Blob, tx: nat, updates: seq<RootUpdate>, sequence: nat)
    requires AllFit(f, TransactionRecords(f, tx, updates, sequence))
    ensures AllFit(f, UpdateRecords(f, tx, updates, sequence + 1))
    ensures |wal| + |f.frame(BeginRecord(tx, sequence))| <= |wal + Batch(f, tx, updates, sequence)|
    ensures Log(f, UpdateRecords(f, tx, updates, sequence + 1))
            <= (wal + Batch(f, tx, updates, sequence))[|wal| + |f.frame(BeginRecord(tx, sequence))|..]
  {
    var begin := BeginRecord(tx, sequence);
    var commit := CommitRecord(tx, sequence + |updates| + 1, |updates|);
    var ups := UpdateRecords(f, tx, updates, sequence + 1);
    LogAround(f, begin, ups, commit);
    MiddleFits(f, begin, ups, commit);
    MiddleLies(wal, f.frame(begin), Log(f, ups), f.frame(commit));
  }

  lemma {:induction false} MiddleLies(wal: Blob, front: Blob, middle: Blob, back: Blob)
    ensures |wal| + |front| <= |wal + (front + (middle + back))|
    ensures middle <= (wal + (front + (middle + back)))[|wal| + |front|..]
  {
    ConcatParts(wal, front + (middle + back));
    FrontLies(wal + (front + (middle + back)), |wal|, front, middle + back);
    FrontLies(wal + (front + (middle + back)), |wal| + |front|, middle, back);
  }

  lemma {:induction false} MiddleFits(f: Format, first: Record, middle: seq<Record>, last: Record)
    requires AllFit(f, [first] + middle + [last])
    ensures AllFit(f, middle)
  {
    var recs := [first] + middle + [last];
    assert forall i | 0 <= i < |middle| :: middle[i] == recs[i + 1];
  }

  lemma {:induction false} LogAround(f: Format, first: Record, middle: seq<Record>, last: Record)
    ensures Log(f, [first] + middle + [last]) == f.frame(first) + (Log(f, middle) + f.frame(last))
  {
    LogConcat(f, [first] + middle, [last]);
    LogConcat(f, [first], middle);
    LogOne(f, first);
    LogOne(f, last);
    ConcatAssoc(f.frame(first), Log(f, middle), f.frame(last));
  }
}
