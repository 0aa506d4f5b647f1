/** The journal file: appending transactions, replaying them at open, and reading payloads. */
module JournalFile {
  import opened Bytes
  import opened BinaryIO
  import opened Records
  import opened Scanning
  import opened Recovery
  import opened Commits
  import opened JournalFormat
  import opened Files

  // ------------------------------------------------------------------
  // Reading one record
  // ------------------------------------------------------------------

  method ReadBody(body: Blob) returns (r: Result<Record>)
    ensures r == ParseBody(body)
  {
    var reader := new Reader(body);
    assert reader.Rest() == body;
    var format :- reader.Scalar(2);
    if format != RECORD_FORMAT {
      return Err(Corruption(BadFormat));
    }
    var kind :- reader.Scalar(2);
    var sequence :- reader.Scalar(8);
    var transaction :- reader.Scalar(8);
    var payload :- DecodePayload(reader);
    r := Ok(Record(kind, sequence, transaction, payload));
  }

  method ReadFrame(c: Checks, frame: Blob) returns (r: Scan)
    requires |frame| >= 4
    ensures r == ScanFrame(c, frame)
  {
    var bodySize := |frame| - 4;
    var seal := new Reader(frame[bodySize..]);
    assert seal.Rest() == frame[bodySize..] && frame[bodySize..][..4] == frame[bodySize..];
    var stored := seal.Scalar(4);
    if c.on && stored != Ok(c.digest(frame[..bodySize])) {
      return Bad(Corruption(ChecksumMismatch));
    }
    var rec := ReadBody(frame[..bodySize]);
    r := match rec
         case Ok(value) => Found(value, PREFIX_SIZE + |frame|)
         case Err(e) => Bad(e);
  }

  /** What lies at an offset of the file: a record, the torn end, or corruption. */
  method ReadRecord(c: Checks, file: Blob, offset: nat) returns (r: Scan)
    requires offset <= |file|
    ensures r == ScanOne(c, file[offset..])
  {
    var left := |file| - offset;
    if left < PREFIX_SIZE {
      return Torn;
    }
    var s := file[offset..];
    var prefix := new Reader(file[offset..offset + PREFIX_SIZE]);
    assert prefix.Rest() == s[..PREFIX_SIZE];
    assert s[..PREFIX_SIZE][..4] == s[..4] && s[..PREFIX_SIZE][4..][..8] == s[4..12];
    var magic := prefix.Scalar(4);
    if magic != Ok(RECORD_MAGIC) {
      return Bad(Corruption(BadMagic));
    }
    var length := prefix.Scalar(8);
    var size := length.value;
    if size < 4 || size > MAX_FRAME {
      r := Bad(Corruption(BadLength));
    } else if size > left - PREFIX_SIZE {
      r := Torn;
    } else {
      assert file[offset + PREFIX_SIZE..offset + PREFIX_SIZE + size] == s[PREFIX_SIZE..PREFIX_SIZE + size];
      r := ReadFrame(c, file[offset + PREFIX_SIZE..offset + PREFIX_SIZE + size]);
    }
  }

  // ------------------------------------------------------------------
  // Replay
  // ------------------------------------------------------------------

  method ApplyPending(base: Index, updates: seq<RecoveredUpdate>) returns (r: Result<Index>)
    ensures r == ApplyUpdates(base, updates)
  {
    var roots := base;
    for i := 0 to |updates|
      invariant ApplyUpdates(roots, updates[i..]) == ApplyUpdates(base, updates)
    {
      assert updates[i..][1..] == updates[i + 1..];
      var u := updates[i];
      var current := if u.name in roots then roots[u.name].version else 0;
      if u.next > current {
        if current != u.expected {
          return Err(Corruption(VersionChainMismatch));
        }
        roots := roots[u.name := RootRecord(u.next, u.tag, u.payload)];
      }
    }
    r := Ok(roots);
  }

  method ReadCount(payload: Blob) returns (r: Result<nat>)
    ensures r == ParseCount(payload)
  {
    var reader := new Reader(payload);
    assert reader.Rest() == payload;
    var count :- reader.Scalar(8);
    if !reader.Eof() {
      return Err(Corruption(CountMismatch));
    }
    r := Ok(count);
  }

  method ReplayCommit(st: Replayed, tx: nat, payload: Blob) returns (r: Result<Replayed>)
    ensures r == ApplyCommit(st, tx, ParseCount(payload))
  {
    if tx !in st.pending || !st.pending[tx].began {
      return Err(Corruption(CommitWithoutBegin));
    }
    var expected :- ReadCount(payload);
    if expected != |st.pending[tx].updates| {
      return Err(Corruption(CountMismatch));
    }
    var roots :- ApplyPending(st.roots, st.pending[tx].updates);
    r := Ok(st.(roots := roots, pending := st.pending - {tx}));
  }

  method ReplayUpdate(c: Checks, st: Replayed, tx: nat, payload: Blob, offset: nat) returns (r: Result<Replayed>)
    ensures r == ApplyUpdate(st, tx, ParseUpdate(c, payload, offset + PREFIX_SIZE + BODY_PREFIX_SIZE))
  {
    if tx !in st.pending || !st.pending[tx].began {
      return Err(Corruption(UpdateWithoutBegin));
    }
    var u :- DecodeUpdate(c, payload, offset + PREFIX_SIZE + BODY_PREFIX_SIZE);
    r := Ok(st.(pending := st.pending[tx := Pending(true, st.pending[tx].updates + [u])]));
  }

  method ReplayRecord(c: Checks, snapshotSequence: nat, st: Replayed, rec: Record, offset: nat) returns (r: Result<Replayed>)
    ensures r == ApplyRecord(FormatOf(c), snapshotSequence, st, rec, offset)
  {
    if rec.sequence <= st.lastSequence && rec.sequence > snapshotSequence {
      return Err(Corruption(SequenceNotIncreasing));
    }
    var st1 := Counted(st, rec.sequence);
    if rec.kind == BEGIN {
      r := Ok(ApplyBegin(st1, rec.transaction));
    } else if rec.kind == ROOT_UPDATE {
      r := ReplayUpdate(c, st1, rec.transaction, rec.payload, offset);
    } else if rec.kind == COMMIT {
      r := ReplayCommit(st1, rec.transaction, rec.payload);
    } else {
      r := Err(Corruption(UnknownRecordType));
    }
  }

  /** Scans the file from the front; the second result is the end of its last complete record. */
  method ScanFile(c: Checks, file: Blob, base: Index, snapshotSequence: nat) returns (r: Result<(Replayed, nat)>)
    ensures r == Recover(FormatOf(c), file, base, snapshotSequence)
  {
    var st := Start(base, snapshotSequence);
    var offset: nat := 0;
    ghost var step := Stepper(FormatOf(c), snapshotSequence);
    while offset < |file|
      invariant offset <= |file|
      invariant ScanAll(FormatOf(c), file, offset, st, step) == Recover(FormatOf(c), file, base, snapshotSequence)
    {
      var scan := ReadRecord(c, file, offset);
      if scan.Torn? {
        return Ok((st, offset));
      }
      if scan.Bad? {
        return Err(scan.error);
      }
      st :- ReplayRecord(c, snapshotSequence, st, scan.record, offset);
      offset := offset + scan.size;
    }
    r := Ok((st, offset));
  }

  // ------------------------------------------------------------------
  // Building a transaction's records
  // ------------------------------------------------------------------

  function LocsOf(located: seq<RecoveredUpdate>): (r: seq<Loc>)
    ensures |r| == |located|
    decreases |located|
  {
    if located == [] then [] else [located[0].payload] + LocsOf(located[1..])
  }

  function Moved(where: Loc, distance: nat): Loc {
    where.(offset := where.offset + distance)
  }

  function MovedAll(locations: seq<Loc>, distance: nat): (r: seq<Loc>)
    ensures |r| == |locations|
    decreases |locations|
  {
    if locations == [] then [] else [Moved(locations[0], distance)] + MovedAll(locations[1..], distance)
  }

  lemma {:induction false} LocatedMoves(c: Checks, u: RootUpdate, offset: nat, distance: nat)
    ensures FormatOf(c).located(u, offset + distance).payload == Moved(FormatOf(c).located(u, offset).payload, distance)
  {
  }

  /** Locators counted from the start of the batch, moved by the batch's place in the file, are
      the locators recovery computes. */
  lemma {:induction false} LocatorsMove(c: Checks, tx: nat, updates: seq<RootUpdate>, sequence: nat, offset: nat, distance: nat)
    ensures LocsOf(LocatedAll(FormatOf(c), tx, updates, sequence, offset + distance))
         == MovedAll(LocsOf(LocatedAll(FormatOf(c), tx, updates, sequence, offset)), distance)
    decreases |updates|
  {
    if updates != [] {
      var f := FormatOf(c);
      var size := |f.frame(Record(ROOT_UPDATE, sequence, tx, f.updateBytes(updates[0])))|;
      LocatedMoves(c, updates[0], offset, distance);
      LocatorsMove(c, tx, updates[1..], sequence + 1, offset + size, distance);
      LocsCons(f.located(updates[0], offset), LocatedAll(f, tx, updates[1..], sequence + 1, offset + size));
      LocsCons(f.located(updates[0], offset + distance), LocatedAll(f, tx, updates[1..], sequence + 1, offset + size + distance));
      MovedCons(f.located(updates[0], offset).payload, LocsOf(LocatedAll(f, tx, updates[1..], sequence + 1, offset + size)), distance);
    }
  }

  lemma {:induction false} LocsCons(one: RecoveredUpdate, rest: seq<RecoveredUpdate>)
    ensures LocsOf([one] + rest) == [one.payload] + LocsOf(rest)
  {
    assert ([one] + rest)[1..] == rest;
  }

  lemma {:induction false} MovedCons(one: Loc, rest: seq<Loc>, distance: nat)
    ensures MovedAll([one] + rest, distance) == [Moved(one, distance)] + MovedAll(rest, distance)
  {
    assert ([one] + rest)[1..] == rest;
  }

  /** Adds the record of one update; its locator is counted from the start of the batch. */
  method AppendUpdate(c: Checks, tx: nat, sequence: nat, u: RootUpdate, batch: Blob) returns (grown: Blob, where: Loc)
    ensures grown == batch + FormatOf(c).frame(Record(ROOT_UPDATE, sequence, tx, FormatOf(c).updateBytes(u)))
    ensures where == FormatOf(c).located(u, |batch|).payload
  {
    var encoded, payloadOffset := EncodeUpdate(u);
    var bytes := MakeRecord(ROOT_UPDATE, sequence, tx, encoded, c);
    grown := batch + bytes;
    where := Loc(JournalFile, |batch| + PREFIX_SIZE + BODY_PREFIX_SIZE + payloadOffset, |u.payload|, c.digest(u.payload));
  }

  lemma {:induction false} UpdateRecordsSplit(f: Format, tx: nat, updates: seq<RootUpdate>, sequence: nat, offset: nat)
    requires updates != []
    ensures var rec := Record(ROOT_UPDATE, sequence, tx, f.updateBytes(updates[0]));
            && Log(f, UpdateRecords(f, tx, updates, sequence)) == f.frame(rec) + Log(f, UpdateRecords(f, tx, updates[1..], sequence + 1))
            && LocsOf(LocatedAll(f, tx, updates, sequence, offset))
               == [f.located(updates[0], offset).payload] + LocsOf(LocatedAll(f, tx, updates[1..], sequence + 1, offset + |f.frame(rec)|))
  {
    var rec := Record(ROOT_UPDATE, sequence, tx, f.updateBytes(updates[0]));
    var rest := UpdateRecords(f, tx, updates[1..], sequence + 1);
    assert ([rec] + rest)[0] == rec && ([rec] + rest)[1..] == rest;
    LocsCons(f.located(updates[0], offset), LocatedAll(f, tx, updates[1..], sequence + 1, offset + |f.frame(rec)|));
  }

  /** What is left to add, whatever the format is. */
  ghost predicate Growing(f: Format, tx: nat, all: seq<RootUpdate>, first: nat, start: Blob, i: nat, batch: Blob, locations: seq<Loc>)
    requires i <= |all|
  {
    && batch + Log(f, UpdateRecords(f, tx, all[i..], first + i)) == start + Log(f, UpdateRecords(f, tx, all, first))
    && locations + LocsOf(LocatedAll(f, tx, all[i..], first + i, |batch|)) == LocsOf(LocatedAll(f, tx, all, first, |start|))
  }

  ghost function Grows(f: Format, tx: nat, all: seq<RootUpdate>, first: nat, start: Blob, i: nat, batch: Blob, locations: seq<Loc>): Law
    requires i <= |all|
  {
    if Growing(f, tx, all, first, start, i, batch, locations) then Kept else Broken
  }

  lemma {:induction false} BytesGrow(batch: Blob, frame: Blob, rest: Blob, whole: Blob)
    requires batch + (frame + rest) == whole
    ensures (batch + frame) + rest == whole
  {
    ConcatAssoc(batch, frame, rest);
  }

  lemma {:induction false} LocationsGrow(locations: seq<Loc>, one: Loc, rest: seq<Loc>, whole: seq<Loc>)
    requires locations + ([one] + rest) == whole
    ensures (locations + [one]) + rest == whole
  {
    ConcatAssoc(locations, [one], rest);
  }

  lemma {:induction false} GrowingOne(f: Format, tx: nat, one: RootUpdate, all: seq<RootUpdate>, rest: seq<RootUpdate>, sequence: nat,
                                      batch: Blob, locations: seq<Loc>, whole: Blob, wholeLocs: seq<Loc>)
    requires all == [one] + rest
    requires batch + Log(f, UpdateRecords(f, tx, all, sequence)) == whole
    requires locations + LocsOf(LocatedAll(f, tx, all, sequence, |batch|)) == wholeLocs
    ensures var grown := batch + f.frame(Record(ROOT_UPDATE, sequence, tx, f.updateBytes(one)));
            && grown + Log(f, UpdateRecords(f, tx, rest, sequence + 1)) == whole
            && (locations + [f.located(one, |batch|).payload]) + LocsOf(LocatedAll(f, tx, rest, sequence + 1, |grown|)) == wholeLocs
  {
    var frame := f.frame(Record(ROOT_UPDATE, sequence, tx, f.updateBytes(one)));
    assert all[0] == one && all[1..] == rest;
    UpdateRecordsSplit(f, tx, all, sequence, |batch|);
    BytesGrow(batch, frame, Log(f, UpdateRecords(f, tx, rest, sequence + 1)), whole);
    LocationsGrow(locations, f.located(one, |batch|).payload, LocsOf(LocatedAll(f, tx, rest, sequence + 1, |batch| + |frame|)), wholeLocs);
  }

  lemma {:induction false} SuffixCons(all: seq<RootUpdate>, i: nat)
    requires i < |all|
    ensures all[i..] == [all[i]] + all[i + 1..]
  {
  }

  lemma {:induction false} GrowsOne(f: Format, tx: nat, all: seq<RootUpdate>, first: nat, start: Blob, i: nat, batch: Blob, locations: seq<Loc>)
    requires i < |all| && Grows(f, tx, all, first, start, i, batch, locations).Kept?
    ensures Grows(f, tx, all, first, start, i + 1, batch + f.frame(Record(ROOT_UPDATE, first + i, tx, f.updateBytes(all[i]))),
                  locations + [f.located(all[i], |batch|).payload]).Kept?
  {
    SuffixCons(all, i);
    GrowingOne(f, tx, all[i], all[i..], all[i + 1..], first + i, batch, locations, start + Log(f, UpdateRecords(f, tx, all, first)),
               LocsOf(LocatedAll(f, tx, all, first, |start|)));
  }

  lemma {:induction false} GrowsStart(f: Format, tx: nat, all: seq<RootUpdate>, first: nat, start: Blob)
    ensures Grows(f, tx, all, first, start, 0, start, []).Kept?
  {
    assert all[0..] == all;
    assert [] + LocsOf(LocatedAll(f, tx, all, first, |start|)) == LocsOf(LocatedAll(f, tx, all, first, |start|));
  }

  lemma {:induction false} GrowsEnd(f: Format, tx: nat, all: seq<RootUpdate>, first: nat, start: Blob, batch: Blob, locations: seq<Loc>)
    requires Grows(f, tx, all, first, start, |all|, batch, locations).Kept?
    ensures batch == start + Log(f, UpdateRecords(f, tx, all, first))
    ensures locations == LocsOf(LocatedAll(f, tx, all, first, |start|))
  {
    assert batch + [] == batch && locations + [] == locations;
  }

  method AppendUpdates(c: Checks, tx: nat, first: nat, updates: seq<RootUpdate>, start: Blob)
    returns (batch: Blob, locations: seq<Loc>)
    ensures batch == start + Log(FormatOf(c), UpdateRecords(FormatOf(c), tx, updates, first))
    ensures locations == LocsOf(LocatedAll(FormatOf(c), tx, updates, first, |start|))
  {
    batch, locations := start, [];
    GrowsStart(FormatOf(c), tx, updates, first, start);
    for i := 0 to |updates|
      invariant Grows(FormatOf(c), tx, updates, first, start, i, batch, locations).Kept?
    {
      GrowsOne(FormatOf(c), tx, updates, first, start, i, batch, locations);
      var where: Loc;
      batch, where := AppendUpdate(c, tx, first + i, updates[i], batch);
      locations := locations + [where];
    }
    GrowsEnd(FormatOf(c), tx, updates, first, start, batch, locations);
  }

  lemma {:induction false} BatchParts(f: Format, tx: nat, updates: seq<RootUpdate>, sequence: nat)
    ensures Batch(f, tx, updates, sequence)
            == f.frame(BeginRecord(tx, sequence)) + Log(f, UpdateRecords(f, tx, updates, sequence + 1))
               + f.frame(CommitRecord(tx, sequence + |updates| + 1, |updates|))
  {
    var begin, commit := BeginRecord(tx, sequence), CommitRecord(tx, sequence + |updates| + 1, |updates|);
    var middle := UpdateRecords(f, tx, updates, sequence + 1);
    LogConcat(f, [begin] + middle, [commit]);
    LogConcat(f, [begin], middle);
    LogOne(f, begin);
    LogOne(f, commit);
  }

  /** The bytes of a whole transaction, and the locators of its payloads within them. */
  method MakeBatch(c: Checks, tx: nat, first: nat, updates: seq<RootUpdate>) returns (batch: Blob, locations: seq<Loc>)
    ensures batch == Batch(FormatOf(c), tx, updates, first)
    ensures locations == LocsOf(OpeningLocated(FormatOf(c), tx, updates, first, 0))
  {
    BatchParts(FormatOf(c), tx, updates, first);
    var begin := MakeRecord(BEGIN, first, tx, [], c);
    batch, locations := AppendUpdates(c, tx, first + 1, updates, begin);
    var w := new Writer();
    w.Scalar(|updates|, 8);
    assert w.bytes == Le(|updates|, 8);
    var commit := MakeRecord(COMMIT, first + |updates| + 1, tx, w.bytes, c);
    batch := batch + commit;
  }

  method MoveAll(locations: seq<Loc>, distance: nat) returns (r: seq<Loc>)
    ensures r == MovedAll(locations, distance)
  {
    r := [];
    for i := 0 to |locations|
      invariant r + MovedAll(locations[i..], distance) == MovedAll(locations, distance)
    {
      assert locations[i..][1..] == locations[i + 1..];
      ConcatAssoc(r, [Moved(locations[i], distance)], MovedAll(locations[i + 1..], distance));
      r := r + [Moved(locations[i], distance)];
    }
  }

  // ------------------------------------------------------------------
  // The journal
  // ------------------------------------------------------------------

  /** Part of a payload; the part must lie within the locator. */
  function ReadPart(file: Blob, where: Loc, offset: nat, count: nat): Result<Blob> {
    if offset + count > where.size then Err(Corruption(LocatorExceedsFile))
    else ReadAt(file, where.offset + offset, count)
  }

  /** A whole payload, whose checksum must match. */
  function LoadWhole(c: Checks, file: Blob, where: Loc): Result<Blob> {
    var bytes :- ReadAt(file, where.offset, where.size);
    if c.on && c.digest(bytes) != where.checksum then Err(Corruption(ChecksumMismatch)) else Ok(bytes)
  }

  /** The file after the whole transaction was appended, and where its payloads lie in it. */
  ghost predicate AppendedAll(c: Checks, wal: Blob, last: nat, tx: nat, updates: seq<RootUpdate>, wal': Blob, locations: seq<Loc>) {
    forall k: nat {:trigger Opened(k)} :: Opened(k) ==>
      && wal' == wal + Batch(FormatOf(c), tx, updates, last + 1)
      && locations == LocsOf(OpeningLocated(FormatOf(c), tx, updates, last + 1, |wal|))
  }

  function Partly(file: Blob, data: Blob, written: nat): Blob {
    file + if written <= |data| then data[..written] else data
  }

  /** The file after some of the transaction's bytes were appended, perhaps none or all. */
  ghost predicate AppendedSome(c: Checks, wal: Blob, last: nat, tx: nat, updates: seq<RootUpdate>, wal': Blob) {
    forall k: nat {:trigger Opened(k)} :: Opened(k) ==>
      exists written: nat {:trigger Partly(wal, Batch(FormatOf(c), tx, updates, last + 1), written)} ::
        && written <= |Batch(FormatOf(c), tx, updates, last + 1)|
        && wal' == Partly(wal, Batch(FormatOf(c), tx, updates, last + 1), written)
  }

  ghost predicate PartAppended(file: Blob, data: Blob, file': Blob) {
    exists written: nat {:trigger Partly(file, data, written)} :: written <= |data| && file' == Partly(file, data, written)
  }

  lemma {:induction false} PartOfBatch(c: Checks, wal: Blob, last: nat, tx: nat, updates: seq<RootUpdate>, wal': Blob)
    requires PartAppended(wal, Batch(FormatOf(c), tx, updates, last + 1), wal')
    ensures AppendedSome(c, wal, last, tx, updates, wal')
  {
  }

  lemma {:induction false} AllOfBatch(c: Checks, wal: Blob, last: nat, tx: nat, updates: seq<RootUpdate>, wal': Blob, locations: seq<Loc>)
    requires wal' == wal + Batch(FormatOf(c), tx, updates, last + 1)
    requires locations == MovedAll(LocsOf(OpeningLocated(FormatOf(c), tx, updates, last + 1, 0)), |wal|)
    ensures AppendedAll(c, wal, last, tx, updates, wal', locations)
  {
    LocatorsMove(c, tx, updates, last + 2, |FormatOf(c).frame(BeginRecord(tx, last + 1))|, |wal|);
  }

  class Journal {
    const disk: Disk
    const checks: Checks
    var lastSequence: nat

    constructor (disk: Disk, checks: Checks)
      ensures this.disk == disk && this.checks == checks && lastSequence == 0
    {
      this.disk, this.checks, lastSequence := disk, checks, 0;
    }

    /** Replays the file over the snapshot's roots, cuts the torn tail and flushes the cut. A cut that
        is not flushed leaves the file cut and reports the fault. */
    method Recover(base: Index, snapshotSequence: nat) returns (r: Result<Replayed>)
      modifies this`lastSequence, disk`wal, disk`walLeft, disk`faults
      ensures var spec := Recovery.Recover(FormatOf(checks), old(disk.wal), base, snapshotSequence);
              match r
              case Ok(st) =>
                && spec.Ok? && st == spec.value.0 && disk.wal == old(disk.wal)[..spec.value.1]
                && lastSequence == st.lastSequence && disk.faults == old(disk.faults)
                && (old(disk.walLeft) == iset{old(disk.wal)} ==> disk.walLeft == iset{disk.wal})
              case Err(e) =>
                && lastSequence == old(lastSequence)
                && if disk.faults == old(disk.faults) then spec == Err(e) && disk.wal == old(disk.wal)
                   else e == StorageFault && (disk.wal == old(disk.wal) || (spec.Ok? && disk.wal == old(disk.wal)[..spec.value.1]))
    {
      var file :- disk.Read(disk.wal, 0, |disk.wal|);
      assert file == disk.wal;
      var result :- ScanFile(checks, file, base, snapshotSequence);
      var (st, lastGood) := result;
      if lastGood != |disk.wal| {
        var _ :- disk.Truncate(lastGood);
        var _ :- disk.FlushWal();
      } else {
        assert disk.wal[..lastGood] == disk.wal;
      }
      lastSequence := st.lastSequence;
      r := Ok(st);
    }

    /** Appends a transaction, flushes it and returns where its payloads lie. Sequence numbers are used
        up even when the append fails; then a crash may leave any part of what was appended. */
    method Append(tx: nat, updates: seq<RootUpdate>) returns (r: Result<seq<Loc>>)
      modifies this`lastSequence, disk`wal, disk`walLeft, disk`faults
      ensures lastSequence == old(lastSequence) + |updates| + 2
      ensures match r
              case Ok(locations) =>
                && |locations| == |updates|
                && AppendedAll(checks, old(disk.wal), old(lastSequence), tx, updates, disk.wal, locations)
                && disk.walLeft == iset{disk.wal} && disk.faults == old(disk.faults)
              case Err(e) =>
                && e == StorageFault
                && AppendedSome(checks, old(disk.wal), old(lastSequence), tx, updates, disk.wal)
                && disk.walLeft == old(disk.walLeft) + (iset w: Blob | Between(old(disk.wal), w, disk.wal))
                && disk.faults > old(disk.faults)
    {
      var batch, locations := MakeBatch(checks, tx, lastSequence + 1, updates);
      lastSequence := lastSequence + |updates| + 2;
      ghost var wal := disk.wal;
      var appended := AppendAndFlush(batch);
      if appended.Err? {
        PartOfBatch(checks, wal, old(lastSequence), tx, updates, disk.wal);
        return Err(appended.error);
      }
      locations := MoveAll(locations, appended.value);
      AllOfBatch(checks, wal, old(lastSequence), tx, updates, disk.wal, locations);
      r := Ok(locations);
    }

    /** The offset at which the bytes were appended. */
    method AppendAndFlush(batch: Blob) returns (r: Result<nat>)
      modifies disk`wal, disk`walLeft, disk`faults
      ensures match r
              case Ok(at) =>
                && at == |old(disk.wal)| && disk.wal == old(disk.wal) + batch
                && disk.walLeft == iset{disk.wal} && disk.faults == old(disk.faults)
              case Err(e) =>
                && e == StorageFault && PartAppended(old(disk.wal), batch, disk.wal)
                && disk.walLeft == old(disk.walLeft) + (iset w: Blob | Between(old(disk.wal), w, disk.wal))
                && disk.faults > old(disk.faults)
    {
      r := disk.Append(batch);
      if r.Err? {
        ghost var written: nat :| written <= |batch| && disk.wal == old(disk.wal) + batch[..written];
        assert disk.wal == Partly(old(disk.wal), batch, written);
        return;
      }
      assert batch[..|batch|] == batch;
      assert disk.wal == Partly(old(disk.wal), batch, |batch|);
      var flushed := disk.FlushWal();
      if flushed.Err? {
        return Err(flushed.error);
      }
    }

    /** Empties the file and flushes that. */
    method Reset() returns (r: Result<()>)
      modifies disk`wal, disk`walLeft, disk`faults
      ensures r.Ok? ==> disk.wal == [] && disk.walLeft == iset{[]} && disk.faults == old(disk.faults)
      ensures r.Err? ==> r.error == StorageFault && disk.faults > old(disk.faults)
      ensures r.Err? ==> || (disk.wal == old(disk.wal) && disk.walLeft == old(disk.walLeft))
                         || (disk.wal == [] && disk.walLeft == old(disk.walLeft) + iset{[]})
    {
      var _ :- disk.Truncate(0);
      r := disk.FlushWal();
    }
  }
}
