/** Saving and loading the snapshot file. */
module SnapshotStore {
  import opened Bytes
  import opened BinaryIO
  import opened Records
  import opened Recovery
  import opened Ordering
  import opened JournalFormat
  import opened SnapshotFormat
  import opened Files
  import Storage

  const COPY_CHUNK: nat := 64 * 1024

  /** Reads part of a root's payload: record, offset and count. */
  type PayloadReader = (RootRecord, nat, nat) -> Result<Blob>

  /** Whatever the reader yields of a record is that part of the payload, and it yields the
      last part only if the payload is all there. */
  ghost predicate Yields(read: PayloadReader, record: RootRecord, payload: Blob) {
    && (record.payload.size == 0 ==> payload == [])
    && (forall offset: nat, count: nat {:trigger read(record, offset, count)}
        | 0 < count && offset + count <= record.payload.size && read(record, offset, count).Ok?
        :: && |read(record, offset, count).value| == count
           && (offset + count == record.payload.size ==> |payload| == record.payload.size)
           && (|payload| == record.payload.size ==> read(record, offset, count).value == payload[offset..offset + count]))
  }

  /** The reader never refuses a part that lies within the payload. */
  ghost predicate Serves(read: PayloadReader, record: RootRecord) {
    forall offset: nat, count: nat {:trigger read(record, offset, count)}
      | 0 < count && offset + count <= record.payload.size :: read(record, offset, count).Ok?
  }

  ghost predicate Agrees(read: PayloadReader, roots: Index, payloads: map<Blob, Blob>) {
    forall name | name in roots :: name in payloads && Yields(read, roots[name], payloads[name])
  }

  // ------------------------------------------------------------------
  // Ordered roots
  // ------------------------------------------------------------------

  /** The names in order. */
  method SortedNames(roots: Index) returns (names: seq<Blob>)
    ensures names == InOrder(roots.Keys)
  {
    names := [];
    var left := roots.Keys;
    while left != {}
      invariant Sorted(names) && Elements(names) == roots.Keys - left && left <= roots.Keys
      decreases left
    {
      var name :| name in left;
      assert name !in names by {
        assert name !in Elements(names);
      }
      InsertSorted(names, name);
      InsertElements(names, name);
      names := Insert(names, name);
      left := left - {name};
    }
    OrderUnique(names, InOrder(roots.Keys));
  }

  lemma {:induction false} LaidSplit(roots: Index, names: seq<Blob>, offset: nat)
    requires names != [] && forall name | name in names :: name in roots
    ensures Laid(roots, names, offset)
            == [IndexedRoot(names[0], roots[names[0]], offset)] + Laid(roots, names[1..], offset + roots[names[0]].payload.size)
  {
  }

  predicate Ends(row: IndexedRoot) {
    row.relative + row.record.payload.size < TWO64
  }

  predicate AllEnd(rows: seq<IndexedRoot>) {
    forall i | 0 <= i < |rows| :: Ends(rows[i])
  }

  lemma {:induction false} Overflows(rows: seq<IndexedRoot>, row: IndexedRoot, rest: seq<IndexedRoot>)
    requires !Ends(row)
    ensures !AllEnd(rows + ([row] + rest))
  {
    assert (rows + ([row] + rest))[|rows|] == row;
  }

  method LayOut(roots: Index, names: seq<Blob>) returns (r: Result<seq<IndexedRoot>>)
    requires forall name | name in names :: name in roots
    ensures r == if AllEnd(Laid(roots, names, 0)) then Ok(Laid(roots, names, 0)) else Err(SizeOverflow)
  {
    var rows, offset: nat := [], 0;
    for i := 0 to |names|
      invariant rows + Laid(roots, names[i..], offset) == Laid(roots, names, 0)
      invariant AllEnd(rows)
    {
      LaidSplit(roots, names[i..], offset);
      var row := IndexedRoot(names[i], roots[names[i]], offset);
      assert names[i..][1..] == names[i + 1..];
      ConcatAssoc(rows, [row], Laid(roots, names[i + 1..], offset + row.record.payload.size));
      if row.record.payload.size > TWO64 - 1 - offset {
        Overflows(rows, row, Laid(roots, names[i + 1..], offset + row.record.payload.size));
        return Err(SizeOverflow);
      }
      rows := rows + [row];
      offset := offset + row.record.payload.size;
    }
    assert rows + [] == rows;
    r := Ok(rows);
  }

  /** The layout, unless some payload would end beyond a 64-bit offset. */
  method OrderedRoots(roots: Index) returns (r: Result<seq<IndexedRoot>>)
    ensures r == if AllEnd(Layout(roots)) then Ok(Layout(roots)) else Err(SizeOverflow)
  {
    var names := SortedNames(roots);
    assert forall name | name in names :: name in Elements(names);
    r := LayOut(roots, names);
  }

  // ------------------------------------------------------------------
  // Saving
  // ------------------------------------------------------------------

  method WriteEntry(index: Writer, row: IndexedRoot)
    modifies index
    ensures index.bytes == old(index.bytes) + EntryBytes(row)
  {
    var n, v, t, p := StringBytes(row.name), Le(row.record.version, 8), StringBytes(row.record.tag), PlaceBytes(row);
    ghost var was := index.bytes;
    index.String(row.name);
    index.Scalar(row.record.version, 8);
    index.String(row.record.tag);
    WritePlace(index, row);
    ConcatAssoc(was + n, v, t);
    ConcatAssoc(was + n, v + t, p);
    ConcatAssoc(v, t, p);
    ConcatAssoc(was, n, v + (t + p));
  }

  method WritePlace(index: Writer, row: IndexedRoot)
    modifies index
    ensures index.bytes == old(index.bytes) + PlaceBytes(row)
  {
    ghost var was := index.bytes;
    index.Scalar(row.relative, 8);
    index.Scalar(row.record.payload.size, 8);
    index.Scalar(row.record.payload.checksum, 4);
    var a, b, d := Le(row.relative, 8), Le(row.record.payload.size, 8), Le(row.record.payload.checksum, 4);
    ConcatAssoc(was + a, b, d);
    ConcatAssoc(was, a, b + d);
  }

  method MakeIndex(rows: seq<IndexedRoot>) returns (bytes: Blob)
    ensures bytes == IndexBytes(rows)
  {
    var index := new Writer();
    for i := 0 to |rows|
      invariant index.bytes + IndexBytes(rows[i..]) == IndexBytes(rows)
    {
      assert rows[i..][1..] == rows[i + 1..];
      ConcatAssoc(index.bytes, EntryBytes(rows[i]), IndexBytes(rows[i + 1..]));
      WriteEntry(index, rows[i]);
    }
    assert index.bytes + [] == index.bytes;
    bytes := index.bytes;
  }

  method MakeHeader(c: Checks, sequence: nat, count: nat, index: Blob) returns (bytes: Blob)
    ensures bytes == HeaderBytes(c, sequence, count, index)
  {
    var w := new Writer();
    w.Scalar(SNAPSHOT_MAGIC, 8);
    w.Scalar(SNAPSHOT_FORMAT, 4);
    w.Scalar(sequence, 8);
    w.Scalar(count, 8);
    w.Scalar(|index|, 8);
    var indexSum: nat := if c.on then c.digest(index) else 0;
    w.Scalar(indexSum, 4);
    assert w.bytes == HeaderFields(c, sequence, count, index);
    var headerSum: nat := if c.on then c.digest(w.bytes) else 0;
    w.Scalar(headerSum, 4);
    bytes := w.bytes;
  }

  /** Copies a payload, chunk by chunk, to the end of the temporary file. */
  method CopyPayload(disk: Disk, record: RootRecord, at: nat, read: PayloadReader, ghost payload: Blob) returns (r: Result<()>)
    requires at == |disk.temporary| && Yields(read, record, payload)
    modifies disk`temporary, disk`temporaryDurable, disk`faults
    ensures r.Ok? ==> |payload| == record.payload.size && disk.temporary == old(disk.temporary) + payload
    ensures r.Ok? ==> disk.faults == old(disk.faults)
    ensures r.Err? && Serves(read, record) ==> r.error == StorageFault && disk.faults > old(disk.faults)
  {
    var copied: nat := 0;
    while copied < record.payload.size
      invariant copied <= record.payload.size && |disk.temporary| == at + copied
      invariant disk.faults == old(disk.faults)
      invariant copied == record.payload.size ==> |payload| == record.payload.size
      invariant |payload| == record.payload.size ==> disk.temporary == old(disk.temporary) + payload[..copied]
      decreases record.payload.size - copied
    {
      var amount := if COPY_CHUNK < record.payload.size - copied then COPY_CHUNK else record.payload.size - copied;
      var out :- disk.Attempt(read(record, copied, amount));
      WriteAtEnd(disk.temporary, out);
      var _ :- disk.WriteTemporary(at + copied, out);
      if |payload| == record.payload.size {
        assert payload[..copied + amount] == payload[..copied] + payload[copied..copied + amount];
        ConcatAssoc(old(disk.temporary), payload[..copied], out);
      }
      copied := copied + amount;
    }
    assert payload[..|payload|] == payload;
    r := Ok(());
  }

  ghost predicate AllServed(read: PayloadReader, rows: seq<IndexedRoot>) {
    forall i | 0 <= i < |rows| :: Serves(read, rows[i].record)
  }

  /** Copies the payloads of all rows, each to its own place. */
  method CopyPayloads(disk: Disk, rows: seq<IndexedRoot>, base: nat, read: PayloadReader, ghost payloads: map<Blob, Blob>)
    returns (r: Result<()>)
    requires base == |disk.temporary| && Contiguous(rows, 0)
    requires forall i | 0 <= i < |rows| :: rows[i].name in payloads && Yields(read, rows[i].record, payloads[rows[i].name])
    modifies disk`temporary, disk`temporaryDurable, disk`faults
    ensures r.Ok? ==> disk.temporary == old(disk.temporary) + Data(rows, payloads)
    ensures r.Ok? ==> disk.faults == old(disk.faults)
    ensures r.Err? && AllServed(read, rows) ==> r.error == StorageFault && disk.faults > old(disk.faults)
  {
    for i := 0 to |rows|
      invariant disk.faults == old(disk.faults)
      invariant base <= |disk.temporary| && Contiguous(rows[i..], |disk.temporary| - base)
      invariant disk.temporary + Data(rows[i..], payloads) == old(disk.temporary) + Data(rows, payloads)
    {
      ghost var payload := payloads[rows[i].name];
      ghost var was := disk.temporary;
      assert rows[i..][1..] == rows[i + 1..];
      var _ :- CopyPayload(disk, rows[i].record, base + rows[i].relative, read, payload);
      ConcatAssoc(was, payload, Data(rows[i + 1..], payloads));
    }
    assert disk.temporary + [] == disk.temporary;
    r := Ok(());
  }

  method PlaceRows(rows: seq<IndexedRoot>, base: nat) returns (roots: Index)
    ensures roots == PlaceAll(rows, base, map[])
  {
    roots := map[];
    for i := 0 to |rows|
      invariant PlaceAll(rows[i..], base, roots) == PlaceAll(rows, base, map[])
    {
      assert rows[i..][1..] == rows[i + 1..];
      roots := roots[rows[i].name := PlacedRecord(rows[i], base)];
    }
  }

  /** Writes the image of the rows to the temporary file. */
  method WriteImage(disk: Disk, c: Checks, rows: seq<IndexedRoot>, sequence: nat, read: PayloadReader, ghost payloads: map<Blob, Blob>)
    returns (r: Result<nat>)
    requires Contiguous(rows, 0)
    requires forall i | 0 <= i < |rows| :: rows[i].name in payloads && Yields(read, rows[i].record, payloads[rows[i].name])
    modifies disk`temporary, disk`temporaryDurable, disk`faults
    ensures r.Ok? ==> disk.faults == old(disk.faults)
    ensures r.Err? && AllServed(read, rows) ==> r.error == StorageFault && disk.faults > old(disk.faults)
    ensures r.Ok? ==> r.value == Base(rows) && disk.temporary == FileBytes(c, sequence, rows, Data(rows, payloads))
  {
    var index := MakeIndex(rows);
    var header := MakeHeader(c, sequence, |rows|, index);
    var _ :- disk.TruncateTemporary();
    var _ :- disk.WriteTemporary(0, header);
    WriteAtEnd([], header);
    assert disk.temporary == header;
    if index != [] {
      var _ :- disk.WriteTemporary(HEADER_SIZE, index);
      WriteAtEnd(header, index);
    }
    assert disk.temporary == header + index;
    var _ :- CopyPayloads(disk, rows, HEADER_SIZE + |index|, read, payloads);
    ConcatAssoc(header, index, Data(rows, payloads));
    r := Ok(HEADER_SIZE + |index|);
  }

  lemma {:induction false} LayoutYields(read: PayloadReader, roots: Index, payloads: map<Blob, Blob>)
    requires Agrees(read, roots, payloads)
    ensures Contiguous(Layout(roots), 0)
    ensures forall i | 0 <= i < |Layout(roots)| ::
              Layout(roots)[i].name in payloads && Yields(read, Layout(roots)[i].record, payloads[Layout(roots)[i].name])
  {
    LayoutRows(roots);
  }

  /** The payloads can be read and end within 64-bit offsets. */
  ghost predicate Writable(roots: Index, read: PayloadReader) {
    AllEnd(Layout(roots)) && forall name | name in roots :: Serves(read, roots[name])
  }

  lemma {:induction false} LayoutServed(read: PayloadReader, roots: Index)
    requires Writable(roots, read)
    ensures AllServed(read, Layout(roots))
  {
    LayoutRows(roots);
  }

  /** Flushes the temporary file, renames it over the snapshot and syncs the directory. */
  method InstallTemporary(disk: Disk) returns (r: Result<()>)
    modifies disk`temporaryDurable, disk`snapshot, disk`snapshotLeft, disk`namedLeft, disk`faults
    ensures r.Ok? ==> disk.snapshot == Some(disk.temporary) && disk.faults == old(disk.faults)
    ensures r.Ok? ==> disk.snapshotLeft == iset{disk.snapshot} && disk.namedLeft == disk.snapshotLeft
    ensures r.Err? ==> r.error == StorageFault && disk.faults > old(disk.faults)
    ensures r.Err? ==> || (disk.snapshot == old(disk.snapshot) && disk.snapshotLeft == old(disk.snapshotLeft))
                       || (disk.snapshot == Some(disk.temporary) && disk.snapshotLeft == old(disk.snapshotLeft) + iset{disk.snapshot})
  {
    var _ :- disk.FlushTemporary();
    var _ :- disk.ReplaceSnapshot();
    r := disk.SyncDirectory();
  }

  /** Writes an image of the roots beside the snapshot. */
  method WriteRoots(disk: Disk, c: Checks, roots: Index, sequence: nat, read: PayloadReader, ghost payloads: map<Blob, Blob>)
    returns (r: Result<Index>)
    requires Agrees(read, roots, payloads)
    modifies disk`temporary, disk`temporaryDurable, disk`faults
    ensures r.Ok? ==> r.value == Placed(roots) && disk.temporary == Image(c, roots, sequence, payloads) && disk.faults == old(disk.faults)
    ensures r.Err? && Writable(roots, read) ==> r.error == StorageFault && disk.faults > old(disk.faults)
  {
    var rows :- OrderedRoots(roots);
    LayoutYields(read, roots, payloads);
    if Writable(roots, read) {
      LayoutServed(read, roots);
    }
    var base :- WriteImage(disk, c, rows, sequence, read, payloads);
    var placed := PlaceRows(rows, base);
    r := Ok(placed);
  }

  /** Writes an image of the roots beside the snapshot, flushes it, renames it over the snapshot and
      syncs the directory. The index returned is the one the new file loads back as. A failure leaves
      the old snapshot or the whole new one, to readers and to a crash. */
  method Save(disk: Disk, c: Checks, roots: Index, sequence: nat, read: PayloadReader, ghost payloads: map<Blob, Blob>)
    returns (r: Result<(Index, nat)>)
    requires Agrees(read, roots, payloads)
    modifies disk`temporary, disk`temporaryDurable, disk`snapshot, disk`snapshotLeft, disk`namedLeft, disk`faults
    ensures r.Ok? ==> r.value == (Placed(roots), sequence)
    ensures r.Ok? ==> disk.snapshot == Some(Image(c, roots, sequence, payloads)) == Some(disk.temporary)
    ensures r.Ok? ==> disk.snapshotLeft == iset{disk.snapshot} && disk.namedLeft == disk.snapshotLeft && disk.faults == old(disk.faults)
    ensures r.Err? ==> || (disk.snapshot == old(disk.snapshot) && disk.snapshotLeft == old(disk.snapshotLeft))
                       || (disk.snapshot == Some(Image(c, roots, sequence, payloads))
                           && disk.snapshotLeft == old(disk.snapshotLeft) + iset{disk.snapshot})
    ensures r.Err? && Writable(roots, read) ==> r.error == StorageFault && disk.faults > old(disk.faults)
  {
    var placed :- WriteRoots(disk, c, roots, sequence, read, payloads);
    var _ :- InstallTemporary(disk);
    r := Ok((placed, sequence));
  }

  // ------------------------------------------------------------------
  // Loading
  // ------------------------------------------------------------------

  method ReadCounts(h: Reader) returns (r: Result<(nat, nat, nat)>)
    requires h.Valid()
    modifies h
    ensures h.Valid()
    ensures match ParseCounts(old(h.Rest()))
            case Ok((counts, rest)) => r == Ok(counts) && h.Rest() == rest
            case Err(e) => r == Err(e)
  {
    var sequence :- h.Scalar(8);
    var count :- h.Scalar(8);
    var indexSize :- h.Scalar(8);
    r := Ok((sequence, count, indexSize));
  }

  method ReadSums(h: Reader) returns (r: Result<(nat, nat)>)
    requires h.Valid()
    modifies h
    ensures r == ParseSums(old(h.Rest()))
  {
    var indexSum :- h.Scalar(4);
    var headerSum :- h.Scalar(4);
    if !h.Eof() {
      return Err(Corruption(TrailingBytes));
    }
    r := Ok((indexSum, headerSum));
  }

  method ReadHeader(c: Checks, header: Blob) returns (r: Result<Header>)
    ensures r == ParseHeader(c, header)
  {
    var h := new Reader(header);
    assert h.Rest() == header;
    var magic :- h.Scalar(8);
    if magic != SNAPSHOT_MAGIC {
      return Err(Corruption(BadMagic));
    }
    var format :- h.Scalar(4);
    if format != SNAPSHOT_FORMAT {
      return Err(Corruption(BadFormat));
    }
    var counts :- ReadCounts(h);
    var sums :- ReadSums(h);
    if c.on && sums.1 != c.digest(header[..|header| - 4]) {
      return Err(Corruption(ChecksumMismatch));
    }
    r := Ok(Header(counts.0, counts.1, counts.2, sums.0));
  }

  method ReadPlace(reader: Reader) returns (r: Result<(nat, nat, nat)>)
    requires reader.Valid()
    modifies reader
    ensures reader.Valid()
    ensures match ParsePlace(old(reader.Rest()))
            case Ok((place, rest)) => r == Ok(place) && reader.Rest() == rest
            case Err(e) => r == Err(e)
  {
    var relative :- reader.Scalar(8);
    var size :- reader.Scalar(8);
    var checksum :- reader.Scalar(4);
    r := Ok((relative, size, checksum));
  }

  method ReadEntry(reader: Reader) returns (r: Result<Entry>)
    requires reader.Valid()
    modifies reader
    ensures reader.Valid()
    ensures match ParseEntry(old(reader.Rest()))
            case Ok((e, rest)) => r == Ok(e) && reader.Rest() == rest
            case Err(e) => r == Err(e)
  {
    var naming :- DecodeNaming(reader);
    var tag :- reader.String();
    var place :- ReadPlace(reader);
    r := Ok(Entry(naming.0, naming.1, tag, place.0, place.1, place.2));
  }

  method ReadRows(index: Blob, count: nat, base: nat, fileSize: nat) returns (r: Result<Index>)
    requires base <= fileSize
    ensures r == LoadRows(ParseEntry, index, count, base, fileSize, map[])
  {
    var reader := new Reader(index);
    assert reader.Rest() == index;
    var roots: Index := map[];
    for i := 0 to count
      invariant reader.Valid()
      invariant LoadRows(ParseEntry, reader.Rest(), count - i, base, fileSize, roots)
             == LoadRows(ParseEntry, index, count, base, fileSize, map[])
    {
      var e :- ReadEntry(reader);
      roots :- AddEntry(e, base, fileSize, roots);
    }
    if !reader.Eof() {
      return Err(Corruption(TrailingBytes));
    }
    r := Ok(roots);
  }

  /** The index, if the header is plausible and the index intact. */
  method ReadIndex(disk: Disk, c: Checks, file: Blob, h: Header) returns (r: Result<Blob>)
    modifies disk`faults
    ensures (r == IndexIn(c, file, h) && disk.faults == old(disk.faults)) || (r == Err(StorageFault) && disk.faults == old(disk.faults) + 1)
  {
    if h.count > MAX_ROOTS {
      return Err(Corruption(ImplausibleCount));
    }
    if HEADER_SIZE + h.indexSize > |file| {
      return Err(Corruption(IndexExceedsFile));
    }
    var index :- disk.Read(file, HEADER_SIZE, h.indexSize);
    assert index == file[HEADER_SIZE..HEADER_SIZE + h.indexSize];
    if c.on && h.indexSum != c.digest(index) {
      return Err(Corruption(ChecksumMismatch));
    }
    r := Ok(index);
  }

  method ReadBody(disk: Disk, c: Checks, file: Blob, h: Header) returns (r: Result<(Index, nat)>)
    modifies disk`faults
    ensures (r == LoadBody(c, file, h) && disk.faults == old(disk.faults)) || (r == Err(StorageFault) && disk.faults == old(disk.faults) + 1)
  {
    var index :- ReadIndex(disk, c, file, h);
    var roots := ReadRows(index, h.count, HEADER_SIZE + h.indexSize, |file|);
    r := Stamped(roots, h.sequence);
  }

  /** A missing or empty file is an empty image. */
  method Load(disk: Disk, c: Checks) returns (r: Result<(Index, nat)>)
    modifies disk`faults
    ensures || (r == Storage.LoadSnapshot(SnapshotFormat.FormatOf(c), disk.snapshot) && disk.faults == old(disk.faults))
            || (r == Err(StorageFault) && disk.faults == old(disk.faults) + 1)
  {
    if disk.snapshot.None? || disk.snapshot.value == [] {
      return Ok((map[], 0));
    }
    var file := disk.snapshot.value;
    if |file| < HEADER_SIZE {
      return Err(Corruption(SnapshotTruncated));
    }
    var header :- disk.Read(file, 0, HEADER_SIZE);
    assert header == file[..HEADER_SIZE];
    var h :- ReadHeader(c, header);
    r := ReadBody(disk, c, file, h);
  }
}
