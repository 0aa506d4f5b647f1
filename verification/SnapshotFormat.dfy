/** The bytes of the snapshot file: a checked header, an index in name order, then the
payloads one after another. */
module SnapshotFormat {
  import opened Bytes
  import opened BinaryIO
  import opened Records
  import opened Recovery
  import opened Ordering
  import opened Scanning
  import opened JournalFormat
  import Storage

  const SNAPSHOT_MAGIC: nat := 0x32_5041_4e53_504f
  const SNAPSHOT_FORMAT: nat := 2
  const HEADER_SIZE: nat := 44
  const MAX_ROOTS: nat := 10_000_000

  /** A root with the place of its payload, counted from the start of the payloads. */
  datatype IndexedRoot = IndexedRoot(name: Blob, record: RootRecord, relative: nat)

  // ------------------------------------------------------------------
  // Layout
  // ------------------------------------------------------------------

  /** Payloads follow one another in the order of the names. */
  function Laid(roots: Index, names: seq<Blob>, offset: nat): (rows: seq<IndexedRoot>)
    requires forall name | name in names :: name in roots
    ensures |rows| == |names|
    decreases |names|
  {
    if names == [] then []
    else [IndexedRoot(names[0], roots[names[0]], offset)]
         + Laid(roots, names[1..], offset + roots[names[0]].payload.size)
  }

  ghost function Layout(roots: Index): seq<IndexedRoot> {
    assert forall name | name in InOrder(roots.Keys) :: name in Elements(InOrder(roots.Keys));
    Laid(roots, InOrder(roots.Keys), 0)
  }

  /** The rows follow one another from `offset` without gap or overlap. */
  predicate Contiguous(rows: seq<IndexedRoot>, offset: nat)
    decreases |rows|
  {
    rows == [] || (rows[0].relative == offset && Contiguous(rows[1..], offset + rows[0].record.payload.size))
  }

  lemma {:induction false} LaidContiguous(roots: Index, names: seq<Blob>, offset: nat)
    requires forall name | name in names :: name in roots
    ensures Contiguous(Laid(roots, names, offset), offset)
    decreases |names|
  {
    if names != [] {
      LaidContiguous(roots, names[1..], offset + roots[names[0]].payload.size);
      assert Laid(roots, names, offset)[1..] == Laid(roots, names[1..], offset + roots[names[0]].payload.size);
    }
  }

  lemma {:induction false} LaidRow(roots: Index, names: seq<Blob>, offset: nat, i: nat)
    requires forall name | name in names :: name in roots
    requires i < |names|
    ensures var row := Laid(roots, names, offset)[i]; row.name == names[i] && row.record == roots[names[i]]
    decreases |names|
  {
    if i > 0 {
      LaidRow(roots, names[1..], offset + roots[names[0]].payload.size, i - 1);
    }
  }

  // ------------------------------------------------------------------
  // The bytes
  // ------------------------------------------------------------------

  function PlaceBytes(row: IndexedRoot): (b: Blob)
    ensures |b| == 20
  {
    Le(row.relative, 8) + (Le(row.record.payload.size, 8) + Le(row.record.payload.checksum, 4))
  }

  function EntryBytes(row: IndexedRoot): (b: Blob) {
    StringBytes(row.name) + (Le(row.record.version, 8) + (StringBytes(row.record.tag) + PlaceBytes(row)))
  }

  function IndexBytes(rows: seq<IndexedRoot>): Blob
    decreases |rows|
  {
    if rows == [] then [] else EntryBytes(rows[0]) + IndexBytes(rows[1..])
  }

  /** The payloads in the order of the rows. */
  function Data(rows: seq<IndexedRoot>, payloads: map<Blob, Blob>): Blob
    decreases |rows|
  {
    if rows == [] then []
    else (if rows[0].name in payloads then payloads[rows[0].name] else []) + Data(rows[1..], payloads)
  }

  function HeaderFields(c: Checks, sequence: nat, count: nat, index: Blob): (h: Blob)
    ensures |h| == HEADER_SIZE - 4
  {
    Le(SNAPSHOT_MAGIC, 8) + (Le(SNAPSHOT_FORMAT, 4) + (Le(sequence, 8) + (Le(count, 8)
    + (Le(|index|, 8) + Le(Seal(c, index), 4)))))
  }

  function HeaderBytes(c: Checks, sequence: nat, count: nat, index: Blob): (h: Blob)
    ensures |h| == HEADER_SIZE
  {
    HeaderFields(c, sequence, count, index) + Le(Seal(c, HeaderFields(c, sequence, count, index)), 4)
  }

  function FileBytes(c: Checks, sequence: nat, rows: seq<IndexedRoot>, data: Blob): Blob {
    HeaderBytes(c, sequence, |rows|, IndexBytes(rows)) + (IndexBytes(rows) + data)
  }

  function Base(rows: seq<IndexedRoot>): nat {
    HEADER_SIZE + |IndexBytes(rows)|
  }

  ghost function Image(c: Checks, roots: Index, sequence: nat, payloads: map<Blob, Blob>): Blob {
    FileBytes(c, sequence, Layout(roots), Data(Layout(roots), payloads))
  }

  /** The root once the image is installed. */
  function PlacedRecord(row: IndexedRoot, base: nat): RootRecord {
    RootRecord(row.record.version, row.record.tag,
               Loc(SnapshotFile, base + row.relative, row.record.payload.size, row.record.payload.checksum))
  }

  function PlaceAll(rows: seq<IndexedRoot>, base: nat, roots: Index): Index
    decreases |rows|
  {
    if rows == [] then roots else PlaceAll(rows[1..], base, roots[rows[0].name := PlacedRecord(rows[0], base)])
  }

  ghost function Placed(roots: Index): Index {
    PlaceAll(Layout(roots), Base(Layout(roots)), map[])
  }

  // ------------------------------------------------------------------
  // Loading
  // ------------------------------------------------------------------

  datatype Header = Header(sequence: nat, count: nat, indexSize: nat, indexSum: nat)

  datatype Entry = Entry(name: Blob, version: nat, tag: Blob, relative: nat, size: nat, checksum: nat)

  function ParseCounts(s: Blob): Result<((nat, nat, nat), Blob)> {
    var (sequence, s1) :- ReadScalar(s, 8);
    var (count, s2) :- ReadScalar(s1, 8);
    var (indexSize, s3) :- ReadScalar(s2, 8);
    Ok(((sequence, count, indexSize), s3))
  }

  function ParseSums(s: Blob): Result<(nat, nat)> {
    var (indexSum, s1) :- ReadScalar(s, 4);
    var (headerSum, s2) :- ReadScalar(s1, 4);
    if s2 != [] then Err(Corruption(TrailingBytes)) else Ok((indexSum, headerSum))
  }

  function ParseHeader(c: Checks, h: Blob): Result<Header> {
    var (magic, s1) :- ReadScalar(h, 8);
    if magic != SNAPSHOT_MAGIC then Err(Corruption(BadMagic)) else
    var (format, s2) :- ReadScalar(s1, 4);
    if format != SNAPSHOT_FORMAT then Err(Corruption(BadFormat)) else
    var ((sequence, count, indexSize), s3) :- ParseCounts(s2);
    var (indexSum, headerSum) :- ParseSums(s3);
    if c.on && headerSum != c.digest(h[..|h| - 4]) then Err(Corruption(ChecksumMismatch))
    else Ok(Header(sequence, count, indexSize, indexSum))
  }

  function ParsePlace(s: Blob): Result<((nat, nat, nat), Blob)> {
    var (relative, s1) :- ReadScalar(s, 8);
    var (size, s2) :- ReadScalar(s1, 8);
    var (checksum, s3) :- ReadScalar(s2, 4);
    Ok(((relative, size, checksum), s3))
  }

  function ParseEntry(s: Blob): Result<(Entry, Blob)> {
    var ((name, version), s1) :- ParseNaming(s);
    var (tag, s2) :- ReadString(s1);
    var ((relative, size, checksum), s3) :- ParsePlace(s2);
    Ok((Entry(name, version, tag, relative, size, checksum), s3))
  }

  /** Adds one root of the index, whose payload must lie within the file. */
  function AddEntry(e: Entry, base: nat, fileSize: nat, roots: Index): Result<Index>
    requires base <= fileSize
  {
    if e.relative > fileSize - base || e.size > fileSize - base - e.relative then Err(Corruption(LocatorExceedsFile))
    else if e.name in roots then Err(Corruption(DuplicateRoot))
    else Ok(roots[e.name := RootRecord(e.version, e.tag, Loc(SnapshotFile, base + e.relative, e.size, e.checksum))])
  }

  type EntryParser = Blob -> Result<(Entry, Blob)>

  /** `count` entries, which must be all of the index. */
  function LoadRows(parse: EntryParser, s: Blob, count: nat, base: nat, fileSize: nat, roots: Index): Result<Index>
    requires base <= fileSize
    decreases count
  {
    if count == 0 then (if s != [] then Err(Corruption(TrailingBytes)) else Ok(roots)) else
    var (e, rest) :- parse(s);
    var roots1 :- AddEntry(e, base, fileSize, roots);
    LoadRows(parse, rest, count - 1, base, fileSize, roots1)
  }

  function Stamped(roots: Result<Index>, sequence: nat): Result<(Index, nat)> {
    match roots
    case Ok(index) => Ok((index, sequence))
    case Err(e) => Err(e)
  }

  /** Takes the index from the file, if the header is plausible and the index intact. */
  function IndexIn(c: Checks, file: Blob, h: Header): (r: Result<Blob>)
    ensures r.Ok? ==> HEADER_SIZE + h.indexSize <= |file| && r.value == file[HEADER_SIZE..HEADER_SIZE + h.indexSize]
  {
    if h.count > MAX_ROOTS then Err(Corruption(ImplausibleCount))
    else if HEADER_SIZE + h.indexSize > |file| then Err(Corruption(IndexExceedsFile))
    else if c.on && h.indexSum != c.digest(file[HEADER_SIZE..HEADER_SIZE + h.indexSize]) then Err(Corruption(ChecksumMismatch))
    else Ok(file[HEADER_SIZE..HEADER_SIZE + h.indexSize])
  }

  function LoadBody(c: Checks, file: Blob, h: Header): Result<(Index, nat)> {
    var index :- IndexIn(c, file, h);
    Stamped(LoadRows(ParseEntry, index, h.count, HEADER_SIZE + h.indexSize, |file|, map[]), h.sequence)
  }

  function LoadImage(c: Checks, file: Blob): Result<(Index, nat)> {
    if |file| < HEADER_SIZE then Err(Corruption(SnapshotTruncated)) else
    var h :- ParseHeader(c, file[..HEADER_SIZE]);
    LoadBody(c, file, h)
  }

  // ------------------------------------------------------------------
  // What was written loads back
  // ------------------------------------------------------------------

  /** The fields are in range and the payload ends within a 64-bit offset. */
  predicate RowFits(row: IndexedRoot) {
    && |row.name| < TWO64 && |row.record.tag| < TWO64 && row.record.version < TWO64
    && row.relative + row.record.payload.size < TWO64 && row.record.payload.checksum < TWO32
  }

  predicate RowsFit(rows: seq<IndexedRoot>) {
    forall i | 0 <= i < |rows| :: RowFits(rows[i])
  }

  function EntryOf(row: IndexedRoot): Entry {
    Entry(row.name, row.record.version, row.record.tag, row.relative, row.record.payload.size, row.record.payload.checksum)
  }

  lemma {:induction false} PlaceReads(row: IndexedRoot, rest: Blob)
    requires RowFits(row)
    ensures ParsePlace(PlaceBytes(row) + rest) == Ok(((row.relative, row.record.payload.size, row.record.payload.checksum), rest))
  {
    Widths();
    var a, b, d := Le(row.relative, 8), Le(row.record.payload.size, 8), Le(row.record.payload.checksum, 4);
    ConcatAssoc(a, b + d, rest);
    ConcatAssoc(b, d, rest);
    ReadScalarLe(row.relative, 8, b + (d + rest));
    ReadScalarLe(row.record.payload.size, 8, d + rest);
    ReadScalarLe(row.record.payload.checksum, 4, rest);
  }

  lemma {:induction false} EntryReads(row: IndexedRoot, rest: Blob)
    requires RowFits(row)
    ensures ParseEntry(EntryBytes(row) + rest) == Ok((EntryOf(row), rest))
  {
    var n, v, t, p := StringBytes(row.name), Le(row.record.version, 8), StringBytes(row.record.tag), PlaceBytes(row);
    ConcatAssoc(n, v + (t + p), rest);
    ConcatAssoc(v, t + p, rest);
    ConcatAssoc(t, p, rest);
    ParseOfNaming(row.name, row.record.version, t + (p + rest));
    ReadStringBytes(row.record.tag, p + rest);
    PlaceReads(row, rest);
  }

  predicate Distinct(rows: seq<IndexedRoot>) {
    forall i, j | 0 <= i < j < |rows| :: rows[i].name != rows[j].name
  }

  predicate Unheld(rows: seq<IndexedRoot>, roots: Index) {
    forall i | 0 <= i < |rows| :: rows[i].name !in roots
  }

  predicate Within(rows: seq<IndexedRoot>, base: nat, fileSize: nat) {
    forall i | 0 <= i < |rows| :: base + rows[i].relative + rows[i].record.payload.size <= fileSize
  }

  /** The rows are in range, distinct, new to the roots, and their payloads lie in the file. */
  function Loadable(rows: seq<IndexedRoot>, base: nat, fileSize: nat, roots: Index): Law {
    if base <= fileSize && RowsFit(rows) && Within(rows, base, fileSize) && Distinct(rows) && Unheld(rows, roots)
    then Kept else Broken
  }

  lemma {:induction false} EntryAdds(rows: seq<IndexedRoot>, base: nat, fileSize: nat, roots: Index)
    requires rows != [] && Loadable(rows, base, fileSize, roots).Kept?
    ensures AddEntry(EntryOf(rows[0]), base, fileSize, roots) == Ok(roots[rows[0].name := PlacedRecord(rows[0], base)])
    ensures Loadable(rows[1..], base, fileSize, roots[rows[0].name := PlacedRecord(rows[0], base)]).Kept?
  {
  }

  predicate Reads(parse: EntryParser, row: IndexedRoot, rest: Blob) {
    parse(EntryBytes(row) + rest) == Ok((EntryOf(row), rest))
  }

  /** The parser reads every entry that is in range. */
  ghost function ReadsAll(parse: EntryParser): Law {
    if forall row, rest {:trigger Reads(parse, row, rest)} | RowFits(row) :: Reads(parse, row, rest) then Kept else Broken
  }

  lemma {:induction false} ParseReadsAll()
    ensures ReadsAll(ParseEntry).Kept?
  {
    forall row, rest | RowFits(row)
      ensures Reads(ParseEntry, row, rest)
    {
      EntryReads(row, rest);
    }
  }

  /** The index loads back as the roots it places. */
  lemma {:induction false} RowsLoad(parse: EntryParser, rows: seq<IndexedRoot>, base: nat, fileSize: nat, roots: Index)
    requires ReadsAll(parse).Kept? && Loadable(rows, base, fileSize, roots).Kept?
    ensures LoadRows(parse, IndexBytes(rows), |rows|, base, fileSize, roots) == Ok(PlaceAll(rows, base, roots))
    decreases |rows|
  {
    if rows != [] {
      assert Reads(parse, rows[0], IndexBytes(rows[1..]));
      EntryAdds(rows, base, fileSize, roots);
      RowsLoad(parse, rows[1..], base, fileSize, roots[rows[0].name := PlacedRecord(rows[0], base)]);
    }
  }

  lemma {:induction false} CountsRead(sequence: nat, count: nat, size: nat, rest: Blob)
    requires sequence < TWO64 && count < TWO64 && size < TWO64
    ensures ParseCounts(Le(sequence, 8) + (Le(count, 8) + (Le(size, 8) + rest))) == Ok(((sequence, count, size), rest))
  {
    Widths();
    ReadScalarLe(sequence, 8, Le(count, 8) + (Le(size, 8) + rest));
    ReadScalarLe(count, 8, Le(size, 8) + rest);
    ReadScalarLe(size, 8, rest);
  }

  lemma {:induction false} SumsRead(a: Sum32, b: Sum32)
    ensures ParseSums(Le(a, 4) + Le(b, 4)) == Ok((a, b))
  {
    Widths();
    ReadScalarLe(a, 4, Le(b, 4));
    assert Le(b, 4) + [] == Le(b, 4);
    ReadScalarLe(b, 4, []);
  }

  lemma {:induction false} HeaderNested(c: Checks, sequence: nat, count: nat, index: Blob)
    ensures HeaderBytes(c, sequence, count, index)
            == Le(SNAPSHOT_MAGIC, 8) + (Le(SNAPSHOT_FORMAT, 4) + (Le(sequence, 8) + (Le(count, 8) + (Le(|index|, 8)
               + (Le(Seal(c, index), 4) + Le(Seal(c, HeaderFields(c, sequence, count, index)), 4))))))
  {
    var m, f, s, n, i, x := Le(SNAPSHOT_MAGIC, 8), Le(SNAPSHOT_FORMAT, 4), Le(sequence, 8), Le(count, 8), Le(|index|, 8), Le(Seal(c, index), 4);
    var y := Le(Seal(c, HeaderFields(c, sequence, count, index)), 4);
    ConcatAssoc(m, f + (s + (n + (i + x))), y);
    ConcatAssoc(f, s + (n + (i + x)), y);
    ConcatAssoc(s, n + (i + x), y);
    ConcatAssoc(n, i + x, y);
    ConcatAssoc(i, x, y);
  }

  lemma {:induction false} HeaderReads(c: Checks, sequence: nat, count: nat, index: Blob)
    requires sequence < TWO64 && count < TWO64 && |index| < TWO64
    ensures ParseHeader(c, HeaderBytes(c, sequence, count, index)) == Ok(Header(sequence, count, |index|, Seal(c, index)))
  {
    Widths();
    var x, y := Le(Seal(c, index), 4), Le(Seal(c, HeaderFields(c, sequence, count, index)), 4);
    var s2 := Le(sequence, 8) + (Le(count, 8) + (Le(|index|, 8) + (x + y)));
    HeaderNested(c, sequence, count, index);
    ReadScalarLe(SNAPSHOT_MAGIC, 8, Le(SNAPSHOT_FORMAT, 4) + s2);
    ReadScalarLe(SNAPSHOT_FORMAT, 4, s2);
    CountsRead(sequence, count, |index|, x + y);
    SumsRead(Seal(c, index), Seal(c, HeaderFields(c, sequence, count, index)));
    ConcatParts(HeaderFields(c, sequence, count, index), y);
  }

  lemma {:induction false} BodyLoads(c: Checks, file: Blob, h: Header, rows: seq<IndexedRoot>)
    requires h == Header(h.sequence, |rows|, |IndexBytes(rows)|, Seal(c, IndexBytes(rows)))
    requires |rows| <= MAX_ROOTS && Base(rows) <= |file| && file[HEADER_SIZE..Base(rows)] == IndexBytes(rows)
    requires Loadable(rows, Base(rows), |file|, map[]).Kept?
    ensures LoadBody(c, file, h) == Ok((PlaceAll(rows, Base(rows), map[]), h.sequence))
  {
    ParseReadsAll();
    RowsLoad(ParseEntry, rows, Base(rows), |file|, map[]);
  }

  lemma {:induction false} FileParts(c: Checks, sequence: nat, rows: seq<IndexedRoot>, data: Blob)
    ensures var file := FileBytes(c, sequence, rows, data);
            && |file| == Base(rows) + |data|
            && file[..HEADER_SIZE] == HeaderBytes(c, sequence, |rows|, IndexBytes(rows))
            && file[HEADER_SIZE..Base(rows)] == IndexBytes(rows)
            && file[Base(rows)..] == data
  {
    var index := IndexBytes(rows);
    var header, file := HeaderBytes(c, sequence, |rows|, index), FileBytes(c, sequence, rows, data);
    ConcatParts(header, index + data);
    ConcatParts(index, data);
    assert file[HEADER_SIZE..Base(rows)] == file[HEADER_SIZE..][..|index|];
    DropDrop(file, HEADER_SIZE, |index|);
  }

  lemma {:induction false} FileLoads(c: Checks, sequence: nat, rows: seq<IndexedRoot>, data: Blob)
    requires sequence < TWO64 && |rows| <= MAX_ROOTS && |IndexBytes(rows)| < TWO64
    requires Loadable(rows, Base(rows), Base(rows) + |data|, map[]).Kept?
    ensures LoadImage(c, FileBytes(c, sequence, rows, data)) == Ok((PlaceAll(rows, Base(rows), map[]), sequence))
  {
    var index := IndexBytes(rows);
    FileParts(c, sequence, rows, data);
    HeaderReads(c, sequence, |rows|, index);
    BodyLoads(c, FileBytes(c, sequence, rows, data), Header(sequence, |rows|, |index|, Seal(c, index)), rows);
  }

  // ------------------------------------------------------------------
  // Payload regions
  // ------------------------------------------------------------------

  predicate Supplied(rows: seq<IndexedRoot>, payloads: map<Blob, Blob>) {
    forall i | 0 <= i < |rows| ::
      rows[i].name in payloads && |payloads[rows[i].name]| == rows[i].record.payload.size
  }

  /** The region of a row in the payloads of rows that start at `offset` holds the payload. */
  predicate Holds(data: Blob, row: IndexedRoot, offset: nat, payload: Blob) {
    && offset <= row.relative && InBounds(data, row.relative - offset, row.record.payload.size)
    && Slice(data, row.relative - offset, row.record.payload.size) == payload
  }

  lemma {:induction false} HoldsBehind(first: Blob, rest: Blob, row: IndexedRoot, offset: nat, payload: Blob)
    requires Holds(rest, row, offset + |first|, payload)
    ensures Holds(first + rest, row, offset, payload)
  {
    SliceSkip(first, rest, row.relative - offset - |first|, row.record.payload.size);
  }

  /** Every payload lies whole in its region. */
  lemma {:induction false} RegionHolds(rows: seq<IndexedRoot>, payloads: map<Blob, Blob>, offset: nat, i: nat)
    requires Contiguous(rows, offset) && Supplied(rows, payloads) && i < |rows|
    ensures Holds(Data(rows, payloads), rows[i], offset, payloads[rows[i].name])
    decreases |rows|
  {
    var first, rest := payloads[rows[0].name], Data(rows[1..], payloads);
    if i > 0 {
      RegionHolds(rows[1..], payloads, offset + |first|, i - 1);
      HoldsBehind(first, rest, rows[i], offset, payloads[rows[i].name]);
    } else {
      SliceFront(first, rest);
    }
  }

  /** Regions of different rows do not overlap. */
  lemma {:induction false} RegionsDisjoint(rows: seq<IndexedRoot>, offset: nat, i: nat, j: nat)
    requires Contiguous(rows, offset) && i < j < |rows|
    ensures offset <= rows[i].relative && rows[i].relative + rows[i].record.payload.size <= rows[j].relative
    decreases |rows|
  {
    if i > 0 {
      RegionsDisjoint(rows[1..], offset + rows[0].record.payload.size, i - 1, j - 1);
    } else if j > 1 {
      RegionsDisjoint(rows[1..], offset + rows[0].record.payload.size, 0, j - 1);
    }
  }

  lemma {:induction false} PlaceKeeps(rows: seq<IndexedRoot>, base: nat, roots: Index, name: Blob)
    requires name in roots && forall i | 0 <= i < |rows| :: rows[i].name != name
    ensures name in PlaceAll(rows, base, roots) && PlaceAll(rows, base, roots)[name] == roots[name]
    decreases |rows|
  {
    if rows != [] {
      PlaceKeeps(rows[1..], base, roots[rows[0].name := PlacedRecord(rows[0], base)], name);
    }
  }

  lemma {:induction false} PlacesRow(rows: seq<IndexedRoot>, base: nat, roots: Index, i: nat)
    requires Distinct(rows) && i < |rows|
    ensures rows[i].name in PlaceAll(rows, base, roots)
    ensures PlaceAll(rows, base, roots)[rows[i].name] == PlacedRecord(rows[i], base)
    decreases |rows|
  {
    var roots1 := roots[rows[0].name := PlacedRecord(rows[0], base)];
    if i > 0 {
      PlacesRow(rows[1..], base, roots1, i - 1);
    } else {
      PlaceKeeps(rows[1..], base, roots1, rows[0].name);
    }
  }

  function Names(rows: seq<IndexedRoot>): set<Blob> {
    set i | 0 <= i < |rows| :: rows[i].name
  }

  lemma {:induction false} PlaceKeys(rows: seq<IndexedRoot>, base: nat, roots: Index)
    ensures PlaceAll(rows, base, roots).Keys == roots.Keys + Names(rows)
    decreases |rows|
  {
    if rows != [] {
      PlaceKeys(rows[1..], base, roots[rows[0].name := PlacedRecord(rows[0], base)]);
      assert rows == [rows[0]] + rows[1..];
      assert Names(rows) == {rows[0].name} + Names(rows[1..]);
    }
  }

  // ------------------------------------------------------------------
  // The layout of an index
  // ------------------------------------------------------------------

  lemma {:induction false} LaidDistinct(roots: Index, names: seq<Blob>)
    requires Sorted(names) && forall name | name in names :: name in roots
    ensures Distinct(Laid(roots, names, 0))
  {
    var rows := Laid(roots, names, 0);
    forall i, j | 0 <= i < j < |rows|
      ensures rows[i].name != rows[j].name
    {
      LaidRow(roots, names, 0, i);
      LaidRow(roots, names, 0, j);
      SortedDistinct(names, i, j);
    }
  }

  lemma {:induction false} LaidNames(roots: Index, names: seq<Blob>)
    requires forall name | name in names :: name in roots
    ensures Names(Laid(roots, names, 0)) == Elements(names)
  {
    var rows := Laid(roots, names, 0);
    forall i | 0 <= i < |rows|
      ensures rows[i].name == names[i]
    {
      LaidRow(roots, names, 0, i);
    }
    forall name | name in Elements(names)
      ensures name in Names(rows)
    {
      var i :| 0 <= i < |names| && names[i] == name;
      assert rows[i].name in Names(rows);
    }
  }

  /** Every row is a root of the index. */
  predicate FromIndex(rows: seq<IndexedRoot>, roots: Index) {
    forall i | 0 <= i < |rows| :: rows[i].name in roots && rows[i].record == roots[rows[i].name]
  }

  lemma {:induction false} LaidFrom(roots: Index, names: seq<Blob>)
    requires forall name | name in names :: name in roots
    ensures FromIndex(Laid(roots, names, 0), roots)
  {
    forall i | 0 <= i < |names|
      ensures var row := Laid(roots, names, 0)[i]; row.name in roots && row.record == roots[row.name]
    {
      LaidRow(roots, names, 0, i);
    }
  }

  /** The layout is a listing of the index, each root once, without gaps. */
  function Lists(rows: seq<IndexedRoot>, roots: Index): Law {
    if |rows| == |roots| && Contiguous(rows, 0) && Distinct(rows) && Names(rows) == roots.Keys && FromIndex(rows, roots)
    then Kept else Broken
  }

  lemma {:induction false} LayoutRows(roots: Index)
    ensures Lists(Layout(roots), roots).Kept?
  {
    var names := InOrder(roots.Keys);
    assert forall name | name in names :: name in Elements(names);
    LaidContiguous(roots, names, 0);
    LaidDistinct(roots, names);
    LaidNames(roots, names);
    LaidFrom(roots, names);
  }

  /** What the writer does not check but the reader demands, and the writer's own overflow check. */
  ghost predicate Fits(roots: Index, sequence: nat) {
    sequence < TWO64 && |roots| <= MAX_ROOTS && |IndexBytes(Layout(roots))| < TWO64 && RowsFit(Layout(roots))
  }

  lemma {:induction false} LayoutSupplied(roots: Index, payloads: map<Blob, Blob>, digest: Digest)
    requires Storage.Supplies(roots, payloads, digest)
    ensures Supplied(Layout(roots), payloads)
  {
    LayoutRows(roots);
  }

  lemma {:induction false} RowsLoadable(rows: seq<IndexedRoot>, payloads: map<Blob, Blob>)
    requires RowsFit(rows) && Contiguous(rows, 0) && Distinct(rows) && Supplied(rows, payloads)
    ensures Loadable(rows, Base(rows), Base(rows) + |Data(rows, payloads)|, map[]).Kept?
  {
    forall i | 0 <= i < |rows|
      ensures rows[i].relative + rows[i].record.payload.size <= |Data(rows, payloads)|
    {
      RegionHolds(rows, payloads, 0, i);
    }
  }

  lemma {:induction false} ListingLoads(c: Checks, roots: Index, rows: seq<IndexedRoot>, sequence: nat, payloads: map<Blob, Blob>)
    requires Lists(rows, roots).Kept? && RowsFit(rows) && Supplied(rows, payloads)
    requires sequence < TWO64 && |roots| <= MAX_ROOTS && |IndexBytes(rows)| < TWO64
    ensures LoadImage(c, FileBytes(c, sequence, rows, Data(rows, payloads))) == Ok((PlaceAll(rows, Base(rows), map[]), sequence))
  {
    RowsLoadable(rows, payloads);
    FileLoads(c, sequence, rows, Data(rows, payloads));
  }

  lemma {:induction false} LayoutLoads(c: Checks, roots: Index, sequence: nat, payloads: map<Blob, Blob>)
    requires Fits(roots, sequence) && Supplied(Layout(roots), payloads)
    ensures LoadImage(c, Image(c, roots, sequence, payloads)) == Ok((Placed(roots), sequence))
  {
    LayoutRows(roots);
    ListingLoads(c, roots, Layout(roots), sequence, payloads);
  }

  /** Only the locator of a root changed. */
  predicate Relocated(r: RootRecord, placed: RootRecord) {
    placed == RootRecord(r.version, r.tag, Loc(SnapshotFile, placed.payload.offset, r.payload.size, r.payload.checksum))
  }

  /** The placed locator selects the payload in the file. */
  lemma {:induction false} RowSelects(c: Checks, rows: seq<IndexedRoot>, sequence: nat, payloads: map<Blob, Blob>, i: nat)
    requires Supplied(rows, payloads) && Contiguous(rows, 0) && i < |rows|
    ensures var where := PlacedRecord(rows[i], Base(rows)).payload;
            var file := FileBytes(c, sequence, rows, Data(rows, payloads));
            && InBounds(file, where.offset, where.size)
            && Slice(file, where.offset, where.size) == payloads[rows[i].name]
  {
    RegionHolds(rows, payloads, 0, i);
    FileParts(c, sequence, rows, Data(rows, payloads));
    SliceBehind(FileBytes(c, sequence, rows, Data(rows, payloads)), Base(rows), rows[i].relative, rows[i].record.payload.size);
  }

  lemma {:induction false} RowOf(roots: Index, rows: seq<IndexedRoot>, name: Blob) returns (i: nat)
    requires Lists(rows, roots).Kept? && name in roots
    ensures i < |rows| && rows[i].name == name && rows[i].record == roots[name]
    ensures name in PlaceAll(rows, Base(rows), map[])
    ensures PlaceAll(rows, Base(rows), map[])[name] == PlacedRecord(rows[i], Base(rows))
  {
    assert name in Names(rows);
    i :| 0 <= i < |rows| && rows[i].name == name;
    PlacesRow(rows, Base(rows), map[], i);
  }

  lemma {:induction false} PlacedSelects(c: Checks, roots: Index, sequence: nat, payloads: map<Blob, Blob>, name: Blob)
    requires Supplied(Layout(roots), payloads) && name in roots && name in payloads
    ensures name in Placed(roots) && Relocated(roots[name], Placed(roots)[name])
    ensures var where := Placed(roots)[name].payload;
            && InBounds(Image(c, roots, sequence, payloads), where.offset, where.size)
            && Slice(Image(c, roots, sequence, payloads), where.offset, where.size) == payloads[name]
  {
    LayoutRows(roots);
    var i := RowOf(roots, Layout(roots), name);
    RowSelects(c, Layout(roots), sequence, payloads, i);
  }

  lemma {:induction false} SliceBehind(file: Blob, base: nat, offset: nat, size: nat)
    requires base <= |file| && InBounds(file[base..], offset, size)
    ensures InBounds(file, base + offset, size)
    ensures Slice(file, base + offset, size) == Slice(file[base..], offset, size)
  {
  }

  // ------------------------------------------------------------------
  // The laws of the format
  // ------------------------------------------------------------------

  ghost function FormatOf(c: Checks): Storage.SnapFormat {
    Storage.SnapFormat(
      (roots: Index, sequence: nat, payloads: map<Blob, Blob>) => Image(c, roots, sequence, payloads),
      (roots: Index) => Placed(roots),
      (file: Blob) => LoadImage(c, file),
      (roots: Index, sequence: nat) => Fits(roots, sequence))
  }

  lemma {:induction false} ImageReloads(c: Checks, roots: Index, sequence: nat, payloads: map<Blob, Blob>)
    requires Fits(roots, sequence) && Storage.Supplies(roots, payloads, c.digest)
    ensures Storage.Reloads(FormatOf(c), roots, sequence, payloads)
  {
    LayoutSupplied(roots, payloads, c.digest);
    LayoutLoads(c, roots, sequence, payloads);
    FileParts(c, sequence, Layout(roots), Data(Layout(roots), payloads));
  }

  lemma {:induction false} ImagePlaces(c: Checks, roots: Index, sequence: nat, payloads: map<Blob, Blob>, name: Blob)
    requires Storage.Supplies(roots, payloads, c.digest) && name in roots && name in payloads
    ensures Storage.PlacesAt(FormatOf(c), roots, sequence, payloads, name)
  {
    LayoutSupplied(roots, payloads, c.digest);
    PlacedSelects(c, roots, sequence, payloads, name);
  }

  lemma {:induction false} PlacedKeys(roots: Index)
    ensures Placed(roots).Keys == roots.Keys
  {
    LayoutRows(roots);
    PlaceKeys(Layout(roots), Base(Layout(roots)), map[]);
  }

  /** A saved image loads back as the index that saving returned, whose locators select the
      payloads saved. */
  lemma {:induction false} FormatLaws(c: Checks)
    ensures Storage.Snapshots(FormatOf(c), c.digest)
  {
    var g := FormatOf(c);
    forall roots, sequence, payloads | g.fits(roots, sequence) && Storage.Supplies(roots, payloads, c.digest)
      ensures Storage.Reloads(g, roots, sequence, payloads)
    {
      ImageReloads(c, roots, sequence, payloads);
    }
    forall roots
      ensures g.placed(roots).Keys == roots.Keys
    {
      PlacedKeys(roots);
    }
    forall roots, sequence, payloads, name
      | g.fits(roots, sequence) && Storage.Supplies(roots, payloads, c.digest) && name in roots
      ensures Storage.PlacesAt(g, roots, sequence, payloads, name)
    {
      ImagePlaces(c, roots, sequence, payloads, name);
    }
  }
}
