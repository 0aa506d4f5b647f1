/** Journal records, root updates and the resident index entries. */
module Records {
  import opened Bytes

  const BEGIN: nat := 1
  const ROOT_UPDATE: nat := 2
  const COMMIT: nat := 3

  datatype Record = Record(kind: nat, sequence: nat, transaction: nat, payload: Blob)

  datatype Source = SnapshotFile | JournalFile

  /** Where a payload lies, and the checksum it must have. */
  datatype Loc = Loc(source: Source, offset: nat, size: nat, checksum: nat)

  datatype RootRecord = RootRecord(version: nat, tag: Blob, payload: Loc)

  datatype RootUpdate = RootUpdate(name: Blob, expected: nat, next: nat, tag: Blob, payload: Blob)

  datatype RecoveredUpdate = RecoveredUpdate(name: Blob, expected: nat, next: nat, tag: Blob, payload: Loc)

  /** What the scan finds at the front of the bytes that are left. */
  datatype Scan = Torn | Bad(error: Error) | Found(record: Record, size: nat)
}

/** The bytes of journal records: framing, update payloads and payload locators. */
module JournalFormat {
  import opened Bytes
  import opened BinaryIO
  import opened Records
  import Scanning

  const RECORD_MAGIC: nat := 0x4f50_4a52
  const RECORD_FORMAT: nat := 1
  const PREFIX_SIZE: nat := 12
  const BODY_PREFIX_SIZE: nat := 28
  const MAX_FRAME: nat := 0x100_0000_0000

  // ------------------------------------------------------------------
  // Framing
  // ------------------------------------------------------------------

  function Body(rec: Record): (b: Blob)
    ensures |b| == BODY_PREFIX_SIZE + |rec.payload|
  {
    Le(RECORD_FORMAT, 2) + (Le(rec.kind, 2) + (Le(rec.sequence, 8) + (Le(rec.transaction, 8)
    + (Le(|rec.payload|, 8) + rec.payload))))
  }

  function Seal(c: Checks, body: Blob): Sum32 {
    if c.on then c.digest(body) else 0
  }

  function FrameSize(rec: Record): nat {
    PREFIX_SIZE + BODY_PREFIX_SIZE + |rec.payload| + 4
  }

  function Frame(c: Checks, rec: Record): (f: Blob)
    ensures |f| == FrameSize(rec)
  {
    Le(RECORD_MAGIC, 4) + (Le(|Body(rec)| + 4, 8) + (Body(rec) + Le(Seal(c, Body(rec)), 4)))
  }

  /** The ranges of the fields, and the frame length a reader accepts. */
  predicate RecordFits(rec: Record) {
    && rec.kind < TWO16 && rec.sequence < TWO64 && rec.transaction < TWO64
    && BODY_PREFIX_SIZE + |rec.payload| + 4 <= MAX_FRAME
  }

  function ParseBody(body: Blob): Result<Record> {
    var (format, s1) :- ReadScalar(body, 2);
    if format != RECORD_FORMAT then Err(Corruption(BadFormat)) else
    var (kind, s2) :- ReadScalar(s1, 2);
    var (sequence, s3) :- ReadScalar(s2, 8);
    var (transaction, s4) :- ReadScalar(s3, 8);
    var (size, s5) :- ReadScalar(s4, 8);
    if size > |s5| then Err(Corruption(LengthExceedsPayload))
    else if size < |s5| then Err(Corruption(TrailingBytes))
    else Ok(Record(kind, sequence, transaction, s5))
  }

  function ScanOne(c: Checks, s: Blob): (r: Scan)
    ensures r.Found? ==> PREFIX_SIZE < r.size <= |s|
  {
    if |s| < PREFIX_SIZE then Torn
    else if FromLe(s[..4]) != RECORD_MAGIC then Bad(Corruption(BadMagic))
    else ScanSized(c, s, FromLe(s[4..12]))
  }

  function ScanSized(c: Checks, s: Blob, size: nat): (r: Scan)
    requires PREFIX_SIZE <= |s|
    ensures r.Found? ==> r.size == PREFIX_SIZE + size <= |s| && size >= 4
  {
    if size < 4 || size > MAX_FRAME then Bad(Corruption(BadLength))
    else if size > |s| - PREFIX_SIZE then Torn
    else ScanFrame(c, s[PREFIX_SIZE..PREFIX_SIZE + size])
  }

  function ScanFrame(c: Checks, frame: Blob): (r: Scan)
    requires |frame| >= 4
    ensures r.Found? ==> r.size == PREFIX_SIZE + |frame|
    ensures !r.Torn?
  {
    var body := frame[..|frame| - 4];
    if c.on && FromLe(frame[|frame| - 4..]) != c.digest(body) then Bad(Corruption(ChecksumMismatch))
    else match ParseBody(body)
      case Err(e) => Bad(e)
      case Ok(rec) => Found(rec, PREFIX_SIZE + |frame|)
  }

  lemma {:induction false} ParseOfBody(rec: Record)
    requires RecordFits(rec)
    ensures ParseBody(Body(rec)) == Ok(rec)
  {
    Widths();
    var s5 := rec.payload;
    var s4 := Le(|rec.payload|, 8) + s5;
    var s3 := Le(rec.transaction, 8) + s4;
    var s2 := Le(rec.sequence, 8) + s3;
    var s1 := Le(rec.kind, 2) + s2;
    ReadScalarLe(RECORD_FORMAT, 2, s1);
    ReadScalarLe(rec.kind, 2, s2);
    ReadScalarLe(rec.sequence, 8, s3);
    ReadScalarLe(rec.transaction, 8, s4);
    ReadScalarLe(|rec.payload|, 8, s5);
  }

  lemma {:induction false} ScanOfFrame(c: Checks, rec: Record)
    requires RecordFits(rec)
    ensures ScanFrame(c, Body(rec) + Le(Seal(c, Body(rec)), 4)) == Found(rec, FrameSize(rec))
  {
    Widths();
    var body, seal := Body(rec), Seal(c, Body(rec));
    var frame := body + Le(seal, 4);
    assert frame[..|frame| - 4] == body;
    assert frame[|frame| - 4..] == Le(seal, 4);
    FromLeOfLe(seal, 4);
    ParseOfBody(rec);
  }

  /** The fields of the prefix, when the bytes begin with one. */
  lemma {:induction false} PrefixFields(size: nat, rest: Blob)
    requires size < TWO64
    ensures var s := Le(RECORD_MAGIC, 4) + (Le(size, 8) + rest);
            |s| == PREFIX_SIZE + |rest| && FromLe(s[..4]) == RECORD_MAGIC && FromLe(s[4..12]) == size
  {
    Widths();
    var s := Le(RECORD_MAGIC, 4) + (Le(size, 8) + rest);
    FromLeOfLe(RECORD_MAGIC, 4);
    FromLeOfLe(size, 8);
    assert s[..4] == Le(RECORD_MAGIC, 4);
    assert s[4..12] == Le(size, 8);
  }

  /** A complete frame is read back whatever follows it. */
  lemma {:induction false} ScanReadsFrame(c: Checks, rec: Record, rest: Blob)
    requires RecordFits(rec)
    ensures ScanOne(c, Frame(c, rec) + rest) == Found(rec, FrameSize(rec))
  {
    var inner := Body(rec) + Le(Seal(c, Body(rec)), 4);
    var s := Frame(c, rec) + rest;
    assert s == Le(RECORD_MAGIC, 4) + (Le(|Body(rec)| + 4, 8) + (inner + rest));
    PrefixFields(|Body(rec)| + 4, inner + rest);
    assert s[PREFIX_SIZE..PREFIX_SIZE + |inner|] == inner;
    ScanOfFrame(c, rec);
  }

  /** A strict prefix of a frame is a torn tail, never corruption. */
  lemma {:induction false} ScanTornFrame(c: Checks, rec: Record, k: nat)
    requires RecordFits(rec) && k < FrameSize(rec)
    ensures ScanOne(c, Frame(c, rec)[..k]) == Torn
  {
    if k >= PREFIX_SIZE {
      var inner := Body(rec) + Le(Seal(c, Body(rec)), 4);
      assert Frame(c, rec)[..k] == Le(RECORD_MAGIC, 4) + (Le(|Body(rec)| + 4, 8) + inner[..k - PREFIX_SIZE]);
      PrefixFields(|Body(rec)| + 4, inner[..k - PREFIX_SIZE]);
    }
  }

  /** The scan looks only at the frame it finds, so more bytes after it change nothing. */
  lemma {:induction false} ScanExtends(c: Checks, s: Blob, more: Blob)
    requires ScanOne(c, s).Found? || (ScanOne(c, s + more).Found? && ScanOne(c, s + more).size <= |s|)
    ensures ScanOne(c, s + more) == ScanOne(c, s)
  {
    var size := FromLe(s[4..12]);
    assert (s + more)[..4] == s[..4];
    assert (s + more)[4..12] == s[4..12];
    assert (s + more)[PREFIX_SIZE..PREFIX_SIZE + size] == s[PREFIX_SIZE..PREFIX_SIZE + size];
  }

  // ------------------------------------------------------------------
  // Update payloads and their locators
  // ------------------------------------------------------------------

  function HeadSize(u: RootUpdate): nat {
    40 + |u.name| + |u.tag|
  }

  function UpdateHead(u: RootUpdate): (h: Blob)
    ensures |h| == HeadSize(u)
  {
    StringBytes(u.name) + (Le(u.expected, 8) + (Le(u.next, 8) + (StringBytes(u.tag) + Le(|u.payload|, 8))))
  }

  function UpdateBytes(u: RootUpdate): (b: Blob)
    ensures |b| == HeadSize(u) + |u.payload|
  {
    UpdateHead(u) + u.payload
  }

  predicate UpdateFits(u: RootUpdate) {
    && u.expected < TWO64 && u.next < TWO64
    && BODY_PREFIX_SIZE + HeadSize(u) + |u.payload| + 4 <= MAX_FRAME
  }

  datatype Head = Head(name: Blob, expected: nat, next: nat, tag: Blob)

  function ParseNaming(bytes: Blob): Result<((Blob, nat), Blob)> {
    var (name, s1) :- ReadString(bytes);
    var (expected, s2) :- ReadScalar(s1, 8);
    Ok(((name, expected), s2))
  }

  function ParseHead(bytes: Blob): Result<(Head, Blob)> {
    var ((name, expected), s2) :- ParseNaming(bytes);
    var (next, s3) :- ReadScalar(s2, 8);
    var (tag, s4) :- ReadString(s3);
    Ok((Head(name, expected, next, tag), s4))
  }

  /** The payload, which must be all that is left; its offset is counted from the end. */
  function ParsePayload(s: Blob): Result<Blob> {
    var (count, rest) :- ReadScalar(s, 8);
    if count > |rest| then Err(Corruption(LengthExceedsPayload))
    else if count < |rest| then Err(Corruption(TrailingBytes))
    else Ok(rest)
  }

  function ParseUpdate(c: Checks, bytes: Blob, fileOffset: nat): Result<RecoveredUpdate> {
    var (h, s) :- ParseHead(bytes);
    var payload :- ParsePayload(s);
    Ok(Assemble(c, h, fileOffset + (|bytes| - |payload|), payload))
  }

  function Assemble(c: Checks, h: Head, offset: nat, payload: Blob): RecoveredUpdate {
    RecoveredUpdate(h.name, h.expected, h.next, h.tag, Loc(JournalFile, offset, |payload|, c.digest(payload)))
  }

  /** The update recovery reads from a ROOT_UPDATE record that starts at `offset`. */
  function Located(c: Checks, u: RootUpdate, offset: nat): RecoveredUpdate {
    RecoveredUpdate(u.name, u.expected, u.next, u.tag, UpdateLoc(c, u, offset))
  }

  function UpdateLoc(c: Checks, u: RootUpdate, offset: nat): Loc {
    Loc(JournalFile, offset + PREFIX_SIZE + BODY_PREFIX_SIZE + HeadSize(u), |u.payload|, c.digest(u.payload))
  }

  lemma {:induction false} ParseOfNaming(name: Blob, expected: nat, rest: Blob)
    requires |name| < TWO64 && expected < TWO64
    ensures ParseNaming(StringBytes(name) + (Le(expected, 8) + rest)) == Ok(((name, expected), rest))
  {
    Widths();
    ReadStringBytes(name, Le(expected, 8) + rest);
    ReadScalarLe(expected, 8, rest);
  }

  lemma {:induction false} ParseOfHead(u: RootUpdate, rest: Blob)
    requires UpdateFits(u)
    ensures ParseHead(StringBytes(u.name) + (Le(u.expected, 8) + (Le(u.next, 8) + (StringBytes(u.tag) + rest))))
            == Ok((Head(u.name, u.expected, u.next, u.tag), rest))
  {
    Widths();
    var s3 := StringBytes(u.tag) + rest;
    ParseOfNaming(u.name, u.expected, Le(u.next, 8) + s3);
    ReadScalarLe(u.next, 8, s3);
    ReadStringBytes(u.tag, rest);
  }

  lemma {:induction false} ParseOfPayload(payload: Blob)
    requires |payload| < TWO64
    ensures ParsePayload(Le(|payload|, 8) + payload) == Ok(payload)
  {
    Widths();
    ReadScalarLe(|payload|, 8, payload);
  }

  lemma {:induction false} UpdateBytesNested(u: RootUpdate)
    ensures UpdateBytes(u) == StringBytes(u.name) + (Le(u.expected, 8) + (Le(u.next, 8)
                              + (StringBytes(u.tag) + (Le(|u.payload|, 8) + u.payload))))
  {
    var n, e, x, t, l, p := StringBytes(u.name), Le(u.expected, 8), Le(u.next, 8), StringBytes(u.tag), Le(|u.payload|, 8), u.payload;
    ConcatAssoc(n, e + (x + (t + l)), p);
    ConcatAssoc(e, x + (t + l), p);
    ConcatAssoc(x, t + l, p);
    ConcatAssoc(t, l, p);
  }

  lemma {:induction false} UpdateParts(u: RootUpdate)
    requires UpdateFits(u)
    ensures ParseHead(UpdateBytes(u)) == Ok((Head(u.name, u.expected, u.next, u.tag), Le(|u.payload|, 8) + u.payload))
  {
    UpdateBytesNested(u);
    ParseOfHead(u, Le(|u.payload|, 8) + u.payload);
  }

  lemma {:induction false} ParseInParts(c: Checks, bytes: Blob, u: RootUpdate, rest: Blob, offset: nat)
    requires ParseHead(bytes) == Ok((Head(u.name, u.expected, u.next, u.tag), rest))
    requires ParsePayload(rest) == Ok(u.payload)
    requires |bytes| == HeadSize(u) + |u.payload|
    ensures ParseUpdate(c, bytes, offset + PREFIX_SIZE + BODY_PREFIX_SIZE) == Ok(Located(c, u, offset))
  {
  }

  /** Recovery reads back the update that was encoded, and finds its payload where it is. */
  lemma {:induction false} ParseOfUpdate(c: Checks, u: RootUpdate, fileOffset: nat)
    requires UpdateFits(u)
    ensures ParseUpdate(c, UpdateBytes(u), fileOffset + PREFIX_SIZE + BODY_PREFIX_SIZE) == Ok(Located(c, u, fileOffset))
  {
    UpdateParts(u);
    ParseOfPayload(u.payload);
    ParseInParts(c, UpdateBytes(u), u, Le(|u.payload|, 8) + u.payload, fileOffset);
  }

  /** The locator of an update selects the payload inside its record's frame. */
  lemma {:induction false} LocatorSelects(c: Checks, u: RootUpdate, rec: Record, offset: nat)
    requires rec.payload == UpdateBytes(u)
    ensures var where := UpdateLoc(c, u, offset);
            && where.size == |u.payload|
            && offset <= where.offset && where.offset + where.size <= offset + FrameSize(rec)
            && Frame(c, rec)[where.offset - offset..where.offset - offset + where.size] == u.payload
  {
    var start := PREFIX_SIZE + BODY_PREFIX_SIZE;
    PayloadInFrame(c, rec);
    var h := UpdateHead(u);
    assert Frame(c, rec)[start..start + |rec.payload|][|h|..] == u.payload;
    assert Frame(c, rec)[start + |h|..start + |rec.payload|] == Frame(c, rec)[start..start + |rec.payload|][|h|..];
  }

  lemma {:induction false} PayloadInFrame(c: Checks, rec: Record)
    ensures Frame(c, rec)[PREFIX_SIZE + BODY_PREFIX_SIZE..PREFIX_SIZE + BODY_PREFIX_SIZE + |rec.payload|] == rec.payload
  {
    var body := Body(rec);
    assert body[BODY_PREFIX_SIZE..] == rec.payload;
    var f := Frame(c, rec);
    assert f[PREFIX_SIZE..PREFIX_SIZE + |body|] == body;
    assert f[PREFIX_SIZE + BODY_PREFIX_SIZE..PREFIX_SIZE + |body|] == f[PREFIX_SIZE..PREFIX_SIZE + |body|][BODY_PREFIX_SIZE..];
  }

  // ------------------------------------------------------------------
  // The functions that build and read them
  // ------------------------------------------------------------------

  method MakeBody(rec: Record) returns (bytes: Blob)
    ensures bytes == Body(rec)
  {
    var body := new Writer();
    body.Scalar(RECORD_FORMAT, 2);
    body.Scalar(rec.kind, 2);
    body.Scalar(rec.sequence, 8);
    body.Scalar(rec.transaction, 8);
    body.Scalar(|rec.payload|, 8);
    body.Bytes(rec.payload);
    bytes := body.bytes;
  }

  method MakeRecord(kind: nat, sequence: nat, transaction: nat, payload: Blob, c: Checks) returns (bytes: Blob)
    ensures bytes == Frame(c, Record(kind, sequence, transaction, payload))
  {
    var body := MakeBody(Record(kind, sequence, transaction, payload));
    var checksum: nat := if c.on then c.digest(body) else 0;

    var frame := new Writer();
    frame.Scalar(RECORD_MAGIC, 4);
    frame.Scalar(|body| + 4, 8);
    frame.Bytes(body);
    frame.Scalar(checksum, 4);
    bytes := frame.bytes;
  }

  method EncodeUpdate(u: RootUpdate) returns (bytes: Blob, payloadOffset: nat)
    ensures bytes == UpdateBytes(u)
    ensures payloadOffset == HeadSize(u)
  {
    var w := new Writer();
    w.String(u.name);
    w.Scalar(u.expected, 8);
    w.Scalar(u.next, 8);
    w.String(u.tag);
    w.Scalar(|u.payload|, 8);
    assert w.bytes == UpdateHead(u);
    payloadOffset := |w.bytes|;
    w.Bytes(u.payload);
    bytes := w.bytes;
  }

  method DecodeNaming(reader: Reader) returns (r: Result<(Blob, nat)>)
    requires reader.Valid()
    modifies reader
    ensures reader.Valid()
    ensures match ParseNaming(old(reader.Rest()))
            case Ok((h, rest)) => r == Ok(h) && reader.Rest() == rest
            case Err(e) => r == Err(e)
  {
    var name :- reader.String();
    var expected :- reader.Scalar(8);
    r := Ok((name, expected));
  }

  method DecodeHead(reader: Reader) returns (r: Result<Head>)
    requires reader.Valid()
    modifies reader
    ensures reader.Valid()
    ensures match ParseHead(old(reader.Rest()))
            case Ok((h, rest)) => r == Ok(h) && reader.Rest() == rest
            case Err(e) => r == Err(e)
  {
    var naming :- DecodeNaming(reader);
    var next :- reader.Scalar(8);
    var tag :- reader.String();
    r := Ok(Head(naming.0, naming.1, next, tag));
  }

  method DecodePayload(reader: Reader) returns (r: Result<Blob>)
    requires reader.Valid()
    modifies reader
    ensures reader.Valid()
    ensures r == ParsePayload(old(reader.Rest()))
  {
    var count :- reader.Scalar(8);
    if count > reader.Remaining() {
      return Err(Corruption(LengthExceedsPayload));
    }
    ghost var rest := reader.Rest();
    assert rest[..|rest|] == rest;
    r := reader.Bytes(count);
    if !reader.Eof() {
      return Err(Corruption(TrailingBytes));
    }
    assert count == |rest|;
  }

  method DecodeUpdate(c: Checks, bytes: Blob, fileOffset: nat) returns (r: Result<RecoveredUpdate>)
    ensures r == ParseUpdate(c, bytes, fileOffset)
  {
    var reader := new Reader(bytes);
    assert reader.Rest() == bytes;
    var head :- DecodeHead(reader);
    var payload :- DecodePayload(reader);
    r := Ok(Assemble(c, head, fileOffset + (|bytes| - |payload|), payload));
  }

  // ------------------------------------------------------------------
  // The laws of the format
  // ------------------------------------------------------------------

  function FormatOf(c: Checks): Scanning.Format {
    Scanning.Format(
      (rec: Record) => Frame(c, rec),
      (s: Blob) => ScanOne(c, s),
      (rec: Record) => RecordFits(rec),
      (u: RootUpdate) => UpdateBytes(u),
      (u: RootUpdate) => UpdateFits(u),
      (s: Blob, offset: nat) => ParseUpdate(c, s, offset + PREFIX_SIZE + BODY_PREFIX_SIZE),
      (u: RootUpdate, offset: nat) => Located(c, u, offset),
      c.digest)
  }

  lemma {:induction false} FramesRead(c: Checks)
    ensures Scanning.FramesRead(FormatOf(c))
  {
    forall rec, rest | RecordFits(rec)
      ensures Scanning.ReadsFrame(FormatOf(c), rec, rest)
    {
      ScanReadsFrame(c, rec, rest);
    }
  }

  lemma {:induction false} FramesTear(c: Checks)
    ensures Scanning.FramesTear(FormatOf(c))
  {
    forall rec, k: nat | RecordFits(rec) && k < |Frame(c, rec)|
      ensures Scanning.TornAt(FormatOf(c), rec, k)
    {
      ScanTornFrame(c, rec, k);
    }
  }

  lemma {:induction false} FindsStay(c: Checks)
    ensures Scanning.FindsStay(FormatOf(c))
  {
    forall s, more | Scanning.FrontComplete(FormatOf(c), s, more)
      ensures Scanning.StaysFound(FormatOf(c), s, more)
    {
      ScanExtends(c, s, more);
    }
  }

  lemma {:induction false} UpdatesRead(c: Checks)
    ensures Scanning.UpdatesRead(FormatOf(c))
  {
    forall u, offset | UpdateFits(u)
      ensures Scanning.ReadsUpdate(FormatOf(c), u, offset)
    {
      UpdateReads(c, u, offset);
    }
  }

  lemma {:induction false} UpdateReads(c: Checks, u: RootUpdate, offset: nat)
    requires UpdateFits(u)
    ensures Scanning.ReadsUpdate(FormatOf(c), u, offset)
  {
    ParseOfUpdate(c, u, offset);
  }

  lemma {:induction false} LocatorsSelect(c: Checks)
    ensures Scanning.LocatorsSelect(FormatOf(c))
  {
    forall u, rec: Record, offset | rec.payload == UpdateBytes(u)
      ensures Scanning.Selects(FormatOf(c), u, rec, offset)
    {
      LocatorSelects(c, u, rec, offset);
    }
  }

  /** The journal's bytes obey the laws the scan is argued from. */
  lemma {:induction false} FormatLaws(c: Checks)
    ensures Scanning.Lawful(FormatOf(c)).Kept?
  {
    FramesRead(c);
    FramesTear(c);
    FindsStay(c);
    UpdatesRead(c);
    LocatorsSelect(c);
  }
}
