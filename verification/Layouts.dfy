/** The journal's records and the snapshot as fields at fixed places.

The layouts are stated with the literal numbers of the file formats, apart from the
functions that write and read them.
 */
module Layouts {
  import opened Bytes
  import opened BinaryIO
  import opened Records
  import opened JournalFormat

  /** A little-endian number in a byte string. */
  predicate Field(s: Blob, offset: nat, size: nat, value: nat) {
    offset + size <= |s| && FromLe(s[offset..offset + size]) == value
  }

  predicate Part(s: Blob, offset: nat, part: Blob) {
    offset + |part| <= |s| && s[offset..offset + |part|] == part
  }

  lemma {:induction false} FieldRead(s: Blob, offset: nat, size: nat)
    requires offset <= |s|
    ensures ReadScalar(s[offset..], size).Ok? <==> offset + size <= |s|
    ensures offset + size <= |s| ==>
              ReadScalar(s[offset..], size) == Ok((FromLe(s[offset..offset + size]), s[offset + size..]))
  {
    if offset + size <= |s| {
      DropDrop(s, offset, size);
      assert s[offset..][..size] == s[offset..offset + size];
    }
  }

  // ------------------------------------------------------------------
  // A record of the journal
  // ------------------------------------------------------------------

  /** 4 bytes magic, 8 bytes length of what follows; 2 bytes format, 2 kind, 8 sequence, 8 transaction,
      8 payload length, the payload, 4 bytes checksum of all after the length. */
  predicate FrameAt(c: Checks, s: Blob, rec: Record, size: nat) {
    && size <= |s| && size == 44 + |rec.payload| && |rec.payload| + 32 <= 0x100_0000_0000
    && Field(s, 0, 4, 0x4f50_4a52) && Field(s, 4, 8, size - 12)
    && BodyAt(s[12..size - 4], rec)
    && (c.on ==> Field(s, size - 4, 4, c.digest(s[12..size - 4])))
  }

  predicate BodyAt(b: Blob, rec: Record) {
    && |b| == 28 + |rec.payload|
    && Field(b, 0, 2, 1) && Field(b, 2, 2, rec.kind) && Field(b, 4, 8, rec.sequence) && Field(b, 12, 8, rec.transaction)
    && Field(b, 20, 8, |rec.payload|) && b[28..] == rec.payload
  }

  /** A tail that a crash may leave: too short for the magic and the length, or, with these in order,
      for what they announce. */
  predicate TornTail(s: Blob) {
    |s| < 12 || (Field(s, 0, 4, 0x4f50_4a52) && 4 <= FromLe(s[4..12]) <= 0x100_0000_0000 && |s| - 12 < FromLe(s[4..12]))
  }

  function BodyEnd(b: Blob, format: nat, kind: nat, sequence: nat, transaction: nat, r: Result<(nat, Blob)>): Result<Record> {
    if format != RECORD_FORMAT then Err(Corruption(BadFormat))
    else match r
      case Err(e) => Err(e)
      case Ok((size, rest)) =>
        if size > |rest| then Err(Corruption(LengthExceedsPayload))
        else if size < |rest| then Err(Corruption(TrailingBytes))
        else Ok(Record(kind, sequence, transaction, rest))
  }

  lemma {:induction false} BodyReads(b: Blob)
    requires |b| >= 28
    ensures ParseBody(b) == BodyEnd(b, FromLe(b[0..2]), FromLe(b[2..4]), FromLe(b[4..12]), FromLe(b[12..20]), Ok((FromLe(b[20..28]), b[28..])))
  {
    assert b[0..] == b;
    FieldRead(b, 0, 2);
    FieldRead(b, 2, 2);
    FieldRead(b, 4, 8);
    FieldRead(b, 12, 8);
    FieldRead(b, 20, 8);
  }

  lemma {:induction false} ShortBody(b: Blob)
    requires |b| < 28
    ensures ParseBody(b).Err?
  {
    assert b[0..] == b;
    FieldRead(b, 0, 2);
    if |b| >= 2 {
      FieldRead(b, 2, 2);
    }
    if |b| >= 4 {
      FieldRead(b, 4, 8);
    }
    if |b| >= 12 {
      FieldRead(b, 12, 8);
    }
    if |b| >= 20 {
      FieldRead(b, 20, 8);
    }
  }

  lemma {:induction false} BodyMeans(b: Blob, rec: Record)
    ensures ParseBody(b) == Ok(rec) <==> BodyAt(b, rec)
  {
    if |b| < 28 {
      ShortBody(b);
    } else {
      BodyReads(b);
    }
  }

  /** The scan finds a record exactly where its fields lie, and takes for a torn tail exactly what a
      crash may leave; everything else is corruption. */
  lemma {:induction false} ScanMeans(c: Checks, s: Blob, rec: Record, size: nat)
    ensures ScanOne(c, s) == Found(rec, size) <==> FrameAt(c, s, rec, size)
    ensures ScanOne(c, s).Torn? <==> TornTail(s)
  {
    if |s| >= 12 {
      var length := FromLe(s[4..12]);
      assert s[0..4] == s[..4];
      if 4 <= length <= |s| - 12 {
        var frame := s[12..12 + length];
        assert frame[..|frame| - 4] == s[12..12 + length - 4];
        assert frame[|frame| - 4..] == s[12 + length - 4..12 + length];
        BodyMeans(frame[..|frame| - 4], rec);
      }
    }
  }

  /** What the writer makes is such a record. Without checksums the last field is zero. */
  lemma {:induction false} FrameLaidOut(c: Checks, rec: Record)
    requires RecordFits(rec)
    ensures FrameAt(c, Frame(c, rec), rec, |Frame(c, rec)|)
    ensures !c.on ==> Field(Frame(c, rec), |Frame(c, rec)| - 4, 4, 0)
  {
    ScanReadsFrame(c, rec, []);
    assert Frame(c, rec) + [] == Frame(c, rec);
    ScanMeans(c, Frame(c, rec), rec, FrameSize(rec));
    var f, body := Frame(c, rec), Body(rec);
    Widths();
    FromLeOfLe(Seal(c, body), 4);
    assert f[|f| - 4..|f|] == Le(Seal(c, body), 4);
  }

  // ------------------------------------------------------------------
  // The payload of an update record
  // ------------------------------------------------------------------

  /** Length and bytes of the name, expected version, next version, length and bytes of the type tag,
      length and bytes of the payload, and no more. */
  predicate UpdateAt(s: Blob, u: RootUpdate) {
    var n, t := |u.name|, |u.tag|;
    && |s| == 40 + n + t + |u.payload|
    && Field(s, 0, 8, n) && Part(s, 8, u.name) && Field(s, 8 + n, 8, u.expected) && Field(s, 16 + n, 8, u.next)
    && Field(s, 24 + n, 8, t) && Part(s, 32 + n, u.tag)
    && Field(s, 32 + n + t, 8, |u.payload|) && Part(s, 40 + n + t, u.payload)
  }

  lemma {:induction false} StringAt(s: Blob, offset: nat)
    requires offset <= |s|
    ensures var r := ReadString(s[offset..]);
            && (r.Ok? <==> offset + 8 <= |s| && offset + 8 + FromLe(s[offset..offset + 8]) <= |s|)
            && (r.Ok? ==> && Field(s, offset, 8, |r.value.0|) && Part(s, offset + 8, r.value.0)
                          && r.value.1 == s[offset + 8 + |r.value.0|..])
  {
    FieldRead(s, offset, 8);
    if offset + 8 <= |s| {
      var n := FromLe(s[offset..offset + 8]);
      if offset + 8 + n <= |s| {
        assert s[offset + 8..][..n] == s[offset + 8..offset + 8 + n];
        DropDrop(s, offset + 8, n);
      }
    }
  }

  lemma {:induction false} HeadAt(s: Blob)
    requires ParseHead(s).Ok?
    ensures var (h, rest) := ParseHead(s).value;
            var n, t := |h.name|, |h.tag|;
            && 32 + n + t <= |s| && rest == s[32 + n + t..]
            && Field(s, 0, 8, n) && Part(s, 8, h.name) && Field(s, 8 + n, 8, h.expected) && Field(s, 16 + n, 8, h.next)
            && Field(s, 24 + n, 8, t) && Part(s, 32 + n, h.tag)
  {
    assert s[0..] == s;
    StringAt(s, 0);
    var n := |ReadString(s).value.0|;
    FieldRead(s, 8 + n, 8);
    FieldRead(s, 16 + n, 8);
    StringAt(s, 24 + n);
  }

  lemma {:induction false} PartUnique(s: Blob, offset: nat, a: Blob, b: Blob)
    requires |a| == |b| && Part(s, offset, a) && Part(s, offset, b)
    ensures a == b
  {
  }

  lemma {:induction false} HeadReads(s: Blob, u: RootUpdate)
    requires UpdateAt(s, u)
    ensures ParseHead(s) == Ok((Head(u.name, u.expected, u.next, u.tag), s[32 + |u.name| + |u.tag|..]))
  {
    var n, t := |u.name|, |u.tag|;
    assert s[0..] == s;
    StringAt(s, 0);
    PartUnique(s, 8, u.name, ReadString(s).value.0);
    FieldRead(s, 8 + n, 8);
    FieldRead(s, 16 + n, 8);
    StringAt(s, 24 + n);
    PartUnique(s, 32 + n, u.tag, ReadString(s[24 + n..]).value.0);
  }

  lemma {:induction false} PayloadReads(s: Blob, offset: nat)
    requires offset <= |s|
    ensures var r := ParsePayload(s[offset..]);
            && (r.Ok? <==> offset + 8 <= |s| && FromLe(s[offset..offset + 8]) == |s| - offset - 8)
            && (r.Ok? ==> r.value == s[offset + 8..])
  {
    FieldRead(s, offset, 8);
  }

  lemma {:induction false} PayloadFrom(s: Blob, k: nat, payload: Blob)
    requires |s| == k + 8 + |payload| && Field(s, k, 8, |payload|) && Part(s, k + 8, payload)
    ensures ParsePayload(s[k..]) == Ok(payload)
  {
    PayloadReads(s, k);
    assert s[k + 8..] == s[k + 8..k + 8 + |payload|];
  }

  lemma {:induction false} PayloadAt(s: Blob, u: RootUpdate)
    requires UpdateAt(s, u)
    ensures 32 + |u.name| + |u.tag| <= |s| && ParsePayload(s[32 + |u.name| + |u.tag|..]) == Ok(u.payload)
  {
    PayloadFrom(s, 32 + |u.name| + |u.tag|, u.payload);
  }

  lemma {:induction false} Assembled(c: Checks, s: Blob, fileOffset: nat, u: RootUpdate, rest: Blob)
    requires ParseHead(s) == Ok((Head(u.name, u.expected, u.next, u.tag), rest)) && ParsePayload(rest) == Ok(u.payload)
    requires |s| == 40 + |u.name| + |u.tag| + |u.payload|
    ensures ParseUpdate(c, s, fileOffset) == Ok(RecoveredAt(c, fileOffset, u))
  {
  }

  /** An update as it is recovered, with the place of its payload in the file. */
  function RecoveredAt(c: Checks, fileOffset: nat, u: RootUpdate): RecoveredUpdate {
    RecoveredUpdate(u.name, u.expected, u.next, u.tag,
                    Loc(JournalFile, fileOffset + 40 + |u.name| + |u.tag|, |u.payload|, c.digest(u.payload)))
  }

  lemma {:induction false} UpdateReads(c: Checks, s: Blob, fileOffset: nat, u: RootUpdate)
    requires UpdateAt(s, u)
    ensures ParseUpdate(c, s, fileOffset) == Ok(RecoveredAt(c, fileOffset, u))
  {
    HeadReads(s, u);
    PayloadAt(s, u);
    Assembled(c, s, fileOffset, u, s[32 + |u.name| + |u.tag|..]);
  }

  lemma {:induction false} UpdateFields(s: Blob, h: Head, payload: Blob)
    requires var n, t := |h.name|, |h.tag|;
             && 32 + n + t <= |s|
             && Field(s, 0, 8, n) && Part(s, 8, h.name) && Field(s, 8 + n, 8, h.expected) && Field(s, 16 + n, 8, h.next)
             && Field(s, 24 + n, 8, t) && Part(s, 32 + n, h.tag)
             && Field(s, 32 + n + t, 8, |payload|) && payload == s[40 + n + t..]
    ensures UpdateAt(s, RootUpdate(h.name, h.expected, h.next, h.tag, payload))
  {
  }

  lemma {:induction false} UpdateFound(c: Checks, s: Blob, fileOffset: nat) returns (u: RootUpdate)
    requires ParseUpdate(c, s, fileOffset).Ok?
    ensures UpdateAt(s, u)
  {
    var h := ParseHead(s).value.0;
    var k := 32 + |h.name| + |h.tag|;
    HeadAt(s);
    PayloadReads(s, k);
    u := RootUpdate(h.name, h.expected, h.next, h.tag, s[k + 8..]);
    UpdateFields(s, h, s[k + 8..]);
  }

  /** An update's payload is read exactly if its fields lie so; what is recovered are these fields and
      where the payload lies in the file. */
  lemma {:induction false} UpdateMeans(c: Checks, s: Blob, fileOffset: nat, r: RecoveredUpdate)
    ensures ParseUpdate(c, s, fileOffset) == Ok(r) <==> exists u :: UpdateAt(s, u) && r == RecoveredAt(c, fileOffset, u)
  {
    if ParseUpdate(c, s, fileOffset) == Ok(r) {
      var u := UpdateFound(c, s, fileOffset);
      UpdateReads(c, s, fileOffset, u);
    }
    forall u | UpdateAt(s, u)
      ensures ParseUpdate(c, s, fileOffset) == Ok(RecoveredAt(c, fileOffset, u))
    {
      UpdateReads(c, s, fileOffset, u);
    }
  }

  /** What the writer makes is such a payload. */
  lemma {:induction false} UpdateLaidOut(c: Checks, u: RootUpdate)
    requires UpdateFits(u)
    ensures UpdateAt(UpdateBytes(u), u)
  {
    var s := UpdateBytes(u);
    ParseOfUpdate(c, u, 0);
    var found := UpdateFound(c, s, PREFIX_SIZE + BODY_PREFIX_SIZE);
    UpdateReads(c, s, PREFIX_SIZE + BODY_PREFIX_SIZE, found);
    SamePayload(s, found, u);
  }

  lemma {:induction false} SamePayload(s: Blob, found: RootUpdate, u: RootUpdate)
    requires UpdateAt(s, found) && s == UpdateBytes(u)
    requires found.name == u.name && found.expected == u.expected && found.next == u.next && found.tag == u.tag
    ensures found == u
  {
    var k := 40 + |u.name| + |u.tag|;
    assert s[k..k + |found.payload|] == s[k..];
    assert s[k..] == u.payload;
  }
}
