/** What recovery does with journals and snapshots that were changed on the disk. */
module Corruption {
  import opened Bytes
  import opened Records
  import opened Scanning
  import opened Recovery
  import opened JournalFormat
  import opened Storage
  import opened JournalFile
  import SnapshotFormat
  import Crc

  /** A body and its checksum, changed nearby, are not a body and its checksum any more. */
  predicate Notices(digest: Digest, body: Blob, changed: Blob, p: nat)
    requires |body| <= |changed|
  {
    changed[|body|..] != Le(digest(changed[..|body|]), 4)
  }

  /** The checksum notices every change within 32 consecutive bits of a body and its checksum. */
  ghost predicate Detects(digest: Digest) {
    forall body, changed, p: nat {:trigger Notices(digest, body, changed, p)}
      | Crc.Nearby(body + Le(digest(body), 4), changed, p) :: Notices(digest, body, changed, p)
  }

  /** Checks with CRC32C. */
  function CrcChecks(): Checks {
    Checks(true, (data: Blob) => Crc.Checksum(data))
  }

  lemma {:induction false} CrcDetects()
    ensures Detects(CrcChecks().digest)
  {
    forall body: Blob, changed: Blob, p: nat | Crc.Nearby(body + Le(CrcChecks().digest(body), 4), changed, p)
      ensures Notices(CrcChecks().digest, body, changed, p)
    {
      Crc.SealBreaks(body, changed, p);
    }
  }

  lemma {:induction false} ChangedFrameRejected(c: Checks, body: Blob, changed: Blob, p: nat)
    requires c.on && Detects(c.digest) && Crc.Nearby(body + Le(c.digest(body), 4), changed, p)
    ensures ScanFrame(c, changed) == Bad(Corruption(ChecksumMismatch))
  {
    assert Notices(c.digest, body, changed, p);
    LeOfFromLe(changed[|body|..]);
  }

  /** So it differs for bodies that differ in this way. */
  lemma {:induction false} DigestsDiffer(digest: Digest, body: Blob, changed: Blob, p: nat)
    requires Detects(digest) && Crc.Nearby(body, changed, p)
    ensures digest(body) != digest(changed)
  {
    var seal := Le(digest(body), 4);
    Crc.BitsConcat(body, seal);
    Crc.BitsConcat(changed, seal);
    ConcatParts(body, seal);
    ConcatParts(changed, seal);
    assert Crc.Nearby(body + seal, changed + seal, p);
    assert Notices(digest, body, changed + seal, p);
  }

  /** Bytes that differ nearby, past a common prefix, differ nearby in what follows it. */
  lemma {:induction false} NearbyDrops(prefix: Blob, inner: Blob, changed: Blob, p: nat)
    requires Crc.Nearby(prefix + inner, changed, p) && 8 * |prefix| <= p
    ensures changed == prefix + changed[|prefix|..] && Crc.Nearby(inner, changed[|prefix|..], p - 8 * |prefix|)
  {
    assert changed == changed[..|prefix|] + changed[|prefix|..];
    Crc.NearbyFront(prefix, inner, changed[..|prefix|], changed[|prefix|..], p);
    Crc.NearbyBack(prefix, inner, changed[..|prefix|], changed[|prefix|..], p);
  }

  /** The magic number and the length. */
  function PrefixOf(length: nat): Blob {
    Le(RECORD_MAGIC, 4) + Le(length, 8)
  }

  lemma {:induction false} FrameParts(c: Checks, rec: Record)
    ensures Frame(c, rec) == PrefixOf(|Body(rec)| + 4) + (Body(rec) + Le(Seal(c, Body(rec)), 4))
  {
    ConcatAssoc(Le(RECORD_MAGIC, 4), Le(|Body(rec)| + 4, 8), Body(rec) + Le(Seal(c, Body(rec)), 4));
  }

  lemma {:induction false} PrefixScans(c: Checks, length: nat, inner: Blob, rest: Blob)
    requires length < TWO64 && 4 <= |inner|
    ensures ScanOne(c, (PrefixOf(length) + inner) + rest) == Torn <==> |inner| + |rest| < length <= MAX_FRAME
    ensures length == |inner| <= MAX_FRAME ==> ScanOne(c, (PrefixOf(length) + inner) + rest) == ScanFrame(c, inner)
  {
    PrefixFields(length, inner + rest);
    var s := (PrefixOf(length) + inner) + rest;
    assert s == Le(RECORD_MAGIC, 4) + (Le(length, 8) + (inner + rest));
    if length == |inner| {
      assert s[PREFIX_SIZE..PREFIX_SIZE + |inner|] == inner;
    }
  }

  /** The scan rejects a complete record if its body and its checksum were changed within 32
      consecutive bits, which may lie in both, whatever follows it. */
  lemma {:induction false} ChangedRecordRejected(c: Checks, rec: Record, changed: Blob, p: nat, rest: Blob)
    requires c.on && Detects(c.digest) && RecordFits(rec)
    requires Crc.Nearby(Frame(c, rec), changed, p) && 8 * PREFIX_SIZE <= p
    ensures ScanOne(c, changed + rest) == Bad(Corruption(ChecksumMismatch))
  {
    var length, inner := |Body(rec)| + 4, Body(rec) + Le(c.digest(Body(rec)), 4);
    FrameParts(c, rec);
    NearbyDrops(PrefixOf(length), inner, changed, p);
    var inner' := changed[|PrefixOf(length)|..];
    PrefixScans(c, length, inner', rest);
    ChangedFrameRejected(c, Body(rec), inner', p - 8 * PREFIX_SIZE);
  }

  /** A scan that meets corruption after complete records fails. */
  lemma {:induction false} ScanMeetsBad<S>(f: Format, bytes: Blob, offset: nat, recs: seq<Record>, tail: Blob, st: S, step: Step<S>)
    requires Lawful(f).Kept?
    requires AllFit(f, recs) && f.scan(tail).Bad?
    requires offset <= |bytes| && bytes[offset..] == Log(f, recs) + tail
    ensures ScanAll(f, bytes, offset, st, step).Err?
    decreases |recs|
  {
    if recs == [] {
      assert Log(f, recs) + tail == tail;
    } else {
      FrontOfLog(f, bytes, offset, recs, tail);
      if step(st, recs[0], offset).Ok? {
        ScanMeetsBad(f, bytes, offset + |f.frame(recs[0])|, recs[1..], tail, step(st, recs[0], offset).value, step);
      }
    }
  }

  /** Recovery reports corruption for every journal in which the body and the checksum of one
      complete record were changed within 32 consecutive bits. */
  lemma {:induction false} ChangedJournalRejected(c: Checks, before: seq<Record>, rec: Record, changed: Blob, p: nat, rest: Blob,
                                                  base: Index, snapshotSequence: nat)
    requires c.on && Detects(c.digest) && AllFit(FormatOf(c), before) && RecordFits(rec)
    requires Crc.Nearby(Frame(c, rec), changed, p) && 8 * PREFIX_SIZE <= p
    ensures Recover(FormatOf(c), Log(FormatOf(c), before) + (changed + rest), base, snapshotSequence).Err?
  {
    var tail := changed + rest;
    ChangedRecordRejected(c, rec, changed, p, rest);
    FormatLaws(c);
    var bytes := Log(FormatOf(c), before) + tail;
    assert bytes[0..] == bytes;
    ScanMeetsBad(FormatOf(c), bytes, 0, before, tail, Start(base, snapshotSequence), Stepper(FormatOf(c), snapshotSequence));
  }

  /** The record with another length in its prefix. */
  function Relengthed(c: Checks, rec: Record, length: nat): Blob {
    PrefixOf(length) + (Body(rec) + Le(Seal(c, Body(rec)), 4))
  }

  /** The length is outside the checksum: a record is taken for a torn tail exactly when its length
      was enlarged beyond the end of the file and within the bound a reader accepts. */
  lemma {:induction false} EnlargedLengthTears(c: Checks, rec: Record, length: nat, rest: Blob)
    requires RecordFits(rec) && length < TWO64
    ensures ScanOne(c, Relengthed(c, rec, length) + rest) == Torn <==> |Body(rec)| + 4 + |rest| < length <= MAX_FRAME
  {
    PrefixScans(c, length, Body(rec) + Le(Seal(c, Body(rec)), 4), rest);
  }

  lemma {:induction false} TornTailDropped(f: Format, before: seq<Record>, tail: Blob, base: Index, snapshotSequence: nat)
    requires Lawful(f).Kept? && AllFit(f, before) && f.scan(tail) == Torn
    ensures Recover(f, Log(f, before) + tail, base, snapshotSequence) == Recover(f, Log(f, before), base, snapshotSequence)
  {
    var st, step := Start(base, snapshotSequence), Stepper(f, snapshotSequence);
    var log, nothing: Blob := Log(f, before), [];
    assert (log + tail)[0..] == log + tail && log[0..] == log + nothing;
    ScanLog(f, log + tail, 0, before, tail, st, step);
    ScanLog(f, log, 0, before, nothing, st, step);
  }

  /** So recovery reports nothing: it drops that record and all that follow it, whole committed
      transactions included, and recovers what stood before them. */
  lemma {:induction false} EnlargedLengthDrops(c: Checks, before: seq<Record>, rec: Record, length: nat, rest: Blob,
                                               base: Index, snapshotSequence: nat)
    requires AllFit(FormatOf(c), before) && RecordFits(rec) && |Body(rec)| + 4 + |rest| < length <= MAX_FRAME
    ensures Recover(FormatOf(c), Log(FormatOf(c), before) + (Relengthed(c, rec, length) + rest), base, snapshotSequence)
            == Recover(FormatOf(c), Log(FormatOf(c), before), base, snapshotSequence)
  {
    FormatLaws(c);
    EnlargedLengthTears(c, rec, length, rest);
    TornTailDropped(FormatOf(c), before, Relengthed(c, rec, length) + rest, base, snapshotSequence);
  }

  // ------------------------------------------------------------------
  // Snapshots
  // ------------------------------------------------------------------

  /** A header that is accepted ends in its checksum. */
  lemma {:induction false} HeaderSealed(c: Checks, h: Blob)
    requires c.on && |h| == SnapshotFormat.HEADER_SIZE && SnapshotFormat.ParseHeader(c, h).Ok?
    ensures h[40..] == Le(c.digest(h[..40]), 4)
  {
    DropDrop(h, 8, 4);
    DropDrop(h, 12, 8);
    DropDrop(h, 20, 8);
    DropDrop(h, 28, 8);
    DropDrop(h, 36, 4);
    assert h[40..][..4] == h[40..];
    LeOfFromLe(h[40..]);
  }

  lemma {:induction false} HeaderRejected(c: Checks, sequence: nat, count: nat, index: Blob, changed: Blob, p: nat)
    requires c.on && Detects(c.digest) && Crc.Nearby(SnapshotFormat.HeaderBytes(c, sequence, count, index), changed, p)
    ensures SnapshotFormat.ParseHeader(c, changed).Err?
  {
    var fields := SnapshotFormat.HeaderFields(c, sequence, count, index);
    assert Notices(c.digest, fields, changed, p);
    if SnapshotFormat.ParseHeader(c, changed).Ok? {
      HeaderSealed(c, changed);
    }
  }

  lemma {:induction false} FrontParts(s: Blob, i: nat, j: nat)
    requires i <= j <= |s|
    ensures s[..j] == s[..i] + s[i..j]
  {
  }

  /** A snapshot file whose header or index was changed within 32 consecutive bits does not load. */
  lemma {:induction false} ChangedSnapshotRejected(c: Checks, sequence: nat, rows: seq<SnapshotFormat.IndexedRoot>, data: Blob, changed: Blob, p: nat)
    requires c.on && Detects(c.digest) && sequence < TWO64 && |rows| < TWO64 && |SnapshotFormat.IndexBytes(rows)| < TWO64
    requires var file := SnapshotFormat.FileBytes(c, sequence, rows, data);
             Crc.Nearby(file, changed, p) && changed[..SnapshotFormat.Base(rows)] != file[..SnapshotFormat.Base(rows)]
    ensures SnapshotFormat.LoadImage(c, changed).Err?
  {
    var header, index := SnapshotFormat.HeaderBytes(c, sequence, |rows|, SnapshotFormat.IndexBytes(rows)), SnapshotFormat.IndexBytes(rows);
    var size, base := SnapshotFormat.HEADER_SIZE, SnapshotFormat.Base(rows);
    var header', index', data' := changed[..size], changed[size..base], changed[base..];
    Crc.Parts(changed, size, base);
    ConcatAssoc(header', index', data');
    if header' != header {
      Crc.NearbyFront(header, index + data, header', index' + data', p);
      HeaderRejected(c, sequence, |rows|, index, header', p);
    } else {
      FrontParts(changed, size, base);
      FrontParts(SnapshotFormat.FileBytes(c, sequence, rows, data), size, base);
      SnapshotFormat.FileParts(c, sequence, rows, data);
      Crc.NearbyBack(header, index + data, header', index' + data', p);
      Crc.NearbyFront(index, data, index', data', Crc.Later(p, 8 * size));
      DigestsDiffer(c.digest, index, index', Crc.Later(p, 8 * size));
      SnapshotFormat.HeaderReads(c, sequence, |rows|, index);
    }
  }

  /** Parts of files that differ nearby differ nearby, if they differ. */
  lemma {:induction false} SlicesNearby(file: Blob, changed: Blob, p: nat, offset: nat, size: nat)
    requires Crc.Nearby(file, changed, p) && InBounds(file, offset, size) && Slice(file, offset, size) != Slice(changed, offset, size)
    ensures Crc.Nearby(Slice(file, offset, size), Slice(changed, offset, size), Crc.Later(p, 8 * offset))
  {
    var end := offset + size;
    Crc.Parts(file, offset, end);
    Crc.Parts(changed, offset, end);
    ConcatAssoc(file[..offset], file[offset..end], file[end..]);
    ConcatAssoc(changed[..offset], changed[offset..end], changed[end..]);
    Crc.NearbyBack(file[..offset], file[offset..end] + file[end..], changed[..offset], changed[offset..end] + changed[end..], p);
    Crc.NearbyFront(file[offset..end], file[end..], changed[offset..end], changed[end..], Crc.Later(p, 8 * offset));
  }

  /** A payload, in whichever file, that was changed within 32 consecutive bits is not loaded. */
  lemma {:induction false} ChangedPayloadRejected(c: Checks, file: Blob, changed: Blob, p: nat, where: Loc)
    requires c.on && Detects(c.digest) && Crc.Nearby(file, changed, p) && Readable(c.digest, file, where)
    requires PayloadAt(changed, where) != PayloadAt(file, where)
    ensures LoadWhole(c, changed, where) == Err(Corruption(ChecksumMismatch))
  {
    SlicesNearby(file, changed, p, where.offset, where.size);
    DigestsDiffer(c.digest, PayloadAt(file, where), PayloadAt(changed, where), Crc.Later(p, 8 * where.offset));
  }
}
