/** Scanning a journal file: a fold over the complete records at its front.

The scan is argued about through the laws of a self-delimiting record format, and
what a record does to the state is a parameter. Module JournalFormat has the
concrete bytes and shows that they obey the laws.
 */
module Scanning {
  import opened Bytes
  import opened Records

  /** Complete frames, what the front of a byte string holds, and update payloads. */
  datatype Format = Format(
    frame: Record -> Blob,
    scan: Blob -> Scan,
    fits: Record -> bool,
    updateBytes: RootUpdate -> Blob,
    updateFits: RootUpdate -> bool,
    parseUpdate: (Blob, nat) -> Result<RecoveredUpdate>,
    located: (RootUpdate, nat) -> RecoveredUpdate,
    digest: Digest)

  /** A record found lies within the bytes. */
  ghost predicate Delimits(f: Format) {
    forall s: Blob :: f.scan(s).Found? ==> 0 < f.scan(s).size <= |s|
  }

  // The laws are stated over named facts, so that a proof uses one only where it names it.

  predicate ReadsFrame(f: Format, rec: Record, rest: Blob) {
    f.scan(f.frame(rec) + rest) == Found(rec, |f.frame(rec)|)
  }

  predicate TornAt(f: Format, rec: Record, k: nat)
    requires k <= |f.frame(rec)|
  {
    f.scan(f.frame(rec)[..k]) == Torn
  }

  /** `s` already holds the record at the front of `s + more`. */
  predicate FrontComplete(f: Format, s: Blob, more: Blob) {
    f.scan(s).Found? || (f.scan(s + more).Found? && f.scan(s + more).size <= |s|)
  }

  predicate StaysFound(f: Format, s: Blob, more: Blob) {
    f.scan(s + more) == f.scan(s)
  }

  /** The update comes back from its record, and its locator selects its payload there. */
  predicate ReadsUpdate(f: Format, u: RootUpdate, offset: nat) {
    && f.parseUpdate(f.updateBytes(u), offset) == Ok(f.located(u, offset))
    && f.located(u, offset).name == u.name
    && f.located(u, offset).expected == u.expected
    && f.located(u, offset).next == u.next
    && f.located(u, offset).tag == u.tag
    && f.located(u, offset).payload.source == JournalFile
    && f.located(u, offset).payload.checksum == f.digest(u.payload)
  }

  predicate Selects(f: Format, u: RootUpdate, rec: Record, offset: nat) {
    var where := f.located(u, offset).payload;
    && where.size == |u.payload|
    && offset <= where.offset && where.offset + where.size <= offset + |f.frame(rec)|
    && f.frame(rec)[where.offset - offset..where.offset - offset + where.size] == u.payload
  }

  ghost predicate FramesRead(f: Format) {
    forall rec, rest {:trigger ReadsFrame(f, rec, rest)} | f.fits(rec) :: ReadsFrame(f, rec, rest)
  }

  ghost predicate FramesTear(f: Format) {
    forall rec, k: nat {:trigger TornAt(f, rec, k)} | f.fits(rec) && k < |f.frame(rec)| :: TornAt(f, rec, k)
  }

  ghost predicate FindsStay(f: Format) {
    forall s, more {:trigger StaysFound(f, s, more)} | FrontComplete(f, s, more) :: StaysFound(f, s, more)
  }

  ghost predicate UpdatesRead(f: Format) {
    forall u, offset {:trigger ReadsUpdate(f, u, offset)} | f.updateFits(u) :: ReadsUpdate(f, u, offset)
  }

  ghost predicate LocatorsSelect(f: Format) {
    forall u, rec: Record, offset {:trigger Selects(f, u, rec, offset)}
      | f.updateFits(u) && rec.payload == f.updateBytes(u) && f.fits(rec) :: Selects(f, u, rec, offset)
  }

  ghost predicate Laws(f: Format) {
    && Delimits(f) && f.scan([]) == Torn
    && FramesRead(f) && FramesTear(f) && FindsStay(f) && UpdatesRead(f) && LocatorsSelect(f)
  }

  ghost function Lawful(f: Format): Law {
    if Laws(f) then Kept else Broken
  }

  /** The effect of a record that starts at a given file offset. */
  type Step<!S> = (S, Record, nat) -> Result<S>

  /** The scan from `offset` on; the second component is the end of the last complete record.
      A lawful format finds no record that is empty or reaches beyond the bytes. */
  function ScanAll<S>(f: Format, bytes: Blob, offset: nat, st: S, step: Step<S>): (r: Result<(S, nat)>)
    requires offset <= |bytes|
    ensures r.Ok? ==> offset <= r.value.1 <= |bytes|
    decreases |bytes| - offset
  {
    match f.scan(bytes[offset..])
    case Torn => Ok((st, offset))
    case Bad(e) => Err(e)
    case Found(rec, size) =>
      if size == 0 || offset + size > |bytes| then Err(Corruption(BadLength)) else
      var st1 :- step(st, rec, offset);
      ScanAll(f, bytes, offset + size, st1, step)
  }

  function Log(f: Format, recs: seq<Record>): Blob
    decreases |recs|
  {
    if recs == [] then [] else f.frame(recs[0]) + Log(f, recs[1..])
  }

  function ApplyAll<S>(f: Format, recs: seq<Record>, offset: nat, st: S, step: Step<S>): Result<S>
    decreases |recs|
  {
    if recs == [] then Ok(st) else
    var st1 :- step(st, recs[0], offset);
    ApplyAll(f, recs[1..], offset + |f.frame(recs[0])|, st1, step)
  }

  predicate AllFit(f: Format, recs: seq<Record>) {
    forall i | 0 <= i < |recs| :: f.fits(recs[i])
  }

  function Ended<S>(r: Result<S>, end: nat): Result<(S, nat)> {
    match r
    case Ok(st) => Ok((st, end))
    case Err(e) => Err(e)
  }

  /** Scanning the bytes of complete records, then a torn tail, is applying the records. */
  lemma {:induction false} ScanLog<S>(f: Format, bytes: Blob, offset: nat, recs: seq<Record>, tail: Blob, st: S, step: Step<S>)
    requires Lawful(f).Kept?
    requires AllFit(f, recs) && f.scan(tail) == Torn
    requires offset <= |bytes| && bytes[offset..] == Log(f, recs) + tail
    ensures ScanAll(f, bytes, offset, st, step)
            == Ended(ApplyAll(f, recs, offset, st, step), offset + |Log(f, recs)|)
    decreases |recs|
  {
    if recs == [] {
      assert bytes[offset..] == tail;
    } else {
      FrontOfLog(f, bytes, offset, recs, tail);
      if step(st, recs[0], offset).Ok? {
        ScanLog(f, bytes, offset + |f.frame(recs[0])|, recs[1..], tail, step(st, recs[0], offset).value, step);
      }
    }
  }

  lemma {:induction false} FrontOfLog(f: Format, bytes: Blob, offset: nat, recs: seq<Record>, tail: Blob)
    requires Lawful(f).Kept?
    requires recs != [] && AllFit(f, recs)
    requires offset <= |bytes| && bytes[offset..] == Log(f, recs) + tail
    ensures f.scan(bytes[offset..]) == Found(recs[0], |f.frame(recs[0])|)
    ensures offset + |f.frame(recs[0])| <= |bytes|
    ensures bytes[offset + |f.frame(recs[0])|..] == Log(f, recs[1..]) + tail
  {
    var frame := f.frame(recs[0]);
    var rest := Log(f, recs[1..]) + tail;
    ConcatAssoc(frame, Log(f, recs[1..]), tail);
    assert ReadsFrame(f, recs[0], rest);
    ConcatParts(frame, rest);
    DropDrop(bytes, offset, |frame|);
  }

  /** Scanning a longer file first does what scanning the shorter one does. */
  lemma {:induction false} ScanExtends<S>(f: Format, bytes: Blob, more: Blob, offset: nat, st: S, step: Step<S>)
    requires Lawful(f).Kept?
    requires offset <= |bytes|
    requires ScanAll(f, bytes, offset, st, step).Ok?
    requires ScanAll(f, bytes, offset, st, step).value.1 == |bytes|
    ensures var st1 := ScanAll(f, bytes, offset, st, step).value.0;
            ScanAll(f, bytes + more, offset, st, step) == ScanAll(f, bytes + more, |bytes|, st1, step)
    decreases |bytes| - offset
  {
    if f.scan(bytes[offset..]).Found? {
      var Found(rec, size) := f.scan(bytes[offset..]);
      assert (bytes + more)[offset..] == bytes[offset..] + more;
      assert StaysFound(f, bytes[offset..], more);
      ScanExtends(f, bytes, more, offset + size, step(st, rec, offset).value, step);
    }
  }

  /** Cutting a file at the end of its last complete record changes nothing. */
  lemma {:induction false} ScanTruncates<S>(f: Format, bytes: Blob, offset: nat, st: S, step: Step<S>)
    requires Lawful(f).Kept?
    requires offset <= |bytes|
    requires ScanAll(f, bytes, offset, st, step).Ok?
    ensures var (st1, end) := ScanAll(f, bytes, offset, st, step).value;
            ScanAll(f, bytes[..end], offset, st, step) == Ok((st1, end))
    decreases |bytes| - offset
  {
    var (st1, end) := ScanAll(f, bytes, offset, st, step).value;
    if f.scan(bytes[offset..]).Found? {
      var Found(rec, size) := f.scan(bytes[offset..]);
      ScanTruncates(f, bytes, offset + size, step(st, rec, offset).value, step);
      CutStaysFound(f, bytes, offset, end);
    } else {
      assert bytes[..end][offset..] == [];
    }
  }

  lemma {:induction false} CutStaysFound(f: Format, bytes: Blob, offset: nat, end: nat)
    requires Lawful(f).Kept?
    requires offset <= end <= |bytes|
    requires f.scan(bytes[offset..]).Found? && offset + f.scan(bytes[offset..]).size <= end
    ensures f.scan(bytes[..end][offset..]) == f.scan(bytes[offset..])
  {
    var cut := bytes[..end][offset..];
    assert bytes[offset..] == cut + bytes[end..];
    assert FrontComplete(f, cut, bytes[end..]);
    assert StaysFound(f, cut, bytes[end..]);
  }

  /** The complete records within a byte prefix of a log; what is left is torn. */
  lemma {:induction false} LogPrefix(f: Format, recs: seq<Record>, k: nat) returns (i: nat, tail: Blob)
    requires Lawful(f).Kept?
    requires AllFit(f, recs) && k <= |Log(f, recs)|
    ensures i <= |recs| && Log(f, recs)[..k] == Log(f, recs[..i]) + tail
    ensures f.scan(tail) == Torn
    ensures k == |Log(f, recs)| ==> i == |recs| && tail == []
    ensures k < |Log(f, recs)| ==> i < |recs| && |tail| < |f.frame(recs[i])|
    decreases |recs|
  {
    if recs == [] {
      return 0, [];
    }
    var frame := f.frame(recs[0]);
    if k < |frame| {
      assert TornAt(f, recs[0], k);
      assert Log(f, recs)[..k] == frame[..k] == Log(f, recs[..0]) + frame[..k];
      return 0, frame[..k];
    }
    var i1, tail1 := LogPrefix(f, recs[1..], k - |frame|);
    i, tail := i1 + 1, tail1;
    assert recs[..i][0] == recs[0] && recs[..i][1..] == recs[1..][..i1];
    assert Log(f, recs)[..k] == frame + Log(f, recs[1..])[..k - |frame|];
    assert frame + (Log(f, recs[1..][..i1]) + tail) == (frame + Log(f, recs[1..][..i1])) + tail;
  }

  lemma {:induction false} LogConcat(f: Format, a: seq<Record>, b: seq<Record>)
    ensures Log(f, a + b) == Log(f, a) + Log(f, b)
    decreases |a|
  {
    if a == [] {
      assert a + b == b;
    } else {
      assert (a + b)[0] == a[0] && (a + b)[1..] == a[1..] + b;
      LogConcat(f, a[1..], b);
      assert Log(f, a + b) == f.frame(a[0]) + (Log(f, a[1..]) + Log(f, b));
    }
  }

  lemma {:induction false} LogOne(f: Format, rec: Record)
    ensures Log(f, [rec]) == f.frame(rec)
  {
    assert [rec][1..] == [];
    assert f.frame(rec) + [] == f.frame(rec);
  }

  lemma {:induction false} ApplyAllCons<S>(f: Format, rec: Record, recs: seq<Record>, offset: nat, st: S, st1: S, step: Step<S>)
    requires step(st, rec, offset) == Ok(st1)
    ensures ApplyAll(f, [rec] + recs, offset, st, step) == ApplyAll(f, recs, offset + |f.frame(rec)|, st1, step)
  {
    assert ([rec] + recs)[0] == rec && ([rec] + recs)[1..] == recs;
  }

  lemma {:induction false} ApplyAllConcat<S>(f: Format, a: seq<Record>, b: seq<Record>, offset: nat, st: S, step: Step<S>)
    requires ApplyAll(f, a, offset, st, step).Ok?
    ensures ApplyAll(f, a + b, offset, st, step)
            == ApplyAll(f, b, offset + |Log(f, a)|, ApplyAll(f, a, offset, st, step).value, step)
    decreases |a|
  {
    if a == [] {
      assert a + b == b;
    } else {
      assert (a + b)[0] == a[0] && (a + b)[1..] == a[1..] + b;
      ApplyAllConcat(f, a[1..], b, offset + |f.frame(a[0])|, step(st, a[0], offset).value, step);
    }
  }

  // ------------------------------------------------------------------
  // Two scans of the same bytes
  // ------------------------------------------------------------------

  /** A record that `one` accepts from s, `two` accepts from t, and the results are related. */
  predicate Follows<S>(one: Step<S>, two: Step<S>, related: (S, S) -> bool, s: S, t: S, rec: Record, offset: nat)
    requires one(s, rec, offset).Ok?
  {
    && two(t, rec, offset).Ok?
    && related(one(s, rec, offset).value, two(t, rec, offset).value)
  }

  predicate Accepts<S>(one: Step<S>, below: S -> bool, s: S, rec: Record, offset: nat) {
    one(s, rec, offset).Ok? && below(one(s, rec, offset).value)
  }

  /** `below` holds earlier in a run if it holds later. */
  ghost predicate Descends<S(!new)>(one: Step<S>, below: S -> bool) {
    forall s, rec, offset {:trigger Accepts(one, below, s, rec, offset)}
      | Accepts(one, below, s, rec, offset) :: below(s)
  }

  ghost predicate Simulates<S(!new)>(one: Step<S>, two: Step<S>, related: (S, S) -> bool, below: S -> bool) {
    forall s, t, rec, offset {:trigger Follows(one, two, related, s, t, rec, offset)}
      | related(s, t) && Accepts(one, below, s, rec, offset) :: Follows(one, two, related, s, t, rec, offset)
  }

  lemma {:induction false} StaysBelow<S(!new)>(f: Format, bytes: Blob, offset: nat, s: S, one: Step<S>, below: S -> bool)
    requires offset <= |bytes| && Descends(one, below)
    requires ScanAll(f, bytes, offset, s, one).Ok? && below(ScanAll(f, bytes, offset, s, one).value.0)
    ensures below(s)
    decreases |bytes| - offset
  {
    if f.scan(bytes[offset..]).Found? {
      var Found(rec, size) := f.scan(bytes[offset..]);
      StaysBelow(f, bytes, offset + size, one(s, rec, offset).value, one, below);
      assert Accepts(one, below, s, rec, offset);
    }
  }

  /** The second scan accepts what the first accepts and ends at the same place, in a related state. */
  lemma {:induction false} ScanFollows<S(!new)>(f: Format, bytes: Blob, offset: nat, s: S, t: S,
                                                one: Step<S>, two: Step<S>, related: (S, S) -> bool, below: S -> bool)
    requires offset <= |bytes|
    requires Descends(one, below) && Simulates(one, two, related, below) && related(s, t)
    requires ScanAll(f, bytes, offset, s, one).Ok? && below(ScanAll(f, bytes, offset, s, one).value.0)
    ensures ScanAll(f, bytes, offset, t, two).Ok?
    ensures ScanAll(f, bytes, offset, t, two).value.1 == ScanAll(f, bytes, offset, s, one).value.1
    ensures related(ScanAll(f, bytes, offset, s, one).value.0, ScanAll(f, bytes, offset, t, two).value.0)
    decreases |bytes| - offset
  {
    if f.scan(bytes[offset..]).Found? {
      var Found(rec, size) := f.scan(bytes[offset..]);
      var s1 := one(s, rec, offset).value;
      StaysBelow(f, bytes, offset + size, s1, one, below);
      assert Accepts(one, below, s, rec, offset);
      assert Follows(one, two, related, s, t, rec, offset);
      ScanFollows(f, bytes, offset + size, s1, two(t, rec, offset).value, one, two, related, below);
    }
  }
}
