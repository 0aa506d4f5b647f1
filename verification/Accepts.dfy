/** Which journals recovery accepts, and what it makes of them, said record by record.

Recovery carries a state from record to record. Here nothing is carried: what a record
must be is said of the records before it.
 */
module Accepts {
  import opened Bytes
  import opened Records
  import opened Scanning
  import opened Recovery

  /** A record and the place where it starts. */
  datatype Placed = Placed(record: Record, offset: nat)

  // ------------------------------------------------------------------
  // One transaction's updates applied to the index
  // ------------------------------------------------------------------

  /** The version of a name after the first n updates: the greatest there was. */
  function VersionAfter(roots: Index, updates: seq<RecoveredUpdate>, n: nat, name: Blob): nat
    requires n <= |updates|
    decreases n
  {
    if n == 0 then VersionOf(roots, name)
    else if updates[n - 1].name == name && updates[n - 1].next > VersionAfter(roots, updates, n - 1, name) then updates[n - 1].next
    else VersionAfter(roots, updates, n - 1, name)
  }

  /** An update is not newer than what is there, or it was made from exactly what is there. */
  predicate Chains(roots: Index, updates: seq<RecoveredUpdate>) {
    forall j | 0 <= j < |updates| ::
      updates[j].next <= VersionAfter(roots, updates, j, updates[j].name)
      || updates[j].expected == VersionAfter(roots, updates, j, updates[j].name)
  }

  /** The update put its root at the version where it stays. */
  predicate Settles(roots: Index, updates: seq<RecoveredUpdate>, j: nat)
    requires j < |updates|
  {
    && updates[j].next > VersionAfter(roots, updates, j, updates[j].name)
    && updates[j].next == VersionAfter(roots, updates, |updates|, updates[j].name)
  }

  /** The index afterwards: a root holds what the update that reached its last version brought; a root
      that no update raised holds what it held. */
  ghost predicate Applied(roots: Index, updates: seq<RecoveredUpdate>, roots': Index) {
    && (forall name :: name in roots' <==> name in roots || VersionAfter(roots, updates, |updates|, name) > 0)
    && (forall j: nat | j < |updates| && Settles(roots, updates, j) ::
          updates[j].name in roots' && roots'[updates[j].name] == RootRecord(updates[j].next, updates[j].tag, updates[j].payload))
    && (forall name | name in roots && VersionAfter(roots, updates, |updates|, name) == VersionOf(roots, name) ::
          name in roots' && roots'[name] == roots[name])
  }

  lemma {:induction false} AfterFirst(roots: Index, roots': Index, updates: seq<RecoveredUpdate>, n: nat, name: Blob)
    requires updates != [] && n <= |updates| - 1
    requires VersionOf(roots', name) == VersionAfter(roots, updates, 1, name)
    ensures VersionAfter(roots', updates[1..], n, name) == VersionAfter(roots, updates, n + 1, name)
    decreases n
  {
    if n > 0 {
      AfterFirst(roots, roots', updates, n - 1, name);
    }
  }

  lemma {:induction false} AfterGrows(roots: Index, updates: seq<RecoveredUpdate>, n: nat, m: nat, name: Blob)
    requires n <= m <= |updates|
    ensures VersionAfter(roots, updates, n, name) <= VersionAfter(roots, updates, m, name)
    decreases m
  {
    if n < m {
      AfterGrows(roots, updates, n, m - 1, name);
    }
  }

  /** The index after the first update, if it chains. */
  function Step1(roots: Index, u: RecoveredUpdate): Index {
    if u.next <= VersionOf(roots, u.name) then roots else roots[u.name := RootRecord(u.next, u.tag, u.payload)]
  }

  lemma {:induction false} StepVersion(roots: Index, updates: seq<RecoveredUpdate>, name: Blob)
    requires updates != []
    ensures VersionOf(Step1(roots, updates[0]), name) == VersionAfter(roots, updates, 1, name)
  {
    assert VersionAfter(roots, updates, 0, name) == VersionOf(roots, name);
  }

  lemma {:induction false} ChainsNext(roots: Index, updates: seq<RecoveredUpdate>)
    requires updates != []
    ensures var u := updates[0];
            Chains(roots, updates) <==> (u.next <= VersionOf(roots, u.name) || u.expected == VersionOf(roots, u.name))
                                        && Chains(Step1(roots, u), updates[1..])
  {
    var rest, roots' := updates[1..], Step1(roots, updates[0]);
    forall j | 0 <= j < |rest|
      ensures rest[j] == updates[j + 1] && VersionAfter(roots', rest, j, rest[j].name) == VersionAfter(roots, updates, j + 1, rest[j].name)
    {
      StepVersion(roots, updates, rest[j].name);
      AfterFirst(roots, roots', updates, j, rest[j].name);
    }
    assert forall j | 0 < j < |updates| :: updates[j] == rest[j - 1];
    assert VersionAfter(roots, updates, 0, updates[0].name) == VersionOf(roots, updates[0].name);
  }

  lemma {:induction false} ChainsIff(roots: Index, updates: seq<RecoveredUpdate>)
    ensures ApplyUpdates(roots, updates).Ok? <==> Chains(roots, updates)
    decreases |updates|
  {
    if updates != [] {
      ChainsNext(roots, updates);
      ChainsIff(Step1(roots, updates[0]), updates[1..]);
    }
  }

  /** The first update, and versions counted from after it. */
  ghost predicate Stepped(roots: Index, updates: seq<RecoveredUpdate>)
    requires updates != []
  {
    && (forall name, n: nat | n < |updates| ::
          VersionAfter(Step1(roots, updates[0]), updates[1..], n, name) == VersionAfter(roots, updates, n + 1, name))
    && (forall name :: VersionOf(Step1(roots, updates[0]), name) == VersionAfter(roots, updates, 1, name))
    && (forall name :: VersionOf(roots, name) <= VersionAfter(roots, updates, 1, name) <= VersionAfter(roots, updates, |updates|, name))
  }

  lemma {:induction false} Steps(roots: Index, updates: seq<RecoveredUpdate>)
    requires updates != []
    ensures Stepped(roots, updates)
  {
    forall name
      ensures VersionOf(Step1(roots, updates[0]), name) == VersionAfter(roots, updates, 1, name)
      ensures VersionOf(roots, name) <= VersionAfter(roots, updates, 1, name) <= VersionAfter(roots, updates, |updates|, name)
    {
      StepVersion(roots, updates, name);
      AfterGrows(roots, updates, 0, 1, name);
      AfterGrows(roots, updates, 1, |updates|, name);
    }
    forall name, n: nat | n < |updates|
      ensures VersionAfter(Step1(roots, updates[0]), updates[1..], n, name) == VersionAfter(roots, updates, n + 1, name)
    {
      AfterFirst(roots, Step1(roots, updates[0]), updates, n, name);
    }
  }

  lemma {:induction false} AppliedNames(roots: Index, updates: seq<RecoveredUpdate>, roots'': Index)
    requires updates != [] && Stepped(roots, updates) && Applied(Step1(roots, updates[0]), updates[1..], roots'')
    ensures forall name :: name in roots'' <==> name in roots || VersionAfter(roots, updates, |updates|, name) > 0
  {
    var rest, roots' := updates[1..], Step1(roots, updates[0]);
    forall name
      ensures name in roots'' <==> name in roots || VersionAfter(roots, updates, |updates|, name) > 0
    {
      assert VersionAfter(roots', rest, |rest|, name) == VersionAfter(roots, updates, |rest| + 1, name);
    }
  }

  lemma {:induction false} AppliedUnchanged(roots: Index, updates: seq<RecoveredUpdate>, roots'': Index)
    requires updates != [] && Stepped(roots, updates) && Applied(Step1(roots, updates[0]), updates[1..], roots'')
    ensures forall name | name in roots && VersionAfter(roots, updates, |updates|, name) == VersionOf(roots, name) ::
              name in roots'' && roots''[name] == roots[name]
  {
    var rest, roots' := updates[1..], Step1(roots, updates[0]);
    forall name | name in roots && VersionAfter(roots, updates, |updates|, name) == VersionOf(roots, name)
      ensures name in roots'' && roots''[name] == roots[name]
    {
      assert VersionAfter(roots', rest, |rest|, name) == VersionAfter(roots, updates, |rest| + 1, name);
      assert VersionOf(roots', name) == VersionOf(roots, name);
      assert name in roots' && roots'[name] == roots[name];
    }
  }

  lemma {:induction false} AppliedSettled(roots: Index, updates: seq<RecoveredUpdate>, roots'': Index)
    requires updates != [] && Stepped(roots, updates) && Applied(Step1(roots, updates[0]), updates[1..], roots'')
    ensures forall j: nat | j < |updates| && Settles(roots, updates, j) ::
              updates[j].name in roots'' && roots''[updates[j].name] == RootRecord(updates[j].next, updates[j].tag, updates[j].payload)
  {
    var rest, roots' := updates[1..], Step1(roots, updates[0]);
    forall j: nat | j < |updates| && Settles(roots, updates, j)
      ensures updates[j].name in roots'' && roots''[updates[j].name] == RootRecord(updates[j].next, updates[j].tag, updates[j].payload)
    {
      var name := updates[j].name;
      assert VersionAfter(roots', rest, |rest|, name) == VersionAfter(roots, updates, |rest| + 1, name);
      if j > 0 {
        assert rest[j - 1] == updates[j];
        assert VersionAfter(roots', rest, j - 1, name) == VersionAfter(roots, updates, j - 1 + 1, name);
        assert Settles(roots', rest, j - 1);
      } else {
        assert VersionAfter(roots, updates, 0, name) == VersionOf(roots, name);
        assert name in roots' && VersionOf(roots', name) == updates[0].next;
      }
    }
  }

  /** A commit's updates are applied if and only if they chain, and the index is then as described. */
  lemma {:induction false} UpdatesMean(roots: Index, updates: seq<RecoveredUpdate>)
    ensures ApplyUpdates(roots, updates).Ok? <==> Chains(roots, updates)
    ensures ApplyUpdates(roots, updates).Ok? ==> Applied(roots, updates, ApplyUpdates(roots, updates).value)
    decreases |updates|
  {
    ChainsIff(roots, updates);
    if updates != [] && ApplyUpdates(roots, updates).Ok? {
      UpdatesMean(Step1(roots, updates[0]), updates[1..]);
      Steps(roots, updates);
      AppliedNames(roots, updates, ApplyUpdates(roots, updates).value);
      AppliedUnchanged(roots, updates, ApplyUpdates(roots, updates).value);
      AppliedSettled(roots, updates, ApplyUpdates(roots, updates).value);
    }
  }

  // ------------------------------------------------------------------
  // Records
  // ------------------------------------------------------------------

  /** The greatest sequence number of the snapshot and the first i records. */
  function LastBefore(recs: seq<Placed>, i: nat, snapshotSequence: nat): nat
    requires i <= |recs|
  {
    if i == 0 then snapshotSequence
    else if recs[i - 1].record.sequence > LastBefore(recs, i - 1, snapshotSequence) then recs[i - 1].record.sequence
    else LastBefore(recs, i - 1, snapshotSequence)
  }

  predicate Of(r: Placed, kind: nat, tx: nat) {
    r.record.kind == kind && r.record.transaction == tx
  }

  /** Before record i the transaction began and did not commit since. */
  ghost predicate OpenAt(recs: seq<Placed>, i: nat, tx: nat)
    requires i <= |recs|
  {
    exists b: nat | b < i :: Of(recs[b], 1, tx) && forall c | b < c < i :: !Of(recs[c], 3, tx)
  }

  /** The transaction's updates since its last commit. */
  function UpdatesAt(f: Format, recs: seq<Placed>, i: nat, tx: nat): seq<RecoveredUpdate>
    requires i <= |recs|
  {
    if i == 0 then [] else
    var r := recs[i - 1];
    if Of(r, 3, tx) then []
    else if Of(r, 2, tx) && f.parseUpdate(r.record.payload, r.offset).Ok?
    then UpdatesAt(f, recs, i - 1, tx) + [f.parseUpdate(r.record.payload, r.offset).value]
    else UpdatesAt(f, recs, i - 1, tx)
  }

  /** The index after the commits among the first i records. */
  function RootsAt(f: Format, recs: seq<Placed>, i: nat, base: Index): Index
    requires i <= |recs|
  {
    if i == 0 then base else
    var r := recs[i - 1];
    var before := RootsAt(f, recs, i - 1, base);
    if r.record.kind != 3 then before
    else match ApplyUpdates(before, UpdatesAt(f, recs, i - 1, r.record.transaction))
      case Ok(after) => after
      case Err(_) => before
  }

  predicate Counts(payload: Blob, n: nat) {
    |payload| == 8 && FromLe(payload) == n
  }

  /** What record i must be: new, or one the snapshot covers; a BEGIN, or a readable update of an open
      transaction, or the commit of an open one that counts its updates, which chain. */
  ghost predicate Acceptable(f: Format, recs: seq<Placed>, i: nat, base: Index, snapshotSequence: nat)
    requires i < |recs|
  {
    var Record(kind, sequence, tx, payload) := recs[i].record;
    && (sequence > LastBefore(recs, i, snapshotSequence) || sequence <= snapshotSequence)
    && (kind == 1
        || (kind == 2 && OpenAt(recs, i, tx) && f.parseUpdate(payload, recs[i].offset).Ok?)
        || (kind == 3 && OpenAt(recs, i, tx) && Counts(payload, |UpdatesAt(f, recs, i, tx)|)
            && Chains(RootsAt(f, recs, i, base), UpdatesAt(f, recs, i, tx))))
  }

  /** The state after the first i records. */
  ghost predicate Describes(f: Format, recs: seq<Placed>, i: nat, base: Index, snapshotSequence: nat, st: Replayed)
    requires i <= |recs|
  {
    && st.roots == RootsAt(f, recs, i, base) && st.lastSequence == LastBefore(recs, i, snapshotSequence) && st.records == i
    && (forall tx {:trigger PendingOf(st.pending, tx)} :: PendingOf(st.pending, tx) == Pending(OpenAt(recs, i, tx), UpdatesAt(f, recs, i, tx)))
  }

  lemma {:induction false} OpenNext(recs: seq<Placed>, i: nat, tx: nat)
    requires i < |recs|
    ensures OpenAt(recs, i + 1, tx) <==> Of(recs[i], 1, tx) || (!Of(recs[i], 3, tx) && OpenAt(recs, i, tx))
  {
  }

  lemma {:induction false} CountRead(payload: Blob, n: nat)
    ensures ParseCount(payload) == Ok(n) <==> Counts(payload, n)
  {
    if |payload| >= 8 {
      assert |payload| == 8 ==> payload[..8] == payload;
    }
  }

  lemma {:induction false} BeginDescribes(f: Format, recs: seq<Placed>, i: nat, base: Index, snapshotSequence: nat, st: Replayed)
    requires i < |recs| && Describes(f, recs, i, base, snapshotSequence, st) && recs[i].record.kind == 1
    ensures Describes(f, recs, i + 1, base, snapshotSequence, ApplyBegin(Counted(st, recs[i].record.sequence), recs[i].record.transaction))
  {
    var st' := ApplyBegin(Counted(st, recs[i].record.sequence), recs[i].record.transaction);
    forall tx
      ensures PendingOf(st'.pending, tx) == Pending(OpenAt(recs, i + 1, tx), UpdatesAt(f, recs, i + 1, tx))
    {
      OpenNext(recs, i, tx);
      assert PendingOf(st.pending, tx) == Pending(OpenAt(recs, i, tx), UpdatesAt(f, recs, i, tx));
    }
  }

  lemma {:induction false} UpdateDescribes(f: Format, recs: seq<Placed>, i: nat, base: Index, snapshotSequence: nat, st: Replayed, st': Replayed)
    requires i < |recs| && Describes(f, recs, i, base, snapshotSequence, st) && recs[i].record.kind == 2
    requires ApplyUpdate(Counted(st, recs[i].record.sequence), recs[i].record.transaction,
                         f.parseUpdate(recs[i].record.payload, recs[i].offset)) == Ok(st')
    ensures Describes(f, recs, i + 1, base, snapshotSequence, st')
  {
    forall tx
      ensures PendingOf(st'.pending, tx) == Pending(OpenAt(recs, i + 1, tx), UpdatesAt(f, recs, i + 1, tx))
    {
      OpenNext(recs, i, tx);
      assert PendingOf(st.pending, tx) == Pending(OpenAt(recs, i, tx), UpdatesAt(f, recs, i, tx));
    }
  }

  lemma {:induction false} CommitDescribes(f: Format, recs: seq<Placed>, i: nat, base: Index, snapshotSequence: nat, st: Replayed, st': Replayed)
    requires i < |recs| && Describes(f, recs, i, base, snapshotSequence, st) && recs[i].record.kind == 3
    requires ApplyCommit(Counted(st, recs[i].record.sequence), recs[i].record.transaction, ParseCount(recs[i].record.payload)) == Ok(st')
    ensures Describes(f, recs, i + 1, base, snapshotSequence, st')
  {
    var t := recs[i].record.transaction;
    assert PendingOf(st.pending, t) == Pending(OpenAt(recs, i, t), UpdatesAt(f, recs, i, t));
    forall tx
      ensures PendingOf(st'.pending, tx) == Pending(OpenAt(recs, i + 1, tx), UpdatesAt(f, recs, i + 1, tx))
    {
      OpenNext(recs, i, tx);
      assert PendingOf(st.pending, tx) == Pending(OpenAt(recs, i, tx), UpdatesAt(f, recs, i, tx));
    }
  }

  /** A record is applied if and only if it is acceptable after the records before it. */
  lemma {:induction false} RecordMeans(f: Format, recs: seq<Placed>, i: nat, base: Index, snapshotSequence: nat, st: Replayed)
    requires i < |recs| && Describes(f, recs, i, base, snapshotSequence, st)
    ensures var r := ApplyRecord(f, snapshotSequence, st, recs[i].record, recs[i].offset);
            && (r.Ok? <==> Acceptable(f, recs, i, base, snapshotSequence))
            && (r.Ok? ==> Describes(f, recs, i + 1, base, snapshotSequence, r.value))
  {
    var Record(kind, sequence, tx, payload) := recs[i].record;
    var r := ApplyRecord(f, snapshotSequence, st, recs[i].record, recs[i].offset);
    assert PendingOf(st.pending, tx) == Pending(OpenAt(recs, i, tx), UpdatesAt(f, recs, i, tx));
    if kind == 1 {
      if r.Ok? {
        BeginDescribes(f, recs, i, base, snapshotSequence, st);
      }
    } else if kind == 2 {
      if r.Ok? {
        UpdateDescribes(f, recs, i, base, snapshotSequence, st, r.value);
      }
    } else if kind == 3 {
      CountRead(payload, |UpdatesAt(f, recs, i, tx)|);
      ChainsIff(st.roots, UpdatesAt(f, recs, i, tx));
      if r.Ok? {
        CommitDescribes(f, recs, i, base, snapshotSequence, st, r.value);
      }
    }
  }

  // ------------------------------------------------------------------
  // Files
  // ------------------------------------------------------------------

  /** How a scan ends: in a torn tail, or in bytes that are no record. */
  datatype Ending = TornAt(end: nat) | BrokenAt(error: Error)

  /** The records that a file holds, one after another, and how it ends. */
  function RecordsIn(f: Format, bytes: Blob, offset: nat): (r: (seq<Placed>, Ending))
    requires offset <= |bytes|
    decreases |bytes| - offset
  {
    match f.scan(bytes[offset..])
    case Torn => ([], TornAt(offset))
    case Bad(e) => ([], BrokenAt(e))
    case Found(rec, size) =>
      if size == 0 || offset + size > |bytes| then ([], BrokenAt(Corruption(BadLength)))
      else var (more, ending) := RecordsIn(f, bytes, offset + size); ([Placed(rec, offset)] + more, ending)
  }

  ghost predicate AcceptableFrom(f: Format, recs: seq<Placed>, i: nat, base: Index, snapshotSequence: nat) {
    forall j | i <= j < |recs| :: Acceptable(f, recs, j, base, snapshotSequence)
  }

  /** A scan that starts behind the first i records ends well exactly if the others are acceptable and
      the file ends in a torn tail. */
  ghost predicate Scans(f: Format, recs: seq<Placed>, i: nat, ending: Ending, base: Index, snapshotSequence: nat, r: Result<(Replayed, nat)>) {
    && (r.Ok? <==> ending.TornAt? && AcceptableFrom(f, recs, i, base, snapshotSequence))
    && (r.Ok? ==> r.value.1 == ending.end && Describes(f, recs, |recs|, base, snapshotSequence, r.value.0))
  }

  lemma {:induction false} ScansNext(f: Format, recs: seq<Placed>, i: nat, ending: Ending, base: Index, snapshotSequence: nat, r: Result<(Replayed, nat)>)
    requires i < |recs| && Acceptable(f, recs, i, base, snapshotSequence) && Scans(f, recs, i + 1, ending, base, snapshotSequence, r)
    ensures Scans(f, recs, i, ending, base, snapshotSequence, r)
  {
  }

  lemma {:induction false} ScanMeans(f: Format, bytes: Blob, offset: nat, recs: seq<Placed>, i: nat, base: Index, snapshotSequence: nat, st: Replayed)
    requires offset <= |bytes| && i <= |recs| && recs[i..] == RecordsIn(f, bytes, offset).0
    requires Describes(f, recs, i, base, snapshotSequence, st)
    ensures Scans(f, recs, i, RecordsIn(f, bytes, offset).1, base, snapshotSequence, ScanAll(f, bytes, offset, st, Stepper(f, snapshotSequence)))
    decreases |bytes| - offset
  {
    var step := Stepper(f, snapshotSequence);
    if f.scan(bytes[offset..]).Found? {
      var Found(rec, size) := f.scan(bytes[offset..]);
      if size > 0 && offset + size <= |bytes| {
        assert recs[i..][0] == recs[i] && recs[i..][1..] == recs[i + 1..];
        RecordMeans(f, recs, i, base, snapshotSequence, st);
        var r := step(st, rec, offset);
        if r.Ok? {
          ScanMeans(f, bytes, offset + size, recs, i + 1, base, snapshotSequence, r.value);
          ScansNext(f, recs, i, RecordsIn(f, bytes, offset).1, base, snapshotSequence, ScanAll(f, bytes, offset, st, step));
        }
      }
    }
  }

  /** Recovery accepts a journal if and only if the journal is records, each acceptable after those
      before it, and a torn tail. What it recovers is the last sequence number, the index after the
      commits, and for each transaction whether it is open and its updates. */
  lemma {:induction false} RecoverMeans(f: Format, wal: Blob, base: Index, snapshotSequence: nat)
    ensures var r := Recover(f, wal, base, snapshotSequence);
            var (recs, ending) := RecordsIn(f, wal, 0);
            && (r.Ok? <==> ending.TornAt? && forall i | 0 <= i < |recs| :: Acceptable(f, recs, i, base, snapshotSequence))
            && (r.Ok? ==> r.value.1 == ending.end && Describes(f, recs, |recs|, base, snapshotSequence, r.value.0))
  {
    var recs := RecordsIn(f, wal, 0).0;
    var st := Start(base, snapshotSequence);
    assert recs[0..] == recs;
    forall tx
      ensures PendingOf(st.pending, tx) == Pending(OpenAt(recs, 0, tx), UpdatesAt(f, recs, 0, tx))
    {
    }
    ScanMeans(f, wal, 0, recs, 0, base, snapshotSequence, st);
  }
}
