/** What a transaction's bytes, whole or cut, do to recovery. */
module Commits {
  import opened Bytes
  import opened Records
  import opened Scanning
  import opened Recovery

  // ------------------------------------------------------------------
  // Publishing updates
  // ------------------------------------------------------------------

  /** The index after the updates, in order. */
  function Publish(roots: Index, located: seq<RecoveredUpdate>): Index
    decreases |located|
  {
    if located == [] then roots
    else Publish(roots[located[0].name := RootRecord(located[0].next, located[0].tag, located[0].payload)], located[1..])
  }

  /** Every update starts from the current version of its root, and the roots are distinct. */
  predicate Current(roots: Index, located: seq<RecoveredUpdate>) {
    && (forall i | 0 <= i < |located| :: VersionOf(roots, located[i].name) == located[i].expected < located[i].next)
    && (forall i, j | 0 <= i < j < |located| :: located[i].name != located[j].name)
  }

  /** The same, of the updates themselves: this is what a commit validates. */
  predicate UpdatesCurrent(roots: Index, updates: seq<RootUpdate>) {
    && (forall i | 0 <= i < |updates| :: VersionOf(roots, updates[i].name) == updates[i].expected < updates[i].next)
    && (forall i, j | 0 <= i < j < |updates| :: updates[i].name != updates[j].name)
  }

  /** Locating an update keeps its name and versions. */
  lemma {:induction false} LocatedFields(f: Format, tx: nat, updates: seq<RootUpdate>, sequence: nat, offset: nat, i: nat)
    requires Lawful(f).Kept? && UpdatesFit(f, updates) && i < |updates|
    ensures var l := LocatedAll(f, tx, updates, sequence, offset)[i];
            l.name == updates[i].name && l.expected == updates[i].expected && l.next == updates[i].next && l.tag == updates[i].tag
    decreases |updates|
  {
    assert ReadsUpdate(f, updates[0], offset);
    if i > 0 {
      var rec := Record(ROOT_UPDATE, sequence, tx, f.updateBytes(updates[0]));
      LocatedFields(f, tx, updates[1..], sequence + 1, offset + |f.frame(rec)|, i - 1);
    }
  }

  lemma {:induction false} LocatedCurrent(f: Format, roots: Index, tx: nat, updates: seq<RootUpdate>, sequence: nat, offset: nat)
    requires Lawful(f).Kept? && UpdatesFit(f, updates) && UpdatesCurrent(roots, updates)
    ensures Current(roots, LocatedAll(f, tx, updates, sequence, offset))
  {
    forall i | 0 <= i < |updates|
      ensures var l := LocatedAll(f, tx, updates, sequence, offset)[i];
              l.name == updates[i].name && l.expected == updates[i].expected && l.next == updates[i].next
    {
      LocatedFields(f, tx, updates, sequence, offset, i);
    }
  }

  lemma {:induction false} CurrentPublishes(roots: Index, located: seq<RecoveredUpdate>)
    requires Current(roots, located)
    ensures ApplyUpdates(roots, located) == Ok(Publish(roots, located))
    decreases |located|
  {
    if located != [] {
      var u := located[0];
      var roots1 := roots[u.name := RootRecord(u.next, u.tag, u.payload)];
      forall i | 0 <= i < |located| - 1
        ensures VersionOf(roots1, located[1..][i].name) == located[1..][i].expected < located[1..][i].next
      {
        assert located[1..][i] == located[i + 1];
        assert located[0].name != located[i + 1].name;
      }
      CurrentPublishes(roots1, located[1..]);
    }
  }

  // ------------------------------------------------------------------
  // One transaction, as records
  // ------------------------------------------------------------------

  function AfterOpening(f: Format, st: Replayed, tx: nat, updates: seq<RootUpdate>, sequence: nat, offset: nat): Replayed {
    AfterUpdates(AfterBegin(st, tx, sequence), tx, OpeningLocated(f, tx, updates, sequence, offset), sequence + |updates|)
  }

  /** The located updates of a transaction whose BEGIN record starts at `offset`. */
  function OpeningLocated(f: Format, tx: nat, updates: seq<RootUpdate>, sequence: nat, offset: nat): (r: seq<RecoveredUpdate>)
    ensures |r| == |updates|
  {
    LocatedAll(f, tx, updates, sequence + 1, offset + |f.frame(BeginRecord(tx, sequence))|)
  }

  lemma {:induction false} ApplyOpening(f: Format, tx: nat, updates: seq<RootUpdate>, sequence: nat, offset: nat,
                     st: Replayed, snapshotSequence: nat, step: Step<Replayed>)
    requires Replays(f, snapshotSequence, step).Kept?
    requires UpdatesFit(f, updates)
    requires Sequenced(st.lastSequence, sequence, sequence + |updates|, snapshotSequence)
    ensures ApplyAll(f, Opening(f, tx, updates, sequence), offset, st, step)
            == Ok(AfterOpening(f, st, tx, updates, sequence, offset))
  {
    var st1 := AfterBegin(st, tx, sequence);
    assert StepsBegin(step, st, tx, sequence, offset);
    ApplyAllCons(f, BeginRecord(tx, sequence), UpdateRecords(f, tx, updates, sequence + 1), offset, st, st1, step);
    ApplyUpdateRecords(f, tx, updates, sequence + 1, offset + |f.frame(BeginRecord(tx, sequence))|, st1, snapshotSequence, step);
    if updates == [] {
      NothingCollected(st1, tx, sequence);
    }
  }

  lemma {:induction false} NothingCollected(st: Replayed, tx: nat, sequence: nat)
    requires tx in st.pending && st.pending[tx].began && sequence <= st.lastSequence
    ensures AfterUpdates(st, tx, [], sequence) == st
  {
    assert st.pending[tx].updates + [] == st.pending[tx].updates;
    assert st.pending[tx := st.pending[tx]] == st.pending;
  }

  /** COMMIT is checked against everything pending under the transaction's id. */
  lemma {:induction false} ApplyTransaction(f: Format, tx: nat, updates: seq<RootUpdate>, sequence: nat, offset: nat,
                         st: Replayed, snapshotSequence: nat, step: Step<Replayed>)
    requires Replays(f, snapshotSequence, step).Kept?
    requires UpdatesFit(f, updates)
    requires Sequenced(st.lastSequence, sequence, sequence + |updates| + 1, snapshotSequence)
    requires |updates| < TWO64
    ensures ApplyAll(f, TransactionRecords(f, tx, updates, sequence), offset, st, step)
            == ApplyCommit(Counted(AfterOpening(f, st, tx, updates, sequence, offset), sequence + |updates| + 1), tx, Ok(|updates|))
  {
    var opening := Opening(f, tx, updates, sequence);
    var commit := CommitRecord(tx, sequence + |updates| + 1, |updates|);
    var st1 := AfterOpening(f, st, tx, updates, sequence, offset);
    ApplyOpening(f, tx, updates, sequence, offset, st, snapshotSequence, step);
    ApplyAllConcat(f, opening, [commit], offset, st, step);
    var at := offset + |Log(f, opening)|;
    assert StepsCommit(step, st1, tx, sequence + |updates| + 1, |updates|, at);
    ApplyLast(f, commit, at, st1, step);
  }

  lemma {:induction false} ApplyLast<S>(f: Format, rec: Record, offset: nat, st: S, step: Step<S>)
    ensures ApplyAll(f, [rec], offset, st, step) == step(st, rec, offset)
  {
    assert [rec][1..] == [];
  }

  /** The state after a transaction that finds nothing left over under its id. */
  function AfterCommit(f: Format, st: Replayed, tx: nat, updates: seq<RootUpdate>, sequence: nat, offset: nat): Replayed {
    Replayed(Publish(st.roots, OpeningLocated(f, tx, updates, sequence, offset)),
             Max(st.lastSequence, sequence + |updates| + 1),
             st.pending - {tx},
             st.records + |updates| + 2)
  }

  lemma {:induction false} CommitApplies(f: Format, tx: nat, updates: seq<RootUpdate>, sequence: nat, offset: nat, st: Replayed)
    requires PendingOf(st.pending, tx).updates == []
    requires Current(st.roots, OpeningLocated(f, tx, updates, sequence, offset))
    ensures ApplyCommit(Counted(AfterOpening(f, st, tx, updates, sequence, offset), sequence + |updates| + 1), tx, Ok(|updates|))
            == Ok(AfterCommit(f, st, tx, updates, sequence, offset))
  {
    var located := OpeningLocated(f, tx, updates, sequence, offset);
    var st1 := Counted(AfterOpening(f, st, tx, updates, sequence, offset), sequence + |updates| + 1);
    assert [] + [] + located == located;
    assert PendingOf(st1.pending, tx) == Pending(true, located);
    CurrentPublishes(st.roots, located);
    assert st1.pending - {tx} == st.pending - {tx};
  }

  /** A transaction id with updates left over in the log cannot commit readably again. */
  lemma {:induction false} LeftoverDooms(f: Format, tx: nat, updates: seq<RootUpdate>, sequence: nat, offset: nat, st: Replayed)
    requires PendingOf(st.pending, tx).updates != []
    ensures ApplyCommit(Counted(AfterOpening(f, st, tx, updates, sequence, offset), sequence + |updates| + 1), tx, Ok(|updates|))
            == Err(Corruption(CountMismatch))
  {
    var st1 := Counted(AfterOpening(f, st, tx, updates, sequence, offset), sequence + |updates| + 1);
    assert PendingOf(st1.pending, tx).began;
    assert |PendingOf(st1.pending, tx).updates| == |PendingOf(st.pending, tx).updates| + |updates|;
  }

  // ------------------------------------------------------------------
  // One transaction, as bytes
  // ------------------------------------------------------------------

  /** The bytes one commit appends. */
  function Batch(f: Format, tx: nat, updates: seq<RootUpdate>, sequence: nat): Blob {
    Log(f, TransactionRecords(f, tx, updates, sequence))
  }

  /** The state after the first i records of a transaction that was cut short. */
  function AfterSome(f: Format, st: Replayed, tx: nat, updates: seq<RootUpdate>, sequence: nat, offset: nat, i: nat): Replayed
    requires i <= |updates| + 1
  {
    if i == 0 then st else AfterOpening(f, st, tx, updates[..i - 1], sequence, offset)
  }

  lemma {:induction false} UpdateRecordsPrefix(f: Format, tx: nat, updates: seq<RootUpdate>, sequence: nat, j: nat)
    requires j <= |updates|
    ensures UpdateRecords(f, tx, updates, sequence)[..j] == UpdateRecords(f, tx, updates[..j], sequence)
    decreases j
  {
    if j > 0 {
      UpdateRecordsPrefix(f, tx, updates[1..], sequence + 1, j - 1);
      assert updates[..j][0] == updates[0] && updates[..j][1..] == updates[1..][..j - 1];
      var head := [Record(ROOT_UPDATE, sequence, tx, f.updateBytes(updates[0]))];
      ConcatTake(head, UpdateRecords(f, tx, updates[1..], sequence + 1), j);
    }
  }

  /** The first records of a transaction are the records of its first updates. */
  lemma {:induction false} RecordsPrefix(f: Format, tx: nat, updates: seq<RootUpdate>, sequence: nat, i: nat)
    requires 0 < i <= |updates| + 1
    ensures TransactionRecords(f, tx, updates, sequence)[..i] == Opening(f, tx, updates[..i - 1], sequence)
  {
    var opening := Opening(f, tx, updates, sequence);
    ConcatTake(opening, [CommitRecord(tx, sequence + |updates| + 1, |updates|)], i);
    ConcatTake([BeginRecord(tx, sequence)], UpdateRecords(f, tx, updates, sequence + 1), i);
    UpdateRecordsPrefix(f, tx, updates, sequence + 1, i - 1);
    if i == 1 {
      assert UpdateRecords(f, tx, updates[..0], sequence + 1) == [];
      assert [BeginRecord(tx, sequence)][..1] == [BeginRecord(tx, sequence)] + [];
    }
  }

  lemma {:induction false} AllFitPrefix(f: Format, recs: seq<Record>, i: nat)
    requires AllFit(f, recs) && i <= |recs|
    ensures AllFit(f, recs[..i])
  {
  }

  /** Scanning a file that grew by the bytes of records, then a torn tail. */
  lemma {:induction false} ScanAppended<S>(f: Format, wal: Blob, recs: seq<Record>, tail: Blob, st0: S, st: S, step: Step<S>)
    requires Lawful(f).Kept?
    requires AllFit(f, recs) && f.scan(tail) == Torn
    requires ScanAll(f, wal, 0, st0, step) == Ok((st, |wal|))
    ensures ScanAll(f, wal + (Log(f, recs) + tail), 0, st0, step)
            == Ended(ApplyAll(f, recs, |wal|, st, step), |wal| + |Log(f, recs)|)
  {
    var more := Log(f, recs) + tail;
    ScanExtends(f, wal, more, 0, st0, step);
    ConcatParts(wal, more);
    ScanLog(f, wal + more, |wal|, recs, tail, st, step);
  }

  /** A whole transaction, appended. */
  lemma {:induction false} WholeBatch(f: Format, wal: Blob, tx: nat, updates: seq<RootUpdate>, sequence: nat,
                   st0: Replayed, st: Replayed, snapshotSequence: nat, step: Step<Replayed>)
    requires Lawful(f).Kept?
    requires Replays(f, snapshotSequence, step).Kept? && Fitting(f, tx, updates, sequence).Kept?
    requires ScanAll(f, wal, 0, st0, step) == Ok((st, |wal|))
    requires Sequenced(st.lastSequence, sequence, sequence + |updates| + 1, snapshotSequence)
    ensures ScanAll(f, wal + Batch(f, tx, updates, sequence), 0, st0, step)
            == Ended(ApplyCommit(Counted(AfterOpening(f, st, tx, updates, sequence, |wal|), sequence + |updates| + 1), tx, Ok(|updates|)),
                     |wal| + |Batch(f, tx, updates, sequence)|)
  {
    var recs := TransactionRecords(f, tx, updates, sequence);
    FittingOpens(f, tx, updates, sequence);
    assert Log(f, recs) + [] == Log(f, recs);
    ScanAppended(f, wal, recs, [], st0, st, step);
    ApplyTransaction(f, tx, updates, sequence, |wal|, st, snapshotSequence, step);
  }

  /** A whole transaction whose id has nothing left open is applied. */
  lemma {:induction false} CommittedBatch(f: Format, wal: Blob, tx: nat, updates: seq<RootUpdate>, sequence: nat,
                       st0: Replayed, st: Replayed, snapshotSequence: nat, step: Step<Replayed>)
    requires Lawful(f).Kept?
    requires Replays(f, snapshotSequence, step).Kept? && Fitting(f, tx, updates, sequence).Kept?
    requires ScanAll(f, wal, 0, st0, step) == Ok((st, |wal|))
    requires Sequenced(st.lastSequence, sequence, sequence + |updates| + 1, snapshotSequence)
    requires PendingOf(st.pending, tx).updates == []
    requires Current(st.roots, OpeningLocated(f, tx, updates, sequence, |wal|))
    ensures ScanAll(f, wal + Batch(f, tx, updates, sequence), 0, st0, step)
            == Ok((AfterCommit(f, st, tx, updates, sequence, |wal|), |wal + Batch(f, tx, updates, sequence)|))
  {
    WholeBatch(f, wal, tx, updates, sequence, st0, st, snapshotSequence, step);
    CommitApplies(f, tx, updates, sequence, |wal|, st);
  }

  /** Of the records that start at `at`, the first i are whole within k bytes, and end at `end`. */
  predicate CutWithin(f: Format, recs: seq<Record>, at: nat, k: nat, i: nat, end: nat)
    requires i < |recs|
  {
    end == at + |Log(f, recs[..i])| && end <= at + k < end + |f.frame(recs[i])|
  }

  /** A transaction cut anywhere inside its bytes: exactly the records that are whole within the
      cut count, and none commits. */
  lemma {:induction false} CutBatch(f: Format, wal: Blob, tx: nat, updates: seq<RootUpdate>, sequence: nat, k: nat,
                 st0: Replayed, st: Replayed, snapshotSequence: nat, step: Step<Replayed>) returns (i: nat, end: nat)
    requires Lawful(f).Kept?
    requires Replays(f, snapshotSequence, step).Kept? && Fitting(f, tx, updates, sequence).Kept?
    requires ScanAll(f, wal, 0, st0, step) == Ok((st, |wal|))
    requires Sequenced(st.lastSequence, sequence, sequence + |updates| + 1, snapshotSequence)
    requires k < |Batch(f, tx, updates, sequence)|
    ensures i <= |updates| + 1 && CutWithin(f, TransactionRecords(f, tx, updates, sequence), |wal|, k, i, end)
    ensures ScanAll(f, wal + Batch(f, tx, updates, sequence)[..k], 0, st0, step)
            == Ok((AfterSome(f, st, tx, updates, sequence, |wal|, i), end))
  {
    var recs := TransactionRecords(f, tx, updates, sequence);
    FittingOpens(f, tx, updates, sequence);
    i, end := CutScan(f, wal, recs, k, st0, st, step);
    ApplySome(f, tx, updates, sequence, i, |wal|, st, snapshotSequence, step);
  }

  /** Records cut anywhere inside their bytes: scanning applies those that are whole. */
  lemma {:induction false} CutScan(f: Format, wal: Blob, recs: seq<Record>, k: nat, st0: Replayed, st: Replayed, step: Step<Replayed>)
    returns (i: nat, end: nat)
    requires Lawful(f).Kept? && AllFit(f, recs) && k < |Log(f, recs)|
    requires ScanAll(f, wal, 0, st0, step) == Ok((st, |wal|))
    ensures i < |recs| && CutWithin(f, recs, |wal|, k, i, end)
    ensures ScanAll(f, wal + Log(f, recs)[..k], 0, st0, step) == Ended(ApplyAll(f, recs[..i], |wal|, st, step), end)
  {
    var tail;
    i, tail := LogPrefix(f, recs, k);
    AllFitPrefix(f, recs, i);
    ScanAppended(f, wal, recs[..i], tail, st0, st, step);
    end := |wal| + |Log(f, recs[..i])|;
  }

  lemma {:induction false} LogSteps(f: Format, recs: seq<Record>, i: nat)
    requires i < |recs|
    ensures Log(f, recs[..i + 1]) == Log(f, recs[..i]) + f.frame(recs[i])
  {
    LogConcat(f, recs[..i], [recs[i]]);
    LogOne(f, recs[i]);
    assert recs[..i + 1] == recs[..i] + [recs[i]];
  }

  lemma {:induction false} LogGrows(f: Format, recs: seq<Record>, i: nat, j: nat)
    requires i <= j <= |recs|
    ensures |Log(f, recs[..i])| <= |Log(f, recs[..j])|
    decreases j
  {
    if i < j {
      LogSteps(f, recs, j - 1);
      LogGrows(f, recs, i, j - 1);
    }
  }

  /** The size of a transaction's BEGIN record and first update record. */
  function FirstUpdateEnd(f: Format, tx: nat, updates: seq<RootUpdate>, sequence: nat): nat
    requires updates != []
  {
    |f.frame(BeginRecord(tx, sequence))| + |f.frame(Record(ROOT_UPDATE, sequence + 1, tx, f.updateBytes(updates[0])))|
  }

  lemma {:induction false} FirstTwo(f: Format, tx: nat, updates: seq<RootUpdate>, sequence: nat)
    requires updates != []
    ensures |Log(f, TransactionRecords(f, tx, updates, sequence)[..2])| == FirstUpdateEnd(f, tx, updates, sequence)
  {
    var recs := TransactionRecords(f, tx, updates, sequence);
    var begin, first := BeginRecord(tx, sequence), Record(ROOT_UPDATE, sequence + 1, tx, f.updateBytes(updates[0]));
    assert recs[0] == begin && recs[1] == first;
    assert recs[..2] == [begin] + [first];
    LogConcat(f, [begin], [first]);
    LogOne(f, begin);
    LogOne(f, first);
  }

  /** A cut leaves updates open under the transaction's id exactly if its first update record is whole. */
  lemma {:induction false} CutLeavesOpen(f: Format, tx: nat, updates: seq<RootUpdate>, sequence: nat, at: nat, k: nat, i: nat, end: nat, st: Replayed)
    requires updates != [] && PendingOf(st.pending, tx).updates == []
    requires i <= |updates| + 1 && CutWithin(f, TransactionRecords(f, tx, updates, sequence), at, k, i, end)
    ensures PendingOf(AfterSome(f, st, tx, updates, sequence, at, i).pending, tx).updates != [] <==> FirstUpdateEnd(f, tx, updates, sequence) <= k
  {
    var recs := TransactionRecords(f, tx, updates, sequence);
    FirstTwo(f, tx, updates, sequence);
    LogSteps(f, recs, i);
    if i >= 2 {
      LogGrows(f, recs, 2, i);
    } else {
      LogGrows(f, recs, i + 1, 2);
    }
  }

  /** So the index is as it was. */
  lemma {:induction false} CutLeavesRoots(f: Format, wal: Blob, tx: nat, updates: seq<RootUpdate>, sequence: nat, k: nat,
                 st0: Replayed, st: Replayed, snapshotSequence: nat, step: Step<Replayed>)
    requires Lawful(f).Kept?
    requires Replays(f, snapshotSequence, step).Kept? && Fitting(f, tx, updates, sequence).Kept?
    requires ScanAll(f, wal, 0, st0, step) == Ok((st, |wal|))
    requires Sequenced(st.lastSequence, sequence, sequence + |updates| + 1, snapshotSequence)
    requires k < |Batch(f, tx, updates, sequence)|
    ensures var r := ScanAll(f, wal + Batch(f, tx, updates, sequence)[..k], 0, st0, step); r.Ok? && r.value.0.roots == st.roots
  {
    var i, end := CutBatch(f, wal, tx, updates, sequence, k, st0, st, snapshotSequence, step);
  }

  lemma {:induction false} ApplySome(f: Format, tx: nat, updates: seq<RootUpdate>, sequence: nat, i: nat, offset: nat,
                  st: Replayed, snapshotSequence: nat, step: Step<Replayed>)
    requires Replays(f, snapshotSequence, step).Kept? && i <= |updates| + 1
    requires UpdatesFit(f, updates)
    requires Sequenced(st.lastSequence, sequence, sequence + |updates| + 1, snapshotSequence)
    ensures ApplyAll(f, TransactionRecords(f, tx, updates, sequence)[..i], offset, st, step)
            == Ok(AfterSome(f, st, tx, updates, sequence, offset, i))
  {
    if i > 0 {
      RecordsPrefix(f, tx, updates, sequence, i);
      ApplyOpening(f, tx, updates[..i - 1], sequence, offset, st, snapshotSequence, step);
    }
  }
}
