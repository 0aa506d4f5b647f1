/** Replaying the journal: what each record does to the state recovery builds. */
module Recovery {
  import opened Bytes
  import opened Records
  import opened Scanning

  /** The resident root index: name to version, type tag and payload locator. */
  type Index = map<Blob, RootRecord>

  datatype Pending = Pending(began: bool, updates: seq<RecoveredUpdate>)

  type Open = map<nat, Pending>

  datatype Replayed = Replayed(roots: Index, lastSequence: nat, pending: Open, records: nat)

  function Max(a: nat, b: nat): (m: nat) {
    if a < b then b else a
  }

  function VersionOf(roots: Index, name: Blob): nat {
    if name in roots then roots[name].version else 0
  }

  function PendingOf(pending: Open, tx: nat): Pending {
    if tx in pending then pending[tx] else Pending(false, [])
  }

  /** The updates of one committed transaction, in order; versions already present are skipped. */
  function ApplyUpdates(roots: Index, updates: seq<RecoveredUpdate>): Result<Index>
    decreases |updates|
  {
    if updates == [] then Ok(roots) else
    var u := updates[0];
    if u.next <= VersionOf(roots, u.name) then ApplyUpdates(roots, updates[1..])
    else if VersionOf(roots, u.name) != u.expected then Err(Corruption(VersionChainMismatch))
    else ApplyUpdates(roots[u.name := RootRecord(u.next, u.tag, u.payload)], updates[1..])
  }

  function ParseCount(payload: Blob): Result<nat> {
    var (count, rest) :- ReadScalar(payload, 8);
    if rest != [] then Err(Corruption(CountMismatch)) else Ok(count)
  }

  function ApplyCommit(st: Replayed, tx: nat, count: Result<nat>): Result<Replayed> {
    if !PendingOf(st.pending, tx).began then Err(Corruption(CommitWithoutBegin)) else
    var expected :- count;
    if expected != |PendingOf(st.pending, tx).updates| then Err(Corruption(CountMismatch)) else
    var roots :- ApplyUpdates(st.roots, PendingOf(st.pending, tx).updates);
    Ok(st.(roots := roots, pending := st.pending - {tx}))
  }

  function ApplyUpdate(st: Replayed, tx: nat, update: Result<RecoveredUpdate>): Result<Replayed> {
    if !PendingOf(st.pending, tx).began then Err(Corruption(UpdateWithoutBegin)) else
    var u :- update;
    Ok(st.(pending := st.pending[tx := Pending(true, PendingOf(st.pending, tx).updates + [u])]))
  }

  /** BEGIN marks the transaction; updates already pending under its id stay. */
  function ApplyBegin(st: Replayed, tx: nat): Replayed {
    st.(pending := st.pending[tx := Pending(true, PendingOf(st.pending, tx).updates)])
  }

  /** Sequence numbers above the snapshot's must grow. */
  predicate InSequence(last: nat, sequence: nat, snapshotSequence: nat) {
    sequence > last || sequence <= snapshotSequence
  }

  function Counted(st: Replayed, sequence: nat): Replayed {
    st.(lastSequence := Max(st.lastSequence, sequence), records := st.records + 1)
  }

  /** The effect of one record that starts at `offset`. */
  function ApplyRecord(f: Format, snapshotSequence: nat, st: Replayed, rec: Record, offset: nat): Result<Replayed> {
    if !InSequence(st.lastSequence, rec.sequence, snapshotSequence) then Err(Corruption(SequenceNotIncreasing)) else
    var st1 := Counted(st, rec.sequence);
    if rec.kind == BEGIN then Ok(ApplyBegin(st1, rec.transaction))
    else if rec.kind == ROOT_UPDATE then ApplyUpdate(st1, rec.transaction, f.parseUpdate(rec.payload, offset))
    else if rec.kind == COMMIT then ApplyCommit(st1, rec.transaction, ParseCount(rec.payload))
    else Err(Corruption(UnknownRecordType))
  }

  function Stepper(f: Format, snapshotSequence: nat): Step<Replayed> {
    (st: Replayed, rec: Record, offset: nat) => ApplyRecord(f, snapshotSequence, st, rec, offset)
  }

  /** The state before the first record, given what the snapshot holds. */
  function Start(base: Index, snapshotSequence: nat): Replayed {
    Replayed(base, snapshotSequence, map[], 0)
  }

  function Recover(f: Format, wal: Blob, base: Index, snapshotSequence: nat): (r: Result<(Replayed, nat)>)
    ensures r.Ok? ==> r.value.1 <= |wal|
  {
    ScanAll(f, wal, 0, Start(base, snapshotSequence), Stepper(f, snapshotSequence))
  }

  // ------------------------------------------------------------------
  // The records of one transaction
  // ------------------------------------------------------------------

  function UpdateRecords(f: Format, tx: nat, updates: seq<RootUpdate>, sequence: nat): (r: seq<Record>)
    ensures |r| == |updates|
    decreases |updates|
  {
    if updates == [] then []
    else [Record(ROOT_UPDATE, sequence, tx, f.updateBytes(updates[0]))]
         + UpdateRecords(f, tx, updates[1..], sequence + 1)
  }

  function BeginRecord(tx: nat, sequence: nat): Record {
    Record(BEGIN, sequence, tx, [])
  }

  function CommitRecord(tx: nat, sequence: nat, count: nat): Record {
    Record(COMMIT, sequence, tx, Le(count, 8))
  }

  /** BEGIN and the first `count` updates. */
  function Opening(f: Format, tx: nat, updates: seq<RootUpdate>, sequence: nat): (r: seq<Record>)
    ensures |r| == |updates| + 1
  {
    [BeginRecord(tx, sequence)] + UpdateRecords(f, tx, updates, sequence + 1)
  }

  function TransactionRecords(f: Format, tx: nat, updates: seq<RootUpdate>, sequence: nat): (r: seq<Record>)
    ensures |r| == |updates| + 2
  {
    Opening(f, tx, updates, sequence) + [CommitRecord(tx, sequence + |updates| + 1, |updates|)]
  }

  /** The recovered updates, each located where its record lies. */
  function LocatedAll(f: Format, tx: nat, updates: seq<RootUpdate>, sequence: nat, offset: nat): (r: seq<RecoveredUpdate>)
    ensures |r| == |updates|
    decreases |updates|
  {
    if updates == [] then []
    else [f.located(updates[0], offset)]
         + LocatedAll(f, tx, updates[1..], sequence + 1,
                      offset + |f.frame(Record(ROOT_UPDATE, sequence, tx, f.updateBytes(updates[0])))|)
  }

  predicate UpdatesFit(f: Format, updates: seq<RootUpdate>) {
    forall i | 0 <= i < |updates| :: f.updateFits(updates[i])
  }

  /** Whether the fields of a transaction's updates and records are in range. */
  ghost function Fitting(f: Format, tx: nat, updates: seq<RootUpdate>, sequence: nat): Law {
    if forall k: nat {:trigger Opened(k)} :: Opened(k) ==>
         UpdatesFit(f, updates) && AllFit(f, TransactionRecords(f, tx, updates, sequence)) && |updates| < TWO64
    then Kept else Broken
  }

  lemma {:induction false} FittingOpens(f: Format, tx: nat, updates: seq<RootUpdate>, sequence: nat)
    requires Fitting(f, tx, updates, sequence).Kept?
    ensures UpdatesFit(f, updates) && AllFit(f, TransactionRecords(f, tx, updates, sequence)) && |updates| < TWO64
  {
    assert Opened(0);
  }

  /** Either all sequence numbers from `first` on are new, or the snapshot covers them up to `last`. */
  predicate Sequenced(previous: nat, first: nat, last: nat, snapshotSequence: nat) {
    previous < first || last <= snapshotSequence
  }

  function AfterUpdates(st: Replayed, tx: nat, located: seq<RecoveredUpdate>, last: nat): Replayed {
    Replayed(st.roots, Max(st.lastSequence, last),
             st.pending[tx := Pending(true, PendingOf(st.pending, tx).updates + located)],
             st.records + |located|)
  }

  function AfterBegin(st: Replayed, tx: nat, sequence: nat): Replayed {
    ApplyBegin(Counted(st, sequence), tx)
  }

  // What a step does with the records a transaction writes. Proofs about whole
  // transactions use these facts and not the body of the step.

  predicate StepsBegin(step: Step<Replayed>, st: Replayed, tx: nat, sequence: nat, offset: nat) {
    step(st, BeginRecord(tx, sequence), offset) == Ok(AfterBegin(st, tx, sequence))
  }

  predicate StepsUpdate(f: Format, step: Step<Replayed>, st: Replayed, tx: nat, u: RootUpdate, sequence: nat, offset: nat) {
    step(st, Record(ROOT_UPDATE, sequence, tx, f.updateBytes(u)), offset)
    == Ok(AfterUpdates(st, tx, [f.located(u, offset)], sequence))
  }

  predicate StepsCommit(step: Step<Replayed>, st: Replayed, tx: nat, sequence: nat, count: nat, offset: nat) {
    step(st, CommitRecord(tx, sequence, count), offset) == ApplyCommit(Counted(st, sequence), tx, Ok(count))
  }

  ghost predicate ReplayLaws(f: Format, snapshotSequence: nat, step: Step<Replayed>) {
    && (forall st: Replayed, tx, sequence, offset {:trigger StepsBegin(step, st, tx, sequence, offset)}
        | InSequence(st.lastSequence, sequence, snapshotSequence) :: StepsBegin(step, st, tx, sequence, offset))
    && (forall st: Replayed, tx, u, sequence, offset {:trigger StepsUpdate(f, step, st, tx, u, sequence, offset)}
        | InSequence(st.lastSequence, sequence, snapshotSequence) && PendingOf(st.pending, tx).began && f.updateFits(u)
        :: StepsUpdate(f, step, st, tx, u, sequence, offset))
    && (forall st: Replayed, tx, sequence, count: nat, offset {:trigger StepsCommit(step, st, tx, sequence, count, offset)}
        | InSequence(st.lastSequence, sequence, snapshotSequence) && count < TWO64
        :: StepsCommit(step, st, tx, sequence, count, offset))
  }

  ghost function Replays(f: Format, snapshotSequence: nat, step: Step<Replayed>): Law {
    if ReplayLaws(f, snapshotSequence, step) then Kept else Broken
  }

  lemma {:induction false} StepperReplays(f: Format, snapshotSequence: nat)
    requires Lawful(f).Kept?
    ensures Replays(f, snapshotSequence, Stepper(f, snapshotSequence)).Kept?
  {
    var step := Stepper(f, snapshotSequence);
    forall st: Replayed, tx: nat, u, sequence: nat, offset: nat
      | InSequence(st.lastSequence, sequence, snapshotSequence) && PendingOf(st.pending, tx).began && f.updateFits(u)
      ensures StepsUpdate(f, step, st, tx, u, sequence, offset)
    {
      assert ReadsUpdate(f, u, offset);
    }
    forall st: Replayed, tx: nat, sequence: nat, count: nat, offset: nat
      | InSequence(st.lastSequence, sequence, snapshotSequence) && count < TWO64
      ensures StepsCommit(step, st, tx, sequence, count, offset)
    {
      ParseOfCount(count);
    }
  }

  lemma {:induction false} ParseOfCount(count: nat)
    requires count < TWO64
    ensures ParseCount(Le(count, 8)) == Ok(count)
  {
    Widths();
    assert Le(count, 8) + [] == Le(count, 8);
    ReadScalarLe(count, 8, []);
  }

  /** Applying the update records of a begun transaction collects its updates, with their locators. */
  lemma {:induction false} ApplyUpdateRecords(f: Format, tx: nat, updates: seq<RootUpdate>, sequence: nat, offset: nat,
                                              st: Replayed, snapshotSequence: nat, step: Step<Replayed>)
    requires Replays(f, snapshotSequence, step).Kept?
    requires UpdatesFit(f, updates)
    requires PendingOf(st.pending, tx).began && sequence > 0
    requires Sequenced(st.lastSequence, sequence, sequence + |updates| - 1, snapshotSequence)
    ensures ApplyAll(f, UpdateRecords(f, tx, updates, sequence), offset, st, step)
            == Ok(if updates == [] then st
                  else AfterUpdates(st, tx, LocatedAll(f, tx, updates, sequence, offset), sequence + |updates| - 1))
    decreases |updates|
  {
    if updates != [] {
      var u, rest := updates[0], updates[1..];
      var rec := Record(ROOT_UPDATE, sequence, tx, f.updateBytes(u));
      var st1 := AfterUpdates(st, tx, [f.located(u, offset)], sequence);
      assert StepsUpdate(f, step, st, tx, u, sequence, offset);
      ApplyAllCons(f, rec, UpdateRecords(f, tx, rest, sequence + 1), offset, st, st1, step);
      ApplyUpdateRecords(f, tx, rest, sequence + 1, offset + |f.frame(rec)|, st1, snapshotSequence, step);
      var more := LocatedAll(f, tx, rest, sequence + 1, offset + |f.frame(rec)|);
      AfterMore(st, tx, f.located(u, offset), more, sequence, sequence + |updates| - 1);
    }
  }

  lemma {:induction false} AfterMore(st: Replayed, tx: nat, one: RecoveredUpdate, more: seq<RecoveredUpdate>, sequence: nat, last: nat)
    requires sequence <= last
    ensures AfterUpdates(AfterUpdates(st, tx, [one], sequence), tx, more, last) == AfterUpdates(st, tx, [one] + more, last)
    ensures more == [] && sequence == last ==> AfterUpdates(st, tx, [one], sequence) == AfterUpdates(st, tx, [one] + more, last)
  {
    ConcatAssoc(PendingOf(st.pending, tx).updates, [one], more);
    if more == [] {
      assert [one] + more == [one];
    }
  }
}
