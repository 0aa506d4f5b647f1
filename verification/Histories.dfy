/** Whole logs, built by appending transactions one after another, and their byte prefixes. */
module Histories {
  import opened Bytes
  import opened Records
  import opened Scanning
  import opened Recovery
  import opened Commits
  import opened Replay

  datatype Txn = Txn(id: nat, updates: seq<RootUpdate>)

  /** A log and the state recovery builds from it. */
  datatype Built = Built(wal: Blob, st: Replayed)

  function Extend(f: Format, b: Built, t: Txn): Built {
    var first := b.st.lastSequence + 1;
    Built(b.wal + Batch(f, t.id, t.updates, first), AfterCommit(f, b.st, t.id, t.updates, first, |b.wal|))
  }

  function Build(f: Format, base: Index, sequence: nat, txns: seq<Txn>): Built
    decreases |txns|
  {
    if txns == [] then Built([], Start(base, sequence))
    else Extend(f, Build(f, base, sequence, txns[..|txns| - 1]), txns[|txns| - 1])
  }

  /** The transaction starts from current versions and its records fit their fields. */
  ghost predicate Appendable(f: Format, b: Built, t: Txn) {
    var first := b.st.lastSequence + 1;
    && Fitting(f, t.id, t.updates, first).Kept?
    && Current(b.st.roots, OpeningLocated(f, t.id, t.updates, first, |b.wal|))
  }

  ghost predicate Buildable(f: Format, base: Index, sequence: nat, txns: seq<Txn>)
    decreases |txns|
  {
    txns == [] ||
    (var before := txns[..|txns| - 1];
     Buildable(f, base, sequence, before) && Appendable(f, Build(f, base, sequence, before), txns[|txns| - 1]))
  }

  /** The log recovers, whole, to the state. */
  ghost predicate Scans(f: Format, b: Built, st0: Replayed, step: Step<Replayed>)
  {
    ScanAll(f, b.wal, 0, st0, step) == Ok((b.st, |b.wal|))
  }

  /** One more transaction on a log that recovers. */
  lemma {:induction false} ExtendRecovers(f: Format, b: Built, t: Txn, st0: Replayed, snapshotSequence: nat, step: Step<Replayed>)
    requires Lawful(f).Kept?
    requires Replays(f, snapshotSequence, step).Kept? && Appendable(f, b, t)
    requires PendingOf(b.st.pending, t.id).updates == []
    requires Scans(f, b, st0, step)
    ensures Scans(f, Extend(f, b, t), st0, step)
  {
    var first := b.st.lastSequence + 1;
    CommittedBatch(f, b.wal, t.id, t.updates, first, st0, b.st, snapshotSequence, step);
  }

  /** Recovery of a log built by appends is the state the appends built, with nothing left open. */
  lemma {:induction false} BuiltRecovers(f: Format, base: Index, sequence: nat, txns: seq<Txn>)
    requires Lawful(f).Kept?
    requires Buildable(f, base, sequence, txns)
    ensures var b := Build(f, base, sequence, txns);
            Scans(f, b, Start(base, sequence), Stepper(f, sequence)) && b.st.pending == map[]
    decreases |txns|
  {
    if txns == [] {
      var none: Blob := [];
      assert none[0..] == none;
    } else {
      var before := txns[..|txns| - 1];
      BuiltRecovers(f, base, sequence, before);
      StepperReplays(f, sequence);
      ExtendRecovers(f, Build(f, base, sequence, before), txns[|txns| - 1], Start(base, sequence), sequence, Stepper(f, sequence));
    }
  }

  /** Earlier logs are byte prefixes of later ones. */
  lemma {:induction false} BuildGrows(f: Format, base: Index, sequence: nat, txns: seq<Txn>, m: nat)
    requires m <= |txns|
    ensures Build(f, base, sequence, txns[..m]).wal <= Build(f, base, sequence, txns).wal
    decreases |txns|
  {
    if m == |txns| {
      assert txns[..m] == txns;
    } else {
      var before := txns[..|txns| - 1];
      assert txns[..m] == before[..m];
      BuildGrows(f, base, sequence, before, m);
    }
  }

  ghost predicate RecoversTo(f: Format, wal: Blob, st0: Replayed, step: Step<Replayed>, roots: Index)
  {
    ScanAll(f, wal, 0, st0, step).Ok? && ScanAll(f, wal, 0, st0, step).value.0.roots == roots
  }

  /** A transaction cut short leaves no trace in the index. */
  lemma {:induction false} CutExtend(f: Format, b: Built, t: Txn, k: nat, st0: Replayed, snapshotSequence: nat, step: Step<Replayed>)
    requires Lawful(f).Kept?
    requires Replays(f, snapshotSequence, step).Kept? && Appendable(f, b, t)
    requires ScanAll(f, b.wal, 0, st0, step) == Ok((b.st, |b.wal|))
    requires |b.wal| <= k < |Extend(f, b, t).wal|
    ensures RecoversTo(f, Extend(f, b, t).wal[..k], st0, step, b.st.roots)
  {
    var first := b.st.lastSequence + 1;
    var batch := Batch(f, t.id, t.updates, first);
    CutLeavesRoots(f, b.wal, t.id, t.updates, first, k - |b.wal|, st0, b.st, snapshotSequence, step);
    CutConcat(b.wal, batch, k);
  }

  lemma {:induction false} CutConcat(a: Blob, b: Blob, k: nat)
    requires |a| <= k <= |a| + |b|
    ensures (a + b)[..k] == a + b[..k - |a|]
  {
  }

  /** Logs by the transactions appended to them. */
  type Builder = seq<Txn> -> Built

  function BuilderOf(f: Format, base: Index, sequence: nat): Builder {
    (txns: seq<Txn>) => Build(f, base, sequence, txns)
  }

  /** m is how many transactions are whole within the first k bytes. */
  predicate WholeWithin(build: Builder, txns: seq<Txn>, k: nat, m: nat) {
    && m <= |txns| && |build(txns[..m]).wal| <= k
    && (m < |txns| ==> k < |build(txns[..m + 1]).wal|)
  }

  /** The first k bytes recover to exactly the index after the m transactions whole within them. */
  ghost predicate PrefixIs(f: Format, build: Builder, st0: Replayed, step: Step<Replayed>, txns: seq<Txn>, k: nat, m: nat)
    requires k <= |build(txns).wal|
  {
    WholeWithin(build, txns, k, m) && RecoversTo(f, build(txns).wal[..k], st0, step, build(txns[..m]).st.roots)
  }

  /** Every byte prefix of a log built by appends recovers, to exactly the index after the
      transactions whose COMMIT record lies wholly in the prefix. */
  lemma {:induction false} PrefixRecovers(f: Format, base: Index, sequence: nat, txns: seq<Txn>, k: nat) returns (m: nat)
    requires Lawful(f).Kept?
    requires Buildable(f, base, sequence, txns)
    requires k <= |Build(f, base, sequence, txns).wal|
    ensures PrefixIs(f, BuilderOf(f, base, sequence), Start(base, sequence), Stepper(f, sequence), txns, k, m)
    decreases |txns|
  {
    var build, st0, step := BuilderOf(f, base, sequence), Start(base, sequence), Stepper(f, sequence);
    if k == |Build(f, base, sequence, txns).wal| {
      BuiltRecovers(f, base, sequence, txns);
      PrefixWhole(f, build, st0, step, txns);
      m := |txns|;
    } else if k >= |Build(f, base, sequence, txns[..|txns| - 1]).wal| {
      LastCut(f, base, sequence, txns, k);
      PrefixCut(f, build, st0, step, txns, k);
      m := |txns| - 1;
    } else {
      m := PrefixRecovers(f, base, sequence, txns[..|txns| - 1], k);
      BuildGrows(f, base, sequence, txns, |txns| - 1);
      PrefixEarlier(f, build, st0, step, txns, k, m);
    }
  }

  lemma {:induction false} PrefixEarlier(f: Format, build: Builder, st0: Replayed, step: Step<Replayed>, txns: seq<Txn>, k: nat, m: nat)
    requires txns != [] && k < |build(txns[..|txns| - 1]).wal|
    requires build(txns[..|txns| - 1]).wal <= build(txns).wal
    requires PrefixIs(f, build, st0, step, txns[..|txns| - 1], k, m)
    ensures PrefixIs(f, build, st0, step, txns, k, m)
  {
    var before := txns[..|txns| - 1];
    assert build(txns).wal[..k] == build(before).wal[..k];
    assert before[..|before|] == before;
    assert m < |before|;
    assert before[..m] == txns[..m] && before[..m + 1] == txns[..m + 1];
  }

  lemma {:induction false} PrefixWhole(f: Format, build: Builder, st0: Replayed, step: Step<Replayed>, txns: seq<Txn>)
    requires Scans(f, build(txns), st0, step)
    ensures PrefixIs(f, build, st0, step, txns, |build(txns).wal|, |txns|)
  {
    var wal := build(txns).wal;
    assert wal[..|wal|] == wal && txns[..|txns|] == txns;
  }

  lemma {:induction false} PrefixCut(f: Format, build: Builder, st0: Replayed, step: Step<Replayed>, txns: seq<Txn>, k: nat)
    requires txns != []
    requires |build(txns[..|txns| - 1]).wal| <= k < |build(txns).wal|
    requires RecoversTo(f, build(txns).wal[..k], st0, step, build(txns[..|txns| - 1]).st.roots)
    ensures PrefixIs(f, build, st0, step, txns, k, |txns| - 1)
  {
    assert txns[..|txns| - 1 + 1] == txns;
  }

  lemma {:induction false} LastCut(f: Format, base: Index, sequence: nat, txns: seq<Txn>, k: nat)
    requires Lawful(f).Kept?
    requires txns != [] && Buildable(f, base, sequence, txns)
    requires |Build(f, base, sequence, txns[..|txns| - 1]).wal| <= k < |Build(f, base, sequence, txns).wal|
    ensures RecoversTo(f, Build(f, base, sequence, txns).wal[..k], Start(base, sequence), Stepper(f, sequence),
                       Build(f, base, sequence, txns[..|txns| - 1]).st.roots)
  {
    var before := txns[..|txns| - 1];
    BuiltRecovers(f, base, sequence, before);
    StepperReplays(f, sequence);
    CutExtend(f, Build(f, base, sequence, before), txns[|txns| - 1], k, Start(base, sequence), sequence, Stepper(f, sequence));
  }

  lemma {:induction false} ExtendFails(f: Format, b: Built, t: Txn, st0: Replayed, snapshotSequence: nat, step: Step<Replayed>)
    requires Lawful(f).Kept?
    requires Replays(f, snapshotSequence, step).Kept? && Appendable(f, b, t)
    requires PendingOf(b.st.pending, t.id).updates != []
    requires Scans(f, b, st0, step)
    ensures ScanAll(f, b.wal + Batch(f, t.id, t.updates, b.st.lastSequence + 1), 0, st0, step) == Err(Corruption(CountMismatch))
  {
    var first := b.st.lastSequence + 1;
    WholeBatch(f, b.wal, t.id, t.updates, first, st0, b.st, snapshotSequence, step);
    LeftoverDooms(f, t.id, t.updates, first, |b.wal|, b.st);
  }

  /** It recovers if the condition holds; otherwise updates and their count do not agree. */
  function RecoversIff<T>(r: Result<T>, condition: bool): Law {
    if (r.Ok? <==> condition) && (r.Err? ==> r == Err(Corruption(CountMismatch))) then Kept else Broken
  }

  /** A log on which a transaction is appended recovers if and only if no update is left open in
      it under that transaction's id: ids restart at every open, and BEGIN keeps what is pending. */
  lemma {:induction false} ReusedIdReadable(f: Format, wal: Blob, base: Index, sequence: nat, t: Txn, st: Replayed)
    requires Lawful(f).Kept?
    requires Recover(f, wal, base, sequence) == Ok((st, |wal|))
    requires Appendable(f, Built(wal, st), t)
    ensures RecoversIff(Recover(f, wal + Batch(f, t.id, t.updates, st.lastSequence + 1), base, sequence),
                        PendingOf(st.pending, t.id).updates == []).Kept?
  {
    StepperReplays(f, sequence);
    ReusedIdScans(f, Built(wal, st), t, Start(base, sequence), sequence, Stepper(f, sequence));
  }

  lemma {:induction false} ReusedIdScans(f: Format, b: Built, t: Txn, st0: Replayed, snapshotSequence: nat, step: Step<Replayed>)
    requires Lawful(f).Kept?
    requires Replays(f, snapshotSequence, step).Kept? && Appendable(f, b, t) && Scans(f, b, st0, step)
    ensures RecoversIff(ScanAll(f, b.wal + Batch(f, t.id, t.updates, b.st.lastSequence + 1), 0, st0, step),
                        PendingOf(b.st.pending, t.id).updates == []).Kept?
  {
    if PendingOf(b.st.pending, t.id).updates == [] {
      ExtendRecovers(f, b, t, st0, snapshotSequence, step);
    } else {
      ExtendFails(f, b, t, st0, snapshotSequence, step);
    }
  }

  /** What recovery makes of a transaction cut after k of its bytes: the index is as it was, and
      updates are left open under its id exactly if its first update record is whole. */
  lemma {:induction false} CutRecovers(f: Format, wal: Blob, base: Index, sequence: nat, t: Txn, st: Replayed, k: nat)
    returns (st1: Replayed, end: nat)
    requires Lawful(f).Kept?
    requires Recover(f, wal, base, sequence) == Ok((st, |wal|))
    requires Appendable(f, Built(wal, st), t) && t.updates != [] && PendingOf(st.pending, t.id).updates == []
    requires k < |Batch(f, t.id, t.updates, st.lastSequence + 1)|
    ensures Recover(f, wal + Batch(f, t.id, t.updates, st.lastSequence + 1)[..k], base, sequence) == Ok((st1, end))
    ensures st1.roots == st.roots && st1.lastSequence <= st.lastSequence + |t.updates| + 1
    ensures PendingOf(st1.pending, t.id).updates != [] <==> FirstUpdateEnd(f, t.id, t.updates, st.lastSequence + 1) <= k
  {
    StepperReplays(f, sequence);
    st1, end := CutScans(f, Built(wal, st), t, k, Start(base, sequence), sequence, Stepper(f, sequence));
  }

  lemma {:induction false} CutScans(f: Format, b: Built, t: Txn, k: nat, st0: Replayed, snapshotSequence: nat, step: Step<Replayed>)
    returns (st1: Replayed, end: nat)
    requires Lawful(f).Kept?
    requires Replays(f, snapshotSequence, step).Kept? && Appendable(f, b, t) && Scans(f, b, st0, step)
    requires t.updates != [] && PendingOf(b.st.pending, t.id).updates == []
    requires k < |Batch(f, t.id, t.updates, b.st.lastSequence + 1)|
    ensures ScanAll(f, b.wal + Batch(f, t.id, t.updates, b.st.lastSequence + 1)[..k], 0, st0, step) == Ok((st1, end))
    ensures st1.roots == b.st.roots && st1.lastSequence <= b.st.lastSequence + |t.updates| + 1
    ensures PendingOf(st1.pending, t.id).updates != [] <==> FirstUpdateEnd(f, t.id, t.updates, b.st.lastSequence + 1) <= k
  {
    var first, i := b.st.lastSequence + 1, 0;
    i, end := CutBatch(f, b.wal, t.id, t.updates, first, k, st0, b.st, snapshotSequence, step);
    st1 := AfterSome(f, b.st, t.id, t.updates, first, |b.wal|, i);
    CutLeavesOpen(f, t.id, t.updates, first, |b.wal|, k, i, end, b.st);
  }

  /** A transaction is cut after k of its bytes, the journal is reopened, which cuts the torn tail,
      and a transaction with the same id is appended whole. The next recovery succeeds if and only
      if the cut came before the end of the first update record; otherwise it reports a count
      mismatch, though both appends and the recovery between them did what they should. */
  lemma {:induction false} ReuseAfterCut(f: Format, wal: Blob, base: Index, sequence: nat, t: Txn, st: Replayed, k: nat,
                                         cut: Blob, st1: Replayed, end: nat, again: Txn)
    requires Lawful(f).Kept?
    requires Recover(f, wal, base, sequence) == Ok((st, |wal|))
    requires Appendable(f, Built(wal, st), t) && t.updates != [] && PendingOf(st.pending, t.id).updates == []
    requires k < |Batch(f, t.id, t.updates, st.lastSequence + 1)| && cut == wal + Batch(f, t.id, t.updates, st.lastSequence + 1)[..k]
    requires Recover(f, cut, base, sequence) == Ok((st1, end))
    requires again.id == t.id && Appendable(f, Built(cut[..end], st1), again)
    ensures RecoversIff(Recover(f, cut[..end] + Batch(f, again.id, again.updates, st1.lastSequence + 1), base, sequence),
                        k < FirstUpdateEnd(f, t.id, t.updates, st.lastSequence + 1)).Kept?
  {
    var _, _ := CutRecovers(f, wal, base, sequence, t, st, k);
    TruncationHarmless(f, cut, base, sequence);
    ReusedIdReadable(f, cut[..end], base, sequence, again, st1);
  }
}
