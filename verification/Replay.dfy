/** Replaying a log over a state that already holds some or all of it. */
module Replay {
  import opened Bytes
  import opened Records
  import opened Scanning
  import opened Recovery

  /** No root of `roots` is newer than it is in `bound`. */
  ghost predicate NotNewer(roots: Index, bound: Index) {
    forall name: Blob :: VersionOf(roots, name) <= VersionOf(bound, name)
  }

  /** Versions only grow, and reach the version of every update applied. */
  lemma {:induction false} UpdatesGrow(roots: Index, updates: seq<RecoveredUpdate>)
    requires ApplyUpdates(roots, updates).Ok?
    ensures NotNewer(roots, ApplyUpdates(roots, updates).value)
    ensures forall i | 0 <= i < |updates| ::
              updates[i].next <= VersionOf(ApplyUpdates(roots, updates).value, updates[i].name)
    decreases |updates|
  {
    if updates != [] {
      var u := updates[0];
      var roots1 := if u.next <= VersionOf(roots, u.name) then roots
                    else roots[u.name := RootRecord(u.next, u.tag, u.payload)];
      UpdatesGrow(roots1, updates[1..]);
      assert u.next <= VersionOf(roots1, u.name);
      forall i | 0 <= i < |updates|
        ensures updates[i].next <= VersionOf(ApplyUpdates(roots, updates).value, updates[i].name)
      {
        if i > 0 {
          assert updates[i] == updates[1..][i - 1];
        }
      }
    }
  }

  /** Updates that are all present already change nothing. */
  lemma {:induction false} UpdatesSkip(roots: Index, updates: seq<RecoveredUpdate>)
    requires forall i | 0 <= i < |updates| :: updates[i].next <= VersionOf(roots, updates[i].name)
    ensures ApplyUpdates(roots, updates) == Ok(roots)
    decreases |updates|
  {
    if updates != [] {
      assert updates[0].next <= VersionOf(roots, updates[0].name);
      UpdatesSkip(roots, updates[1..]);
    }
  }

  /** The state within a log whose whole effect `bound` holds already, its sequence numbers included. */
  ghost predicate Covered(st: Replayed, bound: Index, sequence: nat) {
    NotNewer(st.roots, bound) && st.lastSequence <= sequence
  }

  lemma {:induction false} RecordGrows(f: Format, snapshotSequence: nat, st: Replayed, rec: Record, offset: nat)
    requires ApplyRecord(f, snapshotSequence, st, rec, offset).Ok?
    ensures var st1 := ApplyRecord(f, snapshotSequence, st, rec, offset).value;
            NotNewer(st.roots, st1.roots) && st.lastSequence <= st1.lastSequence && rec.sequence <= st1.lastSequence
  {
    if rec.kind == COMMIT {
      UpdatesGrow(st.roots, PendingOf(st.pending, rec.transaction).updates);
    }
  }

  /** Running over `bound`: the same transactions are open, and the index stays `bound`. */
  predicate Absorbed(st: Replayed, over: Replayed, bound: Index, sequence: nat) {
    over == Replayed(bound, sequence, st.pending, st.records)
  }

  lemma {:induction false} RecordAbsorbed(f: Format, one: nat, st: Replayed, over: Replayed, bound: Index, sequence: nat, rec: Record, offset: nat)
    requires Absorbed(st, over, bound, sequence)
    requires ApplyRecord(f, one, st, rec, offset).Ok? && Covered(ApplyRecord(f, one, st, rec, offset).value, bound, sequence)
    ensures ApplyRecord(f, sequence, over, rec, offset).Ok?
    ensures Absorbed(ApplyRecord(f, one, st, rec, offset).value, ApplyRecord(f, sequence, over, rec, offset).value, bound, sequence)
  {
    RecordGrows(f, one, st, rec, offset);
    if rec.kind == COMMIT {
      var updates := PendingOf(st.pending, rec.transaction).updates;
      UpdatesGrow(st.roots, updates);
      forall i | 0 <= i < |updates|
        ensures updates[i].next <= VersionOf(bound, updates[i].name)
      {
        var after := ApplyRecord(f, one, st, rec, offset).value.roots;
        assert updates[i].next <= VersionOf(after, updates[i].name) <= VersionOf(bound, updates[i].name);
      }
      UpdatesSkip(bound, updates);
    }
  }

  lemma {:induction false} Absorbs(f: Format, one: nat, bound: Index, sequence: nat)
    ensures Descends(Stepper(f, one), (st: Replayed) => Covered(st, bound, sequence))
    ensures Simulates(Stepper(f, one), Stepper(f, sequence),
                      (st: Replayed, over: Replayed) => Absorbed(st, over, bound, sequence),
                      (st: Replayed) => Covered(st, bound, sequence))
  {
    var below := (st: Replayed) => Covered(st, bound, sequence);
    var related := (st: Replayed, over: Replayed) => Absorbed(st, over, bound, sequence);
    forall st, rec, offset | Accepts(Stepper(f, one), below, st, rec, offset)
      ensures below(st)
    {
      RecordGrows(f, one, st, rec, offset);
      CoveredBefore(st, ApplyRecord(f, one, st, rec, offset).value, bound, sequence);
    }
    forall st, over, rec, offset | related(st, over) && Accepts(Stepper(f, one), below, st, rec, offset)
      ensures Follows(Stepper(f, one), Stepper(f, sequence), related, st, over, rec, offset)
    {
      RecordAbsorbed(f, one, st, over, bound, sequence, rec, offset);
    }
  }

  lemma {:induction false} CoveredBefore(st: Replayed, later: Replayed, bound: Index, sequence: nat)
    requires Covered(later, bound, sequence)
    requires NotNewer(st.roots, later.roots) && st.lastSequence <= later.lastSequence
    ensures Covered(st, bound, sequence)
  {
    forall name: Blob
      ensures VersionOf(st.roots, name) <= VersionOf(bound, name)
    {
      assert VersionOf(st.roots, name) <= VersionOf(later.roots, name) <= VersionOf(bound, name);
    }
  }

  /** A log replayed over an index that is nowhere older than the log's own result leaves that
      index as it is; only the transactions left open are rebuilt. */
  lemma {:induction false} ReplayAbsorbed(f: Format, wal: Blob, base: Index, one: nat, bound: Index, sequence: nat)
    requires Recover(f, wal, base, one).Ok?
    requires Covered(Recover(f, wal, base, one).value.0, bound, sequence)
    ensures var (st, end) := Recover(f, wal, base, one).value;
            Recover(f, wal, bound, sequence) == Ok((Replayed(bound, sequence, st.pending, st.records), end))
  {
    Absorbs(f, one, bound, sequence);
    ScanFollows(f, wal, 0, Start(base, one), Start(bound, sequence), Stepper(f, one), Stepper(f, sequence),
                (st: Replayed, over: Replayed) => Absorbed(st, over, bound, sequence),
                (st: Replayed) => Covered(st, bound, sequence));
  }

  lemma {:induction false} RecordSame(f: Format, one: nat, two: nat, st: Replayed, rec: Record, offset: nat)
    requires one <= two && ApplyRecord(f, one, st, rec, offset).Ok?
    ensures ApplyRecord(f, two, st, rec, offset) == ApplyRecord(f, one, st, rec, offset)
  {
  }

  predicate Same(st: Replayed, other: Replayed) {
    st == other
  }

  predicate Anything(st: Replayed) {
    true
  }

  lemma {:induction false} Resumes(f: Format, one: nat, two: nat)
    requires one <= two
    ensures Simulates(Stepper(f, one), Stepper(f, two), Same, Anything)
  {
    forall st, over, rec, offset | Same(st, over) && Accepts(Stepper(f, one), Anything, st, rec, offset)
      ensures Follows(Stepper(f, one), Stepper(f, two), Same, st, over, rec, offset)
    {
      RecordSame(f, one, two, st, rec, offset);
    }
  }

  /** Sequence numbers never fall below the snapshot's. */
  lemma {:induction false} ScanKeepsSequence(f: Format, bytes: Blob, offset: nat, st: Replayed, one: nat)
    requires offset <= |bytes| && ScanAll(f, bytes, offset, st, Stepper(f, one)).Ok?
    ensures st.lastSequence <= ScanAll(f, bytes, offset, st, Stepper(f, one)).value.0.lastSequence
    ensures NotNewer(st.roots, ScanAll(f, bytes, offset, st, Stepper(f, one)).value.0.roots)
    decreases |bytes| - offset
  {
    if f.scan(bytes[offset..]).Found? {
      var Found(rec, size) := f.scan(bytes[offset..]);
      RecordGrows(f, one, st, rec, offset);
      var st1 := ApplyRecord(f, one, st, rec, offset).value;
      ScanKeepsSequence(f, bytes, offset + size, st1, one);
      CoveredBefore(st, st1, ScanAll(f, bytes, offset, st, Stepper(f, one)).value.0.roots, st1.lastSequence);
    }
  }

  /** Replaying the whole log over the state its first part leaves gives the state the whole log gives. */
  lemma {:induction false} ReplayResumes(f: Format, first: Blob, rest: Blob, base: Index, one: nat)
    requires Lawful(f).Kept?
    requires Recover(f, first, base, one).Ok? && Recover(f, first, base, one).value.1 == |first|
    requires Recover(f, first + rest, base, one).Ok?
    ensures var st := Recover(f, first, base, one).value.0;
            Recover(f, first + rest, st.roots, st.lastSequence) == Recover(f, first + rest, base, one)
  {
    var st := Recover(f, first, base, one).value.0;
    var two := st.lastSequence;
    ReplayAbsorbed(f, first, base, one, st.roots, two);
    ScanExtends(f, first, rest, 0, Start(base, one), Stepper(f, one));
    ScanExtends(f, first, rest, 0, Start(st.roots, two), Stepper(f, two));
    ScanKeepsSequence(f, first, 0, Start(base, one), one);
    Resumes(f, one, two);
    assert Descends(Stepper(f, one), Anything);
    ScanFollows(f, first + rest, |first|, st, st, Stepper(f, one), Stepper(f, two), Same, Anything);
  }

  /** Recovering again from what recovery produced changes nothing. */
  lemma {:induction false} ReplayIdempotent(f: Format, wal: Blob, base: Index, one: nat)
    requires Lawful(f).Kept?
    requires Recover(f, wal, base, one).Ok? && Recover(f, wal, base, one).value.1 == |wal|
    ensures var st := Recover(f, wal, base, one).value.0;
            Recover(f, wal, st.roots, st.lastSequence) == Recover(f, wal, base, one)
  {
    assert wal + [] == wal;
    ReplayResumes(f, wal, [], base, one);
  }

  /** Truncating the torn tail and recovering again gives the same state. */
  lemma {:induction false} TruncationHarmless(f: Format, wal: Blob, base: Index, one: nat)
    requires Lawful(f).Kept?
    requires Recover(f, wal, base, one).Ok?
    ensures var (st, end) := Recover(f, wal, base, one).value;
            Recover(f, wal[..end], base, one) == Ok((st, end))
  {
    ScanTruncates(f, wal, 0, Start(base, one), Stepper(f, one));
  }
}
