/** Transaction ids start again at every open. What that does to a commit that was cut short. */
module ReusedIds {
  import opened Bytes
  import opened Records
  import opened Scanning
  import opened Recovery
  import opened Commits
  import opened Storage
  import opened Standing
  import opened Engine
  import opened HeapState
  import Histories
  import JournalFormat

  // ------------------------------------------------------------------
  // For any formats that obey the laws
  // ------------------------------------------------------------------

  /** Creates roots, and may be written under id 1 at any sequence number up to a limit. */
  ghost function Creating(f: Format, updates: seq<RootUpdate>, limit: nat): Law {
    if && updates != [] && UpdatesCurrent(map[], updates)
       && forall sequence {:trigger Fitting(f, 1, updates, sequence)} | 1 <= sequence <= limit :: Fitting(f, 1, updates, sequence).Kept?
    then Kept else Broken
  }

  lemma {:induction false} CreatingAppendable(f: Format, wal: Blob, st: Replayed, updates: seq<RootUpdate>, limit: nat)
    requires Lawful(f).Kept? && Creating(f, updates, limit).Kept? && st.roots == map[] && st.lastSequence < limit
    ensures Histories.Appendable(f, Histories.Built(wal, st), Histories.Txn(1, updates))
  {
    FittingOpens(f, 1, updates, st.lastSequence + 1);
    LocatedCurrent(f, st.roots, 1, updates, st.lastSequence + 2, |wal| + |f.frame(BeginRecord(1, st.lastSequence + 1))|);
  }

  /** The flush of the cut, if reopening these bytes cuts a torn tail. */
  function Trims(fs: Formats, cut: Blob): seq<Action> {
    match RecoverDisk(fs, None, cut)
    case Ok((_, end)) => if end == |cut| then [] else [TrimFlushes]
    case Err(_) => []
  }

  /** A fresh heap is opened; the power fails after some bytes of its first commit; it is opened
      again, and the cut is flushed. */
  ghost function CutRun(fs: Formats, updates: seq<RootUpdate>, cut: Blob): seq<Action> {
    [Reopens] + ([AppendFails(1, updates, |cut|)] + ([Crashes(None, cut)] + ([Reopens] + Trims(fs, cut))))
  }

  const OPENED := Machine(None, [], [], Ready, map[], 0, false, None)

  lemma {:induction false} FreshOpens(fs: Formats)
    requires Sound(fs).Kept?
    ensures Enabled(fs, FRESH, Reopens) && After(fs, FRESH, Reopens) == OPENED
    ensures RecoverDisk(fs, None, []) == Ok((Start(map[], 0), 0))
  {
    EmptyJournal(fs.journal, map[], 0);
  }

  lemma {:induction false} CutFails(fs: Formats, updates: seq<RootUpdate>, cut: Blob)
    requires Sound(fs).Kept? && Creating(fs.journal, updates, 1).Kept?
    requires cut <= Batch(fs.journal, 1, updates, 1)
    ensures Enabled(fs, OPENED, AppendFails(1, updates, |cut|))
    ensures After(fs, OPENED, AppendFails(1, updates, |cut|))
            == Machine(None, [], cut, Ready, map[], |updates| + 2, true, Some(Flight(1, updates, 1, 0)))
  {
    FreshOpens(fs);
    assert [] + cut == cut;
  }

  lemma {:induction false} ReopenRuns(fs: Formats, cut: Blob, st: Replayed, end: nat)
    requires RecoverDisk(fs, None, cut) == Ok((st, end))
    ensures var m := Machine(None, [], cut, Down, map[], 0, false, None);
            && Runs(fs, m, [Reopens] + Trims(fs, cut))
            && Ran(fs, m, [Reopens] + Trims(fs, cut)) == Machine(None, [], cut[..end], Ready, st.roots, st.lastSequence, false, None)
  {
    var m := Machine(None, [], cut, Down, map[], 0, false, None);
    var trimming := After(fs, m, Reopens);
    if end != |cut| {
      RunCons(fs, trimming, TrimFlushes, []);
    }
    RunCons(fs, m, Reopens, Trims(fs, cut));
  }

  /** What the run leaves. */
  lemma {:induction false} CutRuns(fs: Formats, updates: seq<RootUpdate>, cut: Blob, st: Replayed, end: nat)
    requires Sound(fs).Kept? && Creating(fs.journal, updates, 1).Kept?
    requires cut <= Batch(fs.journal, 1, updates, 1) && RecoverDisk(fs, None, cut) == Ok((st, end))
    ensures Runs(fs, FRESH, CutRun(fs, updates, cut))
    ensures Ran(fs, FRESH, CutRun(fs, updates, cut)) == Machine(None, [], cut[..end], Ready, st.roots, st.lastSequence, false, None)
  {
    FreshOpens(fs);
    CutFails(fs, updates, cut);
    ReopenRuns(fs, cut, st, end);
    assert cut[..|cut|] == cut;
    var m1 := Machine(None, [], cut, Ready, map[], |updates| + 2, true, Some(Flight(1, updates, 1, 0)));
    var last := [Reopens] + Trims(fs, cut);
    RunCons(fs, m1, Crashes(None, cut), last);
    RunCons(fs, OPENED, AppendFails(1, updates, |cut|), [Crashes(None, cut)] + last);
    RunCons(fs, FRESH, Reopens, [AppendFails(1, updates, |cut|)] + ([Crashes(None, cut)] + last));
  }

  /** The first transaction of a journal, cut short. */
  lemma {:induction false} CutOnce(f: Format, updates: seq<RootUpdate>, k: nat) returns (st: Replayed, end: nat)
    requires Lawful(f).Kept? && Creating(f, updates, 1).Kept? && k < |Batch(f, 1, updates, 1)|
    ensures Recover(f, Batch(f, 1, updates, 1)[..k], map[], 0) == Ok((st, end))
    ensures st.roots == map[] && st.lastSequence <= |updates| + 1
  {
    EmptyJournal(f, map[], 0);
    CreatingAppendable(f, [], Start(map[], 0), updates, 1);
    st, end := Histories.CutRecovers(f, [], map[], 0, Histories.Txn(1, updates), Start(map[], 0), k);
    assert [] + Batch(f, 1, updates, 1)[..k] == Batch(f, 1, updates, 1)[..k];
  }

  /** The journal, once another transaction is appended under the same id. */
  lemma {:induction false} TwiceUnderOne(f: Format, updates: seq<RootUpdate>, k: nat, cut: Blob, st: Replayed, end: nat, again: seq<RootUpdate>)
    requires Lawful(f).Kept? && Creating(f, updates, 1).Kept? && Creating(f, again, |updates| + 2).Kept?
    requires k < |Batch(f, 1, updates, 1)| && cut == Batch(f, 1, updates, 1)[..k]
    requires Recover(f, cut, map[], 0) == Ok((st, end)) && st.roots == map[] && st.lastSequence <= |updates| + 1
    ensures Histories.RecoversIff(Recover(f, cut[..end] + Batch(f, 1, again, st.lastSequence + 1), map[], 0), k < FirstUpdateEnd(f, 1, updates, 1)).Kept?
  {
    EmptyJournal(f, map[], 0);
    CreatingAppendable(f, [], Start(map[], 0), updates, 1);
    CreatingAppendable(f, cut[..end], st, again, |updates| + 2);
    assert [] + cut == cut;
    Histories.ReuseAfterCut(f, [], map[], 0, Histories.Txn(1, updates), Start(map[], 0), k, cut, st, end, Histories.Txn(1, again));
  }

  lemma {:induction false} NoSnapshot(fs: Formats, wal: Blob)
    ensures RecoverDisk(fs, None, wal) == Recover(fs.journal, wal, map[], 0)
  {
  }

  ghost predicate EndsIn(fs: Formats, m: Machine, again: seq<RootUpdate>, condition: bool) {
    m.phase == Ready && m.roots == map[] && Histories.RecoversIff(RecoverDisk(fs, None, Committed(fs, m, 1, again).wal), condition).Kept?
  }

  lemma {:induction false} CommittedWal(fs: Formats, m: Machine, again: seq<RootUpdate>, condition: bool)
    requires m.phase == Ready && m.roots == map[]
    requires Histories.RecoversIff(Recover(fs.journal, m.wal + Batch(fs.journal, 1, again, m.lastSequence + 1), map[], 0), condition).Kept?
    ensures EndsIn(fs, m, again, condition)
  {
    NoSnapshot(fs, m.wal + Batch(fs.journal, 1, again, m.lastSequence + 1));
  }

  lemma {:induction false} CutRunEnds(fs: Formats, updates: seq<RootUpdate>, k: nat, again: seq<RootUpdate>)
    requires Sound(fs).Kept?
    requires Creating(fs.journal, updates, 1).Kept? && Creating(fs.journal, again, |updates| + 2).Kept?
    requires k < |Batch(fs.journal, 1, updates, 1)|
    ensures Runs(fs, FRESH, CutRun(fs, updates, Batch(fs.journal, 1, updates, 1)[..k]))
    ensures EndsIn(fs, Ran(fs, FRESH, CutRun(fs, updates, Batch(fs.journal, 1, updates, 1)[..k])), again, k < FirstUpdateEnd(fs.journal, 1, updates, 1))
  {
    var cut := Batch(fs.journal, 1, updates, 1)[..k];
    var st, end := CutOnce(fs.journal, updates, k);
    var m := Machine(None, [], cut[..end], Ready, st.roots, st.lastSequence, false, None);
    TwiceUnderOne(fs.journal, updates, k, cut, st, end, again);
    CommittedWal(fs, m, again, k < FirstUpdateEnd(fs.journal, 1, updates, 1));
    NoSnapshot(fs, cut);
    CutRuns(fs, updates, cut, st, end);
  }

  // ------------------------------------------------------------------
  // For the journal's own bytes
  // ------------------------------------------------------------------

  /** The updates create roots, and their fields are in range. */
  predicate Creates(updates: seq<RootUpdate>) {
    && 0 < |updates| < TWO32
    && UpdatesCurrent(map[], updates)
    && forall i | 0 <= i < |updates| :: JournalFormat.UpdateFits(updates[i])
  }

  lemma {:induction false} UpdateRecordsFit(c: Checks, updates: seq<RootUpdate>, sequence: nat)
    requires forall i | 0 <= i < |updates| :: JournalFormat.UpdateFits(updates[i])
    requires sequence + |updates| <= TWO64
    ensures AllFit(JournalFormat.FormatOf(c), UpdateRecords(JournalFormat.FormatOf(c), 1, updates, sequence))
    decreases |updates|
  {
    if updates != [] {
      var f := JournalFormat.FormatOf(c);
      UpdateRecordsFit(c, updates[1..], sequence + 1);
      var rest := UpdateRecords(f, 1, updates[1..], sequence + 1);
      var recs := [Record(ROOT_UPDATE, sequence, 1, f.updateBytes(updates[0]))] + rest;
      assert forall i | 0 < i < |recs| :: recs[i] == rest[i - 1];
    }
  }

  lemma {:induction false} CreatesFits(c: Checks, updates: seq<RootUpdate>, sequence: nat)
    requires Creates(updates) && sequence < TWO64 - TWO32 - 1
    ensures Fitting(JournalFormat.FormatOf(c), 1, updates, sequence).Kept?
  {
    var f := JournalFormat.FormatOf(c);
    UpdateRecordsFit(c, updates, sequence + 1);
    var middle := UpdateRecords(f, 1, updates, sequence + 1);
    var recs := TransactionRecords(f, 1, updates, sequence);
    forall i | 0 <= i < |recs|
      ensures f.fits(recs[i])
    {
      if 0 < i <= |updates| {
        assert recs[i] == middle[i - 1];
      }
    }
  }

  lemma {:induction false} CreatesCreating(c: Checks, updates: seq<RootUpdate>, limit: nat)
    requires Creates(updates) && limit < TWO64 - TWO32 - 1
    ensures Creating(JournalFormat.FormatOf(c), updates, limit).Kept?
  {
    forall sequence | 1 <= sequence <= limit
      ensures Fitting(JournalFormat.FormatOf(c), 1, updates, sequence).Kept?
    {
      CreatesFits(c, updates, sequence);
    }
  }

  /** The first commit after an open has id 1. When the first commit of a heap is cut by a crash
      after its first update record was whole, the heap reopens and accepts another commit, whose
      effect is that of every commit that succeeds, and leaves a journal that the next open rejects.
      When the cut came earlier, the journal recovers. */
  lemma {:induction false} ReusedIdBreaksRecovery(c: Checks, updates: seq<RootUpdate>, k: nat, again: seq<RootUpdate>, after: Machine)
    requires Creates(updates) && Creates(again)
    requires k < |Batch(JournalFormat.FormatOf(c), 1, updates, 1)|
    ensures Runs(FormatsOf(c), FRESH, CutRun(FormatsOf(c), updates, Batch(JournalFormat.FormatOf(c), 1, updates, 1)[..k]))
    ensures var m := Ran(FormatsOf(c), FRESH, CutRun(FormatsOf(c), updates, Batch(JournalFormat.FormatOf(c), 1, updates, 1)[..k]));
            && m.phase == Ready && UpdatesCurrent(m.roots, again)
            && (CommitDone(c, m, 1, again, after) ==>
                  Histories.RecoversIff(RecoverDisk(FormatsOf(c), None, after.wal),
                                        k < FirstUpdateEnd(JournalFormat.FormatOf(c), 1, updates, 1)).Kept?)
  {
    FormatsSound(c);
    CreatesCreating(c, updates, 1);
    CreatesCreating(c, again, |updates| + 2);
    CutRunEnds(FormatsOf(c), updates, k, again);
    CommitDoneIs(c, Ran(FormatsOf(c), FRESH, CutRun(FormatsOf(c), updates, Batch(JournalFormat.FormatOf(c), 1, updates, 1)[..k])), again, after);
  }

  lemma {:induction false} CommitDoneIs(c: Checks, m: Machine, again: seq<RootUpdate>, after: Machine)
    ensures CommitDone(c, m, 1, again, after) ==> after == Committed(FormatsOf(c), m, 1, again)
  {
    assert Opened(0);
  }
}
