/** Optimistic transactions, interleaved in any way.

A transaction opens roots one after another, may decide by what it reads which root to open next,
and ends by writing some of them. A commit succeeds if the roots it writes are still at the
versions it read.
 */
module Transactions {
  import opened Bytes
  import opened Records
  import opened Storage
  import HeapState

  datatype Move = Open(name: Blob) | Finish(writes: map<Blob, Blob>)

  /** What a transaction does: given what the roots it opened so far held, open one more or write
      and finish. It opens at most `length` times. */
  datatype Program = Program(plan: seq<Option<Blob>> -> Move, length: nat)

  function Next(p: Program, answers: seq<Option<Blob>>): (m: Move)
    ensures m.Open? ==> |answers| < p.length
  {
    if |answers| < p.length || p.plan(answers).Finish? then p.plan(answers) else Finish(map[])
  }

  /** A root as a transaction saw it: a missing root has version 0 and no payload. */
  datatype Working = Working(name: Blob, expected: nat, payload: Option<Blob>)

  /** The encoding of null, which a root that does not exist yet starts with. */
  const NULL_PAYLOAD: Blob := [0]

  function ReadRoot(cells: Cells, name: Blob): Working {
    Working(name, VersionIn(cells, name), if name in cells then Some(cells[name].payload) else None)
  }

  function Lookup(seen: seq<Working>, name: Blob): (r: Option<Working>)
    ensures r.Some? ==> r.value.name == name && r.value in seen
    ensures r.None? ==> forall w | w in seen :: w.name != name
    decreases |seen|
  {
    if seen == [] then None else if seen[0].name == name then Some(seen[0]) else Lookup(seen[1..], name)
  }

  /** A root is dirty if it was written or did not exist. */
  predicate Dirty(w: Working, writes: map<Blob, Blob>) {
    w.name in writes || w.payload.None?
  }

  function NewPayload(w: Working, writes: map<Blob, Blob>): Blob {
    if w.name in writes then writes[w.name] else NULL_PAYLOAD
  }

  /** The updates a commit hands to the heap: the dirty roots, in the order they were seen. */
  function Updates(seen: seq<Working>, writes: map<Blob, Blob>): seq<RootUpdate>
    decreases |seen|
  {
    if seen == [] then []
    else if Dirty(seen[0], writes)
    then [RootUpdate(seen[0].name, seen[0].expected, seen[0].expected + 1, HeapState.VALUE_TYPE, NewPayload(seen[0], writes))]
         + Updates(seen[1..], writes)
    else Updates(seen[1..], writes)
  }

  // ------------------------------------------------------------------
  // Alone
  // ------------------------------------------------------------------

  datatype Outcome = Outcome(seen: seq<Working>, writes: map<Blob, Blob>)

  /** What opening a root adds to the answers and to the roots seen: a root that was opened
      before is not read again. */
  function Answer(cells: Cells, seen: seq<Working>, name: Blob): Option<Blob> {
    match Lookup(seen, name)
    case Some(w) => w.payload
    case None => ReadRoot(cells, name).payload
  }

  function Seen(cells: Cells, seen: seq<Working>, name: Blob): seq<Working> {
    if Lookup(seen, name).Some? then seen else seen + [ReadRoot(cells, name)]
  }

  /** The rest of a program, run without interruption on the cells. */
  function Alone(p: Program, cells: Cells, answers: seq<Option<Blob>>, seen: seq<Working>): Outcome
    decreases p.length - |answers|
  {
    match Next(p, answers)
    case Finish(writes) => Outcome(seen, writes)
    case Open(name) => Alone(p, cells, answers + [Answer(cells, seen, name)], Seen(cells, seen, name))
  }

  /** The cells after a whole transaction that runs alone. */
  function Serially(p: Program, cells: Cells): Cells {
    var o := Alone(p, cells, [], []);
    ApplyCells(cells, Updates(o.seen, o.writes))
  }

  function AllSerially(programs: seq<Program>, cells: Cells): Cells
    decreases |programs|
  {
    if programs == [] then cells
    else Serially(programs[|programs| - 1], AllSerially(programs[..|programs| - 1], cells))
  }

  // ------------------------------------------------------------------
  // Interleaved
  // ------------------------------------------------------------------

  /** A transaction under way: its program, what opening roots returned, and the roots it opened. */
  datatype Txn = Txn(program: Program, answers: seq<Option<Blob>>, seen: seq<Working>)

  function Moves(t: Txn): Move {
    Next(t.program, t.answers)
  }

  /** `order` lists the programs whose commit succeeded, in that order. */
  datatype System = System(cells: Cells, active: map<nat, Txn>, order: seq<Program>)

  datatype Step = Begins(id: nat, p: Program) | Opens(id: nat) | Commits(id: nat) | Aborts(id: nat)

  predicate Enabled(s: System, step: Step) {
    match step
    case Begins(id, _) => id !in s.active
    case Opens(id) => id in s.active && Moves(s.active[id]).Open?
    case Commits(id) => id in s.active && Moves(s.active[id]).Finish?
    case Aborts(id) => id in s.active
  }

  function Opened(t: Txn, cells: Cells): Txn
    requires Moves(t).Open?
  {
    var name := Moves(t).name;
    Txn(t.program, t.answers + [Answer(cells, t.seen, name)], Seen(cells, t.seen, name))
  }

  /** The heap's check at commit: every update starts from the current version. */
  predicate Passes(cells: Cells, updates: seq<RootUpdate>) {
    forall i | 0 <= i < |updates| :: VersionIn(cells, updates[i].name) == updates[i].expected
  }

  function After(s: System, step: Step): System
    requires Enabled(s, step)
  {
    match step
    case Begins(id, p) => s.(active := s.active[id := Txn(p, [], [])])
    case Opens(id) => s.(active := s.active[id := Opened(s.active[id], s.cells)])
    case Commits(id) =>
      var t := s.active[id];
      var updates := Updates(t.seen, Moves(t).writes);
      if Passes(s.cells, updates)
      then System(ApplyCells(s.cells, updates), s.active - {id}, s.order + [t.program])
      else s
    case Aborts(id) => s.(active := s.active - {id})
  }

  /** The roots that the transaction opened without dirtying them hold what it read. */
  predicate Faithful(cells: Cells, seen: seq<Working>, writes: map<Blob, Blob>) {
    forall i | 0 <= i < |seen| :: Dirty(seen[i], writes) || ReadRoot(cells, seen[i].name).payload == seen[i].payload
  }

  // ------------------------------------------------------------------
  // The invariant
  // ------------------------------------------------------------------

  /** The cells still hold what the transaction read. */
  predicate Matches(cells: Cells, seen: seq<Working>) {
    forall i | 0 <= i < |seen| :: ReadRoot(cells, seen[i].name) == seen[i]
  }

  /** On cells that hold what was read, running the whole program alone comes to where it is now. */
  predicate Retraces(t: Txn, cells: Cells) {
    Alone(t.program, cells, [], []) == Alone(t.program, cells, t.answers, t.seen)
  }

  ghost predicate OnTrack(t: Txn) {
    forall cells {:trigger Retraces(t, cells)} :: Matches(cells, t.seen) ==> Retraces(t, cells)
  }

  /** Versions only grow, and a root at the version that was read holds what was read. */
  predicate ReadsHold(cells: Cells, seen: seq<Working>) {
    && (forall i | 0 <= i < |seen| ::
          && seen[i].expected <= VersionIn(cells, seen[i].name)
          && (seen[i].expected == VersionIn(cells, seen[i].name) ==> ReadRoot(cells, seen[i].name) == seen[i]))
    && (forall i, j | 0 <= i < j < |seen| :: seen[i].name != seen[j].name)
  }

  /** A root that exists has been committed at least once. */
  predicate Versioned(cells: Cells) {
    forall name | name in cells :: cells[name].version > 0
  }

  ghost predicate Inv(start: Cells, s: System) {
    && Versioned(s.cells)
    && s.cells == AllSerially(s.order, start)
    && (forall id | id in s.active :: OnTrack(s.active[id]) && ReadsHold(s.cells, s.active[id].seen))
  }

  // ------------------------------------------------------------------
  // Opening
  // ------------------------------------------------------------------

  lemma {:induction false} OpenTracks(t: Txn, cells: Cells)
    requires OnTrack(t) && Moves(t).Open?
    ensures OnTrack(Opened(t, cells))
  {
    var t' := Opened(t, cells);
    forall cells' | Matches(cells', t'.seen)
      ensures Retraces(t', cells')
    {
      assert forall i | 0 <= i < |t.seen| :: t'.seen[i] == t.seen[i];
      assert Matches(cells', t.seen);
      assert Retraces(t, cells');
      if Lookup(t.seen, Moves(t).name).None? {
        assert t'.seen[|t.seen|] == ReadRoot(cells', Moves(t).name);
      }
    }
  }

  lemma {:induction false} OpenHolds(t: Txn, cells: Cells)
    requires ReadsHold(cells, t.seen) && Moves(t).Open?
    ensures ReadsHold(cells, Opened(t, cells).seen)
  {
    var found := Lookup(t.seen, Moves(t).name);
    if found.None? {
      var w := ReadRoot(cells, Moves(t).name);
      var seen := t.seen + [w];
      forall i | 0 <= i < |seen|
        ensures seen[i].expected <= VersionIn(cells, seen[i].name)
        ensures seen[i].expected == VersionIn(cells, seen[i].name) ==> ReadRoot(cells, seen[i].name) == seen[i]
      {
        if i < |t.seen| {
          assert seen[i] == t.seen[i];
        }
      }
      forall i, j | 0 <= i < j < |seen|
        ensures seen[i].name != seen[j].name
      {
        if j == |t.seen| {
          assert t.seen[i] in t.seen;
        }
      }
    }
  }

  // ------------------------------------------------------------------
  // Committing
  // ------------------------------------------------------------------

  lemma {:induction false} UpdateOf(seen: seq<Working>, writes: map<Blob, Blob>, i: nat) returns (k: nat)
    requires i < |seen| && Dirty(seen[i], writes)
    ensures k < |Updates(seen, writes)|
    ensures Updates(seen, writes)[k].name == seen[i].name && Updates(seen, writes)[k].expected == seen[i].expected
    decreases |seen|
  {
    if i == 0 {
      k := 0;
    } else {
      k := UpdateOf(seen[1..], writes, i - 1);
      if Dirty(seen[0], writes) {
        k := k + 1;
      }
    }
  }

  /** If the commit passes and what was only read is unchanged, everything that was read is. */
  lemma {:induction false} PassingHolds(cells: Cells, seen: seq<Working>, writes: map<Blob, Blob>)
    requires ReadsHold(cells, seen) && Passes(cells, Updates(seen, writes)) && Faithful(cells, seen, writes)
    ensures PayloadsHold(cells, seen)
    ensures forall i | 0 <= i < |seen| :: Dirty(seen[i], writes) ==> VersionIn(cells, seen[i].name) == seen[i].expected
  {
    forall i | 0 <= i < |seen| && Dirty(seen[i], writes)
      ensures ReadRoot(cells, seen[i].name) == seen[i]
    {
      var k := UpdateOf(seen, writes, i);
    }
  }

  /** The cells hold the payloads that were read, though perhaps at other versions. */
  predicate PayloadsHold(cells: Cells, seen: seq<Working>) {
    forall i | 0 <= i < |seen| :: ReadRoot(cells, seen[i].name).payload == seen[i].payload
  }

  /** The cells at the versions that were read. */
  function Rewound(cells: Cells, seen: seq<Working>): Cells {
    map name | name in cells ::
      match Lookup(seen, name)
      case Some(w) => cells[name].(version := w.expected)
      case None => cells[name]
  }

  lemma {:induction false} RewoundMatches(cells: Cells, seen: seq<Working>)
    requires ReadsHold(cells, seen) && PayloadsHold(cells, seen)
    ensures Matches(Rewound(cells, seen), seen)
  {
    forall i | 0 <= i < |seen|
      ensures ReadRoot(Rewound(cells, seen), seen[i].name) == seen[i]
    {
      assert seen[i] in seen;
      var found := Lookup(seen, seen[i].name);
      var j :| 0 <= j < |seen| && seen[j] == found.value;
      assert i == j;
    }
  }

  ghost predicate SamePayloads(cells: Cells, cells': Cells) {
    forall name: Blob :: ReadRoot(cells, name).payload == ReadRoot(cells', name).payload
  }

  predicate SameReads(seen: seq<Working>, seen': seq<Working>) {
    |seen| == |seen'| && forall i | 0 <= i < |seen| :: seen[i].name == seen'[i].name && seen[i].payload == seen'[i].payload
  }

  lemma {:induction false} LookupSame(seen: seq<Working>, seen': seq<Working>, name: Blob)
    requires SameReads(seen, seen')
    ensures Lookup(seen, name).Some? <==> Lookup(seen', name).Some?
    ensures Lookup(seen, name).Some? ==> Lookup(seen, name).value.payload == Lookup(seen', name).value.payload
    decreases |seen|
  {
    if seen != [] {
      LookupSame(seen[1..], seen'[1..], name);
    }
  }

  lemma {:induction false} SeenSame(cells: Cells, cells': Cells, seen: seq<Working>, seen': seq<Working>, name: Blob)
    requires SamePayloads(cells, cells') && SameReads(seen, seen') && Matches(cells, seen)
    ensures Answer(cells, seen, name) == Answer(cells', seen', name)
    ensures SameReads(Seen(cells, seen, name), Seen(cells', seen', name)) && Matches(cells, Seen(cells, seen, name))
  {
    LookupSame(seen, seen', name);
  }

  /** A program sees payloads and not versions, so it does the same on cells that differ in versions only. */
  lemma {:induction false} AloneSame(p: Program, cells: Cells, cells': Cells, answers: seq<Option<Blob>>, seen: seq<Working>, seen': seq<Working>)
    requires SamePayloads(cells, cells') && SameReads(seen, seen') && Matches(cells, seen)
    ensures var o, o' := Alone(p, cells, answers, seen), Alone(p, cells', answers, seen');
            o.writes == o'.writes && SameReads(o.seen, o'.seen) && Matches(cells, o.seen)
    decreases p.length - |answers|
  {
    if Next(p, answers).Open? {
      var name := Next(p, answers).name;
      SeenSame(cells, cells', seen, seen', name);
      AloneSame(p, cells, cells', answers + [Answer(cells, seen, name)], Seen(cells, seen, name), Seen(cells', seen', name));
    }
  }

  lemma {:induction false} UpdatesSame(seen: seq<Working>, seen': seq<Working>, writes: map<Blob, Blob>)
    requires SameReads(seen, seen')
    requires forall i | 0 <= i < |seen| :: Dirty(seen[i], writes) ==> seen[i].expected == seen'[i].expected
    ensures Updates(seen, writes) == Updates(seen', writes)
    decreases |seen|
  {
    if seen != [] {
      UpdatesSame(seen[1..], seen'[1..], writes);
    }
  }

  /** What a commit does is what the whole program does alone at that moment. */
  lemma {:induction false} CommitIsSerial(t: Txn, cells: Cells)
    requires OnTrack(t) && ReadsHold(cells, t.seen) && Moves(t).Finish?
    requires Passes(cells, Updates(t.seen, Moves(t).writes)) && Faithful(cells, t.seen, Moves(t).writes)
    ensures ApplyCells(cells, Updates(t.seen, Moves(t).writes)) == Serially(t.program, cells)
  {
    var writes := Moves(t).writes;
    PassingHolds(cells, t.seen, writes);
    RewoundMatches(cells, t.seen);
    assert Retraces(t, Rewound(cells, t.seen));
    AloneSame(t.program, cells, Rewound(cells, t.seen), [], [], []);
    UpdatesSame(Alone(t.program, cells, [], []).seen, t.seen, writes);
  }

  /** Updates are named after roots that were opened, and step their versions by one. */
  lemma {:induction false} UpdateFrom(seen: seq<Working>, writes: map<Blob, Blob>, k: nat) returns (i: nat)
    requires k < |Updates(seen, writes)|
    ensures i < |seen| && Dirty(seen[i], writes)
    ensures var u := Updates(seen, writes)[k];
            u.name == seen[i].name && u.expected == seen[i].expected && u.next == seen[i].expected + 1
    decreases |seen|
  {
    if Dirty(seen[0], writes) && k == 0 {
      i := 0;
    } else {
      i := UpdateFrom(seen[1..], writes, if Dirty(seen[0], writes) then k - 1 else k);
      i := i + 1;
    }
  }

  ghost predicate NamesApart(seen: seq<Working>) {
    forall i, j | 0 <= i < j < |seen| :: seen[i].name != seen[j].name
  }

  lemma {:induction false} UpdatesApart(seen: seq<Working>, writes: map<Blob, Blob>)
    requires NamesApart(seen)
    ensures forall a, b | 0 <= a < b < |Updates(seen, writes)| :: Updates(seen, writes)[a].name != Updates(seen, writes)[b].name
    decreases |seen|
  {
    if seen != [] {
      UpdatesApart(seen[1..], writes);
      var rest := Updates(seen[1..], writes);
      forall k | 0 <= k < |rest|
        ensures rest[k].name != seen[0].name
      {
        var i := UpdateFrom(seen[1..], writes, k);
      }
    }
  }

  /** A commit that passes raises the version of every root it updates and changes no other. */
  lemma {:induction false} CommitRaises(cells: Cells, seen: seq<Working>, writes: map<Blob, Blob>, name: Blob)
    requires NamesApart(seen) && Passes(cells, Updates(seen, writes))
    ensures var cells' := ApplyCells(cells, Updates(seen, writes));
            || (name in cells' && cells'[name].version == VersionIn(cells, name) + 1)
            || (ReadRoot(cells', name) == ReadRoot(cells, name) && (name in cells' ==> name in cells && cells'[name] == cells[name]))
  {
    var updates := Updates(seen, writes);
    UpdatesApart(seen, writes);
    if k :| 0 <= k < |updates| && updates[k].name == name {
      AppliedAt(cells, updates, k);
      var i := UpdateFrom(seen, writes, k);
    } else {
      AppliedOther(cells, updates, name);
    }
  }

  lemma {:induction false} CommitHolds(cells: Cells, seen: seq<Working>, writes: map<Blob, Blob>, other: seq<Working>)
    requires NamesApart(seen) && Passes(cells, Updates(seen, writes)) && ReadsHold(cells, other)
    ensures ReadsHold(ApplyCells(cells, Updates(seen, writes)), other)
  {
    var cells' := ApplyCells(cells, Updates(seen, writes));
    forall i | 0 <= i < |other|
      ensures other[i].expected <= VersionIn(cells', other[i].name)
      ensures other[i].expected == VersionIn(cells', other[i].name) ==> ReadRoot(cells', other[i].name) == other[i]
    {
      CommitRaises(cells, seen, writes, other[i].name);
    }
  }

  lemma {:induction false} CommitVersioned(cells: Cells, seen: seq<Working>, writes: map<Blob, Blob>)
    requires NamesApart(seen) && Passes(cells, Updates(seen, writes)) && Versioned(cells)
    ensures Versioned(ApplyCells(cells, Updates(seen, writes)))
  {
    var cells' := ApplyCells(cells, Updates(seen, writes));
    forall name | name in cells'
      ensures cells'[name].version > 0
    {
      CommitRaises(cells, seen, writes, name);
    }
  }

  lemma {:induction false} SeriallyNext(order: seq<Program>, p: Program, cells: Cells)
    ensures AllSerially(order + [p], cells) == Serially(p, AllSerially(order, cells))
  {
    assert (order + [p])[..|order|] == order;
  }

  /** A commit that passes is faithful if what the transaction only read is unchanged. */
  predicate CommitsFaithfully(s: System, step: Step)
    requires Enabled(s, step)
  {
    step.Commits? ==>
      var seen, writes := s.active[step.id].seen, Moves(s.active[step.id]).writes;
      Passes(s.cells, Updates(seen, writes)) ==> Faithful(s.cells, seen, writes)
  }

  lemma {:induction false} CommitKeeps(start: Cells, s: System, id: nat)
    requires Inv(start, s) && Enabled(s, Commits(id)) && CommitsFaithfully(s, Commits(id))
    ensures Inv(start, After(s, Commits(id)))
  {
    var t := s.active[id];
    var writes := Moves(t).writes;
    if Passes(s.cells, Updates(t.seen, writes)) {
      CommitIsSerial(t, s.cells);
      SeriallyNext(s.order, t.program, start);
      CommitVersioned(s.cells, t.seen, writes);
      forall other | other in s.active
        ensures ReadsHold(ApplyCells(s.cells, Updates(t.seen, writes)), s.active[other].seen)
      {
        CommitHolds(s.cells, t.seen, writes, s.active[other].seen);
      }
    }
  }

  lemma {:induction false} StepKeeps(start: Cells, s: System, step: Step)
    requires Inv(start, s) && Enabled(s, step) && CommitsFaithfully(s, step)
    ensures Inv(start, After(s, step))
  {
    match step
    case Begins(id, p) =>
      assert OnTrack(Txn(p, [], []));
    case Opens(id) =>
      OpenTracks(s.active[id], s.cells);
      OpenHolds(s.active[id], s.cells);
    case Commits(id) => CommitKeeps(start, s, id);
    case Aborts(_) =>
  }

  // ------------------------------------------------------------------
  // Whole runs
  // ------------------------------------------------------------------

  predicate RunsFaithfully(s: System, steps: seq<Step>)
    decreases |steps|
  {
    steps == [] || (Enabled(s, steps[0]) && CommitsFaithfully(s, steps[0]) && RunsFaithfully(After(s, steps[0]), steps[1..]))
  }

  predicate Runs(s: System, steps: seq<Step>)
    decreases |steps|
  {
    steps == [] || (Enabled(s, steps[0]) && Runs(After(s, steps[0]), steps[1..]))
  }

  function Ran(s: System, steps: seq<Step>): System
    requires Runs(s, steps)
    decreases |steps|
  {
    if steps == [] then s else Ran(After(s, steps[0]), steps[1..])
  }

  lemma {:induction false} RunKeeps(start: Cells, s: System, steps: seq<Step>)
    requires Inv(start, s) && RunsFaithfully(s, steps)
    ensures Runs(s, steps) && Inv(start, Ran(s, steps))
    decreases |steps|
  {
    if steps != [] {
      StepKeeps(start, s, steps[0]);
      RunKeeps(start, After(s, steps[0]), steps[1..]);
    }
  }

  /** Every interleaved run whose commits are faithful has the effect of the committed transactions
      run one after another, each once, in the order of their commits. */
  lemma {:induction false} Serializable(start: Cells, steps: seq<Step>)
    requires Versioned(start) && RunsFaithfully(System(start, map[], []), steps)
    ensures Runs(System(start, map[], []), steps)
    ensures var s := Ran(System(start, map[], []), steps); s.cells == AllSerially(s.order, start)
  {
    RunKeeps(start, System(start, map[], []), steps);
  }

  /** In particular, dirtying every root that was opened makes a commit faithful. */
  lemma {:induction false} DirtyingAllIsFaithful(cells: Cells, seen: seq<Working>, writes: map<Blob, Blob>)
    requires forall w | w in seen :: w.name in writes
    ensures Faithful(cells, seen, writes)
  {
    assert forall i | 0 <= i < |seen| :: seen[i] in seen;
  }

  // ------------------------------------------------------------------
  // The condition is needed
  // ------------------------------------------------------------------

  function PayloadsOf(seen: seq<Working>): (r: seq<Option<Blob>>)
    ensures |r| == |seen|
  {
    seq(|seen|, i requires 0 <= i < |seen| => seen[i].payload)
  }

  function Reads(cells: Cells, seen: seq<Working>): (r: seq<Working>)
    ensures |r| == |seen|
  {
    seq(|seen|, i requires 0 <= i < |seen| => ReadRoot(cells, seen[i].name))
  }

  /** Opens the given roots and lets what it finds decide what it writes. */
  function Tracer(seen: seq<Working>, writes: map<Blob, Blob>, otherwise: map<Blob, Blob>): Program {
    Program((answers: seq<Option<Blob>>) =>
              if |answers| < |seen| then Open(seen[|answers|].name)
              else if answers == PayloadsOf(seen) then Finish(writes) else Finish(otherwise),
            |seen|)
  }

  /** Opening a root that was not opened before reads it. */
  lemma {:induction false} AloneOpens(p: Program, cells: Cells, answers: seq<Option<Blob>>, seen: seq<Working>, name: Blob)
    requires Next(p, answers) == Open(name) && Lookup(seen, name).None?
    ensures Alone(p, cells, answers, seen)
            == Alone(p, cells, answers + [ReadRoot(cells, name).payload], seen + [ReadRoot(cells, name)])
  {
  }

  lemma {:induction false} NotYetRead(cells: Cells, seen: seq<Working>, k: nat)
    requires NamesApart(seen) && k < |seen|
    ensures Lookup(Reads(cells, seen)[..k], seen[k].name).None?
  {
  }

  lemma {:induction false} ReadsNext(found: seq<Working>, k: nat)
    requires k < |found|
    ensures found[..k] + [found[k]] == found[..k + 1]
    ensures PayloadsOf(found[..k]) + [found[k].payload] == PayloadsOf(found[..k + 1])
  {
  }

  lemma {:induction false} TracerFrom(cells: Cells, seen: seq<Working>, writes: map<Blob, Blob>, otherwise: map<Blob, Blob>, k: nat)
    requires NamesApart(seen) && k <= |seen|
    ensures var found := Reads(cells, seen);
            Alone(Tracer(seen, writes, otherwise), cells, PayloadsOf(found[..k]), found[..k])
            == Outcome(found, if PayloadsOf(found) == PayloadsOf(seen) then writes else otherwise)
    decreases |seen| - k
  {
    var found := Reads(cells, seen);
    if k < |seen| {
      NotYetRead(cells, seen, k);
      AloneOpens(Tracer(seen, writes, otherwise), cells, PayloadsOf(found[..k]), found[..k], seen[k].name);
      ReadsNext(found, k);
      TracerFrom(cells, seen, writes, otherwise, k + 1);
    } else {
      assert found[..k] == found;
    }
  }

  lemma {:induction false} TracerOutcome(cells: Cells, seen: seq<Working>, writes: map<Blob, Blob>, otherwise: map<Blob, Blob>)
    requires NamesApart(seen)
    ensures Alone(Tracer(seen, writes, otherwise), cells, [], [])
            == Outcome(Reads(cells, seen), if PayloadsOf(Reads(cells, seen)) == PayloadsOf(seen) then writes else otherwise)
  {
    TracerFrom(cells, seen, writes, otherwise, 0);
    var none: seq<Option<Blob>>, nothing: seq<Working> := [], [];
    assert Reads(cells, seen)[..0] == nothing && PayloadsOf(nothing) == none;
  }

  /** A transaction that has opened these roots and is about to make these writes. */
  ghost predicate Ends(t: Txn, seen: seq<Working>, writes: map<Blob, Blob>) {
    t.seen == seen && OnTrack(t) && Moves(t) == Finish(writes)
  }

  lemma {:induction false} TracerEnds(seen: seq<Working>, writes: map<Blob, Blob>, otherwise: map<Blob, Blob>)
    requires NamesApart(seen)
    ensures Ends(Txn(Tracer(seen, writes, otherwise), PayloadsOf(seen), seen), seen, writes)
  {
    var t := Txn(Tracer(seen, writes, otherwise), PayloadsOf(seen), seen);
    forall cells' | Matches(cells', seen)
      ensures Retraces(t, cells')
    {
      TracerOutcome(cells', seen, writes, otherwise);
      assert Reads(cells', seen) == seen;
    }
  }

  lemma {:induction false} UnwrittenStays(cells: Cells, seen: seq<Working>, writes: map<Blob, Blob>, i: nat)
    requires NamesApart(seen) && i < |seen| && !Dirty(seen[i], writes)
    ensures VersionIn(ApplyCells(cells, Updates(seen, writes)), seen[i].name) == VersionIn(cells, seen[i].name)
  {
    var updates := Updates(seen, writes);
    forall k | 0 <= k < |updates|
      ensures updates[k].name != seen[i].name
    {
      var j := UpdateFrom(seen, writes, k);
      assert j != i;
    }
    AppliedOther(cells, updates, seen[i].name);
  }

  lemma {:induction false} WrittenRises(cells: Cells, seen: seq<Working>, writes: map<Blob, Blob>, i: nat)
    requires NamesApart(seen) && i < |seen| && seen[i].name in writes && seen[i].expected == VersionIn(cells, seen[i].name)
    ensures VersionIn(ApplyCells(cells, Updates(seen, writes)), seen[i].name) == VersionIn(cells, seen[i].name) + 1
  {
    UpdatesApart(seen, writes);
    var k := UpdateOf(seen, writes, i);
    AppliedAt(cells, Updates(seen, writes), k);
    var j := UpdateFrom(seen, writes, k);
    assert i == j;
  }

  /** A transaction that would have written another root, had it read what the root holds now. */
  lemma {:induction false} UnfaithfulDiffers(cells: Cells, seen: seq<Working>, writes: map<Blob, Blob>, i: nat) returns (t: Txn)
    requires NamesApart(seen) && i < |seen|
    requires !Dirty(seen[i], writes) && ReadRoot(cells, seen[i].name).payload != seen[i].payload
    ensures Ends(t, seen, writes)
    ensures ApplyCells(cells, Updates(seen, writes)) != Serially(t.program, cells)
  {
    var otherwise := map[seen[i].name := NULL_PAYLOAD];
    t := Txn(Tracer(seen, writes, otherwise), PayloadsOf(seen), seen);
    TracerEnds(seen, writes, otherwise);
    TracerOutcome(cells, seen, writes, otherwise);
    var found := Reads(cells, seen);
    assert PayloadsOf(found)[i] != PayloadsOf(seen)[i];
    UnwrittenStays(cells, seen, writes, i);
    WrittenRises(cells, found, otherwise, i);
  }

  /** Every transaction that may have come to this commit would have the same effect alone. */
  ghost predicate AlwaysSerial(cells: Cells, seen: seq<Working>, writes: map<Blob, Blob>) {
    forall t: Txn {:trigger Ends(t, seen, writes)} ::
      Ends(t, seen, writes) ==> ApplyCells(cells, Updates(seen, writes)) == Serially(t.program, cells)
  }

  /** A commit that is accepted has the effect its transaction has alone, whatever the transaction
      is, if and only if every root it opened and did not dirty still holds what it read. */
  lemma {:induction false} SerialIffFaithful(cells: Cells, seen: seq<Working>, writes: map<Blob, Blob>)
    requires ReadsHold(cells, seen) && Passes(cells, Updates(seen, writes))
    ensures AlwaysSerial(cells, seen, writes) <==> Faithful(cells, seen, writes)
  {
    if Faithful(cells, seen, writes) {
      forall t: Txn | Ends(t, seen, writes)
        ensures ApplyCells(cells, Updates(seen, writes)) == Serially(t.program, cells)
      {
        CommitIsSerial(t, cells);
      }
    } else {
      var i :| 0 <= i < |seen| && !Dirty(seen[i], writes) && ReadRoot(cells, seen[i].name).payload != seen[i].payload;
      var t := UnfaithfulDiffers(cells, seen, writes, i);
    }
  }

  // ------------------------------------------------------------------
  // Write skew
  // ------------------------------------------------------------------

  const X: Blob := [120]
  const Y: Blob := [121]

  function TwoRoots(x: Blob, y: Blob): Cells {
    map[X := Cell(1, HeapState.VALUE_TYPE, x), Y := Cell(1, HeapState.VALUE_TYPE, y)]
  }

  /** Opens both roots and copies the one into the other. */
  function Copier(from: nat, to: Blob): Program {
    Program((answers: seq<Option<Blob>>) =>
              if answers == [] then Open(X)
              else if |answers| == 1 then Open(Y)
              else if from < |answers| && answers[from].Some? then Finish(map[to := answers[from].value])
              else Finish(map[]),
            2)
  }

  lemma {:induction false} CopierAlone(cells: Cells, from: nat, to: Blob)
    requires X in cells && Y in cells && from < 2
    ensures Alone(Copier(from, to), cells, [], [])
            == Outcome([ReadRoot(cells, X), ReadRoot(cells, Y)], map[to := cells[if from == 0 then X else Y].payload])
  {
    var p, wx, wy := Copier(from, to), ReadRoot(cells, X), ReadRoot(cells, Y);
    assert X != Y by {
      assert X[0] != Y[0];
    }
    AloneOpens(p, cells, [], [], X);
    assert [] + [wx.payload] == [wx.payload] && [] + [wx] == [wx];
    AloneOpens(p, cells, [wx.payload], [wx], Y);
    assert [wx.payload] + [wy.payload] == [wx.payload, wy.payload] && [wx] + [wy] == [wx, wy];
  }

  function Copied(from: nat, x: Blob, y: Blob): Blob {
    if from == 0 then x else y
  }

  /** A copier that has opened both roots. */
  function Poised(from: nat, to: Blob, x: Blob, y: Blob): Txn {
    Txn(Copier(from, to), [Some(x), Some(y)], [Working(X, 1, Some(x)), Working(Y, 1, Some(y))])
  }

  lemma {:induction false} CopierUpdates(from: nat, to: Blob, x: Blob, y: Blob)
    requires from < 2 && (to == X || to == Y)
    ensures Moves(Poised(from, to, x, y)) == Finish(map[to := Copied(from, x, y)])
    ensures Updates(Poised(from, to, x, y).seen, map[to := Copied(from, x, y)])
            == [RootUpdate(to, 1, 2, HeapState.VALUE_TYPE, Copied(from, x, y))]
  {
    var seen, writes := Poised(from, to, x, y).seen, map[to := Copied(from, x, y)];
    assert X[0] != Y[0];
    var u := RootUpdate(to, 1, 2, HeapState.VALUE_TYPE, Copied(from, x, y));
    assert seen[1..] == [seen[1]] && seen[1..][1..] == [];
    assert Updates(seen[1..][1..], writes) == [];
    assert Updates(seen[1..], writes) == if to == Y then [u] else [];
  }

  lemma {:induction false} CopierCommits(s: System, id: nat, from: nat, to: Blob, x: Blob, y: Blob)
    requires id in s.active && s.active[id] == Poised(from, to, x, y) && from < 2 && (to == X || to == Y)
    requires VersionIn(s.cells, to) == 1
    ensures Enabled(s, Commits(id))
    ensures After(s, Commits(id))
            == System(s.cells[to := Cell(2, HeapState.VALUE_TYPE, Copied(from, x, y))], s.active - {id}, s.order + [Copier(from, to)])
  {
    CopierUpdates(from, to, x, y);
    var u := RootUpdate(to, 1, 2, HeapState.VALUE_TYPE, Copied(from, x, y));
    assert [u][1..] == [];
    assert ApplyCells(s.cells, [u]) == s.cells[to := Cell(2, HeapState.VALUE_TYPE, Copied(from, x, y))];
    assert Passes(s.cells, [u]);
  }

  lemma {:induction false} CopierOpens(s: System, id: nat, from: nat, to: Blob, x: Blob, y: Blob)
    requires s.cells == TwoRoots(x, y) && id in s.active && s.active[id] == Txn(Copier(from, to), [], [])
    ensures Runs(s, [Opens(id), Opens(id)])
    ensures Ran(s, [Opens(id), Opens(id)]) == s.(active := s.active[id := Poised(from, to, x, y)])
  {
    assert X[0] != Y[0];
    var wx, wy := Working(X, 1, Some(x)), Working(Y, 1, Some(y));
    var t1 := Txn(Copier(from, to), [Some(x)], [wx]);
    assert Opened(Txn(Copier(from, to), [], []), s.cells) == t1;
    var s1 := After(s, Opens(id));
    assert [Some(x)] + [Some(y)] == [Some(x), Some(y)] && [wx] + [wy] == [wx, wy];
    assert Opened(t1, s.cells) == Poised(from, to, x, y);
    assert [Opens(id), Opens(id)][1..] == [Opens(id)] && [Opens(id)][1..] == [];
    assert s.active[id := t1][id := Poised(from, to, x, y)] == s.active[id := Poised(from, to, x, y)];
    var s2 := After(s1, Opens(id));
    assert Ran(s2, [Opens(id)][1..]) == s2;
    assert Ran(s1, [Opens(id)]) == s2;
  }

  lemma {:induction false} RunConcat(s: System, a: seq<Step>, b: seq<Step>)
    requires Runs(s, a) && Runs(Ran(s, a), b)
    ensures Runs(s, a + b) && Ran(s, a + b) == Ran(Ran(s, a), b)
    decreases |a|
  {
    if a == [] {
      assert a + b == b;
    } else {
      RunConcat(After(s, a[0]), a[1..], b);
      assert (a + b)[1..] == a[1..] + b;
    }
  }

  function SkewSteps(): seq<Step> {
    [Begins(1, Copier(1, X)), Begins(2, Copier(0, Y))] + ([Opens(1), Opens(1)] + ([Opens(2), Opens(2)] + [Commits(1), Commits(2)]))
  }

  lemma {:induction false} SkewCommits(x: Blob, y: Blob)
    ensures var s := System(TwoRoots(x, y), map[1 := Poised(1, X, x, y), 2 := Poised(0, Y, x, y)], []);
            && Runs(s, [Commits(1), Commits(2)])
            && Ran(s, [Commits(1), Commits(2)])
               == System(TwoRoots(x, y)[X := Cell(2, HeapState.VALUE_TYPE, y)][Y := Cell(2, HeapState.VALUE_TYPE, x)], map[],
                         [Copier(1, X), Copier(0, Y)])
  {
    assert X[0] != Y[0];
    var s := System(TwoRoots(x, y), map[1 := Poised(1, X, x, y), 2 := Poised(0, Y, x, y)], []);
    CopierCommits(s, 1, 1, X, x, y);
    var s1 := After(s, Commits(1));
    CopierCommits(s1, 2, 0, Y, x, y);
    assert [Commits(1), Commits(2)][1..] == [Commits(2)] && [Commits(2)][1..] == [];
    assert After(s1, Commits(2)).active == map[];
  }

  lemma {:induction false} SkewRuns(x: Blob, y: Blob)
    ensures Runs(System(TwoRoots(x, y), map[], []), SkewSteps())
    ensures Ran(System(TwoRoots(x, y), map[], []), SkewSteps())
            == System(TwoRoots(x, y)[X := Cell(2, HeapState.VALUE_TYPE, y)][Y := Cell(2, HeapState.VALUE_TYPE, x)], map[],
                      [Copier(1, X), Copier(0, Y)])
  {
    var s0 := System(TwoRoots(x, y), map[], []);
    var begins := [Begins(1, Copier(1, X)), Begins(2, Copier(0, Y))];
    var begun := s0.(active := map[1 := Txn(Copier(1, X), [], []), 2 := Txn(Copier(0, Y), [], [])]);
    assert begins[1..] == [begins[1]] && begins[1..][1..] == [];
    assert Ran(After(After(s0, begins[0]), begins[1]), begins[1..][1..]) == begun;
    assert Runs(s0, begins) && Ran(s0, begins) == begun;
    CopierOpens(begun, 1, 1, X, x, y);
    var first := begun.(active := begun.active[1 := Poised(1, X, x, y)]);
    CopierOpens(first, 2, 0, Y, x, y);
    var both := first.(active := first.active[2 := Poised(0, Y, x, y)]);
    assert both.active == map[1 := Poised(1, X, x, y), 2 := Poised(0, Y, x, y)];
    SkewCommits(x, y);
    RunConcat(first, [Opens(2), Opens(2)], [Commits(1), Commits(2)]);
    RunConcat(begun, [Opens(1), Opens(1)], [Opens(2), Opens(2)] + [Commits(1), Commits(2)]);
    RunConcat(s0, begins, [Opens(1), Opens(1)] + ([Opens(2), Opens(2)] + [Commits(1), Commits(2)]));
  }

  /** The payloads of both roots after a copier ran alone. */
  lemma {:induction false} CopierSerially(cells: Cells, from: nat, to: Blob)
    requires X in cells && Y in cells && from < 2 && (to == X || to == Y)
    ensures var r := Serially(Copier(from, to), cells);
            && X in r && Y in r
            && r[to].payload == cells[if from == 0 then X else Y].payload
            && r[if to == X then Y else X].payload == cells[if to == X then Y else X].payload
  {
    CopierAlone(cells, from, to);
    assert X[0] != Y[0];
    var wx, wy := ReadRoot(cells, X), ReadRoot(cells, Y);
    var seen, writes := [wx, wy], map[to := cells[if from == 0 then X else Y].payload];
    UpdatesApart(seen, writes);
    var k := UpdateOf(seen, writes, if to == X then 0 else 1);
    AppliedAt(cells, Updates(seen, writes), k);
    CopierWrites(seen, writes, to);
    AppliedOther(cells, Updates(seen, writes), if to == X then Y else X);
  }

  lemma {:induction false} CopierWrites(seen: seq<Working>, writes: map<Blob, Blob>, to: Blob)
    requires writes.Keys == {to} && forall w | w in seen :: w.payload.Some?
    ensures forall k | 0 <= k < |Updates(seen, writes)| ::
              Updates(seen, writes)[k].name == to && Updates(seen, writes)[k].payload == writes[to]
    decreases |seen|
  {
    if seen != [] {
      CopierWrites(seen[1..], writes, to);
    }
  }

  lemma {:induction false} PairSerially(p: Program, q: Program, start: Cells)
    ensures AllSerially([p, q], start) == Serially(q, Serially(p, start))
  {
    SeriallyNext([], p, start);
    SeriallyNext([p], q, start);
    assert [p] + [q] == [p, q] && [] + [p] == [p];
  }

  /** In either serial order both roots end up with the same payload. */
  lemma {:induction false} CopiersAgree(x: Blob, y: Blob)
    ensures var r := AllSerially([Copier(1, X), Copier(0, Y)], TwoRoots(x, y)); X in r && r[X].payload == y && Y in r && r[Y].payload == y
    ensures var r := AllSerially([Copier(0, Y), Copier(1, X)], TwoRoots(x, y)); X in r && r[X].payload == x && Y in r && r[Y].payload == x
  {
    var start, p, q := TwoRoots(x, y), Copier(1, X), Copier(0, Y);
    assert X[0] != Y[0];
    PairSerially(p, q, start);
    PairSerially(q, p, start);
    CopierSerially(start, 1, X);
    CopierSerially(Serially(p, start), 0, Y);
    CopierSerially(start, 0, Y);
    CopierSerially(Serially(q, start), 1, X);
  }

  /** Without faithfulness, two commits can be accepted whose effect is that of no serial order:
      each copier read the root the other wrote, and the payloads are swapped. */
  lemma {:induction false} WriteSkew(x: Blob, y: Blob)
    requires x != y
    ensures Runs(System(TwoRoots(x, y), map[], []), SkewSteps())
    ensures var s := Ran(System(TwoRoots(x, y), map[], []), SkewSteps());
            && s.order == [Copier(1, X), Copier(0, Y)]
            && s.cells != AllSerially([Copier(1, X), Copier(0, Y)], TwoRoots(x, y))
            && s.cells != AllSerially([Copier(0, Y), Copier(1, X)], TwoRoots(x, y))
  {
    SkewRuns(x, y);
    CopiersAgree(x, y);
  }
}
