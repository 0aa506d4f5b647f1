/** What the store holds, as the effect of whole transactions in the order of their commits. */
module Ledgers {
  import opened Bytes
  import opened Records
  import opened Storage
  import opened Engine
  import opened Transactions

  /** A transaction that took effect, and whether its commit returned. */
  datatype Entry = Entry(program: Program, acknowledged: bool)

  function Programs(order: seq<Entry>): (r: seq<Program>)
    ensures |r| == |order|
    decreases |order|
  {
    if order == [] then [] else Programs(order[..|order| - 1]) + [order[|order| - 1].program]
  }

  lemma {:induction false} ProgramsNext(order: seq<Entry>, e: Entry)
    ensures Programs(order + [e]) == Programs(order) + [e.program]
  {
    assert (order + [e])[..|order|] == order;
  }

  /** Versions have only grown, and a root at the same version holds the same. */
  ghost predicate Grown(past: Cells, cells: Cells) {
    forall name: Blob {:trigger VersionIn(past, name)} {:trigger VersionIn(cells, name)} ::
      && VersionIn(past, name) <= VersionIn(cells, name)
      && (VersionIn(past, name) == VersionIn(cells, name) ==> ReadRoot(past, name) == ReadRoot(cells, name))
  }

  /** The open updates are those of the transaction, which pass, and whose effect is what it does alone. */
  ghost predicate Awaiting(cells: Cells, t: Txn, updates: seq<RootUpdate>) {
    && Moves(t).Finish? && updates == Updates(t.seen, Moves(t).writes)
    && NamesApart(t.seen) && Passes(cells, updates)
    && ApplyCells(cells, updates) == Serially(t.program, cells)
  }

  ghost predicate ActiveHold(cells: Cells, active: map<nat, Txn>) {
    forall id | id in active :: OnTrack(active[id]) && ReadsHold(cells, active[id].seen)
  }

  ghost predicate PastGrown(past: seq<Cells>, cells: Cells) {
    forall k | 0 <= k < |past| :: Grown(past[k], cells)
  }

  ghost predicate PendingHolds(a: Store, pending: Option<Txn>) {
    && (a.open.Some? <==> pending.Some?)
    && (pending.Some? ==> Awaiting(a.cells, pending.value, a.open.value))
  }

  /** The cells are those of the listed transactions run one after another from an empty store. */
  ghost predicate Ledger(a: Store, past: seq<Cells>, active: map<nat, Txn>, pending: Option<Txn>, order: seq<Entry>) {
    && Versioned(a.cells) && a.cells == AllSerially(Programs(order), map[])
    && ActiveHold(a.cells, active) && PastGrown(past, a.cells) && PendingHolds(a, pending)
  }

  lemma {:induction false} GrownMore(past: Cells, cells: Cells, seen: seq<Working>, writes: map<Blob, Blob>)
    requires Grown(past, cells) && NamesApart(seen) && Passes(cells, Updates(seen, writes))
    ensures Grown(past, ApplyCells(cells, Updates(seen, writes)))
  {
    var cells' := ApplyCells(cells, Updates(seen, writes));
    forall name: Blob
      ensures VersionIn(past, name) <= VersionIn(cells', name)
      ensures VersionIn(past, name) == VersionIn(cells', name) ==> ReadRoot(past, name) == ReadRoot(cells', name)
    {
      CommitRaises(cells, seen, writes, name);
      assert VersionIn(past, name) <= VersionIn(cells, name);
    }
  }

  lemma {:induction false} PastGrownMore(past: seq<Cells>, cells: Cells, seen: seq<Working>, writes: map<Blob, Blob>)
    requires PastGrown(past, cells) && NamesApart(seen) && Passes(cells, Updates(seen, writes))
    ensures PastGrown(past + [ApplyCells(cells, Updates(seen, writes))], ApplyCells(cells, Updates(seen, writes)))
  {
    var cells' := ApplyCells(cells, Updates(seen, writes));
    forall k | 0 <= k < |past| + 1
      ensures Grown((past + [cells'])[k], cells')
    {
      if k < |past| {
        assert (past + [cells'])[k] == past[k];
        GrownMore(past[k], cells, seen, writes);
      }
    }
  }

  lemma {:induction false} ActiveHoldMore(cells: Cells, active: map<nat, Txn>, seen: seq<Working>, writes: map<Blob, Blob>)
    requires ActiveHold(cells, active) && NamesApart(seen) && Passes(cells, Updates(seen, writes))
    ensures ActiveHold(ApplyCells(cells, Updates(seen, writes)), active)
  {
    forall id | id in active
      ensures ReadsHold(ApplyCells(cells, Updates(seen, writes)), active[id].seen)
    {
      CommitHolds(cells, seen, writes, active[id].seen);
    }
  }

  /** The open updates take effect: the transaction joins the list. */
  lemma {:induction false} PendingLands(a: Store, past: seq<Cells>, active: map<nat, Txn>, pending: Option<Txn>, order: seq<Entry>, acknowledged: bool)
    requires Ledger(a, past, active, pending, order) && pending.Some?
    ensures var cells := ApplyCells(a.cells, a.open.value);
            Ledger(Store(cells, None), past + [cells], active, None, order + [Entry(pending.value.program, acknowledged)])
  {
    var t := pending.value;
    var e := Entry(t.program, acknowledged);
    CommitVersioned(a.cells, t.seen, Moves(t).writes);
    ActiveHoldMore(a.cells, active, t.seen, Moves(t).writes);
    PastGrownMore(past, a.cells, t.seen, Moves(t).writes);
    ProgramsNext(order, e);
    SeriallyNext(Programs(order), t.program, map[]);
  }

  /** They do not: nothing has changed. */
  lemma {:induction false} PendingDrops(a: Store, past: seq<Cells>, active: map<nat, Txn>, pending: Option<Txn>, order: seq<Entry>)
    requires Ledger(a, past, active, pending, order)
    ensures Ledger(Store(a.cells, None), past, active, None, order)
  {
  }

  /** A transaction whose updates pass, and which only read what still holds, is put in flight. */
  lemma {:induction false} PendingStarts(a: Store, past: seq<Cells>, active: map<nat, Txn>, pending: Option<Txn>, order: seq<Entry>, id: nat)
    requires Ledger(a, past, active, pending, order) && id in active && Moves(active[id]).Finish?
    requires Passes(a.cells, Updates(active[id].seen, Moves(active[id]).writes))
    requires Faithful(a.cells, active[id].seen, Moves(active[id]).writes)
    ensures Ledger(Store(a.cells, Some(Updates(active[id].seen, Moves(active[id]).writes))), past, active - {id}, Some(active[id]), order)
  {
    CommitIsSerial(active[id], a.cells);
  }

  /** One that changes nothing takes effect at once. */
  lemma {:induction false} ReaderEnds(a: Store, past: seq<Cells>, active: map<nat, Txn>, pending: Option<Txn>, order: seq<Entry>, id: nat)
    requires Ledger(a, past, active, pending, order) && id in active && Moves(active[id]).Finish?
    requires Updates(active[id].seen, Moves(active[id]).writes) == [] && Faithful(a.cells, active[id].seen, Moves(active[id]).writes)
    ensures Ledger(a, past, active - {id}, pending, order + [Entry(active[id].program, true)])
  {
    CommitIsSerial(active[id], a.cells);
    ProgramsNext(order, Entry(active[id].program, true));
    SeriallyNext(Programs(order), active[id].program, map[]);
  }

  /** What was read in an earlier epoch still holds, unless the version has moved on. */
  lemma {:induction false} OpenedEarlier(t: Txn, past: Cells, cells: Cells)
    requires ReadsHold(cells, t.seen) && Moves(t).Open? && Grown(past, cells)
    ensures ReadsHold(cells, Transactions.Opened(t, past).seen)
  {
    var name := Moves(t).name;
    if Lookup(t.seen, name).None? {
      var seen := t.seen + [ReadRoot(past, name)];
      assert VersionIn(past, name) <= VersionIn(cells, name);
      forall i | 0 <= i < |seen|
        ensures seen[i].expected <= VersionIn(cells, seen[i].name)
        ensures seen[i].expected == VersionIn(cells, seen[i].name) ==> ReadRoot(cells, seen[i].name) == seen[i]
      {
        if i < |t.seen| {
          assert seen[i] == t.seen[i];
        }
      }
      forall i, j | 0 <= i < j < |seen|
        ensures seen[i].name != seen[j].name
      {
        if j == |t.seen| {
          assert t.seen[i] in t.seen;
        }
      }
    }
  }

  lemma {:induction false} LedgerOpens(a: Store, past: seq<Cells>, active: map<nat, Txn>, pending: Option<Txn>, order: seq<Entry>, id: nat, k: nat)
    requires Ledger(a, past, active, pending, order) && id in active && Moves(active[id]).Open? && k < |past|
    ensures Ledger(a, past, active[id := Transactions.Opened(active[id], past[k])], pending, order)
  {
    OpenTracks(active[id], past[k]);
    OpenedEarlier(active[id], past[k], a.cells);
  }

  lemma {:induction false} LedgerBegins(a: Store, past: seq<Cells>, active: map<nat, Txn>, pending: Option<Txn>, order: seq<Entry>, id: nat, p: Program)
    requires Ledger(a, past, active, pending, order)
    ensures Ledger(a, past, active[id := Txn(p, [], [])], pending, order)
  {
    assert OnTrack(Txn(p, [], []));
  }

  lemma {:induction false} LedgerFresh()
    ensures Ledger(Store(map[], None), [], map[], None, [])
  {
  }

  /** After a crash nothing is under way, and the epochs are counted from now. */
  lemma {:induction false} LedgerRestarts(a: Store, past: seq<Cells>, active: map<nat, Txn>, pending: Option<Txn>, order: seq<Entry>)
    requires Ledger(a, past, active, pending, order)
    ensures Ledger(a, [a.cells], map[], pending, order) && Ledger(a, [], map[], pending, order)
  {
  }
}

/** Transactions over loads, the engine's steps, crashes and reopenings.

A transaction opens a root by taking what a load of that root returned; it commits by the engine's
append of its updates. Loads and transactions end with the process; the files stay.
 */
module Durability {
  import opened Bytes
  import opened Records
  import opened Storage
  import opened Standing
  import opened Engine
  import opened HeapState
  import opened Ledgers
  import Loading
  import Transactions

  /** While `up`, `s` is the running system; otherwise only its engine and its store mean anything.
      `pending` is the transaction in flight. */
  datatype System = System(
    up: bool, s: Loading.Shared, active: map<nat, Transactions.Txn>, pending: Option<Transactions.Txn>, order: seq<Entry>)

  datatype Step =
    | Begins(id: nat, p: Transactions.Program)
    | Opens(id: nat, load: nat)
    | Aborts(id: nat)
    | Commits(id: nat, act: Action)
    | Ends(id: nat)
    | Runs(step: Loading.Step)
    | PowerFails(snapAfter: Option<Blob>, walAfter: Blob)
    | Recovers(act: Action)
    | ComesUp

  function WritesOf(t: Transactions.Txn): seq<RootUpdate> {
    match Transactions.Moves(t)
    case Finish(writes) => Transactions.Updates(t.seen, writes)
    case Open(_) => []
  }

  predicate Finishes(sys: System, id: nat) {
    sys.up && id in sys.active && Transactions.Moves(sys.active[id]).Finish?
  }

  /** The engine's step that appends the transaction's updates, in whole or in part. */
  predicate AppendsFor(act: Action, id: nat, updates: seq<RootUpdate>) {
    match act
    case CommitAppends(tx, us) => tx == id && us == updates
    case AppendFails(tx, us, _) => tx == id && us == updates
    case _ => false
  }

  /** A load of the root that has returned. */
  predicate Loaded(s: Loading.Shared, load: nat, name: Blob) {
    load in s.loaders && s.loaders[load].name == name && s.loaders[load].call.Returned?
  }

  ghost predicate May(sys: System, step: Step) {
    match step
    case Begins(id, _) => sys.up && id !in sys.active
    case Opens(id, load) =>
      && sys.up && id in sys.active && Transactions.Moves(sys.active[id]).Open?
      && (Transactions.Lookup(sys.active[id].seen, Transactions.Moves(sys.active[id]).name).Some?
          || Loaded(sys.s, load, Transactions.Moves(sys.active[id]).name))
    case Aborts(id) => sys.up && id in sys.active
    case Commits(id, act) =>
      Finishes(sys, id) && AppendsFor(act, id, WritesOf(sys.active[id])) && Loading.EngineMay(sys.s, act)
    case Ends(id) => Finishes(sys, id) && WritesOf(sys.active[id]) == []
    case Runs(step) => sys.up && Loading.May(sys.s, step) && !(step.Acts? && (step.act.CommitAppends? || step.act.AppendFails?))
    case PowerFails(snapAfter, walAfter) => Enabled(FormatsOf(sys.s.checks), sys.s.m, Action.Crashes(snapAfter, walAfter))
    case Recovers(act) => !sys.up && (act.Reopens? || act.TrimFlushes?) && Enabled(FormatsOf(sys.s.checks), sys.s.m, act)
    case ComesUp => !sys.up && sys.s.m.phase == Ready
  }

  /** The root as the load found it. */
  function WorkingOf(name: Blob, found: Option<(nat, Blob)>): Transactions.Working {
    match found
    case None => Transactions.Working(name, 0, None)
    case Some((version, payload)) => Transactions.Working(name, version, Some(payload))
  }

  /** A root opened before is not loaded again. */
  function OpenedBy(t: Transactions.Txn, name: Blob, found: Option<(nat, Blob)>): Transactions.Txn {
    match Transactions.Lookup(t.seen, name)
    case Some(w) => Transactions.Txn(t.program, t.answers + [w.payload], t.seen)
    case None => Transactions.Txn(t.program, t.answers + [WorkingOf(name, found).payload], t.seen + [WorkingOf(name, found)])
  }

  /** What the load returned; nothing is needed from it if the root was opened before. */
  function FoundBy(s: Loading.Shared, load: nat): Option<(nat, Blob)> {
    if load in s.loaders && s.loaders[load].call.Returned? then s.loaders[load].call.result else None
  }

  /** Whether the transaction in flight is whole in what a crash leaves. */
  ghost predicate Survived(c: Checks, m: Machine, walAfter: Blob) {
    m.flight.Some? && !(m.phase.Truncated? && walAfter == [])
    && |walAfter| == m.flight.value.at + |BatchOf(FormatsOf(c).journal, m.flight.value)|
  }

  function Listed(order: seq<Entry>, pending: Option<Transactions.Txn>, acknowledged: bool): seq<Entry> {
    if pending.Some? then order + [Entry(pending.value.program, acknowledged)] else order
  }

  /** The engine takes a step while nothing runs on it. */
  ghost function Below(s: Loading.Shared, act: Action): Loading.Shared {
    s.(m := After(FormatsOf(s.checks), s.m, act), a := StoreAfter(FormatsOf(s.checks), s.m, s.a, act))
  }

  /** What a step of the running system does to the transaction in flight: a commit that returns
      lists it, and a checkpoint after a failed append drops it. */
  ghost function AfterRun(sys: System, step: Loading.Step): System
    requires Loading.May(sys.s, step)
  {
    var sys' := sys.(s := Loading.Next(sys.s, step));
    if step == Loading.Acts(CommitReturns) then sys'.(pending := None, order := Listed(sys.order, sys.pending, true))
    else if step == Loading.Acts(WalFlushes) then sys'.(pending := None)
    else sys'
  }

  ghost function Next(sys: System, step: Step): System
    requires May(sys, step)
  {
    match step
    case Begins(id, p) => sys.(active := sys.active[id := Transactions.Txn(p, [], [])])
    case Opens(id, load) =>
      var t := sys.active[id];
      sys.(active := sys.active[id := OpenedBy(t, Transactions.Moves(t).name, FoundBy(sys.s, load))])
    case Aborts(id) => sys.(active := sys.active - {id})
    case Commits(id, act) =>
      sys.(s := Loading.AfterAct(sys.s, act), active := sys.active - {id}, pending := Some(sys.active[id]))
    case Ends(id) => sys.(active := sys.active - {id}, order := sys.order + [Entry(sys.active[id].program, true)])
    case Runs(step) => AfterRun(sys, step)
    case PowerFails(snapAfter, walAfter) =>
      System(false, Below(sys.s, Action.Crashes(snapAfter, walAfter)), map[], None,
             if Survived(sys.s.checks, sys.s.m, walAfter) then Listed(sys.order, sys.pending, false) else sys.order)
    case Recovers(act) => sys.(s := Below(sys.s, act))
    case ComesUp => sys.(up := true, s := Loading.Idle(sys.s.checks, sys.s.m, sys.s.a, sys.s.limit))
  }

  // ------------------------------------------------------------------
  // The invariant
  // ------------------------------------------------------------------

  /** The engine is safe; while the system is down it is at most being reopened. */
  ghost predicate EngineHolds(up: bool, s: Loading.Shared) {
    if up then Loading.Consistent(s)
    else SafeOn(s.checks, s.m, s.a).Kept? && (s.m.phase == Down || s.m.phase == Ready || s.m.phase.Trimming?)
  }

  ghost predicate Inv(sys: System) {
    && EngineHolds(sys.up, sys.s)
    && (!sys.up ==> sys.active == map[])
    && Ledger(sys.s.a, if sys.up then sys.s.past else [], sys.active, sys.pending, sys.order)
  }

  /** A commit is faithful if what its transaction only read still holds. */
  ghost predicate Faithfully(sys: System, step: Step)
    requires May(sys, step)
  {
    match step
    case Commits(id, _) => Transactions.Faithful(sys.s.a.cells, sys.active[id].seen, Transactions.Moves(sys.active[id]).writes)
    case Ends(id) => Transactions.Faithful(sys.s.a.cells, sys.active[id].seen, Transactions.Moves(sys.active[id]).writes)
    case _ => true
  }

  // ------------------------------------------------------------------
  // What the running system's steps do to the store
  // ------------------------------------------------------------------

  lemma {:induction false} ConsistentSafe(s: Loading.Shared)
    requires Loading.Consistent(s)
    ensures SafeOn(s.checks, s.m, s.a).Kept? && s.m.phase != Down
  {
    assert Opened(0);
  }

  lemma {:induction false} SafeStore(c: Checks, m: Machine, a: Store)
    requires SafeOn(c, m, a).Kept?
    ensures a.open == UpdatesOf(m.flight) && (m.phase == Appending ==> m.flight.Some?)
  {
    Loading.SafeOpen(c, m, a);
  }

  lemma {:induction false} CommitAllowed(s: Loading.Shared, act: Action, id: nat, updates: seq<RootUpdate>)
    requires Loading.Consistent(s) && Loading.EngineMay(s, act) && AppendsFor(act, id, updates)
    ensures Loading.Consistent(Loading.AfterAct(s, act))
    ensures Loading.AfterAct(s, act).a == Store(s.a.cells, Some(updates)) && Loading.AfterAct(s, act).past == s.past
    ensures Transactions.Passes(s.a.cells, updates)
  {
    Loading.ActConsistent(s, act);
    Loading.RunningLists(s.checks, s.m, s.a, s.holder);
    CurrentOnCells(s.m.roots, s.a.cells, updates);
  }

  lemma {:induction false} ReturnLands(s: Loading.Shared)
    requires Loading.Consistent(s) && Loading.EngineMay(s, CommitReturns)
    ensures s.a.open.Some?
    ensures var cells := ApplyCells(s.a.cells, s.a.open.value);
            Loading.AfterAct(s, CommitReturns).a == Store(cells, None) && Loading.AfterAct(s, CommitReturns).past == s.past + [cells]
  {
    ConsistentSafe(s);
    SafeStore(s.checks, s.m, s.a);
  }

  /** No other step changes the cells or the epochs; only the flush of an emptied journal changes
      what is open. */
  lemma {:induction false} OtherActs(s: Loading.Shared, act: Action)
    requires Loading.EngineMay(s, act) && !act.CommitAppends? && !act.AppendFails? && !act.CommitReturns?
    ensures Loading.AfterAct(s, act).past == s.past
    ensures Loading.AfterAct(s, act).a == if act.WalFlushes? then Store(s.a.cells, None) else s.a
  {
  }

  lemma {:induction false} OtherSteps(s: Loading.Shared, step: Loading.Step)
    requires Loading.May(s, step) && !step.Acts?
    ensures Loading.Next(s, step).past == s.past && Loading.Next(s, step).a == s.a
  {
  }

  // ------------------------------------------------------------------
  // Every step keeps the invariant
  // ------------------------------------------------------------------

  /** What a load returned is what the root held in some epoch, so opening by it is opening then. */
  lemma {:induction false} LoadOpens(s: Loading.Shared, t: Transactions.Txn, load: nat) returns (k: nat)
    requires Loading.Consistent(s) && Transactions.Moves(t).Open?
    requires Transactions.Lookup(t.seen, Transactions.Moves(t).name).Some? || Loaded(s, load, Transactions.Moves(t).name)
    ensures k < |s.past| && OpenedBy(t, Transactions.Moves(t).name, FoundBy(s, load)) == Transactions.Opened(t, s.past[k])
  {
    var name := Transactions.Moves(t).name;
    if Transactions.Lookup(t.seen, name).Some? {
      k := 0;
    } else {
      Loading.ConsistentAnswers(s, load);
      var l := s.loaders[load];
      if l.call.result.Some? {
        var version, payload := l.call.result.value.0, l.call.result.value.1;
        k :| l.since <= k < |s.past| && name in s.past[k] && s.past[k][name].version == version && s.past[k][name].payload == payload;
      } else {
        k :| l.since <= k < |s.past| && name !in s.past[k];
      }
      assert WorkingOf(name, l.call.result) == Transactions.ReadRoot(s.past[k], name);
    }
  }

  lemma {:induction false} OpensKeeps(sys: System, id: nat, load: nat)
    requires Inv(sys) && May(sys, Opens(id, load))
    ensures Inv(Next(sys, Opens(id, load)))
  {
    var k := LoadOpens(sys.s, sys.active[id], load);
    LedgerOpens(sys.s.a, sys.s.past, sys.active, sys.pending, sys.order, id, k);
  }

  lemma {:induction false} CommitsKeeps(sys: System, id: nat, act: Action)
    requires Inv(sys) && May(sys, Commits(id, act)) && Faithfully(sys, Commits(id, act))
    ensures Inv(Next(sys, Commits(id, act)))
  {
    CommitAllowed(sys.s, act, id, WritesOf(sys.active[id]));
    PendingStarts(sys.s.a, sys.s.past, sys.active, sys.pending, sys.order, id);
  }

  lemma {:induction false} EndsKeeps(sys: System, id: nat)
    requires Inv(sys) && May(sys, Ends(id)) && Faithfully(sys, Ends(id))
    ensures Inv(Next(sys, Ends(id)))
  {
    ReaderEnds(sys.s.a, sys.s.past, sys.active, sys.pending, sys.order, id);
  }

  lemma {:induction false} RunsKeeps(sys: System, step: Loading.Step)
    requires Inv(sys) && May(sys, Runs(step))
    ensures Inv(Next(sys, Runs(step)))
  {
    Loading.StepKeeps(sys.s, step);
    if step == Loading.Acts(CommitReturns) {
      ReturnLands(sys.s);
      PendingLands(sys.s.a, sys.s.past, sys.active, sys.pending, sys.order, true);
    } else if step.Acts? {
      OtherActs(sys.s, step.act);
      PendingDrops(sys.s.a, sys.s.past, sys.active, sys.pending, sys.order);
    } else {
      OtherSteps(sys.s, step);
    }
  }

  lemma {:induction false} EngineSafe(up: bool, s: Loading.Shared)
    requires EngineHolds(up, s)
    ensures SafeOn(s.checks, s.m, s.a).Kept?
  {
    if up {
      ConsistentSafe(s);
    }
  }

  lemma {:induction false} CrashSettles(c: Checks, m: Machine, a: Store, snapAfter: Option<Blob>, walAfter: Blob)
    requires SafeOn(c, m, a).Kept? && Enabled(FormatsOf(c), m, Action.Crashes(snapAfter, walAfter))
    ensures SafeOn(c, After(FormatsOf(c), m, Action.Crashes(snapAfter, walAfter)), SettledStore(FormatsOf(c), m, a, walAfter)).Kept?
    ensures a.open == UpdatesOf(m.flight)
  {
    FormatsSound(c);
    StepRefines(FormatsOf(c), m, a, Action.Crashes(snapAfter, walAfter));
    SafeStore(c, m, a);
  }

  lemma {:induction false} SettledIs(c: Checks, m: Machine, a: Store, walAfter: Blob)
    requires a.open == UpdatesOf(m.flight)
    ensures SettledStore(FormatsOf(c), m, a, walAfter)
            == Store(if Survived(c, m, walAfter) then ApplyCells(a.cells, a.open.value) else a.cells, None)
  {
  }

  lemma {:induction false} PowerFailsKeeps(sys: System, snapAfter: Option<Blob>, walAfter: Blob)
    requires Inv(sys) && May(sys, PowerFails(snapAfter, walAfter))
    ensures Inv(Next(sys, PowerFails(snapAfter, walAfter)))
  {
    var c, m, a := sys.s.checks, sys.s.m, sys.s.a;
    EngineSafe(sys.up, sys.s);
    CrashSettles(c, m, a, snapAfter, walAfter);
    SettledIs(c, m, a, walAfter);
    LedgerSettles(a, if sys.up then sys.s.past else [], sys.active, sys.pending, sys.order, Survived(c, m, walAfter));
  }

  /** A crash settles the transaction in flight one way or the other. */
  lemma {:induction false} LedgerSettles(a: Store, past: seq<Cells>, active: map<nat, Transactions.Txn>, pending: Option<Transactions.Txn>,
                                         order: seq<Entry>, survived: bool)
    requires Ledger(a, past, active, pending, order) && (survived ==> a.open.Some?)
    ensures Ledger(Store(if survived then ApplyCells(a.cells, a.open.value) else a.cells, None), [], map[], None,
                   if survived then Listed(order, pending, false) else order)
  {
    if survived {
      var cells := ApplyCells(a.cells, a.open.value);
      PendingLands(a, past, active, pending, order, false);
      LedgerRestarts(Store(cells, None), past + [cells], active, None, Listed(order, pending, false));
    } else {
      PendingDrops(a, past, active, pending, order);
      LedgerRestarts(Store(a.cells, None), past, active, None, order);
    }
  }

  lemma {:induction false} RecoversKeeps(sys: System, act: Action)
    requires Inv(sys) && May(sys, Recovers(act))
    ensures Inv(Next(sys, Recovers(act)))
  {
    FormatsSound(sys.s.checks);
    StepRefines(FormatsOf(sys.s.checks), sys.s.m, sys.s.a, act);
  }

  lemma {:induction false} ComesUpKeeps(sys: System)
    requires Inv(sys) && May(sys, ComesUp)
    ensures Inv(Next(sys, ComesUp))
  {
    Loading.IdleRuns(sys.s.checks, sys.s.m, sys.s.a);
    Loading.IdleConsistent(sys.s.checks, sys.s.m, sys.s.a, sys.s.limit);
    LedgerRestarts(sys.s.a, [], sys.active, sys.pending, sys.order);
  }

  lemma {:induction false} StepKeeps(sys: System, step: Step)
    requires Inv(sys) && May(sys, step) && Faithfully(sys, step)
    ensures Inv(Next(sys, step))
  {
    match step
    case Begins(id, p) => LedgerBegins(sys.s.a, sys.s.past, sys.active, sys.pending, sys.order, id, p);
    case Opens(id, load) => OpensKeeps(sys, id, load);
    case Aborts(_) =>
    case Commits(id, act) => CommitsKeeps(sys, id, act);
    case Ends(id) => EndsKeeps(sys, id);
    case Runs(step) => RunsKeeps(sys, step);
    case PowerFails(snapAfter, walAfter) => PowerFailsKeeps(sys, snapAfter, walAfter);
    case Recovers(act) => RecoversKeeps(sys, act);
    case ComesUp => ComesUpKeeps(sys);
  }

  // ------------------------------------------------------------------
  // Whole runs
  // ------------------------------------------------------------------

  /** A heap directory before it is first opened. */
  ghost function Fresh(c: Checks, limit: nat): System {
    System(false, Loading.Idle(c, FRESH, Store(map[], None), limit), map[], None, [])
  }

  ghost predicate Goes(sys: System, steps: seq<Step>)
    decreases |steps|
  {
    steps == [] || (May(sys, steps[0]) && Faithfully(sys, steps[0]) && Goes(Next(sys, steps[0]), steps[1..]))
  }

  ghost function Gone(sys: System, steps: seq<Step>): System
    requires Goes(sys, steps)
    decreases |steps|
  {
    if steps == [] then sys else Gone(Next(sys, steps[0]), steps[1..])
  }

  lemma {:induction false} FreshHolds(c: Checks, limit: nat)
    ensures Inv(Fresh(c, limit))
  {
    FreshSafeOn(c);
    LedgerFresh();
  }

  lemma {:induction false} FreshSafeOn(c: Checks)
    ensures SafeOn(c, FRESH, Store(map[], None)).Kept?
  {
    FormatsSound(c);
    FreshSafe(FormatsOf(c));
  }

  lemma {:induction false} RunKeeps(sys: System, steps: seq<Step>)
    requires Inv(sys) && Goes(sys, steps)
    ensures Inv(Gone(sys, steps))
    decreases |steps|
  {
    if steps != [] {
      StepKeeps(sys, steps[0]);
      RunKeeps(Next(sys, steps[0]), steps[1..]);
    }
  }

  function Crashed(steps: seq<Step>): nat
    decreases |steps|
  {
    if steps == [] then 0 else (if steps[0].PowerFails? then 1 else 0) + Crashed(steps[1..])
  }

  function Unacknowledged(order: seq<Entry>): nat
    decreases |order|
  {
    if order == [] then 0 else (if order[|order| - 1].acknowledged then 0 else 1) + Unacknowledged(order[..|order| - 1])
  }

  lemma {:induction false} UnacknowledgedNext(order: seq<Entry>, e: Entry)
    ensures Unacknowledged(order + [e]) == Unacknowledged(order) + if e.acknowledged then 0 else 1
  {
    assert (order + [e])[..|order|] == order;
  }

  lemma {:induction false} StepLists(sys: System, step: Step)
    requires May(sys, step)
    ensures sys.order <= Next(sys, step).order
    ensures Unacknowledged(Next(sys, step).order) <= Unacknowledged(sys.order) + if step.PowerFails? then 1 else 0
  {
    if step.Ends? {
      UnacknowledgedNext(sys.order, Entry(sys.active[step.id].program, true));
    }
    if sys.pending.Some? {
      UnacknowledgedNext(sys.order, Entry(sys.pending.value.program, true));
      UnacknowledgedNext(sys.order, Entry(sys.pending.value.program, false));
    }
  }

  /** What is listed stays listed, in its place; and each crash adds at most one transaction whose
      commit had not returned. */
  lemma {:induction false} RunLists(sys: System, steps: seq<Step>)
    requires Goes(sys, steps)
    ensures sys.order <= Gone(sys, steps).order
    ensures Unacknowledged(Gone(sys, steps).order) <= Unacknowledged(sys.order) + Crashed(steps)
    decreases |steps|
  {
    if steps != [] {
      StepLists(sys, steps[0]);
      RunLists(Next(sys, steps[0]), steps[1..]);
    }
  }

  /** After every run from a fresh directory, of transactions over interleaved loads, commits,
      checkpoints, evictions, crashes and reopenings: the store is that of the listed transactions run
      one after another; these are the acknowledged ones, in the order of their commits, and at most
      one more for every crash; and if the run ends in a crash, reopening the files yields that store. */
  lemma {:induction false} DurablySerializable(c: Checks, limit: nat, steps: seq<Step>)
    requires Goes(Fresh(c, limit), steps)
    ensures var sys := Gone(Fresh(c, limit), steps);
            var cells := Transactions.AllSerially(Programs(sys.order), map[]);
            && sys.s.a.cells == cells
            && Unacknowledged(sys.order) <= Crashed(steps)
            && (sys.s.m.phase == Down ==> FilesHold(sys.s.checks, sys.s.m, cells))
  {
    FreshHolds(c, limit);
    RunKeeps(Fresh(c, limit), steps);
    RunLists(Fresh(c, limit), steps);
    var sys := Gone(Fresh(c, limit), steps);
    EngineSafe(sys.up, sys.s);
    if sys.s.m.phase == Down {
      DownHolds(sys.s.checks, sys.s.m, sys.s.a);
    }
  }

  /** The files can be opened, and hold the cells. */
  ghost predicate FilesHold(c: Checks, m: Machine, cells: Cells) {
    Enabled(FormatsOf(c), m, Action.Reopens) && Contents(m.snap, Reopened(FormatsOf(c), m).wal, Reopened(FormatsOf(c), m).roots) == cells
  }

  lemma {:induction false} DownHolds(c: Checks, m: Machine, a: Store)
    requires SafeOn(c, m, a).Kept? && m.phase == Down
    ensures FilesHold(c, m, a.cells)
  {
    FormatsSound(c);
    DownReopens(FormatsOf(c), m, a);
  }
}
