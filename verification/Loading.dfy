/** Loading a root while commits, checkpoints and other loads go on.

The engine takes its own steps, over its files and its index; a load looks the root up, tries the
cache, and only on a miss takes the commit lock, looks again and reads the file at the locator it
found then. Each of these is a step of its own, and so is each cache insertion of a commit.
 */
module Loading {
  import opened Bytes
  import opened Records
  import opened Recovery
  import opened Commits
  import opened Storage
  import opened Standing
  import opened Engine
  import opened JournalFile
  import opened HeapState
  import Cache

  /** The payloads committed so far, by name and version. */
  type Book = map<(Blob, nat), Blob>

  /** Who holds the commit lock. */
  datatype Holder = Free | ByEngine | ByLoader(id: nat)

  /** How far a load has come. `seen` is the index entry it looked up. */
  datatype Call =
    | Started
    | Looked(seen: RootRecord)
    | Missed
    | Locked
    | Reread(seen: RootRecord)
    | HasBytes(seen: RootRecord, bytes: Blob)
    | Returned(result: Option<(nat, Blob)>)
    | Refused

  /** A load, and the epoch in which it was called. */
  datatype Loader = Loader(name: Blob, since: nat, call: Call)

  /** The engine `m` and the store `a` it stands for; `past` lists the store's cells in every epoch
      so far; of a commit under way the first `filled` updates are in the cache. */
  datatype Shared = Shared(
    checks: Checks, m: Machine, a: Store, past: seq<Cells>, book: Book,
    cache: seq<Cache.Entry>, limit: nat, holder: Holder, filled: nat,
    loaders: map<nat, Loader>)

  datatype Step =
    | Acts(act: Action)
    | Fills
    | Unlocks
    | CacheDrops(left: seq<Cache.Entry>)
    | Calls(id: nat, name: Blob)
    | Looks(id: nat)
    | Gets(id: nat)
    | Locks(id: nat)
    | Rereads(id: nat)
    | Reads(id: nat, faults: bool)
    | Puts(id: nat)

  // ------------------------------------------------------------------
  // The steps
  // ------------------------------------------------------------------

  /** The updates that are on the journal and about to be published. */
  function Publishing(m: Machine): seq<RootUpdate> {
    if m.phase == Appending && m.flight.Some? then m.flight.value.updates else []
  }

  /** The engine works under the commit lock: a commit and a checkpoint take it, unless the
      checkpoint follows a commit that still holds it. Loads do not outlive a crash. */
  predicate LockAllows(holder: Holder, filled: nat, m: Machine, act: Action) {
    match act
    case CommitAppends(_, _) => holder == Free
    case AppendFails(_, _, _) => holder == Free
    case CheckpointStarts => !holder.ByLoader?
    case CommitReturns => holder == ByEngine && filled == |Publishing(m)|
    case FlushFails => holder == ByEngine && filled == 0
    case Crashes(_, _) => false
    case _ => holder == ByEngine
  }

  ghost predicate EngineMay(s: Shared, act: Action) {
    Enabled(FormatsOf(s.checks), s.m, act) && LockAllows(s.holder, s.filled, s.m, act)
  }

  predicate At(s: Shared, id: nat, call: Call) {
    id in s.loaders && s.loaders[id].call == call
  }

  ghost predicate May(s: Shared, step: Step) {
    match step
    case Acts(act) => EngineMay(s, act)
    case Fills => s.filled < |Publishing(s.m)|
    case Unlocks => s.holder == ByEngine && s.m.phase == Ready
    case CacheDrops(left) => forall e | e in left :: e in s.cache
    case Calls(id, _) => id !in s.loaders
    case Looks(id) => At(s, id, Started)
    case Gets(id) => id in s.loaders && s.loaders[id].call.Looked?
    case Locks(id) => At(s, id, Missed) && s.holder == Free
    case Rereads(id) => At(s, id, Locked)
    case Reads(id, _) => id in s.loaders && s.loaders[id].call.Reread?
    case Puts(id) => id in s.loaders && s.loaders[id].call.HasBytes?
  }

  function EntryOf(u: RootUpdate): Cache.Entry {
    Cache.Entry(u.name, u.next, u.payload)
  }

  function Entered(book: Book, updates: seq<RootUpdate>): Book
    decreases |updates|
  {
    if updates == [] then book else Entered(book[(updates[0].name, updates[0].next) := updates[0].payload], updates[1..])
  }

  function Moved(s: Shared, id: nat, call: Call): map<nat, Loader>
    requires id in s.loaders
  {
    s.loaders[id := s.loaders[id].(call := call)]
  }

  /** A commit that returns begins a new epoch. */
  ghost function AfterAct(s: Shared, act: Action): Shared {
    var fs := FormatsOf(s.checks);
    var a := StoreAfter(fs, s.m, s.a, act);
    var s' := s.(m := Engine.After(fs, s.m, act), a := a, holder := ByEngine, filled := 0);
    if act.CommitReturns? then s'.(past := s.past + [a.cells], book := Entered(s.book, Publishing(s.m))) else s'
  }

  function AfterLook(s: Shared, id: nat): Shared
    requires id in s.loaders
  {
    var name := s.loaders[id].name;
    s.(loaders := Moved(s, id,
                        if name !in s.m.roots then Returned(None)
                        else if s.m.roots[name].tag != VALUE_TYPE then Refused else Looked(s.m.roots[name])))
  }

  function AfterCacheGet(s: Shared, id: nat): Shared
    requires id in s.loaders && s.loaders[id].call.Looked?
  {
    var name, version := s.loaders[id].name, s.loaders[id].call.seen.version;
    var hit := Cache.Hit(s.cache, name, version);
    s.(cache := Cache.AfterGet(s.cache, name, version),
       loaders := Moved(s, id, if hit.Some? then Returned(Some((version, hit.value))) else Missed))
  }

  function AfterReread(s: Shared, id: nat): Shared
    requires id in s.loaders
  {
    var name := s.loaders[id].name;
    if name in s.m.roots then s.(loaders := Moved(s, id, Reread(s.m.roots[name])))
    else s.(loaders := Moved(s, id, Returned(None)), holder := Free)
  }

  /** What the file named by the locator holds there, as the disk is now. */
  function ReadNow(s: Shared, where: Loc): Result<Blob> {
    LoadWhole(s.checks, FileOf(s.m.snap, s.m.wal, where.source), where)
  }

  function AfterRead(s: Shared, id: nat, faults: bool): Shared
    requires id in s.loaders && s.loaders[id].call.Reread?
  {
    var seen := s.loaders[id].call.seen;
    var r := ReadNow(s, seen.payload);
    if r.Ok? && !faults then s.(loaders := Moved(s, id, HasBytes(seen, r.value)))
    else s.(loaders := Moved(s, id, Refused), holder := Free)
  }

  function AfterCachePut(s: Shared, id: nat): Shared
    requires id in s.loaders && s.loaders[id].call.HasBytes?
  {
    var call := s.loaders[id].call;
    s.(cache := Cache.AfterPut(s.cache, s.limit, Cache.Entry(s.loaders[id].name, call.seen.version, call.bytes)),
       loaders := Moved(s, id, Returned(Some((call.seen.version, call.bytes)))),
       holder := Free)
  }

  ghost function Next(s: Shared, step: Step): Shared
    requires May(s, step)
  {
    match step
    case Acts(act) => AfterAct(s, act)
    case Fills => s.(cache := Cache.AfterPut(s.cache, s.limit, EntryOf(Publishing(s.m)[s.filled])), filled := s.filled + 1)
    case Unlocks => s.(holder := Free)
    case CacheDrops(left) => s.(cache := left)
    case Calls(id, name) => s.(loaders := s.loaders[id := Loader(name, if s.past == [] then 0 else |s.past| - 1, Started)])
    case Looks(id) => AfterLook(s, id)
    case Gets(id) => AfterCacheGet(s, id)
    case Locks(id) => s.(holder := ByLoader(id), loaders := Moved(s, id, Locked))
    case Rereads(id) => AfterReread(s, id)
    case Reads(id, faults) => AfterRead(s, id, faults)
    case Puts(id) => AfterCachePut(s, id)
  }

  // ------------------------------------------------------------------
  // The invariant
  // ------------------------------------------------------------------

  /** The root had this version and payload in some epoch since the given one. */
  ghost predicate WasCurrent(past: seq<Cells>, since: nat, name: Blob, version: nat, payload: Blob) {
    exists t {:trigger past[t]} :: since <= t < |past| && name in past[t] && past[t][name].version == version && past[t][name].payload == payload
  }

  ghost predicate WasAbsent(past: seq<Cells>, since: nat, name: Blob) {
    exists t {:trigger past[t]} :: since <= t < |past| && name !in past[t]
  }

  predicate Written(book: Book, name: Blob, version: nat, payload: Blob) {
    (name, version) in book && book[(name, version)] == payload
  }

  /** The book holds every current cell and nothing newer. */
  ghost predicate Booked(cells: Cells, book: Book) {
    && (forall name | name in cells :: Written(book, name, cells[name].version, cells[name].payload))
    && (forall key | key in book :: key.0 in cells && key.1 <= cells[key.0].version)
  }

  predicate Filling(pending: seq<RootUpdate>, filled: nat, e: Cache.Entry) {
    exists i | 0 <= i < |pending| :: i < filled && EntryOf(pending[i]) == e
  }

  /** What the cache holds was committed, or is being published. */
  ghost predicate Cached(cache: seq<Cache.Entry>, book: Book, pending: seq<RootUpdate>, filled: nat) {
    forall e | e in cache :: Written(book, e.name, e.version, e.payload) || Filling(pending, filled, e)
  }

  /** The engine is safe, and it is idle unless it holds the lock. */
  ghost function Running(c: Checks, m: Machine, a: Store, holder: Holder): Law {
    if forall k: nat {:trigger Opened(k)} :: Opened(k) ==>
         SafeOn(c, m, a).Kept? && m.phase != Down && (holder != ByEngine ==> m.phase == Ready)
    then Kept else Broken
  }

  /** What is being published starts from current versions. */
  predicate Committing(cells: Cells, pending: seq<RootUpdate>, filled: nat) {
    filled <= |pending| && CellsCurrent(cells, pending)
  }

  lemma {:induction false} LockPasses(c: Checks, m: Machine, a: Store, holder: Holder, holder': Holder)
    requires Running(c, m, a, holder).Kept? && (holder != ByEngine || m.phase == Ready)
    ensures Running(c, m, a, holder').Kept?
  {
    assert Opened(0);
  }

  /** What was looked up was current at some moment, and the book knows its payload. */
  ghost predicate WasSeen(past: seq<Cells>, book: Book, l: Loader, seen: RootRecord) {
    (l.name, seen.version) in book && WasCurrent(past, l.since, l.name, seen.version, book[(l.name, seen.version)])
  }

  ghost predicate CallHolds(roots: Index, cells: Cells, past: seq<Cells>, book: Book, holder: Holder, id: nat, l: Loader) {
    match l.call
    case Started => true
    case Looked(seen) => WasSeen(past, book, l, seen)
    case Missed => true
    case Locked => holder == ByLoader(id)
    case Reread(seen) => holder == ByLoader(id) && l.name in roots && roots[l.name] == seen
    case HasBytes(seen, bytes) =>
      holder == ByLoader(id) && l.name in cells && cells[l.name].version == seen.version && bytes == cells[l.name].payload
    case Returned(result) =>
      if result.Some? then WasCurrent(past, l.since, l.name, result.value.0, result.value.1)
      else WasAbsent(past, l.since, l.name)
    case Refused => true
  }

  ghost predicate LoadersHold(roots: Index, cells: Cells, past: seq<Cells>, book: Book, holder: Holder, loaders: map<nat, Loader>) {
    forall id | id in loaders :: loaders[id].since < |past| && CallHolds(roots, cells, past, book, holder, id, loaders[id])
  }

  ghost predicate Consistent(s: Shared) {
    && s.past != [] && s.past[|s.past| - 1] == s.a.cells
    && Running(s.checks, s.m, s.a, s.holder).Kept? && Committing(s.a.cells, Publishing(s.m), s.filled)
    && Booked(s.a.cells, s.book)
    && Cached(s.cache, s.book, Publishing(s.m), s.filled)
    && LoadersHold(s.m.roots, s.a.cells, s.past, s.book, s.holder, s.loaders)
  }

  // ------------------------------------------------------------------
  // Commits
  // ------------------------------------------------------------------

  lemma {:induction false} EnteredOther(book: Book, updates: seq<RootUpdate>, key: (Blob, nat))
    requires forall i | 0 <= i < |updates| :: (updates[i].name, updates[i].next) != key
    ensures key in Entered(book, updates) <==> key in book
    ensures key in book ==> Entered(book, updates)[key] == book[key]
    decreases |updates|
  {
    if updates != [] {
      EnteredOther(book[(updates[0].name, updates[0].next) := updates[0].payload], updates[1..], key);
    }
  }

  lemma {:induction false} EnteredAt(book: Book, updates: seq<RootUpdate>, i: nat)
    requires i < |updates| && forall a, b | 0 <= a < b < |updates| :: updates[a].name != updates[b].name
    ensures Written(Entered(book, updates), updates[i].name, updates[i].next, updates[i].payload)
    decreases |updates|
  {
    var book1 := book[(updates[0].name, updates[0].next) := updates[0].payload];
    if i > 0 {
      EnteredAt(book1, updates[1..], i - 1);
    } else {
      EnteredOther(book1, updates[1..], (updates[0].name, updates[0].next));
    }
  }

  /** A new version never overwrites the record of an old one. */
  lemma {:induction false} BookGrows(cells: Cells, book: Book, updates: seq<RootUpdate>, name: Blob, version: nat, payload: Blob)
    requires Booked(cells, book) && CellsCurrent(cells, updates) && Written(book, name, version, payload)
    ensures Written(Entered(book, updates), name, version, payload)
  {
    EnteredOther(book, updates, (name, version));
  }

  lemma {:induction false} PublishCurrent(cells: Cells, book: Book, updates: seq<RootUpdate>, name: Blob)
    requires Booked(cells, book) && CellsCurrent(cells, updates) && name in ApplyCells(cells, updates)
    ensures var cell := ApplyCells(cells, updates)[name]; Written(Entered(book, updates), name, cell.version, cell.payload)
  {
    if i :| 0 <= i < |updates| && updates[i].name == name {
      AppliedAt(cells, updates, i);
      EnteredAt(book, updates, i);
    } else {
      AppliedOther(cells, updates, name);
      BookGrows(cells, book, updates, name, cells[name].version, cells[name].payload);
    }
  }

  lemma {:induction false} PublishBounded(cells: Cells, book: Book, updates: seq<RootUpdate>, key: (Blob, nat))
    requires Booked(cells, book) && CellsCurrent(cells, updates) && key in Entered(book, updates)
    ensures key.0 in ApplyCells(cells, updates) && key.1 <= ApplyCells(cells, updates)[key.0].version
  {
    if i :| 0 <= i < |updates| && (updates[i].name, updates[i].next) == key {
      AppliedAt(cells, updates, i);
    } else {
      EnteredOther(book, updates, key);
      if i :| 0 <= i < |updates| && updates[i].name == key.0 {
        AppliedAt(cells, updates, i);
      } else {
        AppliedOther(cells, updates, key.0);
      }
    }
  }

  lemma {:induction false} PublishBooked(cells: Cells, book: Book, updates: seq<RootUpdate>)
    requires Booked(cells, book) && CellsCurrent(cells, updates)
    ensures Booked(ApplyCells(cells, updates), Entered(book, updates))
  {
    var cells', book' := ApplyCells(cells, updates), Entered(book, updates);
    forall name | name in cells'
      ensures Written(book', name, cells'[name].version, cells'[name].payload)
    {
      PublishCurrent(cells, book, updates, name);
    }
    forall key | key in book'
      ensures key.0 in cells' && key.1 <= cells'[key.0].version
    {
      PublishBounded(cells, book, updates, key);
    }
  }

  lemma {:induction false} PublishCached(cells: Cells, book: Book, cache: seq<Cache.Entry>, updates: seq<RootUpdate>)
    requires Booked(cells, book) && CellsCurrent(cells, updates) && Cached(cache, book, updates, |updates|)
    ensures Cached(cache, Entered(book, updates), [], 0)
  {
    forall e | e in cache
      ensures Written(Entered(book, updates), e.name, e.version, e.payload)
    {
      if Written(book, e.name, e.version, e.payload) {
        BookGrows(cells, book, updates, e.name, e.version, e.payload);
      } else {
        var i :| 0 <= i < |updates| && EntryOf(updates[i]) == e;
        EnteredAt(book, updates, i);
      }
    }
  }

  lemma {:induction false} PastGrows(past: seq<Cells>, now: Cells, since: nat, name: Blob)
    ensures forall version, payload | WasCurrent(past, since, name, version, payload) :: WasCurrent(past + [now], since, name, version, payload)
    ensures WasAbsent(past, since, name) ==> WasAbsent(past + [now], since, name)
  {
    assert forall t | 0 <= t < |past| :: (past + [now])[t] == past[t];
  }

  lemma {:induction false} CallOutlives(roots: Index, roots': Index, cells: Cells, past: seq<Cells>, book: Book, updates: seq<RootUpdate>,
                                        holder: Holder, id: nat, l: Loader)
    requires Booked(cells, book) && CellsCurrent(cells, updates) && !holder.ByLoader?
    requires CallHolds(roots, cells, past, book, holder, id, l)
    ensures CallHolds(roots', ApplyCells(cells, updates), past + [ApplyCells(cells, updates)], Entered(book, updates), ByEngine, id, l)
  {
    PastGrows(past, ApplyCells(cells, updates), l.since, l.name);
    if l.call.Looked? {
      var key := (l.name, l.call.seen.version);
      BookGrows(cells, book, updates, l.name, l.call.seen.version, book[key]);
    }
  }

  lemma {:induction false} LoadersOutlive(roots: Index, roots': Index, cells: Cells, past: seq<Cells>, book: Book, updates: seq<RootUpdate>,
                                          holder: Holder, loaders: map<nat, Loader>)
    requires Booked(cells, book) && CellsCurrent(cells, updates) && !holder.ByLoader?
    requires LoadersHold(roots, cells, past, book, holder, loaders)
    ensures LoadersHold(roots', ApplyCells(cells, updates), past + [ApplyCells(cells, updates)], Entered(book, updates), ByEngine, loaders)
  {
    forall id | id in loaders
      ensures CallHolds(roots', ApplyCells(cells, updates), past + [ApplyCells(cells, updates)], Entered(book, updates), ByEngine, id, loaders[id])
    {
      CallOutlives(roots, roots', cells, past, book, updates, holder, id, loaders[id]);
    }
  }

  /** While the engine works no load holds the lock, so none depends on the index. */
  lemma {:induction false} LoadersIgnore(roots: Index, roots': Index, cells: Cells, past: seq<Cells>, book: Book, holder: Holder, loaders: map<nat, Loader>)
    requires !holder.ByLoader? && LoadersHold(roots, cells, past, book, holder, loaders)
    ensures LoadersHold(roots', cells, past, book, ByEngine, loaders)
  {
  }

  // ------------------------------------------------------------------
  // The engine
  // ------------------------------------------------------------------

  lemma {:induction false} ActMoves(fs: Formats, m: Machine, act: Action)
    requires Enabled(fs, m, act) && m.phase != Down && !act.Crashes?
    ensures Engine.After(fs, m, act).phase != Down
    ensures !act.CommitAppends? ==> Publishing(Engine.After(fs, m, act)) == []
  {
  }

  lemma {:induction false} SafeOpen(c: Checks, m: Machine, a: Store)
    requires SafeOn(c, m, a).Kept?
    ensures a.open == UpdatesOf(m.flight) && (m.phase == Appending ==> m.flight.Some?)
  {
  }

  /** Every action of a running engine keeps it safe; only a commit that returns changes the cells. */
  lemma {:induction false} ActKeeps(c: Checks, m: Machine, a: Store, act: Action)
    requires SafeOn(c, m, a).Kept? && Enabled(FormatsOf(c), m, act)
    ensures SafeOn(c, Engine.After(FormatsOf(c), m, act), StoreAfter(FormatsOf(c), m, a, act)).Kept?
  {
    FormatsSound(c);
    StepRefines(FormatsOf(c), m, a, act);
  }

  lemma {:induction false} ActCells(fs: Formats, m: Machine, a: Store, act: Action)
    requires Enabled(fs, m, act) && !act.Crashes?
    requires a.open == UpdatesOf(m.flight) && (m.phase == Appending ==> m.flight.Some?)
    ensures StoreAfter(fs, m, a, act).cells == if act.CommitReturns? then ApplyCells(a.cells, Publishing(m)) else a.cells
  {
  }

  lemma {:induction false} AppendIsCurrent(c: Checks, m: Machine, a: Store, holder: Holder, tx: nat, updates: seq<RootUpdate>)
    requires Running(c, m, a, holder).Kept? && Enabled(FormatsOf(c), m, CommitAppends(tx, updates))
    ensures Publishing(Engine.After(FormatsOf(c), m, CommitAppends(tx, updates))) == updates
    ensures CellsCurrent(a.cells, updates)
  {
    RunningLists(c, m, a, holder);
    CurrentOnCells(m.roots, a.cells, updates);
  }

  lemma {:induction false} RunningActs(c: Checks, m: Machine, a: Store, holder: Holder, act: Action)
    requires Running(c, m, a, holder).Kept? && Enabled(FormatsOf(c), m, act) && !act.Crashes?
    ensures Running(c, Engine.After(FormatsOf(c), m, act), StoreAfter(FormatsOf(c), m, a, act), ByEngine).Kept?
    ensures StoreAfter(FormatsOf(c), m, a, act).cells == if act.CommitReturns? then ApplyCells(a.cells, Publishing(m)) else a.cells
    ensures !act.CommitAppends? ==> Publishing(Engine.After(FormatsOf(c), m, act)) == []
  {
    assert Opened(0);
    ActKeeps(c, m, a, act);
    ActMoves(FormatsOf(c), m, act);
    SafeOpen(c, m, a);
    ActCells(FormatsOf(c), m, a, act);
  }

  lemma {:induction false} RunningKept(s: Shared, act: Action)
    requires Consistent(s) && EngineMay(s, act)
    ensures Running(s.checks, AfterAct(s, act).m, AfterAct(s, act).a, ByEngine).Kept?
    ensures Committing(AfterAct(s, act).a.cells, Publishing(AfterAct(s, act).m), 0)
    ensures AfterAct(s, act).a.cells == if act.CommitReturns? then ApplyCells(s.a.cells, Publishing(s.m)) else s.a.cells
    ensures !act.CommitAppends? ==> Publishing(AfterAct(s, act).m) == []
  {
    RunningActs(s.checks, s.m, s.a, s.holder, act);
    if act.CommitAppends? {
      AppendIsCurrent(s.checks, s.m, s.a, s.holder, act.tx, act.updates);
    }
  }

  lemma {:induction false} CacheUnfilled(cache: seq<Cache.Entry>, book: Book, pending: seq<RootUpdate>, filled: nat, pending': seq<RootUpdate>)
    requires Cached(cache, book, pending, filled) && (pending == [] || filled == 0)
    ensures Cached(cache, book, pending', 0)
  {
    forall e | e in cache
      ensures !Filling(pending, filled, e)
    {
    }
  }

  lemma {:induction false} PublishKeeps(s: Shared)
    requires Consistent(s) && EngineMay(s, CommitReturns)
    ensures Consistent(AfterAct(s, CommitReturns))
  {
    var s', updates := AfterAct(s, CommitReturns), Publishing(s.m);
    RunningKept(s, CommitReturns);
    PublishBooked(s.a.cells, s.book, updates);
    PublishCached(s.a.cells, s.book, s.cache, updates);
    LoadersOutlive(s.m.roots, s'.m.roots, s.a.cells, s.past, s.book, updates, s.holder, s.loaders);
  }

  lemma {:induction false} ActConsistent(s: Shared, act: Action)
    requires Consistent(s) && EngineMay(s, act)
    ensures Consistent(AfterAct(s, act))
  {
    if act.CommitReturns? {
      PublishKeeps(s);
    } else {
      var s' := AfterAct(s, act);
      RunningKept(s, act);
      CacheUnfilled(s.cache, s.book, Publishing(s.m), s.filled, Publishing(s'.m));
      LoadersIgnore(s.m.roots, s'.m.roots, s.a.cells, s.past, s.book, s.holder, s.loaders);
    }
  }

  // ------------------------------------------------------------------
  // The cache
  // ------------------------------------------------------------------

  lemma {:induction false} GetCached(cache: seq<Cache.Entry>, book: Book, pending: seq<RootUpdate>, filled: nat, name: Blob, version: nat)
    requires Cached(cache, book, pending, filled)
    ensures Cached(Cache.AfterGet(cache, name, version), book, pending, filled)
  {
    forall e | e in Cache.AfterGet(cache, name, version)
      ensures e in cache
    {
      GetSubset(cache, name, version, e);
    }
  }

  lemma {:induction false} PutCached(cache: seq<Cache.Entry>, limit: nat, one: Cache.Entry, book: Book, pending: seq<RootUpdate>, filled: nat)
    requires Cached(cache, book, pending, filled)
    requires Written(book, one.name, one.version, one.payload) || Filling(pending, filled, one)
    ensures Cached(Cache.AfterPut(cache, limit, one), book, pending, filled)
  {
    forall e | e in Cache.AfterPut(cache, limit, one)
      ensures e == one || e in cache
    {
      PutSubset(cache, limit, one, e);
    }
  }

  lemma {:induction false} FillCached(cache: seq<Cache.Entry>, limit: nat, book: Book, pending: seq<RootUpdate>, filled: nat)
    requires Cached(cache, book, pending, filled) && filled < |pending|
    ensures Cached(Cache.AfterPut(cache, limit, EntryOf(pending[filled])), book, pending, filled + 1)
  {
    forall e | Filling(pending, filled, e)
      ensures Filling(pending, filled + 1, e)
    {
    }
    assert Filling(pending, filled + 1, EntryOf(pending[filled]));
    PutCached(cache, limit, EntryOf(pending[filled]), book, pending, filled + 1);
  }

  lemma {:induction false} RecordedNotFilling(s: Shared, e: Cache.Entry)
    requires Consistent(s) && (e.name, e.version) in s.book
    ensures !Filling(Publishing(s.m), s.filled, e)
  {
    var pending := Publishing(s.m);
    forall i | 0 <= i < |pending|
      ensures EntryOf(pending[i]) != e
    {
      assert VersionIn(s.a.cells, pending[i].name) < pending[i].next;
    }
  }

  /** A hit yields the payload recorded for that version: an entry of a commit that is still
      being published has a version no load can have seen. */
  lemma {:induction false} HitIsRecorded(s: Shared, name: Blob, version: nat, payload: Blob)
    requires Consistent(s) && Written(s.book, name, version, payload)
    ensures Cache.Hit(s.cache, name, version).Some? ==> Cache.Hit(s.cache, name, version).value == payload
  {
    var hit := Cache.Find(s.cache, name);
    if hit.Some? && hit.value.version == version {
      RecordedNotFilling(s, hit.value);
    }
  }

  // ------------------------------------------------------------------
  // The steps of a load
  // ------------------------------------------------------------------

  /** One load moves on; the others do not depend on it. */
  lemma {:induction false} OneMoves(s: Shared, id: nat, call: Call, holder: Holder)
    requires LoadersHold(s.m.roots, s.a.cells, s.past, s.book, s.holder, s.loaders) && id in s.loaders
    requires holder == s.holder || s.holder == Free || s.holder == ByLoader(id)
    requires CallHolds(s.m.roots, s.a.cells, s.past, s.book, holder, id, s.loaders[id].(call := call))
    ensures LoadersHold(s.m.roots, s.a.cells, s.past, s.book, holder, Moved(s, id, call))
  {
  }

  lemma {:induction false} RunningLists(c: Checks, m: Machine, a: Store, holder: Holder)
    requires Running(c, m, a, holder).Kept?
    ensures Lists(m.roots, a.cells)
  {
    assert Opened(0);
    LookupIsCurrent(FormatsOf(c), m, a);
  }

  lemma {:induction false} RunningReads(c: Checks, m: Machine, a: Store, holder: Holder, name: Blob)
    requires Running(c, m, a, holder).Kept? && holder != ByEngine && name in m.roots && name in a.cells
    ensures LoadWhole(c, FileOf(m.snap, m.wal, m.roots[name].payload.source), m.roots[name].payload) == Ok(a.cells[name].payload)
  {
    assert Opened(0);
    LockedReadIsCurrent(c, m, a, name);
  }

  /** What the index shows now, the root holds in this epoch. */
  lemma {:induction false} CurrentNow(s: Shared, l: Loader)
    requires Consistent(s) && l.since < |s.past|
    ensures l.name in s.m.roots <==> l.name in s.a.cells
    ensures l.name in s.m.roots ==>
              && s.m.roots[l.name].version == s.a.cells[l.name].version
              && WasCurrent(s.past, l.since, l.name, s.a.cells[l.name].version, s.a.cells[l.name].payload)
              && Written(s.book, l.name, s.a.cells[l.name].version, s.a.cells[l.name].payload)
    ensures l.name !in s.m.roots ==> WasAbsent(s.past, l.since, l.name)
  {
    RunningLists(s.checks, s.m, s.a, s.holder);
    assert s.past[|s.past| - 1] == s.a.cells;
  }

  lemma {:induction false} LookKeeps(s: Shared, id: nat)
    requires Consistent(s) && At(s, id, Started)
    ensures Consistent(AfterLook(s, id))
  {
    var name := s.loaders[id].name;
    CurrentNow(s, s.loaders[id]);
    OneMoves(s, id,
             if name !in s.m.roots then Returned(None)
             else if s.m.roots[name].tag != VALUE_TYPE then Refused else Looked(s.m.roots[name]),
             s.holder);
  }

  lemma {:induction false} GetKeeps(s: Shared, id: nat)
    requires Consistent(s) && id in s.loaders && s.loaders[id].call.Looked?
    ensures Consistent(AfterCacheGet(s, id))
  {
    var l := s.loaders[id];
    var version := l.call.seen.version;
    HitIsRecorded(s, l.name, version, s.book[(l.name, version)]);
    GetCached(s.cache, s.book, Publishing(s.m), s.filled, l.name, version);
    var hit := Cache.Hit(s.cache, l.name, version);
    OneMoves(s, id, if hit.Some? then Returned(Some((version, hit.value))) else Missed, s.holder);
  }

  lemma {:induction false} RereadKeeps(s: Shared, id: nat)
    requires Consistent(s) && At(s, id, Locked)
    ensures Consistent(AfterReread(s, id))
  {
    var name := s.loaders[id].name;
    CurrentNow(s, s.loaders[id]);
    if name in s.m.roots {
      OneMoves(s, id, Reread(s.m.roots[name]), s.holder);
    } else {
      OneMoves(s, id, Returned(None), Free);
      LockPasses(s.checks, s.m, s.a, s.holder, Free);
    }
  }

  /** Under the lock the file holds the root's current payload at the locator just looked up, so
      only a fault can keep it from being read. */
  lemma {:induction false} ReadFinds(s: Shared, id: nat)
    requires Consistent(s) && id in s.loaders && s.loaders[id].call.Reread?
    ensures s.loaders[id].name in s.a.cells
    ensures s.a.cells[s.loaders[id].name].version == s.loaders[id].call.seen.version
    ensures ReadNow(s, s.loaders[id].call.seen.payload) == Ok(s.a.cells[s.loaders[id].name].payload)
  {
    CurrentNow(s, s.loaders[id]);
    RunningReads(s.checks, s.m, s.a, s.holder, s.loaders[id].name);
  }

  lemma {:induction false} ReadKeeps(s: Shared, id: nat, faults: bool)
    requires Consistent(s) && id in s.loaders && s.loaders[id].call.Reread?
    ensures Consistent(AfterRead(s, id, faults))
    ensures !faults ==> AfterRead(s, id, faults).loaders[id].call.HasBytes?
  {
    ReadFinds(s, id);
    if faults {
      OneMoves(s, id, Refused, Free);
      LockPasses(s.checks, s.m, s.a, s.holder, Free);
    } else {
      OneMoves(s, id, HasBytes(s.loaders[id].call.seen, s.a.cells[s.loaders[id].name].payload), s.holder);
    }
  }

  lemma {:induction false} PutKeeps(s: Shared, id: nat)
    requires Consistent(s) && id in s.loaders && s.loaders[id].call.HasBytes?
    ensures Consistent(AfterCachePut(s, id))
  {
    var l := s.loaders[id];
    CurrentNow(s, l);
    PutCached(s.cache, s.limit, Cache.Entry(l.name, l.call.seen.version, l.call.bytes), s.book, Publishing(s.m), s.filled);
    OneMoves(s, id, Returned(Some((l.call.seen.version, l.call.bytes))), Free);
    LockPasses(s.checks, s.m, s.a, s.holder, Free);
  }

  /** Every step keeps the invariant. */
  lemma {:induction false} StepKeeps(s: Shared, step: Step)
    requires Consistent(s) && May(s, step)
    ensures Consistent(Next(s, step))
  {
    match step
    case Acts(act) => ActConsistent(s, act);
    case Fills => FillCached(s.cache, s.limit, s.book, Publishing(s.m), s.filled);
    case Looks(id) => LookKeeps(s, id);
    case Gets(id) => GetKeeps(s, id);
    case Locks(id) =>
      OneMoves(s, id, Locked, ByLoader(id));
      LockPasses(s.checks, s.m, s.a, s.holder, ByLoader(id));
    case Unlocks => LockPasses(s.checks, s.m, s.a, s.holder, Free);
    case Rereads(id) => RereadKeeps(s, id);
    case Reads(id, faults) => ReadKeeps(s, id, faults);
    case Puts(id) => PutKeeps(s, id);
    case _ =>
  }

  // ------------------------------------------------------------------
  // Whole runs
  // ------------------------------------------------------------------

  function FirstBook(cells: Cells): Book {
    map name | name in cells :: (name, cells[name].version) := cells[name].payload
  }

  /** An open heap with an empty cache and no load under way. */
  ghost function Idle(c: Checks, m: Machine, a: Store, limit: nat): Shared {
    Shared(c, m, a, [a.cells], FirstBook(a.cells), [], limit, Free, 0, map[])
  }

  ghost predicate Interleaves(s: Shared, steps: seq<Step>)
    decreases |steps|
  {
    steps == [] || (May(s, steps[0]) && Interleaves(Next(s, steps[0]), steps[1..]))
  }

  ghost function Interleaved(s: Shared, steps: seq<Step>): Shared
    requires Interleaves(s, steps)
    decreases |steps|
  {
    if steps == [] then s else Interleaved(Next(s, steps[0]), steps[1..])
  }

  lemma {:induction false} RunKeeps(s: Shared, steps: seq<Step>)
    requires Consistent(s) && Interleaves(s, steps)
    ensures Consistent(Interleaved(s, steps))
    decreases |steps|
  {
    if steps != [] {
      StepKeeps(s, steps[0]);
      RunKeeps(Next(s, steps[0]), steps[1..]);
    }
  }

  lemma {:induction false} IdleRuns(c: Checks, m: Machine, a: Store)
    requires SafeOn(c, m, a).Kept? && m.phase == Ready
    ensures Running(c, m, a, Free).Kept? && Publishing(m) == []
  {
  }

  lemma {:induction false} FirstBooked(cells: Cells)
    ensures Booked(cells, FirstBook(cells))
  {
    var book := FirstBook(cells);
    forall name | name in cells
      ensures Written(book, name, cells[name].version, cells[name].payload)
    {
      assert (name, cells[name].version) in book;
    }
  }

  /** With nothing under way there is nothing to hold, whatever the cells are. */
  lemma {:induction false} NothingHolds(roots: Index, cells: Cells, past: seq<Cells>, book: Book, cache: seq<Cache.Entry>,
                                        pending: seq<RootUpdate>, loaders: map<nat, Loader>)
    requires cache == [] && pending == [] && loaders == map[]
    ensures Cached(cache, book, pending, 0) && Committing(cells, pending, 0) && LoadersHold(roots, cells, past, book, Free, loaders)
  {
  }

  lemma {:induction false} PartsConsistent(s: Shared)
    requires s.past == [s.a.cells] && Running(s.checks, s.m, s.a, s.holder).Kept? && Committing(s.a.cells, Publishing(s.m), s.filled)
    requires Booked(s.a.cells, s.book) && Cached(s.cache, s.book, Publishing(s.m), s.filled)
    requires LoadersHold(s.m.roots, s.a.cells, s.past, s.book, s.holder, s.loaders)
    ensures Consistent(s)
  {
  }

  lemma {:induction false} IdleConsistent(c: Checks, m: Machine, a: Store, limit: nat)
    requires Running(c, m, a, Free).Kept? && Publishing(m) == []
    ensures Consistent(Idle(c, m, a, limit))
  {
    var s := Idle(c, m, a, limit);
    FirstBooked(a.cells);
    NothingHolds(m.roots, a.cells, s.past, s.book, s.cache, Publishing(m), s.loaders);
    PartsConsistent(s);
  }

  /** What a load returned is what the root held in some epoch since the call. */
  ghost predicate Answers(past: seq<Cells>, l: Loader) {
    l.call.Returned? ==>
      if l.call.result.Some? then WasCurrent(past, l.since, l.name, l.call.result.value.0, l.call.result.value.1)
      else WasAbsent(past, l.since, l.name)
  }

  lemma {:induction false} ConsistentAnswers(s: Shared, id: nat)
    requires Consistent(s) && id in s.loaders
    ensures Answers(s.past, s.loaders[id])
  {
  }

  /** Under every interleaving with the engine's own steps on the journal's and the snapshot's bytes,
      a load that returned a version and a payload returned those the root had in some epoch during
      the call, and one that found nothing ran while the root was absent. */
  lemma {:induction false} LoadWasCurrent(c: Checks, m: Machine, a: Store, limit: nat, steps: seq<Step>, id: nat)
    requires SafeOn(c, m, a).Kept? && m.phase == Ready
    requires Interleaves(Idle(c, m, a, limit), steps) && id in Interleaved(Idle(c, m, a, limit), steps).loaders
    ensures Answers(Interleaved(Idle(c, m, a, limit), steps).past, Interleaved(Idle(c, m, a, limit), steps).loaders[id])
  {
    IdleRuns(c, m, a);
    IdleConsistent(c, m, a, limit);
    RunKeeps(Idle(c, m, a, limit), steps);
    ConsistentAnswers(Interleaved(Idle(c, m, a, limit), steps), id);
  }

  // ------------------------------------------------------------------
  // Why a load looks again
  // ------------------------------------------------------------------

  /** A locator of the journal that a load took before it had the lock cannot be read once a
      checkpoint has run: the second lookup is what finds the payload's new place. */
  lemma {:induction false} OldLocatorFails(c: Checks, m: Machine, name: Blob)
    requires Savable(c, m) && name in m.roots
    requires m.roots[name].payload.source == JournalFile && m.roots[name].payload.size > 0
    ensures var acts := CheckpointActs(ImageOf(FormatsOf(c), m.snap, m.wal, m.roots, m.lastSequence));
            && Runs(FormatsOf(c), m, acts)
            && var m' := Ran(FormatsOf(c), m, acts);
               LoadWhole(c, FileOf(m'.snap, m'.wal, m.roots[name].payload.source), m.roots[name].payload).Err?
  {
    CheckpointRuns(FormatsOf(c), m);
  }

  // ------------------------------------------------------------------
  // Loads after a directory sync that failed
  // ------------------------------------------------------------------

  /** What loading at a locator may yield when its file was replaced: the payload, if it is in the
      journal or at the same place in the new snapshot; a fault, if the new file ends before the
      locator does; and, with checksums on, never bytes of another checksum. */
  predicate LoadsReplaced(c: Checks, file: Blob, where: Loc, placed: Option<Loc>, payload: Blob) {
    var r := LoadWhole(c, file, where);
    && (where.source == JournalFile || placed == Some(where) ==> r == Ok(payload))
    && (where.offset + where.size > |file| ==> r == Err(StorageFault))
    && (c.on && r.Ok? ==> c.digest(r.value) == c.digest(payload))
  }

  function PlaceOf(roots: Index, name: Blob): Option<Loc> {
    if name in roots then Some(roots[name].payload) else None
  }

  lemma {:induction false} ReplacedLoads(c: Checks, before: Blob, file: Blob, where: Loc, placed: Option<Loc>, payload: Blob)
    requires Readable(c.digest, before, where) && PayloadAt(before, where) == payload
    requires where.source == JournalFile ==> file == before
    requires placed == Some(where) ==> Readable(c.digest, file, where) && PayloadAt(file, where) == payload
    ensures LoadsReplaced(c, file, where, placed, payload)
  {
  }

  /** The snapshot has been replaced, the directory was not synced, and the index still describes the
      old file. */
  lemma {:induction false} UnsyncedLoads(c: Checks, m: Machine, a: Store, name: Blob)
    requires SafeOn(c, m, a).Kept? && m.phase.Renamed? && name in m.roots
    ensures name in a.cells
    ensures var where := m.roots[name].payload;
            LoadsReplaced(c, FileOf(m.snap, m.wal, where.source), where, PlaceOf(FormatsOf(c).snapshot.placed(m.roots), name), a.cells[name].payload)
  {
    UnsyncedStands(FormatsOf(c), GroundOf(FormatsOf(c)), m, a);
    UnsyncedFiles(c, m.phase.was, m.snap, m.wal, m.flight, m.roots, FormatsOf(c).snapshot.placed(m.roots), a.cells, m.lastSequence, name);
  }

  lemma {:induction false} UnsyncedFiles(c: Checks, was: Option<Blob>, snap: Option<Blob>, wal: Blob, flight: Option<Flight>,
                                         roots: Index, placed: Index, cells: Cells, last: nat, name: Blob)
    requires OnFiles(FormatsOf(c), was, wal, flight, roots, cells, last).Kept?
    requires OnFiles(FormatsOf(c), snap, wal, flight, placed, cells, last).Kept?
    requires name in roots
    ensures name in cells
    ensures var where := roots[name].payload;
            LoadsReplaced(c, FileOf(snap, wal, where.source), where, PlaceOf(placed, name), cells[name].payload)
  {
    var where := roots[name].payload;
    LockedFile(FormatsOf(c), was, wal, flight, roots, cells, last, name);
    if name in placed {
      LockedFile(FormatsOf(c), snap, wal, flight, placed, cells, last, name);
    }
    ReplacedLoads(c, FileOf(was, wal, where.source), FileOf(snap, wal, where.source), where, PlaceOf(placed, name), cells[name].payload);
  }

  lemma {:induction false} UnsyncedStands(fs: Formats, g: Ground, m: Machine, a: Store)
    requires Safe(fs, g, m, a).Kept? && m.phase.Renamed?
    ensures g.on(m.phase.was, m.wal, m.flight, m.roots, a.cells, m.lastSequence).Kept?
    ensures g.on(m.snap, m.wal, m.flight, fs.snapshot.placed(m.roots), a.cells, m.lastSequence).Kept?
  {
  }
}
