/** The transaction object: the roots it opened, their dirty flags, and the updates it commits. */
module Sessions {
  import opened Bytes
  import opened BinaryIO
  import opened Records
  import opened Values
  import opened Observables
  import opened ValueCodec
  import opened Mutations
  import opened Storage
  import opened Engine
  import opened HeapState
  import Transactions
  import Cache
  import Files
  import JournalFile

  /** A root in a transaction. Its token is its position, counted from one. */
  datatype WorkingRoot = WorkingRoot(name: Blob, expected: nat, dirty: bool, tree: Tree)

  // ------------------------------------------------------------------
  // Dirty tracking over runs of mutators
  // ------------------------------------------------------------------

  function TokenOf(i: nat): Binding {
    Bound(i + 1)
  }

  /** A root is marked when its token is notified. */
  function Marked(roots: seq<WorkingRoot>, notes: set<Binding>): (r: seq<WorkingRoot>)
    ensures |r| == |roots|
    ensures forall i | 0 <= i < |roots| :: r[i] == roots[i].(dirty := roots[i].dirty || TokenOf(i) in notes)
  {
    seq(|roots|, i requires 0 <= i < |roots| => roots[i].(dirty := roots[i].dirty || TokenOf(i) in notes))
  }

  /** A mutator as one fact: the root it works on has the node it is called on, and arguments and
      result are values of the machine's types. */
  function Aimed(root: WorkingRoot, p: Path, op: Op): Law {
    if Reaches(root.tree, p, op) && BoundedAt(root.tree, p, op) then Kept else Broken
  }

  function EffectOn(root: WorkingRoot, p: Path, op: Op): Effect
    requires Aimed(root, p, op).Kept?
  {
    ApplyAt(root.tree, p, op)
  }

  function Mutated(roots: seq<WorkingRoot>, k: nat, p: Path, op: Op): (r: seq<WorkingRoot>)
    requires k < |roots| && Aimed(roots[k], p, op).Kept?
    ensures |r| == |roots|
  {
    var e := EffectOn(roots[k], p, op);
    Marked(roots[k := roots[k].(tree := e.tree)], e.notes)
  }

  /** Every node is bound to its root's token, and a root that is not dirty holds what was loaded. */
  ghost predicate Tracked(roots: seq<WorkingRoot>, loaded: seq<Value>) {
    && |roots| == |loaded|
    && forall i | 0 <= i < |roots| ::
         AllBound(roots[i].tree, TokenOf(i)) && (roots[i].dirty || Plain(roots[i].tree) == loaded[i])
  }

  lemma {:induction false} MutatedTracked(roots: seq<WorkingRoot>, loaded: seq<Value>, k: nat, p: Path, op: Op)
    requires Tracked(roots, loaded) && k < |roots| && Aimed(roots[k], p, op).Kept?
    ensures Tracked(Mutated(roots, k, p, op), loaded)
  {
    ApplyAtWatched(roots[k].tree, p, op, TokenOf(k));
  }

  /** One use of a mutator: which root, which node below it, and what is done. */
  datatype Use = Use(root: nat, path: Path, op: Op)

  predicate Usable(roots: seq<WorkingRoot>, uses: seq<Use>)
    decreases |uses|
  {
    uses == [] ||
    (uses[0].root < |roots| && Aimed(roots[uses[0].root], uses[0].path, uses[0].op).Kept?
     && Usable(Mutated(roots, uses[0].root, uses[0].path, uses[0].op), uses[1..]))
  }

  function Used(roots: seq<WorkingRoot>, uses: seq<Use>): seq<WorkingRoot>
    requires Usable(roots, uses)
    decreases |uses|
  {
    if uses == [] then roots else Used(Mutated(roots, uses[0].root, uses[0].path, uses[0].op), uses[1..])
  }

  /** After any sequence of mutators on any nodes, every node is still bound to its root's token,
      and a root that is not marked holds exactly the tree that was loaded. */
  lemma {:induction false} UnmarkedIsUnchanged(roots: seq<WorkingRoot>, loaded: seq<Value>, uses: seq<Use>)
    requires Tracked(roots, loaded) && Usable(roots, uses)
    ensures Tracked(Used(roots, uses), loaded)
    decreases |uses|
  {
    if uses != [] {
      MutatedTracked(roots, loaded, uses[0].root, uses[0].path, uses[0].op);
      UnmarkedIsUnchanged(Mutated(roots, uses[0].root, uses[0].path, uses[0].op), loaded, uses[1..]);
    }
  }

  /** A root that is dirty, such as one that did not exist, stays dirty. */
  lemma {:induction false} DirtyStays(roots: seq<WorkingRoot>, uses: seq<Use>, i: nat)
    requires Usable(roots, uses) && i < |roots| && roots[i].dirty
    ensures |Used(roots, uses)| == |roots| && Used(roots, uses)[i].dirty
    decreases |uses|
  {
    if uses != [] {
      DirtyStays(Mutated(roots, uses[0].root, uses[0].path, uses[0].op), uses[1..], i);
    }
  }

  // ------------------------------------------------------------------
  // Loading and storing trees
  // ------------------------------------------------------------------

  /** The observed tree of a plain value, bound throughout. */
  function Grow(v: Value, b: Binding): (t: Tree)
    ensures AllBound(t, b) && Plain(t) == v
  {
    match v
    case Null => Tree(b, Data.Nothing)
    case Bool(x) => Tree(b, Flag(x))
    case Int(i) => Tree(b, Whole(i))
    case Num(bits) => Tree(b, Real(bits))
    case Str(s) => Tree(b, Text(b, s))
    case Arr(items) => Tree(b, Array(b, GrowItems(items, b)))
    case Obj(fields) => Tree(b, Object(b, GrowFields(fields, b)))
  }

  function GrowItems(items: Items, b: Binding): (t: Trees)
    ensures ItemsBound(t, b) && PlainItems(t) == items
  {
    match items
    case Nil => NoTrees
    case Item(first, rest) => Trees(Grow(first, b), GrowItems(rest, b))
  }

  function GrowFields(fields: Fields, b: Binding): (t: Entries)
    ensures FieldsBound(t, b) && PlainFields(t) == fields
  {
    match fields
    case Bare => NoEntries
    case Field(key, value, rest) => Entries(key, Grow(value, b), GrowFields(rest, b))
  }

  /** A whole payload as a value: nothing may follow it. */
  function Parsed(payload: Blob): Result<Value> {
    var (v, rest) :- Decode(payload);
    if rest != [] then Err(Corruption(TrailingBytes)) else Ok(v)
  }

  /** Storing a value and loading it again gives the value. */
  lemma {:induction false} ParsedOfEncode(v: Value)
    requires Storable(v)
    ensures Parsed(Encode(v)) == Ok(v)
  {
    DecodeOfEncode(v, []);
    assert Encode(v) + [] == Encode(v);
  }

  /** What the concurrency argument calls the payload of null is the encoding of null. */
  lemma {:induction false} NullPayload()
    ensures Parsed(Transactions.NULL_PAYLOAD) == Ok(Null) && Encode(Null) == Transactions.NULL_PAYLOAD
  {
    ParsedOfEncode(Null);
  }

  method ParsePayload(payload: Blob) returns (r: Result<Value>)
    ensures r == Parsed(payload)
  {
    var reader := new Reader(payload);
    assert reader.Rest() == payload;
    var v :- DecodeValue(reader);
    if !reader.Eof() {
      return Err(Corruption(TrailingBytes));
    }
    r := Ok(v);
  }

  // ------------------------------------------------------------------
  // Committing
  // ------------------------------------------------------------------

  function UpdateOf(root: WorkingRoot): RootUpdate {
    RootUpdate(root.name, root.expected, root.expected + 1, VALUE_TYPE,
               if Storable(Plain(root.tree)) then Encode(Plain(root.tree)) else [])
  }

  /** Value types and sizes are those of the machine: integers of 64 bits, lengths below 2^64. */
  predicate AllStorable(roots: seq<WorkingRoot>) {
    forall i | 0 <= i < |roots| :: Storable(Plain(roots[i].tree))
  }

  function DirtyUpdates(roots: seq<WorkingRoot>): seq<RootUpdate>
    decreases |roots|
  {
    if roots == [] then []
    else if roots[0].dirty then [UpdateOf(roots[0])] + DirtyUpdates(roots[1..])
    else DirtyUpdates(roots[1..])
  }

  /** The roots as the concurrency argument sees them: what was read, and what is written. */
  function SeenOf(roots: seq<WorkingRoot>, payloads: seq<Option<Blob>>): (r: seq<Transactions.Working>)
    requires |payloads| == |roots|
    ensures |r| == |roots|
  {
    seq(|roots|, i requires 0 <= i < |roots| => Transactions.Working(roots[i].name, roots[i].expected, payloads[i]))
  }

  /** The writes are the dirty roots, and a root that did not exist is dirty. */
  predicate Writes(roots: seq<WorkingRoot>, payloads: seq<Option<Blob>>, writes: map<Blob, Blob>)
    requires |payloads| == |roots|
  {
    forall i | 0 <= i < |roots| ::
      && (roots[i].dirty <==> roots[i].name in writes)
      && (payloads[i].None? ==> roots[i].dirty)
      && (roots[i].dirty && Storable(Plain(roots[i].tree)) ==> writes[roots[i].name] == Encode(Plain(roots[i].tree)))
  }

  /** What the transaction object commits is what the concurrency argument says a transaction commits. */
  lemma {:induction false} CommitsItsWrites(roots: seq<WorkingRoot>, payloads: seq<Option<Blob>>, writes: map<Blob, Blob>)
    requires |payloads| == |roots| && AllStorable(roots) && Writes(roots, payloads, writes)
    ensures Transactions.Updates(SeenOf(roots, payloads), writes) == DirtyUpdates(roots)
    decreases |roots|
  {
    if roots != [] {
      CommitsItsWrites(roots[1..], payloads[1..], writes);
      assert SeenOf(roots, payloads)[1..] == SeenOf(roots[1..], payloads[1..]);
    }
  }

  // ------------------------------------------------------------------
  // The state of a transaction
  // ------------------------------------------------------------------

  /** Names lead to the tokens of the roots, and back. */
  ghost predicate Named(roots: seq<WorkingRoot>, byName: map<Blob, nat>) {
    && (forall i | 0 <= i < |roots| :: roots[i].name in byName && byName[roots[i].name] == i + 1)
    && (forall name | name in byName :: 1 <= byName[name] <= |roots| && roots[byName[name] - 1].name == name)
  }

  ghost predicate InSession(roots: seq<WorkingRoot>, byName: map<Blob, nat>, loaded: seq<Value>) {
    forall k: nat {:trigger Opened(k)} :: Opened(k) ==> Tracked(roots, loaded) && Named(roots, byName) && AllStorable(roots)
  }

  lemma {:induction false} SessionAdds(roots: seq<WorkingRoot>, byName: map<Blob, nat>, loaded: seq<Value>, root: WorkingRoot, data: Value)
    requires InSession(roots, byName, loaded) && root.name !in byName
    requires AllBound(root.tree, TokenOf(|roots|)) && Plain(root.tree) == data && Storable(data)
    ensures InSession(roots + [root], byName[root.name := |roots| + 1], loaded + [data])
  {
    assert Opened(0);
  }

  lemma {:induction false} SessionFinds(roots: seq<WorkingRoot>, byName: map<Blob, nat>, loaded: seq<Value>, name: Blob)
    requires InSession(roots, byName, loaded) && name in byName
    ensures 1 <= byName[name] <= |roots| && roots[byName[name] - 1].name == name
  {
    assert Opened(0);
  }

  lemma {:induction false} SessionMutates(roots: seq<WorkingRoot>, byName: map<Blob, nat>, loaded: seq<Value>, k: nat, p: Path, op: Op)
    requires InSession(roots, byName, loaded) && k < |roots| && Aimed(roots[k], p, op).Kept?
    ensures InSession(Mutated(roots, k, p, op), byName, loaded)
  {
    assert Opened(0);
    MutatedTracked(roots, loaded, k, p, op);
    MutatedStorable(roots, k, p, op);
    MutatedNamed(roots, byName, k, p, op);
  }

  lemma {:induction false} MutatedStorable(roots: seq<WorkingRoot>, k: nat, p: Path, op: Op)
    requires AllStorable(roots) && k < |roots| && Aimed(roots[k], p, op).Kept?
    ensures AllStorable(Mutated(roots, k, p, op))
  {
    ApplyAtStorable(roots[k].tree, p, op);
  }

  lemma {:induction false} SessionStorable(roots: seq<WorkingRoot>, byName: map<Blob, nat>, loaded: seq<Value>)
    requires InSession(roots, byName, loaded)
    ensures AllStorable(roots)
  {
    assert Opened(0);
  }

  lemma {:induction false} MutatedNamed(roots: seq<WorkingRoot>, byName: map<Blob, nat>, k: nat, p: Path, op: Op)
    requires Named(roots, byName) && k < |roots| && Aimed(roots[k], p, op).Kept?
    ensures Named(Mutated(roots, k, p, op), byName)
  {
    NamesKept(roots, Mutated(roots, k, p, op), byName);
  }

  lemma {:induction false} NamesKept(roots: seq<WorkingRoot>, roots': seq<WorkingRoot>, byName: map<Blob, nat>)
    requires Named(roots, byName) && |roots'| == |roots|
    requires forall i | 0 <= i < |roots| :: roots'[i].name == roots[i].name
    ensures Named(roots', byName)
  {
  }

  lemma {:induction false} MarkedMore(roots: seq<WorkingRoot>, notes: set<Binding>, note: Binding)
    ensures Marked(Marked(roots, notes), {note}) == Marked(roots, notes + {note})
    ensures note == Unbound ==> Marked(roots, notes + {note}) == Marked(roots, notes)
  {
  }

  lemma {:induction false} MarkedNone(roots: seq<WorkingRoot>)
    ensures Marked(roots, {}) == roots
  {
  }

  /** A root the first time it is opened: a root that does not exist starts as null and dirty. */
  function Fresh(name: Blob, found: Option<(nat, Value)>, token: Binding): (root: WorkingRoot)
    ensures root.name == name && AllBound(root.tree, token)
    ensures found.None? ==> root.dirty && root.expected == 0 && Plain(root.tree) == Null
    ensures found.Some? ==> !root.dirty && root.expected == found.value.0 && Plain(root.tree) == found.value.1
  {
    match found
    case None => WorkingRoot(name, 0, true, Grow(Null, token))
    case Some((version, data)) => WorkingRoot(name, version, false, Grow(data, token))
  }

  /** What opening a root finds in the store. */
  function FoundIn(cells: Cells, name: Blob): Result<Option<(nat, Value)>> {
    match Shown(cells, name)
    case None => Ok(None)
    case Some((version, payload)) =>
      var data :- Parsed(payload);
      Ok(Some((version, data)))
  }

  /** What opening a root finds through the index: nothing, or the tree encoded in the payload that
      the cache or the file holds for the root's version. */
  predicate Resolves(c: Checks, m: Machine, s: seq<Cache.Entry>, name: Blob, payload: Blob, found: Option<(nat, Value)>) {
    match found
    case None => name !in m.roots
    case Some((version, data)) =>
      name in m.roots && version == m.roots[name].version && Yielded(c, m, s, name, payload) && Parsed(payload) == Ok(data)
  }

  /** One more root, as it was found through the index. */
  ghost predicate Adds(c: Checks, m: Machine, s: seq<Cache.Entry>, name: Blob, roots: seq<WorkingRoot>, roots': seq<WorkingRoot>) {
    exists payload, found {:trigger Resolves(c, m, s, name, payload, found)} ::
      Resolves(c, m, s, name, payload, found) && roots' == roots + [Fresh(name, found, TokenOf(|roots|))]
  }

  lemma {:induction false} AddsFound(c: Checks, m: Machine, s: seq<Cache.Entry>, name: Blob, payload: Blob, found: Option<(nat, Value)>, roots: seq<WorkingRoot>)
    requires Resolves(c, m, s, name, payload, found)
    ensures Adds(c, m, s, name, roots, roots + [Fresh(name, found, TokenOf(|roots|))])
  {
  }

  lemma {:induction false} ParsedStorable(payload: Blob)
    requires Parsed(payload).Ok?
    ensures Storable(Parsed(payload).value)
  {
    DecodedStorable(payload);
  }

  class Transaction {
    const heap: Heap
    const id: nat
    var active: bool
    var roots: seq<WorkingRoot>
    var byName: map<Blob, nat>
    ghost var loaded: seq<Value>

    ghost predicate Valid()
      reads this
    {
      InSession(roots, byName, loaded)
    }

    constructor (heap: Heap)
      modifies heap`nextTransaction
      ensures Valid() && active && roots == [] && this.heap == heap
      ensures id == old(heap.nextTransaction) && heap.nextTransaction == id + 1
    {
      this.heap, id := heap, heap.nextTransaction;
      active, roots, byName, loaded := true, [], map[], [];
      new;
      heap.nextTransaction := heap.nextTransaction + 1;
    }

    /** The new root's tree is bound to the next token. */
    method Add(name: Blob, found: Option<(nat, Value)>)
      requires Valid() && name !in byName && (found.Some? ==> Storable(found.value.1))
      modifies this`roots, this`byName, this`loaded
      ensures Valid() && roots == old(roots) + [Fresh(name, found, TokenOf(|old(roots)|))]
    {
      var root := Fresh(name, found, TokenOf(|roots|));
      SessionAdds(roots, byName, loaded, root, Plain(root.tree));
      byName := byName[name := |roots| + 1];
      loaded := loaded + [Plain(root.tree)];
      roots := roots + [root];
    }

    /** The value of a root in the heap, with its version. */
    method Fetch(name: Blob) returns (r: Result<Option<(nat, Value)>>, ghost payload: Blob)
      requires heap.Valid()
      modifies heap.cache, heap.disk`faults
      ensures heap.Valid()
      ensures r.Ok? ==> Resolves(heap.checks, heap.Seen(), old(heap.cache.Contents()), name, payload, r.value)
      ensures r.Ok? && r.value.Some? ==> Storable(r.value.value.1)
      ensures forall a | old(heap.Stands(a)) && heap.phase == Ready :: heap.Stands(a) && (r.Ok? ==> r == FoundIn(a.cells, name))
      ensures forall a | old(heap.Stands(a)) && heap.phase == Ready && (name in a.cells ==> a.cells[name].tag == VALUE_TYPE) ::
                r == if heap.disk.faults == old(heap.disk.faults) then FoundIn(a.cells, name) else Err(StorageFault)
    {
      payload := [];
      var loaded := heap.Load(name);
      if loaded.Err? {
        return Err(loaded.error), [];
      }
      var found := loaded.value;
      if found.None? {
        return Ok(None), [];
      }
      payload := found.value.1;
      var data := ParsePayload(found.value.1);
      if data.Err? {
        return Err(data.error), payload;
      }
      ParsedStorable(payload);
      r := Ok(Some((found.value.0, data.value)));
    }

    /** Opens a root, loading it from the heap the first time; the result is its token. */
    method Root(name: Blob) returns (r: Result<nat>)
      requires Valid() && heap.Valid()
      modifies this`roots, this`byName, this`loaded, heap.cache, heap.disk`faults
      ensures Valid() && heap.Valid()
      ensures !active ==> r == Err(NotActive)
      ensures active && name == [] ==> r == Err(EmptyName)
      ensures r.Err? || name in old(byName) ==> roots == old(roots)
      ensures r.Ok? ==> 1 <= r.value <= |roots| && roots[r.value - 1].name == name
      ensures r.Ok? && name !in old(byName) ==>
                r.value == |roots| && Adds(heap.checks, heap.Seen(), old(heap.cache.Contents()), name, old(roots), roots)
      ensures forall a | old(heap.Stands(a)) && heap.phase == Ready ::
                heap.Stands(a) && (r.Ok? && name !in old(byName) ==>
                  FoundIn(a.cells, name).Ok? && roots == old(roots) + [Fresh(name, FoundIn(a.cells, name).value, TokenOf(|old(roots)|))])
      ensures forall a | active && name != [] && name !in old(byName) && heap.disk.faults == old(heap.disk.faults)
                         && old(heap.Stands(a)) && heap.phase == Ready && (name in a.cells ==> a.cells[name].tag == VALUE_TYPE) ::
                r.Ok? <==> FoundIn(a.cells, name).Ok?
    {
      if !active {
        return Err(NotActive);
      }
      if name == [] {
        return Err(EmptyName);
      }
      if name in byName {
        SessionFinds(roots, byName, loaded, name);
        return Ok(byName[name]);
      }
      var found;
      ghost var payload;
      found, payload := Fetch(name);
      if found.Err? {
        return Err(found.error);
      }
      AddsFound(heap.checks, heap.Seen(), old(heap.cache.Contents()), name, payload, found.value, roots);
      Add(name, found.value);
      r := Ok(|roots|);
    }

    /** A notification: marks the root, if the token is one of this transaction's. */
    method Changed(token: nat)
      modifies this`roots
      ensures roots == if active then Marked(old(roots), {Bound(token)}) else old(roots)
    {
      if active && token != 0 && token <= |roots| {
        roots := roots[token - 1 := roots[token - 1].(dirty := true)];
      }
    }

    /** A mutator called through a reference into one of the roots. */
    method Mutate(token: nat, p: Path, op: Op)
      requires Valid() && active && 1 <= token <= |roots| && Aimed(roots[token - 1], p, op).Kept?
      modifies this`roots
      ensures Valid() && roots == Mutated(old(roots), token - 1, p, op)
    {
      ghost var after := Mutated(roots, token - 1, p, op);
      SessionMutates(roots, byName, loaded, token - 1, p, op);
      var e := EffectOn(roots[token - 1], p, op);
      roots := roots[token - 1 := roots[token - 1].(tree := e.tree)];
      NotifyAll(e.notes);
      assert roots == after && byName == old(byName) && loaded == old(loaded);
    }

    method NotifyAll(notes: set<Binding>)
      requires active
      modifies this`roots
      ensures roots == Marked(old(roots), notes)
    {
      var left := notes;
      MarkedNone(roots);
      while left != {}
        invariant left <= notes && roots == Marked(old(roots), notes - left)
        decreases left
      {
        var note :| note in left;
        MarkedMore(old(roots), notes - left, note);
        assert notes - (left - {note}) == (notes - left) + {note};
        if note.Bound? {
          Changed(note.token);
        }
        left := left - {note};
      }
      assert notes - {} == notes;
    }

    /** The encoded values of the dirty roots, in the order the roots were opened. */
    method CollectUpdates() returns (updates: seq<RootUpdate>)
      requires Valid()
      ensures updates == DirtyUpdates(roots)
    {
      SessionStorable(roots, byName, loaded);
      updates := [];
      for i := 0 to |roots|
        invariant updates + DirtyUpdates(roots[i..]) == DirtyUpdates(roots)
      {
        var root := roots[i];
        assert roots[i..][1..] == roots[i + 1..];
        if root.dirty {
          var w := new Writer();
          EncodeValue(w, Plain(root.tree));
          var u := RootUpdate(root.name, root.expected, root.expected + 1, VALUE_TYPE, w.bytes);
          assert w.bytes == Encode(Plain(root.tree));
          ConcatAssoc(updates, [u], DirtyUpdates(roots[i + 1..]));
          updates := updates + [u];
        }
      }
    }

    /** Hands the dirty roots to the heap. The transaction ends only if the commit succeeds. */
    method Commit() returns (r: Result<()>)
      requires Valid() && heap.Valid()
      modifies this`active, heap`roots, heap`poisoned, heap`lastSequence, heap`flight, heap`phase, heap.disk, heap.wal`lastSequence, heap.cache
      ensures Valid() && heap.Valid()
      ensures active == (old(active) && r.Err?)
      ensures !old(active) ==> r == Err(NotActive) && heap.Seen() == old(heap.Seen())
      ensures old(active) && DirtyUpdates(roots) == [] ==> r.Ok? && heap.Seen() == old(heap.Seen())
      ensures old(active) && DirtyUpdates(roots) != [] && !heap.closed && !old(heap.poisoned) ==>
                if VersionsMatch(old(heap.roots), DirtyUpdates(roots))
                then CommitEffect(heap.checks, old(heap.Seen()), id, DirtyUpdates(roots), r, heap.Seen())
                else r.Err? && Conflicts(old(heap.roots), DirtyUpdates(roots), r.error) && heap.Seen() == old(heap.Seen())
      ensures forall a | old(active) && !heap.closed && old(heap.Stands(a)) && old(Committable(heap.checks, heap.Seen(), id, DirtyUpdates(roots))) ::
                && (heap.Stands(Store(ApplyCells(a.cells, DirtyUpdates(roots)), None))
                    || (r.Err? && heap.Stands(Store(a.cells, Some(DirtyUpdates(roots))))))
                && if heap.disk.faults == old(heap.disk.faults) then r.Ok? else r == Err(StorageFault)
    {
      if !active {
        return Err(NotActive);
      }
      var updates := CollectUpdates();
      r := heap.Commit(id, updates);
      if r.Ok? {
        active := false;
      }
    }

    method Abort()
      modifies this`active
      ensures !active
    {
      active := false;
    }
  }
}
