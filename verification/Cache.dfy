/** The bounded payload cache: least recently used entries leave first. */
module Cache {
  import opened Bytes

  datatype Entry = Entry(name: Blob, version: nat, payload: Blob)

  // ------------------------------------------------------------------
  // The cache as a list, most recently used first
  // ------------------------------------------------------------------

  function Size(s: seq<Entry>): nat
    decreases |s|
  {
    if s == [] then 0 else |s[0].payload| + Size(s[1..])
  }

  function Find(s: seq<Entry>, name: Blob): (r: Option<Entry>)
    ensures r.Some? ==> r.value.name == name && r.value in s
    ensures r.None? ==> forall i | 0 <= i < |s| :: s[i].name != name
    decreases |s|
  {
    if s == [] then None else if s[0].name == name then Some(s[0]) else Find(s[1..], name)
  }

  function Without(s: seq<Entry>, name: Blob): (r: seq<Entry>)
    ensures |r| <= |s|
    decreases |s|
  {
    if s == [] then [] else if s[0].name == name then s[1..] else [s[0]] + Without(s[1..], name)
  }

  /** What is left when entries leave from the end until the rest fits. */
  function Evicted(s: seq<Entry>, room: int): (r: seq<Entry>)
    ensures r <= s
    decreases |s|
  {
    if s == [] || Size(s) <= room then s else Evicted(s[..|s| - 1], room)
  }

  /** A stale entry leaves when it is looked up. */
  function AfterGet(s: seq<Entry>, name: Blob, version: nat): seq<Entry> {
    match Find(s, name)
    case None => s
    case Some(e) => if e.version == version then [e] + Without(s, name) else Without(s, name)
  }

  function Hit(s: seq<Entry>, name: Blob, version: nat): Option<Blob> {
    match Find(s, name)
    case None => None
    case Some(e) => if e.version == version then Some(e.payload) else None
  }

  predicate Admits(limit: nat, e: Entry) {
    limit != 0 && |e.payload| <= limit
  }

  function AfterPut(s: seq<Entry>, limit: nat, e: Entry): seq<Entry> {
    if !Admits(limit, e) then s else [e] + Evicted(Without(s, e.name), limit - |e.payload|)
  }

  ghost predicate Distinct(s: seq<Entry>) {
    forall i, j | 0 <= i < j < |s| :: s[i].name != s[j].name
  }

  // ------------------------------------------------------------------
  // What a lookup and a removal do
  // ------------------------------------------------------------------

  /** The entries kept are the longest recency prefix that fits. */
  lemma {:induction false} EvictedLongest(s: seq<Entry>, room: nat)
    ensures Evicted(s, room) == s[..|Evicted(s, room)|] && Size(Evicted(s, room)) <= room
    ensures forall k | |Evicted(s, room)| < k <= |s| :: Size(s[..k]) > room
    decreases |s|
  {
    assert s[..|s|] == s;
    if s != [] && Size(s) > room {
      var t := s[..|s| - 1];
      EvictedLongest(t, room);
      assert forall k | 0 <= k <= |t| :: t[..k] == s[..k];
    }
  }

  lemma {:induction false} WithoutAt(s: seq<Entry>, i: nat)
    requires Distinct(s) && i < |s|
    ensures Find(s, s[i].name) == Some(s[i])
    ensures Without(s, s[i].name) == s[..i] + s[i + 1..]
    ensures Size(s) == Size(s[..i] + s[i + 1..]) + |s[i].payload|
    decreases |s|
  {
    if i == 0 {
      assert s[..0] + s[1..] == s[1..];
    } else {
      WithoutAt(s[1..], i - 1);
      assert s[..i] + s[i + 1..] == [s[0]] + (s[1..][..i - 1] + s[1..][i..]);
    }
  }

  lemma {:induction false} WithoutAbsent(s: seq<Entry>, name: Blob)
    requires forall i | 0 <= i < |s| :: s[i].name != name
    ensures Find(s, name) == None && Without(s, name) == s
    decreases |s|
  {
    if s != [] {
      WithoutAbsent(s[1..], name);
    }
  }

  lemma {:induction false} WithoutMember(s: seq<Entry>, name: Blob, e: Entry)
    requires Distinct(s)
    ensures e in Without(s, name) <==> e in s && e.name != name
    decreases |s|
  {
    if s != [] {
      assert s == [s[0]] + s[1..];
      if s[0].name != name {
        WithoutMember(s[1..], name, e);
      }
    }
  }

  lemma {:induction false} WithoutDistinct(s: seq<Entry>, name: Blob)
    requires Distinct(s)
    ensures Distinct(Without(s, name)) && Size(Without(s, name)) <= Size(s)
    decreases |s|
  {
    if s != [] && s[0].name != name {
      var rest := Without(s[1..], name);
      WithoutDistinct(s[1..], name);
      forall i | 0 <= i < |rest|
        ensures rest[i].name != s[0].name
      {
        WithoutMember(s[1..], name, rest[i]);
      }
    }
  }

  /** Removing a name leaves the other entries. */
  lemma {:induction false} WithoutKeeps(s: seq<Entry>, name: Blob)
    requires Distinct(s)
    ensures Distinct(Without(s, name)) && Size(Without(s, name)) <= Size(s)
    ensures forall e :: e in Without(s, name) <==> e in s && e.name != name
  {
    WithoutDistinct(s, name);
    forall e
      ensures e in Without(s, name) <==> e in s && e.name != name
    {
      WithoutMember(s, name, e);
    }
  }

  // ------------------------------------------------------------------
  // Runs
  // ------------------------------------------------------------------

  datatype Op = Get(name: Blob, version: nat) | Put(entry: Entry)

  function After(s: seq<Entry>, limit: nat, op: Op): seq<Entry> {
    match op
    case Get(name, version) => AfterGet(s, name, version)
    case Put(e) => AfterPut(s, limit, e)
  }

  /** The cache after a run, the last operation last. */
  function Run(limit: nat, ops: seq<Op>): seq<Entry>
    decreases |ops|
  {
    if ops == [] then [] else After(Run(limit, ops[..|ops| - 1]), limit, ops[|ops| - 1])
  }

  /** The last entry put under a name that the limit let in. */
  function LastPut(limit: nat, ops: seq<Op>, name: Blob): Option<Entry>
    decreases |ops|
  {
    if ops == [] then None else
    var last := ops[|ops| - 1];
    if last.Put? && last.entry.name == name && Admits(limit, last.entry) then Some(last.entry)
    else LastPut(limit, ops[..|ops| - 1], name)
  }

  lemma {:induction false} FindMember(s: seq<Entry>, name: Blob)
    requires Distinct(s)
    ensures Find(s, name).Some? ==> Size(Without(s, name)) + |Find(s, name).value.payload| == Size(s)
  {
    var found := Find(s, name);
    if found.Some? {
      var i :| 0 <= i < |s| && s[i] == found.value;
      WithoutAt(s, i);
    }
  }

  lemma {:induction false} GetKeeps(s: seq<Entry>, name: Blob, version: nat)
    requires Distinct(s)
    ensures Distinct(AfterGet(s, name, version)) && Size(AfterGet(s, name, version)) <= Size(s)
    ensures forall e | e in AfterGet(s, name, version) :: e in s
  {
    WithoutKeeps(s, name);
    FindMember(s, name);
    if Find(s, name).Some? {
      ConsDistinct(Find(s, name).value, Without(s, name));
    }
  }

  lemma {:induction false} ConsDistinct(e: Entry, s: seq<Entry>)
    requires Distinct(s) && forall x | x in s :: x.name != e.name
    ensures Distinct([e] + s) && Size([e] + s) == |e.payload| + Size(s)
  {
    assert ([e] + s)[1..] == s;
  }

  lemma {:induction false} PutKeeps(s: seq<Entry>, limit: nat, e: Entry)
    requires Distinct(s) && Size(s) <= limit
    ensures Distinct(AfterPut(s, limit, e)) && Size(AfterPut(s, limit, e)) <= limit
    ensures forall x | x in AfterPut(s, limit, e) :: (x == e && Admits(limit, e)) || (x in s && !(Admits(limit, e) && x.name == e.name))
  {
    if Admits(limit, e) {
      WithoutKeeps(s, e.name);
      var rest := Without(s, e.name);
      var kept := Evicted(rest, limit - |e.payload|);
      EvictedLongest(rest, limit - |e.payload|);
      assert forall x | x in kept :: x in rest;
      ConsDistinct(e, kept);
    }
  }

  /** Over any run the cached bytes stay within the limit, each name is held once, and what is
      held under a name is what was last put under it. */
  lemma {:induction false} RunHolds(limit: nat, ops: seq<Op>)
    ensures Distinct(Run(limit, ops)) && Size(Run(limit, ops)) <= limit
    ensures forall e | e in Run(limit, ops) :: LastPut(limit, ops, e.name) == Some(e)
    decreases |ops|
  {
    if ops != [] {
      var before, op := ops[..|ops| - 1], ops[|ops| - 1];
      RunHolds(limit, before);
      match op
      case Get(name, version) => GetKeeps(Run(limit, before), name, version);
      case Put(e) => PutKeeps(Run(limit, before), limit, e);
    }
  }

  /** A hit returns the payload that was last put under exactly that name and version. */
  lemma {:induction false} HitIsLastPut(limit: nat, ops: seq<Op>, name: Blob, version: nat)
    ensures var hit := Hit(Run(limit, ops), name, version);
            hit.Some? ==> LastPut(limit, ops, name) == Some(Entry(name, version, hit.value))
  {
    RunHolds(limit, ops);
  }

  // ------------------------------------------------------------------
  // The cache: a list of nodes and an index into it
  // ------------------------------------------------------------------

  type Nodes = map<nat, Entry>

  ghost predicate Backed(nodes: Nodes, lru: seq<nat>) {
    forall i | 0 <= i < |lru| :: lru[i] in nodes
  }

  ghost predicate NoRepeats(lru: seq<nat>) {
    forall i, j | 0 <= i < j < |lru| :: lru[i] != lru[j]
  }

  ghost predicate ListIndexed(nodes: Nodes, lru: seq<nat>, entries: map<Blob, nat>)
    requires Backed(nodes, lru)
  {
    forall i | 0 <= i < |lru| :: nodes[lru[i]].name in entries && entries[nodes[lru[i]].name] == lru[i]
  }

  ghost predicate IndexListed(nodes: Nodes, lru: seq<nat>, entries: map<Blob, nat>) {
    forall name | name in entries :: entries[name] in lru && entries[name] in nodes && nodes[entries[name]].name == name
  }

  /** List and index are in bijection: every node of the list is the one its name leads to,
      and every name leads to a node of the list. */
  ghost predicate Linked(nodes: Nodes, lru: seq<nat>, entries: map<Blob, nat>) {
    Backed(nodes, lru) && NoRepeats(lru) && ListIndexed(nodes, lru, entries) && IndexListed(nodes, lru, entries)
  }

  ghost function NodeAt(nodes: Nodes, id: nat): Entry {
    if id in nodes then nodes[id] else Entry([], 0, [])
  }

  ghost function Listed(nodes: Nodes, lru: seq<nat>): (s: seq<Entry>)
    ensures |s| == |lru| && forall i | 0 <= i < |lru| :: s[i] == NodeAt(nodes, lru[i])
  {
    seq(|lru|, i requires 0 <= i < |lru| => NodeAt(nodes, lru[i]))
  }

  lemma {:induction false} LinkedDistinct(nodes: Nodes, lru: seq<nat>, entries: map<Blob, nat>)
    requires Linked(nodes, lru, entries)
    ensures Distinct(Listed(nodes, lru))
  {
    forall i, j | 0 <= i < j < |lru|
      ensures nodes[lru[i]].name != nodes[lru[j]].name
    {
      assert entries[nodes[lru[i]].name] != entries[nodes[lru[j]].name];
    }
  }

  function Cut(lru: seq<nat>, i: nat): (r: seq<nat>)
    requires i < |lru|
  {
    lru[..i] + lru[i + 1..]
  }

  lemma {:induction false} CutHolds(lru: seq<nat>, i: nat, id: nat)
    requires i < |lru| && NoRepeats(lru)
    ensures NoRepeats(Cut(lru, i))
    ensures id in Cut(lru, i) <==> id in lru && id != lru[i]
  {
    var rest := Cut(lru, i);
    assert forall j | 0 <= j < |rest| :: rest[j] == if j < i then lru[j] else lru[j + 1];
    if id in lru && id != lru[i] {
      var j :| 0 <= j < |lru| && lru[j] == id;
      assert id == if j < i then rest[j] else rest[j - 1];
    }
  }

  lemma {:induction false} Unindexed(nodes: Nodes, lru: seq<nat>, entries: map<Blob, nat>, i: nat)
    requires Linked(nodes, lru, entries) && i < |lru|
    ensures IndexListed(nodes - {lru[i]}, Cut(lru, i), entries - {nodes[lru[i]].name})
  {
    forall name | name in entries && name != nodes[lru[i]].name
      ensures entries[name] in Cut(lru, i) && entries[name] != lru[i]
    {
      CutHolds(lru, i, entries[name]);
    }
  }

  lemma {:induction false} Unlisted(nodes: Nodes, lru: seq<nat>, i: nat)
    requires Backed(nodes, lru) && NoRepeats(lru) && i < |lru|
    ensures Backed(nodes - {lru[i]}, Cut(lru, i))
    ensures Listed(nodes - {lru[i]}, Cut(lru, i)) == Listed(nodes, lru)[..i] + Listed(nodes, lru)[i + 1..]
  {
    forall j | 0 <= j < |Cut(lru, i)|
      ensures Cut(lru, i)[j] in nodes && Cut(lru, i)[j] != lru[i]
    {
    }
  }

  lemma {:induction false} Unlinked(nodes: Nodes, lru: seq<nat>, entries: map<Blob, nat>, i: nat)
    requires Linked(nodes, lru, entries) && i < |lru|
    ensures Linked(nodes - {lru[i]}, Cut(lru, i), entries - {nodes[lru[i]].name})
  {
    Unlisted(nodes, lru, i);
    Unindexed(nodes, lru, entries, i);
    CutHolds(lru, i, lru[i]);
  }

  lemma {:induction false} ListedWithout(nodes: Nodes, lru: seq<nat>, entries: map<Blob, nat>, i: nat)
    requires Linked(nodes, lru, entries) && i < |lru|
    ensures Backed(nodes - {lru[i]}, Cut(lru, i))
    ensures Listed(nodes - {lru[i]}, Cut(lru, i)) == Without(Listed(nodes, lru), nodes[lru[i]].name)
    ensures Size(Listed(nodes, lru)) == Size(Listed(nodes - {lru[i]}, Cut(lru, i))) + |nodes[lru[i]].payload|
  {
    LinkedDistinct(nodes, lru, entries);
    Unlisted(nodes, lru, i);
    WithoutAt(Listed(nodes, lru), i);
  }

  lemma {:induction false} LinkedFront(nodes: Nodes, lru: seq<nat>, entries: map<Blob, nat>, id: nat, e: Entry)
    requires Linked(nodes, lru, entries) && id !in nodes && e.name !in entries
    ensures Linked(nodes[id := e], [id] + lru, entries[e.name := id])
  {
    assert id !in lru;
  }

  lemma {:induction false} ListedFront(nodes: Nodes, lru: seq<nat>, id: nat, e: Entry)
    requires Backed(nodes, lru) && id !in nodes
    ensures Backed(nodes[id := e], [id] + lru)
    ensures Listed(nodes[id := e], [id] + lru) == [e] + Listed(nodes, lru)
    ensures Size([e] + Listed(nodes, lru)) == |e.payload| + Size(Listed(nodes, lru))
  {
    assert ([e] + Listed(nodes, lru))[1..] == Listed(nodes, lru);
  }

  function ToFront(lru: seq<nat>, i: nat): (r: seq<nat>)
    requires i < |lru|
  {
    [lru[i]] + Cut(lru, i)
  }

  lemma {:induction false} SplicedLinks(nodes: Nodes, lru: seq<nat>, entries: map<Blob, nat>, i: nat)
    requires Linked(nodes, lru, entries) && i < |lru|
    ensures Linked(nodes, ToFront(lru, i), entries)
  {
    CutHolds(lru, i, lru[i]);
    forall name | name in entries
      ensures entries[name] in ToFront(lru, i)
    {
      CutHolds(lru, i, entries[name]);
    }
  }

  lemma {:induction false} ToFrontLists(nodes: Nodes, lru: seq<nat>, i: nat)
    requires i < |lru|
    ensures var s := Listed(nodes, lru); Listed(nodes, ToFront(lru, i)) == [s[i]] + (s[..i] + s[i + 1..])
  {
  }

  lemma {:induction false} SizeCons(e: Entry, s: seq<Entry>)
    ensures Size([e] + s) == |e.payload| + Size(s)
  {
    assert ([e] + s)[1..] == s;
  }

  lemma {:induction false} SplicedLists(nodes: Nodes, lru: seq<nat>, entries: map<Blob, nat>, i: nat)
    requires Linked(nodes, lru, entries) && i < |lru| && Backed(nodes, ToFront(lru, i))
    ensures Listed(nodes, ToFront(lru, i)) == [nodes[lru[i]]] + Without(Listed(nodes, lru), nodes[lru[i]].name)
    ensures Size(Listed(nodes, ToFront(lru, i))) == Size(Listed(nodes, lru))
  {
    LinkedDistinct(nodes, lru, entries);
    var s := Listed(nodes, lru);
    WithoutAt(s, i);
    ToFrontLists(nodes, lru, i);
    SizeCons(s[i], s[..i] + s[i + 1..]);
  }

  /** List and index agree, and the byte count is that of the payloads and within the limit. */
  ghost predicate Ordered(limit: nat, nodes: Nodes, lru: seq<nat>, entries: map<Blob, nat>, bytes: nat, made: nat) {
    forall k: nat {:trigger Opened(k)} :: Opened(k) ==>
      Linked(nodes, lru, entries) && (forall id | id in nodes :: id < made) && bytes == Size(Listed(nodes, lru)) <= limit
  }

  lemma {:induction false} ErasedOrder(limit: nat, nodes: Nodes, lru: seq<nat>, entries: map<Blob, nat>, bytes: nat, made: nat, i: nat)
    requires Ordered(limit, nodes, lru, entries, bytes, made) && i < |lru|
    ensures lru[i] in nodes && bytes >= |nodes[lru[i]].payload|
    ensures Ordered(limit, nodes - {lru[i]}, Cut(lru, i), entries - {nodes[lru[i]].name}, bytes - |nodes[lru[i]].payload|, made)
    ensures Listed(nodes - {lru[i]}, Cut(lru, i)) == Without(Listed(nodes, lru), nodes[lru[i]].name)
  {
    assert Opened(0);
    Unlinked(nodes, lru, entries, i);
    ListedWithout(nodes, lru, entries, i);
  }

  lemma {:induction false} PushedOrder(limit: nat, nodes: Nodes, lru: seq<nat>, entries: map<Blob, nat>, bytes: nat, made: nat, e: Entry)
    requires Ordered(limit, nodes, lru, entries, bytes, made) && e.name !in entries && bytes + |e.payload| <= limit
    ensures Ordered(limit, nodes[made := e], [made] + lru, entries[e.name := made], bytes + |e.payload|, made + 1)
    ensures Listed(nodes[made := e], [made] + lru) == [e] + Listed(nodes, lru)
  {
    assert Opened(0);
    assert made !in nodes;
    LinkedFront(nodes, lru, entries, made, e);
    ListedFront(nodes, lru, made, e);
  }

  lemma {:induction false} SplicedOrder(limit: nat, nodes: Nodes, lru: seq<nat>, entries: map<Blob, nat>, bytes: nat, made: nat, i: nat)
    requires Ordered(limit, nodes, lru, entries, bytes, made) && i < |lru|
    ensures Ordered(limit, nodes, ToFront(lru, i), entries, bytes, made)
    ensures Listed(nodes, ToFront(lru, i)) == [NodeAt(nodes, lru[i])] + Without(Listed(nodes, lru), NodeAt(nodes, lru[i]).name)
  {
    assert Opened(0);
    SplicedLinks(nodes, lru, entries, i);
    SplicedLists(nodes, lru, entries, i);
  }

  lemma {:induction false} LookedUp(limit: nat, nodes: Nodes, lru: seq<nat>, entries: map<Blob, nat>, bytes: nat, made: nat, name: Blob)
    requires Ordered(limit, nodes, lru, entries, bytes, made)
    ensures name in entries ==>
              entries[name] in nodes && entries[name] in lru && nodes[entries[name]].name == name
              && Find(Listed(nodes, lru), name) == Some(nodes[entries[name]])
    ensures name !in entries ==> Find(Listed(nodes, lru), name) == None && Without(Listed(nodes, lru), name) == Listed(nodes, lru)
  {
    assert Opened(0);
    LinkedDistinct(nodes, lru, entries);
    if name in entries {
      var i :| 0 <= i < |lru| && lru[i] == entries[name];
      WithoutAt(Listed(nodes, lru), i);
    } else {
      WithoutAbsent(Listed(nodes, lru), name);
    }
  }

  lemma {:induction false} LastOrder(limit: nat, nodes: Nodes, lru: seq<nat>, entries: map<Blob, nat>, bytes: nat, made: nat)
    requires Ordered(limit, nodes, lru, entries, bytes, made) && lru != []
    ensures lru[|lru| - 1] in nodes
    ensures Without(Listed(nodes, lru), nodes[lru[|lru| - 1]].name) == Listed(nodes, lru)[..|lru| - 1]
    ensures bytes == Size(Listed(nodes, lru))
  {
    assert Opened(0);
    LinkedDistinct(nodes, lru, entries);
    var s := Listed(nodes, lru);
    WithoutAt(s, |s| - 1);
    assert s[..|s| - 1] + s[|s|..] == s[..|s| - 1];
  }

  lemma {:induction false} BytesAre(limit: nat, nodes: Nodes, lru: seq<nat>, entries: map<Blob, nat>, bytes: nat, made: nat)
    requires Ordered(limit, nodes, lru, entries, bytes, made)
    ensures bytes == Size(Listed(nodes, lru)) <= limit
  {
    assert Opened(0);
  }

  class PayloadCache {
    const limit: nat
    var nodes: Nodes
    var lru: seq<nat>
    var entries: map<Blob, nat>
    var bytes: nat
    var made: nat
    var hits: nat
    var misses: nat
    var evictions: nat

    ghost predicate Valid()
      reads this
    {
      Ordered(limit, nodes, lru, entries, bytes, made)
    }

    /** The entries, most recently used first. */
    ghost function Contents(): seq<Entry>
      reads this
    {
      Listed(nodes, lru)
    }

    constructor (limit: nat)
      ensures Valid() && Contents() == [] && this.limit == limit && hits == misses == evictions == 0
    {
      this.limit := limit;
      nodes, lru, entries, bytes, made := map[], [], map[], 0, 0;
      hits, misses, evictions := 0, 0, 0;
    }

    method Erase(id: nat)
      requires Valid() && id in lru && id in nodes
      modifies this`nodes, this`lru, this`entries, this`bytes
      ensures Valid() && Contents() == Without(old(Contents()), old(nodes)[id].name)
      ensures entries == old(entries) - {old(nodes)[id].name} && |lru| < |old(lru)|
    {
      var i :| 0 <= i < |lru| && lru[i] == id;
      ErasedOrder(limit, nodes, lru, entries, bytes, made, i);
      bytes := bytes - |nodes[id].payload|;
      entries := entries - {nodes[id].name};
      lru := Cut(lru, i);
      nodes := nodes - {id};
    }

    /** Puts a new entry in front. */
    method PushFront(e: Entry)
      requires Valid() && bytes + |e.payload| <= limit && e.name !in entries
      modifies this`nodes, this`lru, this`entries, this`bytes, this`made
      ensures Valid() && Contents() == [e] + old(Contents())
    {
      PushedOrder(limit, nodes, lru, entries, bytes, made, e);
      nodes := nodes[made := e];
      entries := entries[e.name := made];
      lru := [made] + lru;
      bytes := bytes + |e.payload|;
      made := made + 1;
    }

    /** Moves a node to the front of the list. */
    method Splice(id: nat)
      requires Valid() && id in lru && id in nodes
      modifies this`lru
      ensures Valid() && Contents() == [nodes[id]] + Without(old(Contents()), nodes[id].name)
    {
      var i :| 0 <= i < |lru| && lru[i] == id;
      SplicedOrder(limit, nodes, lru, entries, bytes, made, i);
      lru := ToFront(lru, i);
    }

    /** Looks a payload up. A hit becomes the most recent entry; a stale entry leaves. */
    method Get(name: Blob, version: nat) returns (r: Option<Blob>)
      requires Valid()
      modifies this
      ensures Valid() && r == Hit(old(Contents()), name, version)
      ensures Contents() == AfterGet(old(Contents()), name, version)
      ensures hits + misses == old(hits + misses) + 1 && (hits == old(hits) <==> r.None?) && evictions == old(evictions)
    {
      LookedUp(limit, nodes, lru, entries, bytes, made, name);
      if name !in entries || nodes[entries[name]].version != version {
        misses := misses + 1;
        if name in entries {
          Erase(entries[name]);
        }
        return None;
      }
      hits := hits + 1;
      var id := entries[name];
      Splice(id);
      r := Some(nodes[id].payload);
    }

    /** Drops the least recently used entry. */
    method EvictLast()
      requires Valid() && lru != []
      modifies this
      ensures Valid() && Contents() == old(Contents())[..|old(Contents())| - 1]
      ensures entries.Keys <= old(entries).Keys && hits == old(hits) && misses == old(misses)
      ensures evictions == old(evictions) + 1
    {
      LastOrder(limit, nodes, lru, entries, bytes, made);
      Erase(lru[|lru| - 1]);
      evictions := evictions + 1;
    }

    /** Drops entries from the end until `size` more bytes fit. */
    method Evict(size: nat)
      requires Valid() && size <= limit
      modifies this
      ensures Valid() && Contents() == Evicted(old(Contents()), limit - size) && bytes + size <= limit
      ensures entries.Keys <= old(entries).Keys && hits == old(hits) && misses == old(misses)
      ensures evictions == old(evictions) + |old(Contents())| - |Contents()|
    {
      BytesAre(limit, nodes, lru, entries, bytes, made);
      while lru != [] && bytes + size > limit
        invariant Valid() && bytes == Size(Contents())
        invariant Evicted(Contents(), limit - size) == Evicted(old(Contents()), limit - size)
        invariant entries.Keys <= old(entries).Keys && hits == old(hits) && misses == old(misses)
        invariant evictions == old(evictions) + |old(Contents())| - |Contents()|
        decreases |lru|
      {
        EvictLast();
        BytesAre(limit, nodes, lru, entries, bytes, made);
      }
    }

    /** Drops the entry of a name, if there is one. */
    method Forget(name: Blob)
      requires Valid()
      modifies this
      ensures Valid() && Contents() == Without(old(Contents()), name) && name !in entries
      ensures hits == old(hits) && misses == old(misses) && evictions == old(evictions)
    {
      LookedUp(limit, nodes, lru, entries, bytes, made, name);
      if name in entries {
        Erase(entries[name]);
      }
    }

    /** Makes room for an entry of a new name and puts it in front. */
    method Insert(e: Entry)
      requires Valid() && e.name !in entries && |e.payload| <= limit
      modifies this
      ensures Valid() && Contents() == [e] + Evicted(old(Contents()), limit - |e.payload|)
      ensures hits == old(hits) && misses == old(misses)
    {
      Evict(|e.payload|);
      PushFront(e);
    }

    /** Keeps a payload, unless it is larger than the whole cache; the oldest entries make room. */
    method Put(name: Blob, version: nat, payload: Blob) returns (shared: Blob)
      requires Valid()
      modifies this
      ensures Valid() && shared == payload
      ensures Contents() == AfterPut(old(Contents()), limit, Entry(name, version, payload))
      ensures hits == old(hits) && misses == old(misses)
    {
      shared := payload;
      if limit != 0 && |payload| <= limit {
        Forget(name);
        Insert(Entry(name, version, payload));
      }
    }

    method Clear()
      requires Valid()
      modifies this
      ensures Valid() && Contents() == []
    {
      entries, lru, nodes, bytes := map[], [], map[], 0;
    }
  }
}
