/** Observed value trees: every value, string, array and object carries a binding, and changes
are reported to the binding of the node that changed. */
module Observables {
  import opened Bytes
  import opened Values

  /** The transaction's token for a root, or none. */
  datatype Binding = Unbound | Bound(token: nat)

  datatype Tree = Tree(binding: Binding, data: Data)

  datatype Data =
    | Nothing
    | Flag(b: bool)
    | Whole(i: int)
    | Real(bits: nat)
    | Text(binding: Binding, s: Blob)
    | Array(binding: Binding, items: Trees)
    | Object(binding: Binding, fields: Entries)

  datatype Trees = NoTrees | Trees(first: Tree, rest: Trees)

  datatype Entries = NoEntries | Entries(key: Blob, value: Tree, rest: Entries)

  // ------------------------------------------------------------------
  // The value of a tree
  // ------------------------------------------------------------------

  function Plain(t: Tree): Value {
    match t.data
    case Nothing => Null
    case Flag(b) => Bool(b)
    case Whole(i) => Int(i)
    case Real(bits) => Num(bits)
    case Text(_, s) => Str(s)
    case Array(_, items) => Arr(PlainItems(items))
    case Object(_, fields) => Obj(PlainFields(fields))
  }

  function PlainItems(items: Trees): Items {
    match items
    case NoTrees => Nil
    case Trees(first, rest) => Item(Plain(first), PlainItems(rest))
  }

  function PlainFields(fields: Entries): Fields {
    match fields
    case NoEntries => Bare
    case Entries(key, value, rest) => Field(key, Plain(value), PlainFields(rest))
  }

  // ------------------------------------------------------------------
  // Bindings
  // ------------------------------------------------------------------

  predicate AllBound(t: Tree, b: Binding) {
    && t.binding == b
    && match t.data
       case Text(sb, _) => sb == b
       case Array(ab, items) => ab == b && ItemsBound(items, b)
       case Object(ob, fields) => ob == b && FieldsBound(fields, b)
       case _ => true
  }

  predicate ItemsBound(items: Trees, b: Binding) {
    match items
    case NoTrees => true
    case Trees(first, rest) => AllBound(first, b) && ItemsBound(rest, b)
  }

  predicate FieldsBound(fields: Entries, b: Binding) {
    match fields
    case NoEntries => true
    case Entries(_, value, rest) => AllBound(value, b) && FieldsBound(rest, b)
  }

  /** Binds a value and everything below it. */
  function Bind(t: Tree, b: Binding): (r: Tree)
    ensures AllBound(r, b) && Plain(r) == Plain(t)
  {
    match t.data
    case Text(_, s) => Tree(b, Text(b, s))
    case Array(_, items) => Tree(b, Array(b, BindItems(items, b)))
    case Object(_, fields) => Tree(b, Object(b, BindFields(fields, b)))
    case _ => Tree(b, t.data)
  }

  function BindItems(items: Trees, b: Binding): (r: Trees)
    ensures ItemsBound(r, b) && PlainItems(r) == PlainItems(items)
  {
    match items
    case NoTrees => NoTrees
    case Trees(first, rest) => Trees(Bind(first, b), BindItems(rest, b))
  }

  function BindFields(fields: Entries, b: Binding): (r: Entries)
    ensures FieldsBound(r, b) && PlainFields(r) == PlainFields(fields)
  {
    match fields
    case NoEntries => NoEntries
    case Entries(key, value, rest) => Entries(key, Bind(value, b), BindFields(rest, b))
  }

  /** A value that was moved: a string does not take its binding along. */
  function Moved(t: Tree): (r: Tree)
    ensures Plain(r) == Plain(t)
  {
    if t.data.Text? then Tree(t.binding, Text(Unbound, t.data.s)) else t
  }

  function MovedItems(items: Trees): (r: Trees)
    ensures PlainItems(r) == PlainItems(items)
  {
    match items
    case NoTrees => NoTrees
    case Trees(first, rest) => Trees(Moved(first), MovedItems(rest))
  }

  // ------------------------------------------------------------------
  // Containers
  // ------------------------------------------------------------------

  function Append(items: Trees, t: Tree): Trees {
    match items
    case NoTrees => Trees(t, NoTrees)
    case Trees(first, rest) => Trees(first, Append(rest, t))
  }

  function Size(items: Trees): nat {
    match items
    case NoTrees => 0
    case Trees(_, rest) => 1 + Size(rest)
  }

  /** The element is overwritten by its successor, and so on; the last one goes. */
  function Shift(items: Trees, i: nat): Trees {
    match items
    case NoTrees => NoTrees
    case Trees(first, rest) =>
      if i > 0 then Trees(first, Shift(rest, i - 1))
      else match rest
        case NoTrees => NoTrees
        case Trees(next, _) => Trees(Bind(Tree(first.binding, next.data), first.binding), Shift(rest, 0))
  }

  /** The bindings that shifting notifies: those of the overwritten elements. */
  function ShiftNotes(items: Trees, i: nat): set<Binding> {
    match items
    case NoTrees => {}
    case Trees(first, rest) =>
      if i > 0 then ShiftNotes(rest, i - 1)
      else if rest.NoTrees? then {} else {first.binding} + ShiftNotes(rest, 0)
  }

  function Has(fields: Entries, key: Blob): bool {
    match fields
    case NoEntries => false
    case Entries(k, _, rest) => k == key || Has(rest, key)
  }

  /** Inserts a new key in order. */
  function Insert(fields: Entries, key: Blob, t: Tree): Entries {
    match fields
    case NoEntries => Entries(key, t, NoEntries)
    case Entries(k, v, rest) => if Less(key, k) then Entries(key, t, fields) else Entries(k, v, Insert(rest, key, t))
  }

  function Remove(fields: Entries, key: Blob): Entries {
    match fields
    case NoEntries => NoEntries
    case Entries(k, v, rest) => if k == key then rest else Entries(k, v, Remove(rest, key))
  }

  // ------------------------------------------------------------------
  // Mutators
  // ------------------------------------------------------------------

  /** What can be done to a value, or to the string, array or object it holds. `reallocates` says
      whether the array's storage moves. */
  datatype Op =
    | Assign(source: Tree)
    | AsString
    | AsArray
    | AsObject
    | StringAssign(s: Blob)
    | StringAppend(s: Blob)
    | StringClear
    | StringErase(pos: nat, count: nat)
    | PushBack(t: Tree, reallocates: bool)
    | EraseAt(i: nat)
    | ClearArray
    | Reserve(reallocates: bool)
    | Subscript(key: Blob)
    | TryEmplace(key: Blob, t: Tree)
    | EraseKey(key: Blob)
    | ClearObject

  /** Which kind of node an operation works on. */
  predicate Fits(op: Op, data: Data) {
    match op
    case Assign(_) => true
    case AsString => true
    case AsArray => true
    case AsObject => true
    case StringAssign(_) => data.Text?
    case StringAppend(_) => data.Text?
    case StringClear => data.Text?
    case StringErase(_, _) => data.Text?
    case PushBack(_, _) => data.Array?
    case EraseAt(i) => data.Array? && i < Size(data.items)
    case ClearArray => data.Array?
    case Reserve(_) => data.Array?
    case Subscript(_) => data.Object?
    case TryEmplace(_, _) => data.Object?
    case EraseKey(_) => data.Object?
    case ClearObject => data.Object?
  }

  /** The node afterwards, and the bindings that were notified. */
  datatype Effect = Effect(tree: Tree, notes: set<Binding>)

  /** New data in a value: it is bound as the value is, and the value notifies. */
  function Replace(t: Tree, data: Data): Effect {
    Effect(Bind(Tree(t.binding, data), t.binding), {t.binding})
  }

  /** What erasing part of a string leaves: nothing changes if it starts beyond the end; otherwise up
      to `count` bytes from `pos` on are gone, and the bytes around them stay in order. */
  function Erased(s: Blob, pos: nat, count: nat): (r: Blob)
    ensures |r| == if pos > |s| then |s| else if count <= |s| - pos then |s| - count else pos
    ensures forall i | 0 <= i < |r| :: r[i] == if pos > |s| || i < pos then s[i] else s[i + count]
  {
    if pos > |s| then s else s[..pos] + (if pos + count < |s| then s[pos + count..] else [])
  }

  function TextOp(t: Tree, op: Op): Effect
    requires t.data.Text? && Fits(op, t.data)
  {
    var Text(b, s) := t.data;
    match op
    case StringAssign(s') => Effect(Tree(t.binding, Text(b, s')), if s' != s then {b} else {})
    case StringAppend(more) => Effect(Tree(t.binding, Text(b, s + more)), {b})
    case StringClear => Effect(Tree(t.binding, Text(b, [])), if s != [] then {b} else {})
    case StringErase(pos, count) => Effect(Tree(t.binding, Text(b, Erased(s, pos, count))), if pos <= |s| then {b} else {})
    case _ => Effect(t, {})
  }

  function ArrayOp(t: Tree, op: Op): Effect
    requires t.data.Array? && Fits(op, t.data)
  {
    var Array(b, items) := t.data;
    match op
    case PushBack(one, reallocates) =>
      var grown := if reallocates then BindItems(Append(MovedItems(items), one), b) else Append(items, Bind(one, b));
      Effect(Tree(t.binding, Array(b, grown)), {b})
    case EraseAt(i) => Effect(Tree(t.binding, Array(b, BindItems(Shift(items, i), b))), ShiftNotes(items, i) + {b})
    case ClearArray => Effect(Tree(t.binding, Array(b, NoTrees)), if items.Trees? then {b} else {})
    case Reserve(reallocates) =>
      if reallocates then Effect(Tree(t.binding, Array(b, BindItems(MovedItems(items), b))), {b}) else Effect(t, {})
    case _ => Effect(t, {})
  }

  function ObjectOp(t: Tree, op: Op): Effect
    requires t.data.Object? && Fits(op, t.data)
  {
    var Object(b, fields) := t.data;
    match op
    case Subscript(key) =>
      if Has(fields, key) then Effect(t, {})
      else Effect(Tree(t.binding, Object(b, Insert(fields, key, Tree(b, Nothing)))), {b})
    case TryEmplace(key, one) =>
      if Has(fields, key) then Effect(t, {})
      else Effect(Tree(t.binding, Object(b, Insert(fields, key, Bind(one, b)))), {b})
    case EraseKey(key) => Effect(Tree(t.binding, Object(b, Remove(fields, key))), if Has(fields, key) then {b} else {})
    case ClearObject => Effect(Tree(t.binding, Object(b, NoEntries)), if fields.Entries? then {b} else {})
    case _ => Effect(t, {})
  }

  function Apply(t: Tree, op: Op): Effect
    requires Fits(op, t.data)
  {
    match op
    case Assign(source) => Replace(t, source.data)
    case AsString => if t.data.Text? then Effect(t, {}) else Replace(t, Text(Unbound, []))
    case AsArray => if t.data.Array? then Effect(t, {}) else Replace(t, Array(Unbound, NoTrees))
    case AsObject => if t.data.Object? then Effect(t, {}) else Replace(t, Object(Unbound, NoEntries))
    case _ => if t.data.Text? then TextOp(t, op) else if t.data.Array? then ArrayOp(t, op) else ObjectOp(t, op)
  }

  // ------------------------------------------------------------------
  // Nodes below a root
  // ------------------------------------------------------------------

  /** The way from a root to a node. */
  datatype Path = Here | Into(i: nat, rest: Path) | Under(key: Blob, rest: Path)

  /** The path leads to a node on which the operation works. */
  predicate Reaches(t: Tree, p: Path, op: Op)
    decreases p, 0
  {
    match p
    case Here => Fits(op, t.data)
    case Into(i, rest) => t.data.Array? && ItemReaches(t.data.items, i, rest, op)
    case Under(key, rest) => t.data.Object? && FieldReaches(t.data.fields, key, rest, op)
  }

  predicate ItemReaches(items: Trees, i: nat, p: Path, op: Op)
    decreases p, 1, items
  {
    items.Trees? && if i == 0 then Reaches(items.first, p, op) else ItemReaches(items.rest, i - 1, p, op)
  }

  predicate FieldReaches(fields: Entries, key: Blob, p: Path, op: Op)
    decreases p, 1, fields
  {
    fields.Entries? && if fields.key == key then Reaches(fields.value, p, op) else FieldReaches(fields.rest, key, p, op)
  }

  function ApplyAt(t: Tree, p: Path, op: Op): Effect
    requires Reaches(t, p, op)
    decreases p, 0
  {
    match p
    case Here => Apply(t, op)
    case Into(i, rest) =>
      var (items, notes) := ApplyItem(t.data.items, i, rest, op);
      Effect(Tree(t.binding, Array(t.data.binding, items)), notes)
    case Under(key, rest) =>
      var (fields, notes) := ApplyField(t.data.fields, key, rest, op);
      Effect(Tree(t.binding, Object(t.data.binding, fields)), notes)
  }

  function ApplyItem(items: Trees, i: nat, p: Path, op: Op): (Trees, set<Binding>)
    requires ItemReaches(items, i, p, op)
    decreases p, 1, items
  {
    if i == 0 then var e := ApplyAt(items.first, p, op); (Trees(e.tree, items.rest), e.notes)
    else var (rest, notes) := ApplyItem(items.rest, i - 1, p, op); (Trees(items.first, rest), notes)
  }

  function ApplyField(fields: Entries, key: Blob, p: Path, op: Op): (Entries, set<Binding>)
    requires FieldReaches(fields, key, p, op)
    decreases p, 1, fields
  {
    if fields.key == key then var e := ApplyAt(fields.value, p, op); (Entries(key, e.tree, fields.rest), e.notes)
    else var (rest, notes) := ApplyField(fields.rest, key, p, op); (Entries(fields.key, fields.value, rest), notes)
  }

  // ------------------------------------------------------------------
  // What one mutator keeps
  // ------------------------------------------------------------------

  lemma {:induction false} AppendBound(items: Trees, t: Tree, b: Binding)
    requires ItemsBound(items, b) && AllBound(t, b)
    ensures ItemsBound(Append(items, t), b)
  {
    if items.Trees? {
      AppendBound(items.rest, t, b);
    }
  }

  lemma {:induction false} InsertBound(fields: Entries, key: Blob, t: Tree, b: Binding)
    requires FieldsBound(fields, b) && AllBound(t, b)
    ensures FieldsBound(Insert(fields, key, t), b)
  {
    if fields.Entries? {
      InsertBound(fields.rest, key, t, b);
    }
  }

  lemma {:induction false} RemoveBound(fields: Entries, key: Blob, b: Binding)
    requires FieldsBound(fields, b)
    ensures FieldsBound(Remove(fields, key), b)
    ensures !Has(fields, key) ==> Remove(fields, key) == fields
  {
    if fields.Entries? {
      RemoveBound(fields.rest, key, b);
    }
  }

  /** A node keeps its bindings, and either its value is unchanged or its token was notified. */
  ghost predicate Watched(t: Tree, e: Effect, b: Binding) {
    AllBound(e.tree, b) && (Plain(e.tree) == Plain(t) || b in e.notes)
  }

  lemma {:induction false} ArrayWatched(t: Tree, op: Op, b: Binding)
    requires AllBound(t, b) && t.data.Array? && Fits(op, t.data)
    ensures Watched(t, ArrayOp(t, op), b)
  {
    if op.PushBack? {
      AppendBound(t.data.items, Bind(op.t, b), b);
    }
  }

  lemma {:induction false} ObjectWatched(t: Tree, op: Op, b: Binding)
    requires AllBound(t, b) && t.data.Object? && Fits(op, t.data)
    ensures Watched(t, ObjectOp(t, op), b)
  {
    match op
    case Subscript(key) => InsertBound(t.data.fields, key, Tree(b, Nothing), b);
    case TryEmplace(key, one) => InsertBound(t.data.fields, key, Bind(one, b), b);
    case EraseKey(key) => RemoveBound(t.data.fields, key, b);
    case _ =>
  }

  lemma {:induction false} ApplyWatched(t: Tree, op: Op, b: Binding)
    requires AllBound(t, b) && Fits(op, t.data)
    ensures Watched(t, Apply(t, op), b)
  {
    if t.data.Array? {
      ArrayWatched(t, op, b);
    } else if t.data.Object? {
      ObjectWatched(t, op, b);
    }
  }

  /** A mutator on any node of a bound tree leaves the tree bound, and notifies the tree's token
      whenever it changes the tree's value. */
  lemma {:induction false} ApplyAtWatched(t: Tree, p: Path, op: Op, b: Binding)
    requires AllBound(t, b) && Reaches(t, p, op)
    ensures Watched(t, ApplyAt(t, p, op), b)
    decreases p, 0
  {
    match p
    case Here => ApplyWatched(t, op, b);
    case Into(i, rest) => ItemWatched(t.data.items, i, rest, op, b);
    case Under(key, rest) => FieldWatched(t.data.fields, key, rest, op, b);
  }

  lemma {:induction false} ItemWatched(items: Trees, i: nat, p: Path, op: Op, b: Binding)
    requires ItemsBound(items, b) && ItemReaches(items, i, p, op)
    ensures var (items', notes) := ApplyItem(items, i, p, op);
            ItemsBound(items', b) && (PlainItems(items') == PlainItems(items) || b in notes)
    decreases p, 1, items
  {
    if i == 0 {
      ApplyAtWatched(items.first, p, op, b);
    } else {
      ItemWatched(items.rest, i - 1, p, op, b);
    }
  }

  lemma {:induction false} FieldWatched(fields: Entries, key: Blob, p: Path, op: Op, b: Binding)
    requires FieldsBound(fields, b) && FieldReaches(fields, key, p, op)
    ensures var (fields', notes) := ApplyField(fields, key, p, op);
            FieldsBound(fields', b) && (PlainFields(fields') == PlainFields(fields) || b in notes)
    decreases p, 1, fields
  {
    if fields.key == key {
      ApplyAtWatched(fields.value, p, op, b);
    } else {
      FieldWatched(fields.rest, key, p, op, b);
    }
  }

  // ------------------------------------------------------------------
  // What the mutators do to the value
  // ------------------------------------------------------------------

  function DropItem(items: Items, i: nat): Items {
    match items
    case Nil => Nil
    case Item(first, rest) => if i == 0 then rest else Item(first, DropItem(rest, i - 1))
  }

  function DropField(fields: Fields, key: Blob): Fields {
    match fields
    case Bare => Bare
    case Field(k, v, rest) => if k == key then rest else Field(k, v, DropField(rest, key))
  }

  /** The operations on plain values, without bindings or storage. */
  function PlainApply(v: Value, op: Op): Value {
    match op
    case Assign(source) => Plain(source)
    case AsString => if v.Str? then v else Str([])
    case AsArray => if v.Arr? then v else Arr(Nil)
    case AsObject => if v.Obj? then v else Obj(Bare)
    case StringAssign(s) => Str(s)
    case StringAppend(s) => if v.Str? then Str(v.s + s) else v
    case StringClear => Str([])
    case StringErase(pos, count) => if v.Str? then Str(Erased(v.s, pos, count)) else v
    case PushBack(t, _) => if v.Arr? then Arr(Join(v.items, Item(Plain(t), Nil))) else v
    case EraseAt(i) => if v.Arr? then Arr(DropItem(v.items, i)) else v
    case ClearArray => Arr(Nil)
    case Reserve(_) => v
    case Subscript(key) => if v.Obj? && !HasField(v.fields, key) then Obj(PutField(v.fields, key, Null)) else v
    case TryEmplace(key, t) => if v.Obj? && !HasField(v.fields, key) then Obj(PutField(v.fields, key, Plain(t))) else v
    case EraseKey(key) => if v.Obj? then Obj(DropField(v.fields, key)) else v
    case ClearObject => Obj(Bare)
  }

  lemma {:induction false} AppendPlain(items: Trees, t: Tree)
    ensures PlainItems(Append(items, t)) == Join(PlainItems(items), Item(Plain(t), Nil))
  {
    if items.Trees? {
      AppendPlain(items.rest, t);
    }
  }

  lemma {:induction false} ShiftPlain(items: Trees, i: nat)
    requires i < Size(items)
    ensures PlainItems(Shift(items, i)) == DropItem(PlainItems(items), i)
    decreases items
  {
    if i > 0 {
      ShiftPlain(items.rest, i - 1);
    } else if items.rest.Trees? {
      ShiftPlain(items.rest, 0);
    }
  }

  lemma {:induction false} InsertPlain(fields: Entries, key: Blob, t: Tree)
    requires !Has(fields, key)
    ensures PlainFields(Insert(fields, key, t)) == PutField(PlainFields(fields), key, Plain(t))
  {
    if fields.Entries? {
      InsertPlain(fields.rest, key, t);
    }
  }

  lemma {:induction false} RemovePlain(fields: Entries, key: Blob)
    ensures PlainFields(Remove(fields, key)) == DropField(PlainFields(fields), key)
    ensures Has(fields, key) == HasField(PlainFields(fields), key)
  {
    if fields.Entries? {
      RemovePlain(fields.rest, key);
    }
  }

  /** Bindings, reallocation and shifting do not show: each mutator does to the value what it does
      to a plain one. */
  lemma {:induction false} ApplyPlain(t: Tree, op: Op)
    requires Fits(op, t.data)
    ensures Plain(Apply(t, op).tree) == PlainApply(Plain(t), op)
  {
    match op
    case PushBack(one, reallocates) =>
      AppendPlain(if reallocates then MovedItems(t.data.items) else t.data.items, if reallocates then one else Bind(one, t.data.binding));
    case EraseAt(i) => ShiftPlain(t.data.items, i);
    case Subscript(key) =>
      RemovePlain(t.data.fields, key);
      if !Has(t.data.fields, key) {
        InsertPlain(t.data.fields, key, Tree(t.data.binding, Nothing));
      }
    case TryEmplace(key, one) =>
      RemovePlain(t.data.fields, key);
      if !Has(t.data.fields, key) {
        InsertPlain(t.data.fields, key, Bind(one, t.data.binding));
      }
    case EraseKey(key) => RemovePlain(t.data.fields, key);
    case _ =>
  }

  // ------------------------------------------------------------------
  // When a mutator notifies
  // ------------------------------------------------------------------

  /** The mutators that do not look whether they change anything. */
  predicate Unchecked(op: Op) {
    op.Assign? || op.StringAppend? || op.StringErase? || op.Reserve?
  }

  lemma {:induction false} DropShorter(items: Items, i: nat)
    requires i < Length(items)
    ensures Length(DropItem(items, i)) == Length(items) - 1
    decreases items
  {
    if i > 0 {
      DropShorter(items.rest, i - 1);
    }
  }

  lemma {:induction false} JoinLonger(items: Items, v: Value)
    ensures Length(Join(items, Item(v, Nil))) == Length(items) + 1
  {
    if items.Item? {
      JoinLonger(items.rest, v);
    }
  }

  lemma {:induction false} DropFewer(fields: Fields, key: Blob)
    ensures HasField(fields, key) ==> FieldCount(DropField(fields, key)) == FieldCount(fields) - 1
    ensures !HasField(fields, key) ==> DropField(fields, key) == fields
  {
    if fields.Field? {
      DropFewer(fields.rest, key);
    }
  }

  lemma {:induction false} PutMore(fields: Fields, key: Blob, v: Value)
    requires !HasField(fields, key)
    ensures FieldCount(PutField(fields, key, v)) == FieldCount(fields) + 1
  {
    if fields.Field? {
      PutMore(fields.rest, key, v);
    }
  }

  lemma {:induction false} SizeIsLength(items: Trees)
    ensures Size(items) == Length(PlainItems(items))
  {
    if items.Trees? {
      SizeIsLength(items.rest);
    }
  }

  lemma {:induction false} ShiftNotesBound(items: Trees, i: nat, b: Binding)
    requires ItemsBound(items, b)
    ensures ShiftNotes(items, i) <= {b}
    decreases items
  {
    if items.Trees? {
      ShiftNotesBound(items.rest, if i > 0 then i - 1 else 0, b);
    }
  }

  /** Whether a mutator changes the value. */
  lemma {:induction false} ChangesIf(t: Tree, op: Op)
    requires Fits(op, t.data) && !Unchecked(op)
    ensures Plain(Apply(t, op).tree) != Plain(t) <==> Apply(t, op).notes != {}
  {
    ApplyPlain(t, op);
    match op
    case PushBack(one, _) => JoinLonger(PlainItems(t.data.items), Plain(one));
    case EraseAt(i) =>
      SizeIsLength(t.data.items);
      DropShorter(PlainItems(t.data.items), i);
    case Subscript(key) =>
      RemovePlain(t.data.fields, key);
      if !Has(t.data.fields, key) {
        PutMore(PlainFields(t.data.fields), key, Null);
      }
    case TryEmplace(key, one) =>
      RemovePlain(t.data.fields, key);
      if !Has(t.data.fields, key) {
        PutMore(PlainFields(t.data.fields), key, Plain(one));
      }
    case EraseKey(key) =>
      RemovePlain(t.data.fields, key);
      DropFewer(PlainFields(t.data.fields), key);
    case _ =>
  }

  /** A mutator on a bound node notifies the node's token, and no other, if and only if it changes the
      value. Four do not look: assignment and appending always notify, erasing part of a string if it
      starts within it, reserving if the storage moves. */
  lemma {:induction false} NotifiesIff(t: Tree, op: Op, b: Binding)
    requires AllBound(t, b) && Fits(op, t.data)
    ensures Apply(t, op).notes <= {b}
    ensures !Unchecked(op) ==> (b in Apply(t, op).notes <==> Plain(Apply(t, op).tree) != Plain(t))
    ensures op.Assign? || op.StringAppend? ==> b in Apply(t, op).notes
    ensures op.StringErase? ==> (b in Apply(t, op).notes <==> op.pos <= |t.data.s|)
    ensures op.Reserve? ==> (b in Apply(t, op).notes <==> op.reallocates)
  {
    if op.EraseAt? {
      ShiftNotesBound(t.data.items, op.i, b);
    }
    if !Unchecked(op) {
      ChangesIf(t, op);
    }
  }
}
