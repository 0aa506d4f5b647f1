/** Mutators keep a tree one that can be stored: integers and lengths of 64 bits, keys in order. */
module Mutations {
  import opened Bytes
  import opened Values
  import opened Observables
  import opened ValueCodec

  // ------------------------------------------------------------------
  // Machine values
  // ------------------------------------------------------------------

  /** The arguments are values of the machine's types, and the result is no longer than it allows. */
  predicate Bounded(op: Op, v: Value) {
    match op
    case Assign(source) => Storable(Plain(source))
    case StringAssign(s) => |s| < TWO64
    case StringAppend(s) => v.Str? ==> |v.s| + |s| < TWO64
    case PushBack(t, _) => Storable(Plain(t)) && (v.Arr? ==> Length(v.items) + 1 < TWO64)
    case Subscript(key) => |key| < TWO64 && (v.Obj? ==> FieldCount(v.fields) + 1 < TWO64)
    case TryEmplace(key, t) => |key| < TWO64 && Storable(Plain(t)) && (v.Obj? ==> FieldCount(v.fields) + 1 < TWO64)
    case _ => true
  }

  lemma {:induction false} JoinStorable(a: Items, b: Items)
    requires ItemsStorable(a) && ItemsStorable(b)
    ensures ItemsStorable(Join(a, b)) && Length(Join(a, b)) == Length(a) + Length(b)
  {
    if a.Item? {
      JoinStorable(a.rest, b);
    }
  }

  lemma {:induction false} DropItemStorable(items: Items, i: nat)
    requires ItemsStorable(items)
    ensures ItemsStorable(DropItem(items, i)) && Length(DropItem(items, i)) <= Length(items)
  {
    if items.Item? && i > 0 {
      DropItemStorable(items.rest, i - 1);
    }
  }

  lemma {:induction false} DropFieldStorable(fields: Fields, key: Blob)
    requires FieldsStorable(fields) && Ordered(fields)
    ensures FieldsStorable(DropField(fields, key)) && FieldCount(DropField(fields, key)) <= FieldCount(fields)
    ensures Ordered(DropField(fields, key))
    ensures DropField(fields, key).Field? ==> fields.Field? && (DropField(fields, key).key == fields.key || Less(fields.key, DropField(fields, key).key))
  {
    if fields.Field? && fields.key != key {
      DropFieldStorable(fields.rest, key);
      if fields.rest.Field? && DropField(fields.rest, key).Field? && DropField(fields.rest, key).key != fields.rest.key {
        LessTransitive(fields.key, fields.rest.key, DropField(fields.rest, key).key);
      }
    }
  }

  /** A mutator keeps the value it works on storable. */
  lemma {:induction false} PlainApplyStorable(v: Value, op: Op)
    requires Storable(v) && Bounded(op, v)
    ensures Storable(PlainApply(v, op))
  {
    match op
    case PushBack(t, _) =>
      if v.Arr? {
        JoinStorable(v.items, Item(Plain(t), Nil));
      }
    case EraseAt(i) =>
      if v.Arr? {
        DropItemStorable(v.items, i);
      }
    case Subscript(key) =>
      if v.Obj? {
        PutOrdered(v.fields, key, Null);
        PutStorable(v.fields, key, Null);
      }
    case TryEmplace(key, t) =>
      if v.Obj? {
        PutOrdered(v.fields, key, Plain(t));
        PutStorable(v.fields, key, Plain(t));
      }
    case EraseKey(key) =>
      if v.Obj? {
        DropFieldStorable(v.fields, key);
      }
    case _ =>
  }

  // ------------------------------------------------------------------
  // Nodes below a root
  // ------------------------------------------------------------------

  /** The operation is bounded at the node the path leads to. */
  predicate BoundedAt(t: Tree, p: Path, op: Op)
    requires Reaches(t, p, op)
    decreases p, 0
  {
    match p
    case Here => Bounded(op, Plain(t))
    case Into(i, rest) => ItemBounded(t.data.items, i, rest, op)
    case Under(key, rest) => FieldBounded(t.data.fields, key, rest, op)
  }

  predicate ItemBounded(items: Trees, i: nat, p: Path, op: Op)
    requires ItemReaches(items, i, p, op)
    decreases p, 1, items
  {
    if i == 0 then BoundedAt(items.first, p, op) else ItemBounded(items.rest, i - 1, p, op)
  }

  predicate FieldBounded(fields: Entries, key: Blob, p: Path, op: Op)
    requires FieldReaches(fields, key, p, op)
    decreases p, 1, fields
  {
    if fields.key == key then BoundedAt(fields.value, p, op) else FieldBounded(fields.rest, key, p, op)
  }

  /** A mutator on any node of a storable tree leaves the tree storable. */
  lemma {:induction false} ApplyAtStorable(t: Tree, p: Path, op: Op)
    requires Storable(Plain(t)) && Reaches(t, p, op) && BoundedAt(t, p, op)
    ensures Storable(Plain(ApplyAt(t, p, op).tree))
    decreases p, 0
  {
    match p
    case Here =>
      ApplyPlain(t, op);
      PlainApplyStorable(Plain(t), op);
    case Into(i, rest) => ItemStorable(t.data.items, i, rest, op);
    case Under(key, rest) => FieldStorable(t.data.fields, key, rest, op);
  }

  lemma {:induction false} ItemStorable(items: Trees, i: nat, p: Path, op: Op)
    requires ItemsStorable(PlainItems(items)) && ItemReaches(items, i, p, op) && ItemBounded(items, i, p, op)
    ensures var (items', _) := ApplyItem(items, i, p, op);
            ItemsStorable(PlainItems(items')) && Length(PlainItems(items')) == Length(PlainItems(items))
    decreases p, 1, items
  {
    if i == 0 {
      ApplyAtStorable(items.first, p, op);
    } else {
      ItemStorable(items.rest, i - 1, p, op);
    }
  }

  lemma {:induction false} FieldStorable(fields: Entries, key: Blob, p: Path, op: Op)
    requires FieldsStorable(PlainFields(fields)) && Ordered(PlainFields(fields))
    requires FieldReaches(fields, key, p, op) && FieldBounded(fields, key, p, op)
    ensures var (fields', _) := ApplyField(fields, key, p, op);
            && FieldsStorable(PlainFields(fields')) && Ordered(PlainFields(fields'))
            && FieldCount(PlainFields(fields')) == FieldCount(PlainFields(fields))
            && fields'.Entries? && fields'.key == fields.key
    decreases p, 1, fields
  {
    if fields.key == key {
      ApplyAtStorable(fields.value, p, op);
    } else {
      FieldStorable(fields.rest, key, p, op);
    }
  }
}
