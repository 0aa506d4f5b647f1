/** Value trees: what a root holds. */
module Values {
  import opened Bytes

  /** Integers are 64-bit and signed; a double is the 64 bits that represent it. */
  datatype Value =
    | Null
    | Bool(b: bool)
    | Int(i: int)
    | Num(bits: nat)
    | Str(s: Blob)
    | Arr(items: Items)
    | Obj(fields: Fields)

  datatype Items = Nil | Item(first: Value, rest: Items)

  /** The fields of an object, in the order of their keys. */
  datatype Fields = Bare | Field(key: Blob, value: Value, rest: Fields)

  function Length(items: Items): nat {
    match items
    case Nil => 0
    case Item(_, rest) => 1 + Length(rest)
  }

  function FieldCount(fields: Fields): nat {
    match fields
    case Bare => 0
    case Field(_, _, rest) => 1 + FieldCount(rest)
  }

  function Join(a: Items, b: Items): Items {
    match a
    case Nil => b
    case Item(first, rest) => Item(first, Join(rest, b))
  }

  lemma {:induction false} JoinAssoc(a: Items, b: Items, c: Items)
    ensures Join(Join(a, b), c) == Join(a, Join(b, c))
  {
    if a.Item? {
      JoinAssoc(a.rest, b, c);
    }
  }

  lemma {:induction false} JoinNil(a: Items)
    ensures Join(a, Nil) == a
  {
    if a.Item? {
      JoinNil(a.rest);
    }
  }

  /** Inserts a field in key order; the value of a key that is there is replaced. */
  function PutField(fields: Fields, key: Blob, value: Value): Fields {
    match fields
    case Bare => Field(key, value, Bare)
    case Field(k, v, rest) =>
      if k == key then Field(key, value, rest)
      else if Less(key, k) then Field(key, value, fields)
      else Field(k, v, PutField(rest, key, value))
  }

  predicate HasField(fields: Fields, key: Blob) {
    match fields
    case Bare => false
    case Field(k, _, rest) => k == key || HasField(rest, key)
  }

  function PutAll(fields: Fields, more: Fields): Fields
    decreases more
  {
    match more
    case Bare => fields
    case Field(k, v, rest) => PutAll(PutField(fields, k, v), rest)
  }

  predicate Above(key: Blob, fields: Fields) {
    fields.Field? ==> Less(key, fields.key)
  }

  /** Keys grow strictly, as the ordered map keeps them. */
  predicate Ordered(fields: Fields) {
    match fields
    case Bare => true
    case Field(k, _, rest) => Above(k, rest) && Ordered(rest)
  }

  function JoinFields(a: Fields, b: Fields): Fields {
    match a
    case Bare => b
    case Field(k, v, rest) => Field(k, v, JoinFields(rest, b))
  }

  /** Every key of the fields is below. */
  predicate AllBelow(fields: Fields, key: Blob) {
    match fields
    case Bare => true
    case Field(k, _, rest) => Less(k, key) && AllBelow(rest, key)
  }

  lemma {:induction false} PutLast(fields: Fields, key: Blob, value: Value)
    requires AllBelow(fields, key)
    ensures PutField(fields, key, value) == JoinFields(fields, Field(key, value, Bare))
  {
    if fields.Field? {
      LessTotal(fields.key, key);
      PutLast(fields.rest, key, value);
    }
  }

  lemma {:induction false} BelowNext(fields: Fields, key: Blob, next: Blob)
    requires AllBelow(fields, key) && Less(key, next)
    ensures AllBelow(fields, next)
  {
    if fields.Field? {
      LessTransitive(fields.key, key, next);
      BelowNext(fields.rest, key, next);
    }
  }

  lemma {:induction false} BelowLast(fields: Fields, key: Blob, value: Value, next: Blob)
    requires AllBelow(fields, next) && Less(key, next)
    ensures AllBelow(JoinFields(fields, Field(key, value, Bare)), next)
  {
    if fields.Field? {
      BelowLast(fields.rest, key, value, next);
    }
  }

  lemma {:induction false} JoinLast(fields: Fields, key: Blob, value: Value, rest: Fields)
    ensures JoinFields(JoinFields(fields, Field(key, value, Bare)), rest) == JoinFields(fields, Field(key, value, rest))
  {
    if fields.Field? {
      JoinLast(fields.rest, key, value, rest);
    }
  }

  /** The fields as a map; of a key that comes twice the first one counts. */
  function FieldMap(fields: Fields): map<Blob, Value> {
    match fields
    case Bare => map[]
    case Field(k, v, rest) => FieldMap(rest)[k := v]
  }

  lemma {:induction false} MapHas(fields: Fields, key: Blob)
    ensures HasField(fields, key) <==> key in FieldMap(fields)
  {
    if fields.Field? {
      MapHas(fields.rest, key);
    }
  }

  lemma {:induction false} PutMaps(fields: Fields, key: Blob, value: Value)
    requires Ordered(fields)
    ensures FieldMap(PutField(fields, key, value)) == FieldMap(fields)[key := value]
  {
    if fields.Field? {
      PutMaps(fields.rest, key, value);
    }
  }

  lemma {:induction false} PutOrdered(fields: Fields, key: Blob, value: Value)
    requires Ordered(fields)
    ensures Ordered(PutField(fields, key, value))
  {
    if fields.Field? {
      LessTotal(key, fields.key);
      PutOrdered(fields.rest, key, value);
    }
  }

  /** Putting ordered fields after smaller ones joins them. */
  lemma {:induction false} PutAllJoins(fields: Fields, more: Fields)
    requires Ordered(more) && (more.Field? ==> AllBelow(fields, more.key))
    ensures PutAll(fields, more) == JoinFields(fields, more)
    decreases more
  {
    if more.Bare? {
      JoinBare(fields);
    } else {
      PutLast(fields, more.key, more.value);
      var fields1 := JoinFields(fields, Field(more.key, more.value, Bare));
      if more.rest.Field? {
        BelowNext(fields, more.key, more.rest.key);
        BelowLast(fields, more.key, more.value, more.rest.key);
      }
      PutAllJoins(fields1, more.rest);
      JoinLast(fields, more.key, more.value, more.rest);
    }
  }

  lemma {:induction false} JoinBare(fields: Fields)
    ensures JoinFields(fields, Bare) == fields
  {
    if fields.Field? {
      JoinBare(fields.rest);
    }
  }

  /** Ordered fields come back when they are put one by one. */
  lemma {:induction false} PutAllRebuilds(fields: Fields)
    requires Ordered(fields)
    ensures PutAll(Bare, fields) == fields
  {
    PutAllJoins(Bare, fields);
  }
}

/** The binary form of value trees: a tag byte, then the value. */
module ValueCodec {
  import opened Bytes
  import opened BinaryIO
  import opened Values

  const TWO63: int := 0x8000_0000_0000_0000

  /** Two's complement. */
  function ToBits(i: int): (n: nat)
    requires -TWO63 <= i < TWO63
    ensures n < TWO64
  {
    if i >= 0 then i else i + TWO64
  }

  function FromBits(n: nat): (i: int)
    requires n < TWO64
    ensures -TWO63 <= i < TWO63
  {
    if n < TWO63 then n else n - TWO64
  }

  /** The ranges of a tree's fields, and key order in its objects. */
  predicate Storable(v: Value) {
    match v
    case Null => true
    case Bool(_) => true
    case Int(i) => -TWO63 <= i < TWO63
    case Num(bits) => bits < TWO64
    case Str(s) => |s| < TWO64
    case Arr(items) => Length(items) < TWO64 && ItemsStorable(items)
    case Obj(fields) => FieldCount(fields) < TWO64 && Ordered(fields) && FieldsStorable(fields)
  }

  predicate ItemsStorable(items: Items) {
    match items
    case Nil => true
    case Item(first, rest) => Storable(first) && ItemsStorable(rest)
  }

  predicate FieldsStorable(fields: Fields) {
    match fields
    case Bare => true
    case Field(key, value, rest) => |key| < TWO64 && Storable(value) && FieldsStorable(rest)
  }

  // ------------------------------------------------------------------
  // Encoding
  // ------------------------------------------------------------------

  function Encode(v: Value): (b: Blob)
    requires Storable(v)
    ensures |b| >= 1
  {
    match v
    case Null => [0]
    case Bool(b) => [1, if b then 1 else 0]
    case Int(i) => [2] + Le(ToBits(i), 8)
    case Num(bits) => [3] + Le(bits, 8)
    case Str(s) => [4] + StringBytes(s)
    case Arr(items) => [5] + (Le(Length(items), 8) + EncodeItems(items))
    case Obj(fields) => [6] + (Le(FieldCount(fields), 8) + EncodeFields(fields))
  }

  function EncodeItems(items: Items): (b: Blob)
    requires ItemsStorable(items)
    ensures |b| >= Length(items)
  {
    match items
    case Nil => []
    case Item(first, rest) => Encode(first) + EncodeItems(rest)
  }

  function EncodeFields(fields: Fields): (b: Blob)
    requires FieldsStorable(fields)
    ensures |b| >= FieldCount(fields)
  {
    match fields
    case Bare => []
    case Field(key, value, rest) => StringBytes(key) + (Encode(value) + EncodeFields(rest))
  }

  // ------------------------------------------------------------------
  // Decoding
  // ------------------------------------------------------------------

  function ReadInt(s: Blob): (r: Result<(Value, Blob)>)
    ensures r.Ok? ==> |r.value.1| < |s|
  {
    var (bits, rest) :- ReadScalar(s, 8);
    Widths();
    Ok((Int(FromBits(bits)), rest))
  }

  function ReadNum(s: Blob): (r: Result<(Value, Blob)>)
    ensures r.Ok? ==> |r.value.1| < |s|
  {
    var (bits, rest) :- ReadScalar(s, 8);
    Ok((Num(bits), rest))
  }

  function ReadBool(s: Blob): (r: Result<(Value, Blob)>)
    ensures r.Ok? ==> |r.value.1| < |s|
  {
    var (flag, rest) :- ReadScalar(s, 1);
    Ok((Bool(flag != 0), rest))
  }

  function ReadStr(s: Blob): (r: Result<(Value, Blob)>)
    ensures r.Ok? ==> |r.value.1| < |s|
  {
    var (text, rest) :- ReadString(s);
    Ok((Str(text), rest))
  }

  /** An element count that the bytes left cannot hold is rejected before anything is read. */
  function ReadCount(s: Blob): (r: Result<(nat, Blob)>)
    ensures r.Ok? ==> |r.value.1| < |s|
  {
    var (count, rest) :- ReadScalar(s, 8);
    if count > |rest| + 1 then Err(Corruption(ImplausibleCount)) else Ok((count, rest))
  }

  /** A tree from the front of a byte string. Every byte string is rejected or yields a tree and
      a strictly shorter rest. */
  function Decode(s: Blob): (r: Result<(Value, Blob)>)
    ensures r.Ok? ==> |r.value.1| < |s|
    decreases |s|, 0
  {
    var (tag, rest) :- ReadScalar(s, 1);
    if tag == 0 then Ok((Null, rest))
    else if tag == 1 then ReadBool(rest)
    else if tag == 2 then ReadInt(rest)
    else if tag == 3 then ReadNum(rest)
    else if tag == 4 then ReadStr(rest)
    else if tag == 5 then DecodeArray(rest)
    else if tag == 6 then DecodeObject(rest)
    else Err(Corruption(UnknownTag))
  }

  function DecodeArray(s: Blob): (r: Result<(Value, Blob)>)
    ensures r.Ok? ==> |r.value.1| < |s|
    decreases |s|, 2
  {
    var (count, rest) :- ReadCount(s);
    var (items, left) :- DecodeItems(rest, count);
    Ok((Arr(items), left))
  }

  function DecodeObject(s: Blob): (r: Result<(Value, Blob)>)
    ensures r.Ok? ==> |r.value.1| < |s|
    decreases |s|, 2
  {
    var (count, rest) :- ReadCount(s);
    var (fields, left) :- DecodeFields(rest, count);
    Ok((Obj(PutAll(Bare, fields)), left))
  }

  function DecodeItems(s: Blob, count: nat): (r: Result<(Items, Blob)>)
    ensures r.Ok? ==> |r.value.1| <= |s|
    decreases |s|, 1
  {
    if count == 0 then Ok((Nil, s)) else
    var (first, rest) :- Decode(s);
    var (items, left) :- DecodeItems(rest, count - 1);
    Ok((Item(first, items), left))
  }

  /** The fields as they are stored, before they are put in order. */
  function DecodeFields(s: Blob, count: nat): (r: Result<(Fields, Blob)>)
    ensures r.Ok? ==> |r.value.1| <= |s|
    decreases |s|, 1
  {
    if count == 0 then Ok((Bare, s)) else
    var (key, s1) :- ReadString(s);
    var (value, s2) :- Decode(s1);
    var (fields, left) :- DecodeFields(s2, count - 1);
    Ok((Field(key, value, fields), left))
  }

  // ------------------------------------------------------------------
  // Round trip
  // ------------------------------------------------------------------

  lemma {:induction false} TagReads(tag: Byte, rest: Blob)
    ensures ReadScalar([tag] + rest, 1) == Ok((tag as nat, rest))
  {
    assert ([tag] + rest)[..1] == [tag] && ([tag] + rest)[1..] == rest;
    assert [tag][1..] == [];
    assert FromLe([tag]) == tag as nat + 256 * FromLe([]);
  }

  lemma {:induction false} CountReads(count: nat, rest: Blob)
    requires count < TWO64 && count <= |rest| + 1
    ensures ReadCount(Le(count, 8) + rest) == Ok((count, rest))
  {
    Widths();
    ReadScalarLe(count, 8, rest);
  }

  lemma {:induction false} ArrayReads(items: Items, rest: Blob)
    requires Length(items) < TWO64 && ItemsStorable(items)
    requires DecodeItems(EncodeItems(items) + rest, Length(items)) == Ok((items, rest))
    ensures DecodeArray(Le(Length(items), 8) + EncodeItems(items) + rest) == Ok((Arr(items), rest))
  {
    ConcatAssoc(Le(Length(items), 8), EncodeItems(items), rest);
    CountReads(Length(items), EncodeItems(items) + rest);
  }

  lemma {:induction false} ObjectReads(fields: Fields, rest: Blob)
    requires FieldCount(fields) < TWO64 && Ordered(fields) && FieldsStorable(fields)
    requires DecodeFields(EncodeFields(fields) + rest, FieldCount(fields)) == Ok((fields, rest))
    ensures DecodeObject(Le(FieldCount(fields), 8) + EncodeFields(fields) + rest) == Ok((Obj(fields), rest))
  {
    ConcatAssoc(Le(FieldCount(fields), 8), EncodeFields(fields), rest);
    CountReads(FieldCount(fields), EncodeFields(fields) + rest);
    PutAllRebuilds(fields);
  }

  lemma {:induction false} LeafReads(v: Value, rest: Blob)
    requires Storable(v) && !v.Arr? && !v.Obj?
    ensures Decode(Encode(v) + rest) == Ok((v, rest))
  {
    Widths();
    match v
    case Null => TagReads(0, rest);
    case Bool(b) =>
      TagReads(1, [if b then 1 else 0] + rest);
      TagReads(if b then 1 else 0, rest);
      assert Encode(v) + rest == [1] + ([if b then 1 else 0] + rest);
    case Int(i) =>
      TagReads(2, Le(ToBits(i), 8) + rest);
      ReadScalarLe(ToBits(i), 8, rest);
      ConcatAssoc([2], Le(ToBits(i), 8), rest);
    case Num(bits) =>
      TagReads(3, Le(bits, 8) + rest);
      ReadScalarLe(bits, 8, rest);
      ConcatAssoc([3], Le(bits, 8), rest);
    case Str(s) =>
      TagReads(4, StringBytes(s) + rest);
      ReadStringBytes(s, rest);
      ConcatAssoc([4], StringBytes(s), rest);
  }

  lemma {:induction false} TaggedArray(body: Blob, rest: Blob)
    ensures Decode([5] + body + rest) == DecodeArray(body + rest)
  {
    ConcatAssoc([5], body, rest);
    TagReads(5, body + rest);
  }

  lemma {:induction false} TaggedObject(body: Blob, rest: Blob)
    ensures Decode([6] + body + rest) == DecodeObject(body + rest)
  {
    ConcatAssoc([6], body, rest);
    TagReads(6, body + rest);
  }

  /** The encoding of a tree, followed by any bytes, decodes to that tree and leaves those bytes. */
  lemma {:induction false} DecodeOfEncode(v: Value, rest: Blob)
    requires Storable(v)
    ensures Decode(Encode(v) + rest) == Ok((v, rest))
    decreases v
  {
    match v
    case Arr(items) =>
      ItemsOfEncode(items, rest);
      ArrayReads(items, rest);
      TaggedArray(Le(Length(items), 8) + EncodeItems(items), rest);
    case Obj(fields) =>
      FieldsOfEncode(fields, rest);
      ObjectReads(fields, rest);
      TaggedObject(Le(FieldCount(fields), 8) + EncodeFields(fields), rest);
    case _ => LeafReads(v, rest);
  }

  lemma {:induction false} ItemsOfEncode(items: Items, rest: Blob)
    requires ItemsStorable(items)
    ensures DecodeItems(EncodeItems(items) + rest, Length(items)) == Ok((items, rest))
    decreases items
  {
    if items.Nil? {
      assert [] + rest == rest;
    } else {
      ConcatAssoc(Encode(items.first), EncodeItems(items.rest), rest);
      DecodeOfEncode(items.first, EncodeItems(items.rest) + rest);
      ItemsOfEncode(items.rest, rest);
    }
  }

  lemma {:induction false} FieldsOfEncode(fields: Fields, rest: Blob)
    requires FieldsStorable(fields)
    ensures DecodeFields(EncodeFields(fields) + rest, FieldCount(fields)) == Ok((fields, rest))
    decreases fields
  {
    if fields.Bare? {
      assert [] + rest == rest;
    } else {
      var value, more := Encode(fields.value), EncodeFields(fields.rest);
      ConcatAssoc(StringBytes(fields.key), value + more, rest);
      ConcatAssoc(value, more, rest);
      ReadStringBytes(fields.key, value + (more + rest));
      DecodeOfEncode(fields.value, more + rest);
      FieldsOfEncode(fields.rest, rest);
    }
  }

  /** Encodings are injective and no encoding is a prefix of another. */
  lemma {:induction false} EncodingsPrefixFree(v: Value, w: Value, x: Blob, y: Blob)
    requires Storable(v) && Storable(w) && Encode(v) + x == Encode(w) + y
    ensures v == w && x == y
  {
    DecodeOfEncode(v, x);
    DecodeOfEncode(w, y);
  }

  // ------------------------------------------------------------------
  // What the decoder yields
  // ------------------------------------------------------------------

  lemma {:induction false} PutStorable(fields: Fields, key: Blob, value: Value)
    requires FieldsStorable(fields) && |key| < TWO64 && Storable(value)
    ensures FieldsStorable(PutField(fields, key, value))
    ensures FieldCount(PutField(fields, key, value)) <= FieldCount(fields) + 1
  {
    if fields.Field? {
      PutStorable(fields.rest, key, value);
    }
  }

  lemma {:induction false} PutAllStorable(fields: Fields, more: Fields)
    requires Ordered(fields) && FieldsStorable(fields) && FieldsStorable(more)
    ensures var r := PutAll(fields, more);
            Ordered(r) && FieldsStorable(r) && FieldCount(r) <= FieldCount(fields) + FieldCount(more)
    decreases more
  {
    if more.Field? {
      PutOrdered(fields, more.key, more.value);
      PutStorable(fields, more.key, more.value);
      PutAllStorable(PutField(fields, more.key, more.value), more.rest);
    }
  }

  /** Whatever the decoder yields can be stored again: integers are in range, keys are in order. */
  lemma {:induction false} DecodedStorable(s: Blob)
    ensures Decode(s).Ok? ==> Storable(Decode(s).value.0)
    decreases |s|, 0
  {
    Widths();
    var tagged := ReadScalar(s, 1);
    if tagged.Ok? {
      var (tag, rest) := tagged.value;
      if tag == 5 && ReadCount(rest).Ok? {
        var (count, left) := ReadCount(rest).value;
        ItemsDecodedStorable(left, count);
      } else if tag == 6 && ReadCount(rest).Ok? {
        var (count, left) := ReadCount(rest).value;
        FieldsDecodedStorable(left, count);
        if DecodeFields(left, count).Ok? {
          PutAllStorable(Bare, DecodeFields(left, count).value.0);
        }
      }
    }
  }

  lemma {:induction false} ItemsDecodedStorable(s: Blob, count: nat)
    ensures var r := DecodeItems(s, count);
            r.Ok? ==> ItemsStorable(r.value.0) && Length(r.value.0) == count
    decreases |s|, 1
  {
    if count > 0 && Decode(s).Ok? {
      DecodedStorable(s);
      ItemsDecodedStorable(Decode(s).value.1, count - 1);
    }
  }

  lemma {:induction false} FieldsDecodedStorable(s: Blob, count: nat)
    ensures var r := DecodeFields(s, count);
            r.Ok? ==> FieldsStorable(r.value.0) && FieldCount(r.value.0) == count
    decreases |s|, 1
  {
    Widths();
    if count > 0 && ReadString(s).Ok? && Decode(ReadString(s).value.1).Ok? {
      var s1 := ReadString(s).value.1;
      DecodedStorable(s1);
      FieldsDecodedStorable(Decode(s1).value.1, count - 1);
    }
  }

  /** So decoding is undone by encoding and decoding again, though the bytes may differ. */
  lemma {:induction false} DecodeEncodeDecode(s: Blob, rest: Blob)
    requires Decode(s).Ok?
    ensures Storable(Decode(s).value.0)
    ensures Decode(Encode(Decode(s).value.0) + rest) == Ok((Decode(s).value.0, rest))
  {
    DecodedStorable(s);
    DecodeOfEncode(Decode(s).value.0, rest);
  }

  // ------------------------------------------------------------------
  // The codec
  // ------------------------------------------------------------------

  function Weight(v: Value): nat {
    match v
    case Arr(items) => 1 + ItemsWeight(items)
    case Obj(fields) => 1 + FieldsWeight(fields)
    case _ => 1
  }

  function ItemsWeight(items: Items): nat {
    match items
    case Nil => 0
    case Item(first, rest) => Weight(first) + ItemsWeight(rest)
  }

  function FieldsWeight(fields: Fields): nat {
    match fields
    case Bare => 0
    case Field(_, value, rest) => Weight(value) + FieldsWeight(rest)
  }

  method PutTag(w: Writer, tag: Byte)
    modifies w
    ensures w.bytes == old(w.bytes) + [tag]
  {
    LeStep(tag as nat, 0);
    assert [tag] + Le(tag as nat / 256, 0) == [tag];
    w.Scalar(tag as nat, 1);
  }

  method EncodeLeaf(w: Writer, v: Value)
    requires Storable(v) && !v.Arr? && !v.Obj?
    modifies w
    ensures w.bytes == old(w.bytes) + Encode(v)
  {
    ghost var was := w.bytes;
    match v
    case Null =>
      PutTag(w, 0);
    case Bool(b) =>
      PutTag(w, 1);
      PutTag(w, if b then 1 else 0);
    case Int(i) =>
      PutTag(w, 2);
      w.Scalar(ToBits(i), 8);
      ConcatAssoc(was, [2], Le(ToBits(i), 8));
    case Num(bits) =>
      PutTag(w, 3);
      w.Scalar(bits, 8);
      ConcatAssoc(was, [3], Le(bits, 8));
    case Str(s) =>
      PutTag(w, 4);
      w.String(s);
      ConcatAssoc(was, [4], StringBytes(s));
  }

  /** Appends the tag and the bytes of a value. */
  method EncodeValue(w: Writer, v: Value)
    requires Storable(v)
    modifies w
    ensures w.bytes == old(w.bytes) + Encode(v)
    decreases Weight(v), 1
  {
    match v
    case Arr(items) =>
      ConcatAssoc(w.bytes, [5], Le(Length(items), 8) + EncodeItems(items));
      PutTag(w, 5);
      EncodeArray(w, items);
    case Obj(fields) =>
      ConcatAssoc(w.bytes, [6], Le(FieldCount(fields), 8) + EncodeFields(fields));
      PutTag(w, 6);
      EncodeObject(w, fields);
    case _ =>
      EncodeLeaf(w, v);
  }

  method EncodeArray(w: Writer, items: Items)
    requires Length(items) < TWO64 && ItemsStorable(items)
    modifies w
    ensures w.bytes == old(w.bytes) + (Le(Length(items), 8) + EncodeItems(items))
    decreases 1 + ItemsWeight(items), 0
  {
    w.Scalar(Length(items), 8);
    ghost var start := w.bytes;
    var left := items;
    while left.Item?
      invariant ItemsStorable(left) && ItemsWeight(left) <= ItemsWeight(items)
      invariant w.bytes + EncodeItems(left) == start + EncodeItems(items)
      decreases left
    {
      ConcatAssoc(w.bytes, Encode(left.first), EncodeItems(left.rest));
      EncodeValue(w, left.first);
      left := left.rest;
    }
    assert w.bytes + [] == w.bytes;
    ConcatAssoc(old(w.bytes), Le(Length(items), 8), EncodeItems(items));
  }

  method EncodeObject(w: Writer, fields: Fields)
    requires FieldCount(fields) < TWO64 && FieldsStorable(fields)
    modifies w
    ensures w.bytes == old(w.bytes) + (Le(FieldCount(fields), 8) + EncodeFields(fields))
    decreases 1 + FieldsWeight(fields), 0
  {
    w.Scalar(FieldCount(fields), 8);
    ghost var start := w.bytes;
    var left := fields;
    while left.Field?
      invariant FieldsStorable(left) && FieldsWeight(left) <= FieldsWeight(fields)
      invariant w.bytes + EncodeFields(left) == start + EncodeFields(fields)
      decreases left
    {
      ConcatAssoc(w.bytes, StringBytes(left.key), Encode(left.value) + EncodeFields(left.rest));
      ConcatAssoc(w.bytes + StringBytes(left.key), Encode(left.value), EncodeFields(left.rest));
      w.String(left.key);
      EncodeValue(w, left.value);
      left := left.rest;
    }
    assert w.bytes + [] == w.bytes;
    ConcatAssoc(old(w.bytes), Le(FieldCount(fields), 8), EncodeFields(fields));
  }

  /** What a decoding method does to its reader. */
  ghost predicate Took<T>(spec: Result<(T, Blob)>, r: Result<T>, rest: Blob) {
    match spec
    case Ok((value, left)) => r == Ok(value) && rest == left
    case Err(e) => r == Err(e)
  }

  method DecodeValue(reader: Reader) returns (r: Result<Value>)
    requires reader.Valid()
    modifies reader
    ensures reader.Valid()
    ensures Took(Decode(old(reader.Rest())), r, reader.Rest())
    decreases reader.Remaining(), 1
  {
    var tag :- reader.Scalar(1);
    if tag == 0 {
      r := Ok(Null);
    } else if tag == 1 {
      var flag :- reader.Scalar(1);
      r := Ok(Bool(flag != 0));
    } else if tag == 2 {
      Widths();
      var bits :- reader.Scalar(8);
      r := Ok(Int(FromBits(bits)));
    } else if tag == 3 {
      var bits :- reader.Scalar(8);
      r := Ok(Num(bits));
    } else if tag == 4 {
      var text :- reader.String();
      r := Ok(Str(text));
    } else if tag == 5 {
      r := DecodeArrayFrom(reader);
    } else if tag == 6 {
      r := DecodeObjectFrom(reader);
    } else {
      r := Err(Corruption(UnknownTag));
    }
  }

  method DecodeCount(reader: Reader) returns (r: Result<nat>)
    requires reader.Valid()
    modifies reader
    ensures reader.Valid()
    ensures Took(ReadCount(old(reader.Rest())), r, reader.Rest())
  {
    var count :- reader.Scalar(8);
    if count > reader.Remaining() + 1 {
      return Err(Corruption(ImplausibleCount));
    }
    r := Ok(count);
  }

  ghost function Onto(done: Items, more: Result<(Items, Blob)>): Result<(Items, Blob)> {
    match more
    case Ok((items, left)) => Ok((Join(done, items), left))
    case Err(e) => Err(e)
  }

  lemma {:induction false} OntoNext(done: Items, s: Blob, count: nat)
    requires count > 0
    ensures Onto(done, DecodeItems(s, count))
            == match Decode(s)
               case Ok((first, rest)) => Onto(Join(done, Item(first, Nil)), DecodeItems(rest, count - 1))
               case Err(e) => Err(e)
  {
    if Decode(s).Ok? && DecodeItems(Decode(s).value.1, count - 1).Ok? {
      JoinAssoc(done, Item(Decode(s).value.0, Nil), DecodeItems(Decode(s).value.1, count - 1).value.0);
    }
  }

  method DecodeArrayFrom(reader: Reader) returns (r: Result<Value>)
    requires reader.Valid()
    modifies reader
    ensures reader.Valid()
    ensures Took(DecodeArray(old(reader.Rest())), r, reader.Rest())
    decreases reader.Remaining(), 2
  {
    var count :- DecodeCount(reader);
    ghost var start := reader.Rest();
    var items := Nil;
    for i := 0 to count
      invariant reader.Valid() && |reader.Rest()| < |old(reader.Rest())|
      invariant Onto(items, DecodeItems(reader.Rest(), count - i)) == DecodeItems(start, count)
    {
      OntoNext(items, reader.Rest(), count - i);
      var one :- DecodeValue(reader);
      items := Join(items, Item(one, Nil));
    }
    JoinNil(items);
    r := Ok(Arr(items));
  }

  ghost function Over(done: Fields, more: Result<(Fields, Blob)>): Result<(Fields, Blob)> {
    match more
    case Ok((fields, left)) => Ok((PutAll(done, fields), left))
    case Err(e) => Err(e)
  }

  lemma {:induction false} OverNext(done: Fields, s: Blob, count: nat)
    requires count > 0
    ensures Over(done, DecodeFields(s, count))
            == match ReadString(s)
               case Err(e) => Err(e)
               case Ok((key, s1)) =>
                 match Decode(s1)
                 case Ok((value, rest)) => Over(PutField(done, key, value), DecodeFields(rest, count - 1))
                 case Err(e) => Err(e)
  {
  }

  method DecodeObjectFrom(reader: Reader) returns (r: Result<Value>)
    requires reader.Valid()
    modifies reader
    ensures reader.Valid()
    ensures Took(DecodeObject(old(reader.Rest())), r, reader.Rest())
    decreases reader.Remaining(), 2
  {
    var count :- DecodeCount(reader);
    ghost var start := reader.Rest();
    var fields := Bare;
    for i := 0 to count
      invariant reader.Valid() && |reader.Rest()| < |old(reader.Rest())|
      invariant Over(fields, DecodeFields(reader.Rest(), count - i)) == Over(Bare, DecodeFields(start, count))
    {
      OverNext(fields, reader.Rest(), count - i);
      var key :- reader.String();
      var value :- DecodeValue(reader);
      fields := PutField(fields, key, value);
    }
    r := Ok(Obj(fields));
  }
}
