/** The byte strings that decode to a value.

A code is a derivation of the encoding: a tag, then a scalar, a length-prefixed string,
or a count and that many codes. Decoding accepts more than encoding writes: any nonzero
byte for true, and fields in any order, the last of those with one key counting.
 */
module Codes {
  import opened Bytes
  import opened Values
  import opened ValueCodec

  datatype Code =
    | NullCode
    | BoolCode(flag: Byte)
    | IntCode(i: int)
    | NumCode(bits: nat)
    | StrCode(s: Blob)
    | ArrCode(items: ItemCodes)
    | ObjCode(fields: FieldCodes)

  datatype ItemCodes = NoItems | ItemCode(first: Code, rest: ItemCodes)

  datatype FieldCodes = NoFields | FieldCode(key: Blob, value: Code, rest: FieldCodes)

  function ItemsCount(items: ItemCodes): nat {
    match items
    case NoItems => 0
    case ItemCode(_, rest) => 1 + ItemsCount(rest)
  }

  function FieldsCount(fields: FieldCodes): nat {
    match fields
    case NoFields => 0
    case FieldCode(_, _, rest) => 1 + FieldsCount(rest)
  }

  /** Integers and doubles of 64 bits, and lengths and counts of 64 bits. */
  predicate InRange(c: Code) {
    match c
    case IntCode(i) => -0x8000_0000_0000_0000 <= i <= 0x7fff_ffff_ffff_ffff
    case NumCode(bits) => bits <= 0xffff_ffff_ffff_ffff
    case StrCode(s) => |s| <= 0xffff_ffff_ffff_ffff
    case ArrCode(items) => ItemsCount(items) <= 0xffff_ffff_ffff_ffff && ItemsInRange(items)
    case ObjCode(fields) => FieldsCount(fields) <= 0xffff_ffff_ffff_ffff && FieldsInRange(fields)
    case _ => true
  }

  predicate ItemsInRange(items: ItemCodes) {
    match items
    case NoItems => true
    case ItemCode(first, rest) => InRange(first) && ItemsInRange(rest)
  }

  predicate FieldsInRange(fields: FieldCodes) {
    match fields
    case NoFields => true
    case FieldCode(key, value, rest) => |key| <= 0xffff_ffff_ffff_ffff && InRange(value) && FieldsInRange(rest)
  }

  /** The bytes of a code in front of what follows it; integers in two's complement. */
  function CodeBytes(c: Code, follows: Blob): (b: Blob)
    requires InRange(c)
    ensures |b| > |follows|
  {
    match c
    case NullCode => [0] + follows
    case BoolCode(flag) => [1, flag] + follows
    case IntCode(i) => [2] + (Le(if i < 0 then 0x1_0000_0000_0000_0000 + i else i, 8) + follows)
    case NumCode(bits) => [3] + (Le(bits, 8) + follows)
    case StrCode(s) => [4] + (Le(|s|, 8) + (s + follows))
    case ArrCode(items) => [5] + (Le(ItemsCount(items), 8) + ItemBytes(items, follows))
    case ObjCode(fields) => [6] + (Le(FieldsCount(fields), 8) + FieldBytes(fields, follows))
  }

  function ItemBytes(items: ItemCodes, follows: Blob): (b: Blob)
    requires ItemsInRange(items)
    ensures |b| >= |follows| + ItemsCount(items)
  {
    match items
    case NoItems => follows
    case ItemCode(first, rest) => CodeBytes(first, ItemBytes(rest, follows))
  }

  function FieldBytes(fields: FieldCodes, follows: Blob): (b: Blob)
    requires FieldsInRange(fields)
    ensures |b| >= |follows| + FieldsCount(fields)
  {
    match fields
    case NoFields => follows
    case FieldCode(key, value, rest) => Le(|key|, 8) + (key + CodeBytes(value, FieldBytes(rest, follows)))
  }

  // ------------------------------------------------------------------
  // What a code means
  // ------------------------------------------------------------------

  function Meaning(c: Code): Value {
    match c
    case NullCode => Null
    case BoolCode(flag) => Bool(flag != 0)
    case IntCode(i) => Int(i)
    case NumCode(bits) => Num(bits)
    case StrCode(s) => Str(s)
    case ArrCode(items) => Arr(ItemsMeaning(items))
    case ObjCode(fields) => Obj(FieldsMeaning(fields, Bare))
  }

  function ItemsMeaning(items: ItemCodes): Items {
    match items
    case NoItems => Nil
    case ItemCode(first, rest) => Item(Meaning(first), ItemsMeaning(rest))
  }

  function FieldsMeaning(fields: FieldCodes, before: Fields): Fields
    decreases fields
  {
    match fields
    case NoFields => before
    case FieldCode(key, value, rest) => FieldsMeaning(rest, PutField(before, key, Meaning(value)))
  }

  /** The value of each key: that of the last field with it. */
  function LastFields(fields: FieldCodes, before: map<Blob, Value>): map<Blob, Value>
    decreases fields
  {
    match fields
    case NoFields => before
    case FieldCode(key, value, rest) => LastFields(rest, before[key := Meaning(value)])
  }

  /** The fields of an object are in key order, and of the fields with one key the last counts. */
  lemma {:induction false} FieldsMean(fields: FieldCodes, before: Fields)
    requires Ordered(before)
    ensures Ordered(FieldsMeaning(fields, before)) && FieldMap(FieldsMeaning(fields, before)) == LastFields(fields, FieldMap(before))
    decreases fields
  {
    if fields.FieldCode? {
      PutOrdered(before, fields.key, Meaning(fields.value));
      PutMaps(before, fields.key, Meaning(fields.value));
      FieldsMean(fields.rest, PutField(before, fields.key, Meaning(fields.value)));
    }
  }

  /** What the decoder collects before it puts the fields in order. */
  function Collected(fields: FieldCodes): Fields {
    match fields
    case NoFields => Bare
    case FieldCode(key, value, rest) => Field(key, Meaning(value), Collected(rest))
  }

  lemma {:induction false} PutCollected(fields: FieldCodes, before: Fields)
    ensures PutAll(before, Collected(fields)) == FieldsMeaning(fields, before)
    decreases fields
  {
    if fields.FieldCode? {
      PutCollected(fields.rest, PutField(before, fields.key, Meaning(fields.value)));
    }
  }

  // ------------------------------------------------------------------
  // Codes decode to their meaning
  // ------------------------------------------------------------------

  lemma {:induction false} IntReads(i: int, follows: Blob)
    requires -0x8000_0000_0000_0000 <= i <= 0x7fff_ffff_ffff_ffff
    ensures ReadInt(Le(if i < 0 then 0x1_0000_0000_0000_0000 + i else i, 8) + follows) == Ok((Int(i), follows))
  {
    Widths();
    ReadScalarLe(if i < 0 then 0x1_0000_0000_0000_0000 + i else i, 8, follows);
  }

  lemma {:induction false} StringReads(s: Blob, follows: Blob)
    requires |s| <= 0xffff_ffff_ffff_ffff
    ensures ReadString(Le(|s|, 8) + (s + follows)) == Ok((s, follows))
  {
    ConcatAssoc(Le(|s|, 8), s, follows);
    ReadStringBytes(s, follows);
  }

  lemma {:induction false} LeafDecodes(c: Code, follows: Blob)
    requires InRange(c) && !c.ArrCode? && !c.ObjCode?
    ensures Decode(CodeBytes(c, follows)) == Ok((Meaning(c), follows))
  {
    Widths();
    match c
    case NullCode => TagReads(0, follows);
    case BoolCode(flag) =>
      TagReads(1, [flag] + follows);
      TagReads(flag, follows);
      assert CodeBytes(c, follows) == [1] + ([flag] + follows);
    case IntCode(i) =>
      TagReads(2, Le(if i < 0 then 0x1_0000_0000_0000_0000 + i else i, 8) + follows);
      IntReads(i, follows);
    case NumCode(bits) =>
      TagReads(3, Le(bits, 8) + follows);
      ReadScalarLe(bits, 8, follows);
    case StrCode(s) =>
      TagReads(4, Le(|s|, 8) + (s + follows));
      StringReads(s, follows);
  }

  lemma {:induction false} ArrayDecodes(count: nat, body: Blob, items: Items, follows: Blob)
    requires count <= 0xffff_ffff_ffff_ffff && count <= |body| && DecodeItems(body, count) == Ok((items, follows))
    ensures Decode([5] + (Le(count, 8) + body)) == Ok((Arr(items), follows))
  {
    TagReads(5, Le(count, 8) + body);
    CountReads(count, body);
  }

  lemma {:induction false} ObjectDecodes(count: nat, body: Blob, fields: Fields, follows: Blob)
    requires count <= 0xffff_ffff_ffff_ffff && count <= |body| && DecodeFields(body, count) == Ok((fields, follows))
    ensures Decode([6] + (Le(count, 8) + body)) == Ok((Obj(PutAll(Bare, fields)), follows))
  {
    TagReads(6, Le(count, 8) + body);
    CountReads(count, body);
  }

  lemma {:induction false} DecodeOfCode(c: Code, follows: Blob)
    requires InRange(c)
    ensures Decode(CodeBytes(c, follows)) == Ok((Meaning(c), follows))
    decreases c
  {
    match c
    case ArrCode(items) =>
      ItemsDecode(items, follows);
      ArrayDecodes(ItemsCount(items), ItemBytes(items, follows), ItemsMeaning(items), follows);
    case ObjCode(fields) =>
      FieldsDecode(fields, follows);
      ObjectDecodes(FieldsCount(fields), FieldBytes(fields, follows), Collected(fields), follows);
      PutCollected(fields, Bare);
    case _ => LeafDecodes(c, follows);
  }

  lemma {:induction false} ItemsDecode(items: ItemCodes, follows: Blob)
    requires ItemsInRange(items)
    ensures DecodeItems(ItemBytes(items, follows), ItemsCount(items)) == Ok((ItemsMeaning(items), follows))
    decreases items
  {
    if items.ItemCode? {
      DecodeOfCode(items.first, ItemBytes(items.rest, follows));
      ItemsDecode(items.rest, follows);
    }
  }

  lemma {:induction false} FieldsDecode(fields: FieldCodes, follows: Blob)
    requires FieldsInRange(fields)
    ensures DecodeFields(FieldBytes(fields, follows), FieldsCount(fields)) == Ok((Collected(fields), follows))
    decreases fields
  {
    if fields.FieldCode? {
      StringReads(fields.key, CodeBytes(fields.value, FieldBytes(fields.rest, follows)));
      DecodeOfCode(fields.value, FieldBytes(fields.rest, follows));
      FieldsDecode(fields.rest, follows);
    }
  }

  // ------------------------------------------------------------------
  // Whatever decodes is a code
  // ------------------------------------------------------------------

  lemma {:induction false} ScalarDerived(s: Blob, k: nat)
    requires ReadScalar(s, k).Ok?
    ensures s == Le(ReadScalar(s, k).value.0, k) + ReadScalar(s, k).value.1
  {
    LeOfFromLe(s[..k]);
    assert s == s[..k] + s[k..];
  }

  lemma {:induction false} StringDerived(s: Blob)
    requires ReadString(s).Ok?
    ensures var (text, rest) := ReadString(s).value;
            |text| <= 0xffff_ffff_ffff_ffff && s == Le(|text|, 8) + (text + rest)
  {
    Widths();
    ScalarDerived(s, 8);
    var (count, more) := ReadScalar(s, 8).value;
    assert more == more[..count] + more[count..];
  }

  lemma {:induction false} TagDerived(s: Blob)
    requires s != []
    ensures ReadScalar(s, 1) == Ok((s[0] as nat, s[1..])) && s == [s[0]] + s[1..]
  {
    TagReads(s[0], s[1..]);
  }

  lemma {:induction false} LeafDerived(s: Blob) returns (c: Code)
    requires Decode(s).Ok? && s[0] < 5
    ensures InRange(c) && s == CodeBytes(c, Decode(s).value.1) && Meaning(c) == Decode(s).value.0
  {
    TagDerived(s);
    var t := s[1..];
    if s[0] == 0 {
      c := NullCode;
    } else if s[0] == 1 {
      TagDerived(t);
      c := BoolCode(t[0]);
      assert s == [1, t[0]] + t[1..];
    } else if s[0] == 2 {
      Widths();
      ScalarDerived(t, 8);
      c := IntCode(FromBits(ReadScalar(t, 8).value.0));
    } else if s[0] == 3 {
      Widths();
      ScalarDerived(t, 8);
      c := NumCode(ReadScalar(t, 8).value.0);
    } else {
      StringDerived(t);
      c := StrCode(ReadString(t).value.0);
    }
  }

  lemma {:induction false} CodeDerived(s: Blob) returns (c: Code)
    requires Decode(s).Ok?
    ensures InRange(c) && s == CodeBytes(c, Decode(s).value.1) && Meaning(c) == Decode(s).value.0
    decreases |s|, 0
  {
    TagDerived(s);
    if s[0] < 5 {
      c := LeafDerived(s);
    } else {
      var t := s[1..];
      Widths();
      ScalarDerived(t, 8);
      var (count, rest) := ReadScalar(t, 8).value;
      if s[0] == 5 {
        var items := ItemsDerived(rest, count);
        c := ArrCode(items);
      } else {
        var fields := FieldsDerived(rest, count);
        c := ObjCode(fields);
        PutCollected(fields, Bare);
      }
    }
  }

  lemma {:induction false} ItemsDerived(s: Blob, count: nat) returns (items: ItemCodes)
    requires DecodeItems(s, count).Ok?
    ensures ItemsInRange(items) && ItemsCount(items) == count
    ensures s == ItemBytes(items, DecodeItems(s, count).value.1) && ItemsMeaning(items) == DecodeItems(s, count).value.0
    decreases |s|, 1
  {
    if count == 0 {
      items := NoItems;
    } else {
      var first := CodeDerived(s);
      var rest := ItemsDerived(Decode(s).value.1, count - 1);
      items := ItemCode(first, rest);
    }
  }

  lemma {:induction false} FieldsDerived(s: Blob, count: nat) returns (fields: FieldCodes)
    requires DecodeFields(s, count).Ok?
    ensures FieldsInRange(fields) && FieldsCount(fields) == count
    ensures s == FieldBytes(fields, DecodeFields(s, count).value.1) && Collected(fields) == DecodeFields(s, count).value.0
    decreases |s|, 1
  {
    if count == 0 {
      fields := NoFields;
    } else {
      StringDerived(s);
      var (key, s1) := ReadString(s).value;
      var value := CodeDerived(s1);
      var rest := FieldsDerived(Decode(s1).value.1, count - 1);
      fields := FieldCode(key, value, rest);
    }
  }

  /** A byte string decodes to a value and a rest if and only if it is a code of that value in front
      of that rest. */
  lemma {:induction false} DecodesIff(s: Blob, v: Value, rest: Blob)
    ensures Decode(s) == Ok((v, rest)) <==> exists c :: InRange(c) && s == CodeBytes(c, rest) && Meaning(c) == v
  {
    if Decode(s) == Ok((v, rest)) {
      var c := CodeDerived(s);
    }
    forall c | InRange(c) && s == CodeBytes(c, rest)
      ensures Decode(s) == Ok((Meaning(c), rest))
    {
      DecodeOfCode(c, rest);
    }
  }

  // ------------------------------------------------------------------
  // What is written
  // ------------------------------------------------------------------

  /** The code of a value that is written: 1 for true, and each field once, in key order. */
  function CodeOf(v: Value): Code {
    match v
    case Null => NullCode
    case Bool(b) => BoolCode(if b then 1 else 0)
    case Int(i) => IntCode(i)
    case Num(bits) => NumCode(bits)
    case Str(s) => StrCode(s)
    case Arr(items) => ArrCode(ItemsCode(items))
    case Obj(fields) => ObjCode(FieldsCode(fields))
  }

  function ItemsCode(items: Items): ItemCodes {
    match items
    case Nil => NoItems
    case Item(first, rest) => ItemCode(CodeOf(first), ItemsCode(rest))
  }

  function FieldsCode(fields: Fields): FieldCodes {
    match fields
    case Bare => NoFields
    case Field(key, value, rest) => FieldCode(key, CodeOf(value), FieldsCode(rest))
  }

  /** Writing a value writes that code. */
  lemma {:induction false} EncodeWrites(v: Value, follows: Blob)
    requires Storable(v)
    ensures InRange(CodeOf(v)) && Encode(v) + follows == CodeBytes(CodeOf(v), follows)
    decreases v
  {
    match v
    case Null =>
    case Bool(b) =>
    case Int(i) => ConcatAssoc([2], Le(ToBits(i), 8), follows);
    case Num(bits) => ConcatAssoc([3], Le(bits, 8), follows);
    case Str(s) =>
      ConcatAssoc([4], StringBytes(s), follows);
      ConcatAssoc(Le(|s|, 8), s, follows);
    case Arr(items) =>
      ItemsWrite(items, follows);
      CountedWrites(5, Length(items), EncodeItems(items), follows);
    case Obj(fields) =>
      FieldsWrite(fields, follows);
      CountedWrites(6, FieldCount(fields), EncodeFields(fields), follows);
  }

  lemma {:induction false} CountedWrites(tag: Byte, count: nat, body: Blob, follows: Blob)
    ensures ([tag] + (Le(count, 8) + body)) + follows == [tag] + (Le(count, 8) + (body + follows))
  {
    ConcatAssoc([tag], Le(count, 8) + body, follows);
    ConcatAssoc(Le(count, 8), body, follows);
  }

  lemma {:induction false} ItemsWrite(items: Items, follows: Blob)
    requires ItemsStorable(items)
    ensures ItemsInRange(ItemsCode(items)) && ItemsCount(ItemsCode(items)) == Length(items)
    ensures EncodeItems(items) + follows == ItemBytes(ItemsCode(items), follows)
    decreases items
  {
    if items.Item? {
      ConcatAssoc(Encode(items.first), EncodeItems(items.rest), follows);
      ItemsWrite(items.rest, follows);
      EncodeWrites(items.first, ItemBytes(ItemsCode(items.rest), follows));
    }
  }

  lemma {:induction false} FieldsWrite(fields: Fields, follows: Blob)
    requires FieldsStorable(fields)
    ensures FieldsInRange(FieldsCode(fields)) && FieldsCount(FieldsCode(fields)) == FieldCount(fields)
    ensures EncodeFields(fields) + follows == FieldBytes(FieldsCode(fields), follows)
    decreases fields
  {
    if fields.Field? {
      var key, value, more := fields.key, Encode(fields.value), EncodeFields(fields.rest);
      ConcatAssoc(StringBytes(key), value + more, follows);
      ConcatAssoc(value, more, follows);
      ConcatAssoc(Le(|key|, 8), key, value + (more + follows));
      FieldsWrite(fields.rest, follows);
      EncodeWrites(fields.value, FieldBytes(FieldsCode(fields.rest), follows));
    }
  }
}
