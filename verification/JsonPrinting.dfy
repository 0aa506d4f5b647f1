/** What the printer writes, as a document of the grammar. */
module JsonPrinting {
  import opened Bytes
  import opened Values
  import opened ValueCodec
  import opened JsonText
  import opened JsonCharacters
  import opened JsonNumbers
  import opened JsonGrammar

  /** The one way in which the printer writes each byte of a string. */
  predicate Plainest(c: Char) {
    match c
    case Plain(_) => true
    case Short(letter) => letter != 0x2f
    case Unit(code, cases) =>
      code < 0x20 && code != 0x08 && code != 0x09 && code != 0x0a && code != 0x0c && code != 0x0d
      && cases == [false, false, false, false]
    case Pair(_, _, _, _) => false
  }

  predicate PlainestChars(cs: seq<Char>) {
    forall i | 0 <= i < |cs| :: Plainest(cs[i])
  }

  /** No white space, and strings without escapes that are not needed. */
  predicate Compact(d: Doc) {
    match d
    case StringDoc(cs) => PlainestChars(cs)
    case ArrayDoc(gap, elements) => gap == [] && CompactElements(elements)
    case ObjectDoc(gap, members) => gap == [] && CompactMembers(members)
    case _ => true
  }

  predicate CompactElements(es: Elements) {
    match es
    case NoElements => true
    case Element(before, doc, after, rest) => before == [] && Compact(doc) && after == [] && CompactElements(rest)
  }

  predicate CompactMembers(ms: Members) {
    match ms
    case NoMembers => true
    case Member(before, key, beforeColon, afterColon, doc, after, rest) =>
      && before == [] && PlainestChars(key) && beforeColon == [] && afterColon == []
      && Compact(doc) && after == [] && CompactMembers(rest)
  }

  /** Every double's text is a number. */
  predicate Finite(reals: Reals, v: Value) {
    match v
    case Num(bits) => NumberText(reals.text(bits))
    case Arr(items) => ItemsFinite(reals, items)
    case Obj(fields) => FieldsFinite(reals, fields)
    case _ => true
  }

  predicate ItemsFinite(reals: Reals, items: Items) {
    match items
    case Nil => true
    case Item(first, rest) => Finite(reals, first) && ItemsFinite(reals, rest)
  }

  predicate FieldsFinite(reals: Reals, fields: Fields) {
    match fields
    case Bare => true
    case Field(_, value, rest) => Finite(reals, value) && FieldsFinite(reals, rest)
  }

  // ------------------------------------------------------------------
  // Strings
  // ------------------------------------------------------------------

  function CharOf(b: Byte): (c: Char)
    ensures SpelledChar(c) && Plainest(c)
  {
    if b == 0x22 || b == 0x5c then Short(b)
    else if b == 0x08 then Short(0x62)
    else if b == 0x0c then Short(0x66)
    else if b == 0x0a then Short(0x6e)
    else if b == 0x0d then Short(0x72)
    else if b == 0x09 then Short(0x74)
    else if b < 0x20 then Unit(b as nat, [false, false, false, false])
    else Plain(b)
  }

  function CharsOf(s: Blob): (cs: seq<Char>)
    ensures SpelledChars(cs) && PlainestChars(cs)
  {
    seq(|s|, i requires 0 <= i < |s| => CharOf(s[i]))
  }

  lemma {:induction false} CharPrints(b: Byte, follows: Blob)
    ensures PrintChar(b) + follows == SpellChar(CharOf(b), follows)
  {
    if CharOf(b).Unit? {
      var cases := [false, false, false, false];
      assert HexText(b as nat, cases) == [48, 48, Hex(b as nat / 16), Hex(b as nat % 16)];
      assert PrintChar(b) == [0x5c, 0x75] + HexText(b as nat, cases);
      ConcatAssoc([0x5c, 0x75], HexText(b as nat, cases), follows);
    }
  }

  lemma {:induction false} CharsPrint(s: Blob, follows: Blob)
    ensures PrintChars(s) + ([0x22] + follows) == SpellChars(CharsOf(s), follows)
    decreases |s|
  {
    if s == [] {
      assert [] + ([0x22] + follows) == [0x22] + follows;
    } else {
      assert CharsOf(s)[1..] == CharsOf(s[1..]);
      ConcatAssoc(PrintChar(s[0]), PrintChars(s[1..]), [0x22] + follows);
      CharsPrint(s[1..], follows);
      CharPrints(s[0], SpellChars(CharsOf(s[1..]), follows));
    }
  }

  lemma {:induction false} StringPrints(s: Blob, follows: Blob)
    ensures PrintString(s) + follows == [0x22] + SpellChars(CharsOf(s), follows)
  {
    ConcatAssoc([0x22], PrintChars(s) + [0x22], follows);
    ConcatAssoc(PrintChars(s), [0x22], follows);
    CharsPrint(s, follows);
  }

  // ------------------------------------------------------------------
  // Values
  // ------------------------------------------------------------------

  lemma {:induction false} NumberPrints(t: Blob) returns (n: Number)
    requires NumberText(t)
    ensures SpelledNumber(n) && NumberBytes(n) == t
  {
    n := SpanDerived(t);
    assert t[..|t|] == t;
  }

  lemma {:induction false} IntPrints(i: int) returns (n: Number)
    ensures SpelledNumber(n) && NumberBytes(n) == PrintInt(i) && !Floating(n) && WholeValue(n) == i
  {
    var digits := PrintDigits(if i < 0 then -i else i);
    DigitsLead(if i < 0 then -i else i);
    DigitsDenote(if i < 0 then -i else i);
    n := Number(i < 0, digits, None, None);
    assert TailBytes(n) == [];
    assert digits + [] == digits;
    assert [] + digits == digits;
  }

  /** The text of a value is the compact text of a document. */
  lemma {:induction false} PrintSpells(reals: Reals, v: Value, follows: Blob) returns (d: Doc)
    requires Finite(reals, v)
    ensures Spelled(d) && Compact(d) && PrintValue(reals, v) + follows == Spell(d, follows)
    decreases v
  {
    match v
    case Null => d := NullDoc;
    case Bool(b) => d := BoolDoc(b);
    case Int(i) =>
      var n := IntPrints(i);
      d := NumberDoc(n);
    case Num(bits) =>
      var n := NumberPrints(reals.text(bits));
      d := NumberDoc(n);
    case Str(s) =>
      StringPrints(s, follows);
      d := StringDoc(CharsOf(s));
    case Arr(items) =>
      var es := ItemsPrint(reals, items, follows);
      d := ArrayDoc([], es);
      Bracketed(0x5b, PrintItems(reals, items), follows);
    case Obj(fields) =>
      var ms := FieldsPrint(reals, fields, follows);
      d := ObjectDoc([], ms);
      Bracketed(0x7b, PrintFields(reals, fields), follows);
  }

  lemma {:induction false} Bracketed(bracket: Byte, inner: Blob, follows: Blob)
    ensures ([bracket] + inner) + follows == [bracket] + ([] + (inner + follows))
  {
    ConcatAssoc([bracket], inner, follows);
    assert [] + (inner + follows) == inner + follows;
  }

  lemma {:induction false} ItemsPrint(reals: Reals, items: Items, follows: Blob) returns (es: Elements)
    requires ItemsFinite(reals, items)
    ensures SpelledElements(es) && CompactElements(es) && (es.Element? <==> items.Item?)
    ensures PrintItems(reals, items) + follows == SpellElements(es, follows)
    ensures PrintMoreItems(reals, items) + follows == MoreElements(es, follows)
    decreases items
  {
    if items.Nil? {
      es := NoElements;
    } else {
      var value, more := PrintValue(reals, items.first), PrintMoreItems(reals, items.rest);
      var rest := ItemsPrint(reals, items.rest, follows);
      var doc := PrintSpells(reals, items.first, MoreElements(rest, follows));
      es := Element([], doc, [], rest);
      ConcatAssoc(value, more, follows);
      ConcatAssoc([0x2c], value + more, follows);
      NoGaps(MoreElements(rest, follows), Spell(doc, MoreElements(rest, follows)));
    }
  }

  lemma {:induction false} NoGaps(after: Blob, s: Blob)
    ensures [] + after == after && [] + s == s
  {
  }

  lemma {:induction false} FieldsPrint(reals: Reals, fields: Fields, follows: Blob) returns (ms: Members)
    requires FieldsFinite(reals, fields)
    ensures SpelledMembers(ms) && CompactMembers(ms) && (ms.Member? <==> fields.Field?)
    ensures PrintFields(reals, fields) + follows == SpellMembers(ms, follows)
    ensures PrintMoreFields(reals, fields) + follows == MoreMembers(ms, follows)
    decreases fields
  {
    if fields.Bare? {
      ms := NoMembers;
    } else {
      var rest := FieldsPrint(reals, fields.rest, follows);
      var after := MoreMembers(rest, follows);
      var doc := PrintSpells(reals, fields.value, after);
      ms := Member([], CharsOf(fields.key), [], [], doc, [], rest);
      FieldText(reals, fields, follows);
      StringPrints(fields.key, [0x3a] + Spell(doc, after));
      ConcatAssoc([0x2c], PrintFields(reals, fields), follows);
      NoGaps(after, Spell(doc, after));
      NoGaps([0x3a] + Spell(doc, after), SpellMembers(ms, follows));
    }
  }
}
