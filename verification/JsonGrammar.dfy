/** JSON texts as RFC 8259 spells them.

A document is a derivation of the grammar: it says how each token is spelled and which
white space stands around it. Characters are written here by their code points.
 */
module JsonGrammar {
  import opened Bytes
  import opened Values
  import opened JsonText
  import opened JsonCharacters
  import opened JsonNumbers

  datatype Doc =
    | NullDoc
    | BoolDoc(b: bool)
    | NumberDoc(number: Number)
    | StringDoc(chars: seq<Char>)
    | ArrayDoc(gap: Blob, elements: Elements)
    | ObjectDoc(gap: Blob, members: Members)

  datatype Elements = NoElements | Element(before: Blob, doc: Doc, after: Blob, rest: Elements)

  datatype Members =
    | NoMembers
    | Member(before: Blob, key: seq<Char>, beforeColon: Blob, afterColon: Blob, doc: Doc, after: Blob, rest: Members)

  predicate Spelled(d: Doc) {
    match d
    case NumberDoc(n) => SpelledNumber(n)
    case StringDoc(cs) => SpelledChars(cs)
    case ArrayDoc(gap, elements) => Gap(gap) && SpelledElements(elements)
    case ObjectDoc(gap, members) => Gap(gap) && SpelledMembers(members)
    case _ => true
  }

  predicate SpelledElements(es: Elements) {
    match es
    case NoElements => true
    case Element(before, doc, after, rest) => Gap(before) && Spelled(doc) && Gap(after) && SpelledElements(rest)
  }

  predicate SpelledMembers(ms: Members) {
    match ms
    case NoMembers => true
    case Member(before, key, beforeColon, afterColon, doc, after, rest) =>
      && Gap(before) && SpelledChars(key) && Gap(beforeColon) && Gap(afterColon)
      && Spelled(doc) && Gap(after) && SpelledMembers(rest)
  }

  // ------------------------------------------------------------------
  // Texts, in front of what follows them
  // ------------------------------------------------------------------

  function Spell(d: Doc, follows: Blob): Blob
    requires Spelled(d)
  {
    match d
    case NullDoc => [0x6e, 0x75, 0x6c, 0x6c] + follows
    case BoolDoc(b) => if b then [0x74, 0x72, 0x75, 0x65] + follows else [0x66, 0x61, 0x6c, 0x73, 0x65] + follows
    case NumberDoc(n) => NumberBytes(n) + follows
    case StringDoc(cs) => [0x22] + SpellChars(cs, follows)
    case ArrayDoc(gap, elements) => [0x5b] + (gap + SpellElements(elements, follows))
    case ObjectDoc(gap, members) => [0x7b] + (gap + SpellMembers(members, follows))
  }

  /** The elements, with commas between them, and the closing bracket. */
  function SpellElements(es: Elements, follows: Blob): Blob
    requires SpelledElements(es)
  {
    match es
    case NoElements => [0x5d] + follows
    case Element(before, doc, after, rest) => before + Spell(doc, after + MoreElements(rest, follows))
  }

  function MoreElements(es: Elements, follows: Blob): Blob
    requires SpelledElements(es)
  {
    match es
    case NoElements => [0x5d] + follows
    case Element(before, doc, after, rest) => [0x2c] + (before + Spell(doc, after + MoreElements(rest, follows)))
  }

  /** A key, a colon and a value for each member, with commas between them, and the closing brace. */
  function SpellMembers(ms: Members, follows: Blob): Blob
    requires SpelledMembers(ms)
  {
    match ms
    case NoMembers => [0x7d] + follows
    case Member(before, key, beforeColon, afterColon, doc, after, rest) =>
      before + SpellKey(key, beforeColon, afterColon, Spell(doc, after + MoreMembers(rest, follows)))
  }

  function SpellKey(key: seq<Char>, beforeColon: Blob, afterColon: Blob, follows: Blob): Blob
    requires SpelledChars(key)
  {
    [0x22] + SpellChars(key, beforeColon + ([0x3a] + (afterColon + follows)))
  }

  function MoreMembers(ms: Members, follows: Blob): Blob
    requires SpelledMembers(ms)
  {
    match ms
    case NoMembers => [0x7d] + follows
    case Member(before, key, beforeColon, afterColon, doc, after, rest) =>
      [0x2c] + (before + SpellKey(key, beforeColon, afterColon, Spell(doc, after + MoreMembers(rest, follows))))
  }

  // ------------------------------------------------------------------
  // What a document denotes
  // ------------------------------------------------------------------

  function Denotes(reals: Reals, d: Doc): (r: Result<Value>)
    requires Spelled(d)
    ensures r.Err? ==> r.error == Malformed
    decreases d
  {
    match d
    case NullDoc => Ok(Null)
    case BoolDoc(b) => Ok(Bool(b))
    case NumberDoc(n) => NumberDenotes(reals, n)
    case StringDoc(cs) => Ok(Str(CharsText(cs)))
    case ArrayDoc(_, elements) =>
      var items :- ElementsDenote(reals, elements);
      Ok(Arr(items))
    case ObjectDoc(_, members) =>
      var fields :- MembersDenote(reals, members, Bare);
      Ok(Obj(fields))
  }

  function ElementsDenote(reals: Reals, es: Elements): (r: Result<Items>)
    requires SpelledElements(es)
    ensures r.Err? ==> r.error == Malformed
    decreases es
  {
    match es
    case NoElements => Ok(Nil)
    case Element(_, doc, _, rest) =>
      var first :- Denotes(reals, doc);
      var more :- ElementsDenote(reals, rest);
      Ok(Item(first, more))
  }

  /** The fields of the members and those before them. A key may not come twice. */
  function MembersDenote(reals: Reals, ms: Members, fields: Fields): (r: Result<Fields>)
    requires SpelledMembers(ms)
    ensures r.Err? ==> r.error == Malformed
    decreases ms
  {
    match ms
    case NoMembers => Ok(fields)
    case Member(_, key, _, _, doc, _, rest) =>
      if HasField(fields, CharsText(key)) then Err(Malformed) else
      var value :- Denotes(reals, doc);
      MembersDenote(reals, rest, PutField(fields, CharsText(key), value))
  }

  // ------------------------------------------------------------------
  // Spelled documents read as what they denote
  // ------------------------------------------------------------------

  lemma {:induction false} SpellLeads(d: Doc, follows: Blob)
    requires Spelled(d)
    ensures var s := Spell(d, follows);
            s != [] && Dark(s) && s[0] != 0x5d && s[0] != 0x7d && s[0] != 0x2c
  {
    if d.NumberDoc? {
      NumberLeads(d.number, follows);
    }
  }

  lemma {:induction false} MoreEnds(es: Elements, after: Blob, follows: Blob)
    requires SpelledElements(es) && Gap(after)
    ensures var more := MoreElements(es, follows);
            && more != [] && Dark(more) && Ends(after + more)
            && (es.NoElements? ==> more[0] == 0x5d && more[1..] == follows)
            && (es.Element? ==> more[0] == 0x2c && more[1..] == SpellElements(es, follows))
  {
    var more := MoreElements(es, follows);
    assert after == [] ==> after + more == more;
    assert after != [] ==> (after + more)[0] == after[0];
  }

  lemma {:induction false} MoreMembersEnd(ms: Members, after: Blob, follows: Blob)
    requires SpelledMembers(ms) && Gap(after)
    ensures var more := MoreMembers(ms, follows);
            && more != [] && Dark(more) && Ends(after + more)
            && (ms.NoMembers? ==> more[0] == 0x7d && more[1..] == follows)
            && (ms.Member? ==> more[0] == 0x2c && more[1..] == SpellMembers(ms, follows))
  {
    var more := MoreMembers(ms, follows);
    assert after == [] ==> after + more == more;
    assert after != [] ==> (after + more)[0] == after[0];
  }

  lemma {:induction false} LiteralSpelled(reals: Reals, d: Doc, follows: Blob)
    requires d.NullDoc? || d.BoolDoc?
    ensures ParseValue(reals, Spell(d, follows)) == Before(Denotes(reals, d), follows)
  {
    ConcatParts(NULL_TEXT, follows);
    ConcatParts(TRUE_TEXT, follows);
    ConcatParts(FALSE_TEXT, follows);
  }

  lemma {:induction false} StringSpelled(reals: Reals, cs: seq<Char>, follows: Blob)
    requires SpelledChars(cs)
    ensures ParseString([0x22] + SpellChars(cs, follows)) == Ok((CharsText(cs), follows))
    ensures ParseValue(reals, [0x22] + SpellChars(cs, follows)) == Ok((Str(CharsText(cs)), follows))
  {
    ConcatParts([0x22], SpellChars(cs, follows));
    CharsSpelled(cs, follows);
  }

  lemma {:induction false} NumberDocSpelled(reals: Reals, n: Number, follows: Blob)
    requires SpelledNumber(n) && Ends(follows)
    ensures ParseValue(reals, NumberBytes(n) + follows) == Before(NumberDenotes(reals, n), follows)
  {
    NumberLeads(n, follows);
    NumberChosen(reals, NumberBytes(n) + follows);
    NumberSpelled(reals, n, follows);
  }

  /** A document's text reads as what the document denotes, and leaves what follows it. */
  lemma {:induction false} ParseOfSpell(reals: Reals, d: Doc, follows: Blob)
    requires Spelled(d) && Ends(follows)
    ensures ParseValue(reals, Spell(d, follows)) == Before(Denotes(reals, d), follows)
    decreases d
  {
    match d
    case NumberDoc(n) => NumberDocSpelled(reals, n, follows);
    case StringDoc(cs) => StringSpelled(reals, cs, follows);
    case ArrayDoc(gap, elements) =>
      if elements.Element? {
        ElementsRead(reals, elements, follows);
      }
      ArraySpelled(reals, gap, elements, follows);
    case ObjectDoc(gap, members) =>
      if members.Member? {
        MembersRead(reals, members, Bare, follows);
      }
      ObjectSpelled(reals, gap, members, follows);
    case _ => LiteralSpelled(reals, d, follows);
  }

  lemma {:induction false} SkipsAre(reals: Reals, gap: Blob, s: Blob)
    requires Gap(gap)
    ensures SkipSpace(gap + s) == SkipSpace(s)
    ensures ParseItems(reals, gap + s) == ParseItems(reals, s)
    ensures forall before :: ParseFields(reals, gap + s, before) == ParseFields(reals, s, before)
    ensures ParseKey(gap + s) == ParseKey(s)
  {
    var inner := GapDerived(s);
    ConcatAssoc(gap, inner, SkipSpace(s));
    GapSkipped(gap + inner, SkipSpace(s));
  }

  lemma {:induction false} SkipsAgain(reals: Reals, s: Blob)
    ensures ParseItems(reals, SkipSpace(s)) == ParseItems(reals, s)
    ensures ParseFields(reals, SkipSpace(s), Bare) == ParseFields(reals, s, Bare)
  {
    var gap := GapDerived(s);
    SkipsAre(reals, gap, SkipSpace(s));
  }

  lemma {:induction false} ArraySpelled(reals: Reals, gap: Blob, es: Elements, follows: Blob)
    requires Gap(gap) && SpelledElements(es)
    requires es.Element? ==> ParseItems(reals, SpellElements(es, follows)) == Before(ElementsDenote(reals, es), follows)
    ensures ParseValue(reals, Spell(ArrayDoc(gap, es), follows)) == Before(Denotes(reals, ArrayDoc(gap, es)), follows)
  {
    var inner := SpellElements(es, follows);
    ConcatParts([0x5b], gap + inner);
    SkipsAre(reals, gap, inner);
    if es.Element? {
      var first := Spell(es.doc, es.after + MoreElements(es.rest, follows));
      SpellLeads(es.doc, es.after + MoreElements(es.rest, follows));
      GapSkipped(es.before, first);
      SkipsAgain(reals, inner);
    } else {
      GapSkipped([], inner);
      assert [] + inner == inner;
      assert inner[1..] == follows;
    }
  }

  /** One element and what comes after it. */
  lemma {:induction false} ElementRead(reals: Reals, before: Blob, s: Blob, first: Result<Value>, after: Blob, more: Blob)
    requires Gap(before) && Dark(s) && Gap(after) && Dark(more)
    requires ParseValue(reals, s) == Before(first, after + more) && more != [] && (more[0] == 0x5d || more[0] == 0x2c)
    ensures ParseItems(reals, before + s)
            == if first.Err? then Err(first.error)
               else if more[0] == 0x5d then Ok((Item(first.value, Nil), more[1..]))
               else OntoItem(first.value, ParseItems(reals, more[1..]))
  {
    GapSkipped(before, s);
    GapSkipped(after, more);
  }

  lemma {:induction false} ElementsRead(reals: Reals, es: Elements, follows: Blob)
    requires SpelledElements(es) && es.Element?
    ensures ParseItems(reals, SpellElements(es, follows)) == Before(ElementsDenote(reals, es), follows)
    decreases es
  {
    var more := MoreElements(es.rest, follows);
    MoreEnds(es.rest, es.after, follows);
    SpellLeads(es.doc, es.after + more);
    ParseOfSpell(reals, es.doc, es.after + more);
    ElementRead(reals, es.before, Spell(es.doc, es.after + more), Denotes(reals, es.doc), es.after, more);
    if es.rest.Element? {
      ElementsRead(reals, es.rest, follows);
    }
  }

  lemma {:induction false} FirstMember(ms: Members, gap: Blob, follows: Blob)
    requires Gap(gap) && SpelledMembers(ms)
    ensures var inner := SkipSpace(gap + SpellMembers(ms, follows));
            && inner == SkipSpace(SpellMembers(ms, follows)) && inner != []
            && (ms.Member? ==> inner[0] == 0x22) && (ms.NoMembers? ==> inner == [0x7d] + follows)
  {
    var s := SpellMembers(ms, follows);
    if ms.Member? {
      var first := SpellKey(ms.key, ms.beforeColon, ms.afterColon, Spell(ms.doc, ms.after + MoreMembers(ms.rest, follows)));
      ConcatAssoc(gap, ms.before, first);
      GapSkipped(gap + ms.before, first);
      GapSkipped(ms.before, first);
    } else {
      GapSkipped(gap, s);
      GapSkipped([], s);
      assert [] + s == s;
    }
  }

  lemma {:induction false} ObjectTaken(reals: Reals, s: Blob)
    ensures var inner := SkipSpace(s);
            ParseValue(reals, [0x7b] + s) == if Starts(inner, CLOSE_BRACE) then Ok((Obj(Bare), inner[1..]))
                                             else ObjectOf(ParseFields(reals, inner, Bare))
  {
    ConcatParts([0x7b], s);
  }

  function ObjectOf(r: Result<(Fields, Blob)>): Result<(Value, Blob)> {
    match r
    case Ok((fields, rest)) => Ok((Obj(fields), rest))
    case Err(e) => Err(e)
  }

  lemma {:induction false} EmptySpelled(reals: Reals, gap: Blob, follows: Blob)
    requires Gap(gap)
    ensures ParseValue(reals, Spell(ObjectDoc(gap, NoMembers), follows)) == Ok((Obj(Bare), follows))
  {
    ObjectTaken(reals, gap + SpellMembers(NoMembers, follows));
    FirstMember(NoMembers, gap, follows);
    assert ([0x7d] + follows)[1..] == follows;
  }

  lemma {:induction false} ObjectSpelled(reals: Reals, gap: Blob, ms: Members, follows: Blob)
    requires Gap(gap) && SpelledMembers(ms)
    requires ms.Member? ==> ParseFields(reals, SpellMembers(ms, follows), Bare) == Before(MembersDenote(reals, ms, Bare), follows)
    ensures ParseValue(reals, Spell(ObjectDoc(gap, ms), follows)) == Before(Denotes(reals, ObjectDoc(gap, ms)), follows)
  {
    if ms.Member? {
      ObjectTaken(reals, gap + SpellMembers(ms, follows));
      FirstMember(ms, gap, follows);
      SkipsAgain(reals, SpellMembers(ms, follows));
    } else {
      EmptySpelled(reals, gap, follows);
    }
  }

  lemma {:induction false} KeySpelled(reals: Reals, before: Blob, key: seq<Char>, beforeColon: Blob, afterColon: Blob, s: Blob)
    requires Gap(before) && SpelledChars(key) && Gap(beforeColon) && Gap(afterColon) && Dark(s)
    ensures ParseKey(before + SpellKey(key, beforeColon, afterColon, s)) == Ok((CharsText(key), s))
  {
    var colon := [0x3a] + (afterColon + s);
    GapSkipped(before, SpellKey(key, beforeColon, afterColon, s));
    StringSpelled(reals, key, beforeColon + colon);
    GapSkipped(beforeColon, colon);
    ConcatParts([0x3a], afterColon + s);
    GapSkipped(afterColon, s);
  }

  /** One member and what comes after it. */
  lemma {:induction false} MemberRead(reals: Reals, t: Blob, key: Blob, s: Blob, value: Result<Value>, after: Blob, more: Blob, fields: Fields)
    requires ParseKey(t) == Ok((key, s)) && Gap(after) && Dark(more)
    requires ParseValue(reals, s) == Before(value, after + more) && more != [] && (more[0] == 0x7d || more[0] == 0x2c)
    ensures ParseFields(reals, t, fields)
            == if HasField(fields, key) then Err(Malformed)
               else if value.Err? then Err(value.error)
               else if more[0] == 0x7d then Ok((PutField(fields, key, value.value), more[1..]))
               else ParseFields(reals, more[1..], PutField(fields, key, value.value))
  {
    GapSkipped(after, more);
  }

  lemma {:induction false} MembersRead(reals: Reals, ms: Members, fields: Fields, follows: Blob)
    requires SpelledMembers(ms) && ms.Member?
    ensures ParseFields(reals, SpellMembers(ms, follows), fields) == Before(MembersDenote(reals, ms, fields), follows)
    decreases ms
  {
    var more := MoreMembers(ms.rest, follows);
    var s := Spell(ms.doc, ms.after + more);
    MoreMembersEnd(ms.rest, ms.after, follows);
    SpellLeads(ms.doc, ms.after + more);
    ParseOfSpell(reals, ms.doc, ms.after + more);
    KeySpelled(reals, ms.before, ms.key, ms.beforeColon, ms.afterColon, s);
    var value := Denotes(reals, ms.doc);
    MemberRead(reals, SpellMembers(ms, follows), CharsText(ms.key), s, value, ms.after, more, fields);
    if ms.rest.Member? && value.Ok? {
      MembersRead(reals, ms.rest, PutField(fields, CharsText(ms.key), value.value), follows);
    }
  }

  // ------------------------------------------------------------------
  // Every text that is read is spelled so
  // ------------------------------------------------------------------

  lemma {:induction false} LiteralDerived(reals: Reals, s: Blob) returns (d: Doc)
    requires ParseValue(reals, s).Ok? && s[0] in {0x6e, 0x74, 0x66}
    ensures Spelled(d) && s == Spell(d, ParseValue(reals, s).value.1) && Denotes(reals, d) == Ok(ParseValue(reals, s).value.0)
  {
    d := if s[0] == 0x6e then NullDoc else BoolDoc(s[0] == 0x74);
    var text := if s[0] == 0x6e then NULL_TEXT else if s[0] == 0x74 then TRUE_TEXT else FALSE_TEXT;
    assert s == text + s[|text|..];
  }

  lemma {:induction false} DocDerived(reals: Reals, s: Blob) returns (d: Doc)
    requires ParseValue(reals, s).Ok?
    ensures Spelled(d) && s == Spell(d, ParseValue(reals, s).value.1) && Denotes(reals, d) == Ok(ParseValue(reals, s).value.0)
    decreases |s|, 2
  {
    if s[0] in {0x6e, 0x74, 0x66} {
      d := LiteralDerived(reals, s);
    } else if s[0] == 0x22 {
      var cs := CharsDerived(s[1..]);
      assert s == [0x22] + s[1..];
      d := StringDoc(cs);
    } else if s[0] == 0x5b {
      d := ArrayDerived(reals, s);
    } else if s[0] == 0x7b {
      d := ObjectDerived(reals, s);
    } else {
      var n := NumberDerived(reals, s);
      d := NumberDoc(n);
    }
  }

  lemma {:induction false} ArrayDerived(reals: Reals, s: Blob) returns (d: Doc)
    requires ParseValue(reals, s).Ok? && s[0] == 0x5b
    ensures Spelled(d) && s == Spell(d, ParseValue(reals, s).value.1) && Denotes(reals, d) == Ok(ParseValue(reals, s).value.0)
    decreases |s|, 0
  {
    var gap := GapDerived(s[1..]);
    var inner := SkipSpace(s[1..]);
    assert s == [0x5b] + s[1..];
    if Starts(inner, CLOSE_BRACKET) {
      assert inner == [0x5d] + inner[1..];
      d := ArrayDoc(gap, NoElements);
    } else {
      var es := ElementsDerived(reals, inner);
      d := ArrayDoc(gap, es);
    }
  }

  lemma {:induction false} ElementsDerived(reals: Reals, s: Blob) returns (es: Elements)
    requires ParseItems(reals, s).Ok?
    ensures SpelledElements(es) && es.Element? && s == SpellElements(es, ParseItems(reals, s).value.1)
    ensures ElementsDenote(reals, es) == Ok(ParseItems(reals, s).value.0)
    decreases |s|, 3
  {
    var before := GapDerived(s);
    var t := SkipSpace(s);
    var doc := DocDerived(reals, t);
    var s1 := ParseValue(reals, t).value.1;
    var after := GapDerived(s1);
    var s2 := SkipSpace(s1);
    assert s2 == [s2[0]] + s2[1..];
    if Starts(s2, CLOSE_BRACKET) {
      es := Element(before, doc, after, NoElements);
    } else {
      var rest := ElementsDerived(reals, s2[1..]);
      es := Element(before, doc, after, rest);
    }
  }

  lemma {:induction false} ObjectDerived(reals: Reals, s: Blob) returns (d: Doc)
    requires ParseValue(reals, s).Ok? && s[0] == 0x7b
    ensures Spelled(d) && s == Spell(d, ParseValue(reals, s).value.1) && Denotes(reals, d) == Ok(ParseValue(reals, s).value.0)
    decreases |s|, 0
  {
    var gap := GapDerived(s[1..]);
    var inner := SkipSpace(s[1..]);
    assert s == [0x7b] + s[1..];
    if Starts(inner, CLOSE_BRACE) {
      assert inner == [0x7d] + inner[1..];
      d := ObjectDoc(gap, NoMembers);
    } else {
      var ms := MembersDerived(reals, inner, Bare);
      d := ObjectDoc(gap, ms);
    }
  }

  lemma {:induction false} StringDerived(s: Blob) returns (cs: seq<Char>)
    requires ParseString(s).Ok?
    ensures SpelledChars(cs) && CharsText(cs) == ParseString(s).value.0 && s == [0x22] + SpellChars(cs, ParseString(s).value.1)
  {
    cs := CharsDerived(s[1..]);
    assert s == [0x22] + s[1..];
  }

  lemma {:induction false} Headed(s: Blob, c: Byte)
    requires Starts(s, c)
    ensures s == [c] + s[1..]
  {
  }

  lemma {:induction false} ColonDerived(s: Blob) returns (beforeColon: Blob, afterColon: Blob)
    requires Starts(SkipSpace(s), COLON)
    ensures Gap(beforeColon) && Gap(afterColon) && s == beforeColon + ([0x3a] + (afterColon + SkipSpace(SkipSpace(s)[1..])))
  {
    beforeColon := GapDerived(s);
    var t := SkipSpace(s);
    Headed(t, COLON);
    afterColon := GapDerived(t[1..]);
  }

  lemma {:induction false} KeyDerived(s: Blob) returns (before: Blob, key: seq<Char>, beforeColon: Blob, afterColon: Blob)
    requires ParseKey(s).Ok?
    ensures Gap(before) && SpelledChars(key) && Gap(beforeColon) && Gap(afterColon) && CharsText(key) == ParseKey(s).value.0
    ensures s == before + SpellKey(key, beforeColon, afterColon, ParseKey(s).value.1)
  {
    before := GapDerived(s);
    key := StringDerived(SkipSpace(s));
    beforeColon, afterColon := ColonDerived(ParseString(SkipSpace(s)).value.1);
  }

  lemma {:induction false} MembersDerived(reals: Reals, s: Blob, fields: Fields) returns (ms: Members)
    requires ParseFields(reals, s, fields).Ok?
    ensures SpelledMembers(ms) && ms.Member? && s == SpellMembers(ms, ParseFields(reals, s, fields).value.1)
    ensures MembersDenote(reals, ms, fields) == Ok(ParseFields(reals, s, fields).value.0)
    decreases |s|, 1
  {
    var before, key, beforeColon, afterColon := KeyDerived(s);
    var s1 := ParseKey(s).value.1;
    var doc := DocDerived(reals, s1);
    var s2 := ParseValue(reals, s1).value.1;
    var after := GapDerived(s2);
    var s3 := SkipSpace(s2);
    assert s3 == [s3[0]] + s3[1..];
    if Starts(s3, CLOSE_BRACE) {
      ms := Member(before, key, beforeColon, afterColon, doc, after, NoMembers);
    } else {
      var rest := MembersDerived(reals, s3[1..], PutField(fields, CharsText(key), ParseValue(reals, s1).value.0));
      ms := Member(before, key, beforeColon, afterColon, doc, after, rest);
    }
  }

  // ------------------------------------------------------------------
  // Whole texts
  // ------------------------------------------------------------------

  /** A document with white space around it. */
  predicate TextOf(s: Blob, before: Blob, d: Doc, after: Blob) {
    Gap(before) && Spelled(d) && Gap(after) && s == before + Spell(d, after)
  }

  /** A document's text, with any white space around it, parses to what the document denotes. */
  lemma {:induction false} ParseOfText(reals: Reals, s: Blob, before: Blob, d: Doc, after: Blob)
    requires TextOf(s, before, d, after)
    ensures Parse(reals, s) == Denotes(reals, d)
  {
    SpellLeads(d, after);
    GapSkipped(before, Spell(d, after));
    ParseOfSpell(reals, d, after);
    GapSkipped(after, []);
    assert after + [] == after;
  }

  /** A text parses to a value if and only if it is the text of a document that denotes it. */
  lemma {:induction false} ParsesIff(reals: Reals, s: Blob, v: Value)
    ensures Parse(reals, s) == Ok(v) <==> exists before, d, after :: TextOf(s, before, d, after) && Denotes(reals, d) == Ok(v)
  {
    if Parse(reals, s) == Ok(v) {
      var before := GapDerived(s);
      var t := SkipSpace(s);
      var d := DocDerived(reals, t);
      var rest := ParseValue(reals, t).value.1;
      var after := GapDerived(rest);
      assert after + [] == after;
      assert TextOf(s, before, d, after);
    }
    forall before, d, after | TextOf(s, before, d, after)
      ensures Parse(reals, s) == Denotes(reals, d)
    {
      ParseOfText(reals, s, before, d, after);
    }
  }

  // ------------------------------------------------------------------
  // What objects denote
  // ------------------------------------------------------------------

  /** The texts of the keys, in order. */
  function KeysOf(ms: Members): seq<Blob>
    requires SpelledMembers(ms)
  {
    match ms
    case NoMembers => []
    case Member(_, key, _, _, _, _, rest) => [CharsText(key)] + KeysOf(rest)
  }

  predicate MembersMean(reals: Reals, ms: Members)
    requires SpelledMembers(ms)
  {
    match ms
    case NoMembers => true
    case Member(_, _, _, _, doc, _, rest) => Denotes(reals, doc).Ok? && MembersMean(reals, rest)
  }

  /** What the members say, one by one. */
  function MeaningMap(reals: Reals, ms: Members): map<Blob, Value>
    requires SpelledMembers(ms) && MembersMean(reals, ms)
  {
    match ms
    case NoMembers => map[]
    case Member(_, key, _, _, doc, _, rest) => MeaningMap(reals, rest)[CharsText(key) := Denotes(reals, doc).value]
  }

  predicate Different(keys: seq<Blob>) {
    forall i, j | 0 <= i < j < |keys| :: keys[i] != keys[j]
  }

  lemma {:induction false} MeaningKeys(reals: Reals, ms: Members, key: Blob)
    requires SpelledMembers(ms) && MembersMean(reals, ms)
    ensures key in MeaningMap(reals, ms) <==> key in KeysOf(ms)
    decreases ms
  {
    if ms.Member? {
      MeaningKeys(reals, ms.rest, key);
    }
  }

  /** No key of the members is among the fields. */
  predicate Apart(fields: Fields, keys: seq<Blob>) {
    forall i | 0 <= i < |keys| :: !HasField(fields, keys[i])
  }

  lemma {:induction false} DifferentFrom(first: Blob, keys: seq<Blob>)
    ensures Different([first] + keys) <==> first !in keys && Different(keys)
  {
    if Different([first] + keys) {
      assert ([first] + keys)[0] == first;
      forall i | 0 <= i < |keys|
        ensures first != keys[i]
      {
        assert ([first] + keys)[i + 1] == keys[i];
      }
      forall i, j | 0 <= i < j < |keys|
        ensures keys[i] != keys[j]
      {
        assert ([first] + keys)[i + 1] == keys[i] && ([first] + keys)[j + 1] == keys[j];
      }
    }
  }

  lemma {:induction false} ApartFrom(fields: Fields, key: Blob, value: Value, keys: seq<Blob>)
    requires Ordered(fields)
    ensures Apart(PutField(fields, key, value), keys) <==> Apart(fields, keys) && key !in keys
  {
    PutMaps(fields, key, value);
    forall i | 0 <= i < |keys|
      ensures HasField(PutField(fields, key, value), keys[i]) <==> HasField(fields, keys[i]) || keys[i] == key
    {
      MapHas(fields, keys[i]);
      MapHas(PutField(fields, key, value), keys[i]);
    }
  }

  lemma {:induction false} ApartAll(fields: Fields, key: Blob, keys: seq<Blob>)
    ensures Apart(fields, [key] + keys) <==> !HasField(fields, key) && Apart(fields, keys)
  {
    assert ([key] + keys)[0] == key;
    assert forall i | 0 <= i < |keys| :: ([key] + keys)[i + 1] == keys[i];
  }

  lemma {:induction false} MembersOkIff(reals: Reals, ms: Members, fields: Fields)
    requires SpelledMembers(ms) && Ordered(fields)
    ensures MembersDenote(reals, ms, fields).Ok? <==> MembersMean(reals, ms) && Different(KeysOf(ms)) && Apart(fields, KeysOf(ms))
    decreases ms
  {
    if ms.Member? {
      var key, keys := CharsText(ms.key), KeysOf(ms.rest);
      DifferentFrom(key, keys);
      ApartAll(fields, key, keys);
      if Denotes(reals, ms.doc).Ok? {
        var value := Denotes(reals, ms.doc).value;
        PutOrdered(fields, key, value);
        ApartFrom(fields, key, value, keys);
        MembersOkIff(reals, ms.rest, PutField(fields, key, value));
      }
    }
  }

  lemma {:induction false} JoinUpdated<K, V>(a: map<K, V>, key: K, value: V, b: map<K, V>)
    requires key !in b
    ensures a[key := value] + b == a + b[key := value]
  {
  }

  /** What the members add to the fields before them. */
  lemma {:induction false} MembersAdd(reals: Reals, ms: Members, fields: Fields)
    requires SpelledMembers(ms) && Ordered(fields) && MembersDenote(reals, ms, fields).Ok?
    ensures MembersMean(reals, ms) && Ordered(MembersDenote(reals, ms, fields).value)
    ensures FieldMap(MembersDenote(reals, ms, fields).value) == FieldMap(fields) + MeaningMap(reals, ms)
    decreases ms
  {
    MembersOkIff(reals, ms, fields);
    if ms.Member? {
      var key, value := CharsText(ms.key), Denotes(reals, ms.doc).value;
      DifferentFrom(key, KeysOf(ms.rest));
      PutMaps(fields, key, value);
      PutOrdered(fields, key, value);
      MembersAdd(reals, ms.rest, PutField(fields, key, value));
      MeaningKeys(reals, ms.rest, key);
      JoinUpdated(FieldMap(fields), key, value, MeaningMap(reals, ms.rest));
    }
  }

  /** An object denotes a value if and only if its members do and no key comes twice. Its fields are
      then in key order, and each is what the member with that key denotes. */
  lemma {:induction false} ObjectMeans(reals: Reals, gap: Blob, ms: Members)
    requires Gap(gap) && SpelledMembers(ms)
    ensures var r := Denotes(reals, ObjectDoc(gap, ms));
            && (r.Ok? <==> MembersMean(reals, ms) && Different(KeysOf(ms)))
            && (r.Ok? ==> r.value.Obj? && Ordered(r.value.fields) && FieldMap(r.value.fields) == MeaningMap(reals, ms))
  {
    MembersOkIff(reals, ms, Bare);
    if MembersDenote(reals, ms, Bare).Ok? {
      MembersAdd(reals, ms, Bare);
    }
  }
}
