/** JSON text of value trees (RFC 8259): what the parser accepts and the printer writes.

Text is bytes. Converting doubles to and from text is a parameter.
 */
module JsonText {
  import opened Bytes
  import opened Values
  import opened ValueCodec

  const QUOTE: Byte := 34
  const COMMA: Byte := 44
  const MINUS: Byte := 45
  const DOT: Byte := 46
  const ZERO: Byte := 48
  const NINE: Byte := 57
  const COLON: Byte := 58
  const OPEN_BRACKET: Byte := 91
  const BACKSLASH: Byte := 92
  const CLOSE_BRACKET: Byte := 93
  const OPEN_BRACE: Byte := 123
  const CLOSE_BRACE: Byte := 125

  const NULL_TEXT: Blob := [110, 117, 108, 108]
  const TRUE_TEXT: Blob := [116, 114, 117, 101]
  const FALSE_TEXT: Blob := [102, 97, 108, 115, 101]

  /** The value of a number's text as a finite double, if it has one, and the text of a double. */
  datatype Reals = Reals(parse: Blob -> Option<nat>, text: nat -> Blob)

  // ------------------------------------------------------------------
  // Lexical parts
  // ------------------------------------------------------------------

  predicate IsSpace(c: Byte) {
    c == 32 || c == 10 || c == 13 || c == 9
  }

  function SkipSpace(s: Blob): (r: Blob)
    ensures |r| <= |s|
    decreases |s|
  {
    if s != [] && IsSpace(s[0]) then SkipSpace(s[1..]) else s
  }

  predicate Starts(s: Blob, c: Byte) {
    s != [] && s[0] == c
  }

  /** A literal name. */
  function Expect(s: Blob, text: Blob, v: Value): (r: Result<(Value, Blob)>)
    ensures r.Ok? ==> |r.value.1| == |s| - |text|
  {
    if text <= s then Ok((v, s[|text|..])) else Err(Malformed)
  }

  predicate IsDigit(c: Byte) {
    ZERO <= c <= NINE
  }

  /** How many digits the text begins with. */
  function DigitCount(s: Blob): (n: nat)
    ensures n <= |s|
    ensures forall i | 0 <= i < n :: IsDigit(s[i])
    ensures n < |s| ==> !IsDigit(s[n])
    decreases |s|
  {
    if s != [] && IsDigit(s[0]) then 1 + DigitCount(s[1..]) else 0
  }

  // ------------------------------------------------------------------
  // Numbers
  // ------------------------------------------------------------------

  /** At least one digit; a leading zero stands alone. */
  function IntegerPart(s: Blob): (r: Result<nat>)
    ensures r.Ok? ==> 0 < r.value <= |s|
  {
    if Starts(s, ZERO) then (if |s| > 1 && IsDigit(s[1]) then Err(Malformed) else Ok(1))
    else if DigitCount(s) == 0 then Err(Malformed)
    else Ok(DigitCount(s))
  }

  function Fraction(s: Blob): (r: Result<nat>)
    ensures r.Ok? ==> r.value <= |s|
  {
    if !Starts(s, DOT) then Ok(0)
    else if DigitCount(s[1..]) == 0 then Err(Malformed)
    else Ok(1 + DigitCount(s[1..]))
  }

  function SignCount(s: Blob): (n: nat)
    ensures n <= |s|
  {
    if s != [] && (s[0] == 43 || s[0] == MINUS) then 1 else 0
  }

  function SignedDigits(s: Blob): (r: Result<nat>)
    ensures r.Ok? ==> r.value <= |s|
  {
    var sign := SignCount(s);
    if DigitCount(s[sign..]) == 0 then Err(Malformed) else Ok(sign + DigitCount(s[sign..]))
  }

  function Exponent(s: Blob): (r: Result<nat>)
    ensures r.Ok? ==> r.value <= |s|
  {
    if !Starts(s, 101) && !Starts(s, 69) then Ok(0) else
    var n :- SignedDigits(s[1..]);
    Ok(1 + n)
  }

  /** The length of a fraction and an exponent, which may both be missing. */
  function NumberTail(s: Blob): (r: Result<nat>)
    ensures r.Ok? ==> r.value <= |s|
  {
    var fraction :- Fraction(s);
    var exponent :- Exponent(s[fraction..]);
    Ok(fraction + exponent)
  }

  /** The length of a number's text without its sign, and whether it has a fraction or an exponent. */
  function Magnitude(s: Blob): (r: Result<(nat, bool)>)
    ensures r.Ok? ==> 0 < r.value.0 <= |s|
  {
    var whole :- IntegerPart(s);
    var tail :- NumberTail(s[whole..]);
    Ok((whole + tail, tail > 0))
  }

  function NumberSpan(s: Blob): (r: Result<(nat, bool)>)
    ensures r.Ok? ==> 0 < r.value.0 <= |s|
  {
    if !Starts(s, MINUS) then Magnitude(s) else
    var (length, floating) :- Magnitude(s[1..]);
    Ok((1 + length, floating))
  }

  function Decimal(s: Blob): (n: nat)
    requires forall i | 0 <= i < |s| :: IsDigit(s[i])
    decreases |s|
  {
    if s == [] then 0 else
    assert IsDigit(s[|s| - 1]);
    10 * Decimal(s[..|s| - 1]) + (s[|s| - 1] as nat - 48)
  }

  /** The integer a text without fraction and exponent denotes. */
  function IntegerValue(text: Blob): Option<int> {
    var sign := if Starts(text, MINUS) then 1 else 0;
    if forall i | 0 <= i < |text[sign..]| :: IsDigit(text[sign..][i])
    then Some(if sign == 1 then 0 - Decimal(text[sign..]) else Decimal(text[sign..]))
    else None
  }

  predicate InRange(i: int) {
    -TWO63 <= i < TWO63
  }

  /** Integers that fit 64 bits stay integers; every other number becomes a double. */
  function NumberValue(reals: Reals, text: Blob, floating: bool): Result<Value> {
    var i := IntegerValue(text);
    if !floating && i.Some? && InRange(i.value) then Ok(Int(i.value))
    else match reals.parse(text)
      case Some(bits) => Ok(Num(bits))
      case None => Err(Malformed)
  }

  function ParseNumber(reals: Reals, s: Blob): (r: Result<(Value, Blob)>)
    ensures r.Ok? ==> |r.value.1| < |s|
  {
    var (length, floating) :- NumberSpan(s);
    var v :- NumberValue(reals, s[..length], floating);
    Ok((v, s[length..]))
  }

  // ------------------------------------------------------------------
  // Strings
  // ------------------------------------------------------------------

  function HexDigit(c: Byte): nat {
    if ZERO <= c <= NINE then (c - ZERO) as nat
    else if 97 <= c <= 102 then (c - 87) as nat
    else if 65 <= c <= 70 then (c - 55) as nat
    else 16
  }

  function ParseHex(s: Blob): (r: Result<(nat, Blob)>)
    ensures r.Ok? ==> |r.value.1| + 4 == |s| && r.value.0 < TWO16
  {
    if |s| < 4 then Err(Malformed)
    else if HexDigit(s[0]) == 16 || HexDigit(s[1]) == 16 || HexDigit(s[2]) == 16 || HexDigit(s[3]) == 16 then Err(Malformed)
    else Ok((((HexDigit(s[0]) * 16 + HexDigit(s[1])) * 16 + HexDigit(s[2])) * 16 + HexDigit(s[3]), s[4..]))
  }

  /** The UTF-8 bytes of a code point. */
  function Utf8(code: nat): Blob
    requires code < 0x11_0000
  {
    if code <= 0x7f then [code as Byte]
    else if code <= 0x7ff then [(0xc0 + code / 64) as Byte, (0x80 + code % 64) as Byte]
    else if code <= 0xffff then [(0xe0 + code / 4096) as Byte, (0x80 + code / 64 % 64) as Byte, (0x80 + code % 64) as Byte]
    else [(0xf0 + code / 262144) as Byte, (0x80 + code / 4096 % 64) as Byte, (0x80 + code / 64 % 64) as Byte,
          (0x80 + code % 64) as Byte]
  }

  /** The second half of a surrogate pair. */
  function LowSurrogate(s: Blob): (r: Result<(nat, Blob)>)
    ensures r.Ok? ==> |r.value.1| < |s| && 0xdc00 <= r.value.0 <= 0xdfff
  {
    if |s| < 6 || s[0] != BACKSLASH || s[1] != 117 then Err(Malformed) else
    var (low, rest) :- ParseHex(s[2..]);
    if low < 0xdc00 || low > 0xdfff then Err(Malformed) else Ok((low, rest))
  }

  function UnicodeEscape(s: Blob): (r: Result<(Blob, Blob)>)
    ensures r.Ok? ==> |r.value.1| < |s|
  {
    var (code, rest) :- ParseHex(s);
    if 0xd800 <= code <= 0xdbff then
      var (low, left) :- LowSurrogate(rest);
      Ok((Utf8(0x10000 + (code - 0xd800) * 1024 + (low - 0xdc00)), left))
    else if 0xdc00 <= code <= 0xdfff then Err(Malformed)
    else Ok((Utf8(code), rest))
  }

  /** What follows a backslash. */
  function Escape(s: Blob): (r: Result<(Blob, Blob)>)
    ensures r.Ok? ==> |r.value.1| < |s|
  {
    if s == [] then Err(Malformed)
    else if s[0] == QUOTE || s[0] == BACKSLASH || s[0] == 47 then Ok(([s[0]], s[1..]))
    else if s[0] == 98 then Ok(([8], s[1..]))
    else if s[0] == 102 then Ok(([12], s[1..]))
    else if s[0] == 110 then Ok(([10], s[1..]))
    else if s[0] == 114 then Ok(([13], s[1..]))
    else if s[0] == 116 then Ok(([9], s[1..]))
    else if s[0] == 117 then UnicodeEscape(s[1..])
    else Err(Malformed)
  }

  /** The characters up to the closing quote. */
  function ParseChars(s: Blob): (r: Result<(Blob, Blob)>)
    ensures r.Ok? ==> |r.value.1| < |s|
    decreases |s|
  {
    if s == [] then Err(Malformed)
    else if s[0] == QUOTE then Ok(([], s[1..]))
    else if s[0] < 0x20 then Err(Malformed)
    else if s[0] != BACKSLASH then
      var (more, rest) :- ParseChars(s[1..]);
      Ok(([s[0]] + more, rest))
    else
      var (c, left) :- Escape(s[1..]);
      var (more, rest) :- ParseChars(left);
      Ok((c + more, rest))
  }

  function ParseString(s: Blob): (r: Result<(Blob, Blob)>)
    ensures r.Ok? ==> |r.value.1| < |s|
  {
    if !Starts(s, QUOTE) then Err(Malformed) else ParseChars(s[1..])
  }

  function StringValue(r: Result<(Blob, Blob)>): Result<(Value, Blob)> {
    match r
    case Ok((text, rest)) => Ok((Str(text), rest))
    case Err(e) => Err(e)
  }

  // ------------------------------------------------------------------
  // Values
  // ------------------------------------------------------------------

  function ParseValue(reals: Reals, s: Blob): (r: Result<(Value, Blob)>)
    ensures r.Ok? ==> |r.value.1| < |s|
    decreases |s|, 0
  {
    if s == [] then Err(Malformed)
    else if s[0] == 110 then Expect(s, NULL_TEXT, Null)
    else if s[0] == 116 then Expect(s, TRUE_TEXT, Bool(true))
    else if s[0] == 102 then Expect(s, FALSE_TEXT, Bool(false))
    else if s[0] == QUOTE then StringValue(ParseString(s))
    else if s[0] == OPEN_BRACKET then ParseArray(reals, s[1..])
    else if s[0] == OPEN_BRACE then ParseObject(reals, s[1..])
    else ParseNumber(reals, s)
  }

  function ParseArray(reals: Reals, s: Blob): (r: Result<(Value, Blob)>)
    ensures r.Ok? ==> |r.value.1| < |s|
    decreases |s|, 2
  {
    var s1 := SkipSpace(s);
    if Starts(s1, CLOSE_BRACKET) then Ok((Arr(Nil), s1[1..])) else
    var (items, rest) :- ParseItems(reals, s1);
    Ok((Arr(items), rest))
  }

  /** Items up to the closing bracket. */
  function ParseItems(reals: Reals, s: Blob): (r: Result<(Items, Blob)>)
    ensures r.Ok? ==> |r.value.1| < |s|
    decreases |s|, 1
  {
    var (first, s1) :- ParseValue(reals, SkipSpace(s));
    var s2 := SkipSpace(s1);
    if Starts(s2, CLOSE_BRACKET) then Ok((Item(first, Nil), s2[1..]))
    else if !Starts(s2, COMMA) then Err(Malformed)
    else
      var (more, rest) :- ParseItems(reals, s2[1..]);
      Ok((Item(first, more), rest))
  }

  function ParseObject(reals: Reals, s: Blob): (r: Result<(Value, Blob)>)
    ensures r.Ok? ==> |r.value.1| < |s|
    decreases |s|, 2
  {
    var s1 := SkipSpace(s);
    if Starts(s1, CLOSE_BRACE) then Ok((Obj(Bare), s1[1..])) else
    var (fields, rest) :- ParseFields(reals, s1, Bare);
    Ok((Obj(fields), rest))
  }

  /** A key and the colon after it. */
  function ParseKey(s: Blob): (r: Result<(Blob, Blob)>)
    ensures r.Ok? ==> |r.value.1| < |s|
  {
    var (key, s1) :- ParseString(SkipSpace(s));
    var s2 := SkipSpace(s1);
    if !Starts(s2, COLON) then Err(Malformed) else Ok((key, SkipSpace(s2[1..])))
  }

  /** Fields up to the closing brace, added to those before them; a key may not come twice. */
  function ParseFields(reals: Reals, s: Blob, before: Fields): (r: Result<(Fields, Blob)>)
    ensures r.Ok? ==> |r.value.1| < |s|
    decreases |s|, 1
  {
    var (key, s1) :- ParseKey(s);
    if HasField(before, key) then Err(Malformed) else
    var (value, s2) :- ParseValue(reals, s1);
    var s3 := SkipSpace(s2);
    var fields := PutField(before, key, value);
    if Starts(s3, CLOSE_BRACE) then Ok((fields, s3[1..]))
    else if !Starts(s3, COMMA) then Err(Malformed)
    else ParseFields(reals, s3[1..], fields)
  }

  /** A whole text: one value, with nothing but space around it. */
  function Parse(reals: Reals, s: Blob): Result<Value> {
    var (v, rest) :- ParseValue(reals, SkipSpace(s));
    if SkipSpace(rest) != [] then Err(Malformed) else Ok(v)
  }

  // ------------------------------------------------------------------
  // Printing
  // ------------------------------------------------------------------

  function Hex(n: nat): Byte
    requires n < 16
  {
    if n < 10 then (48 + n) as Byte else (87 + n) as Byte
  }

  function PrintChar(c: Byte): (r: Blob)
    ensures r != []
  {
    if c == QUOTE then [BACKSLASH, QUOTE]
    else if c == BACKSLASH then [BACKSLASH, BACKSLASH]
    else if c == 8 then [BACKSLASH, 98]
    else if c == 12 then [BACKSLASH, 102]
    else if c == 10 then [BACKSLASH, 110]
    else if c == 13 then [BACKSLASH, 114]
    else if c == 9 then [BACKSLASH, 116]
    else if c < 0x20 then [BACKSLASH, 117, 48, 48, Hex(c as nat / 16), Hex(c as nat % 16)]
    else [c]
  }

  function PrintChars(s: Blob): Blob
    decreases |s|
  {
    if s == [] then [] else PrintChar(s[0]) + PrintChars(s[1..])
  }

  function PrintString(s: Blob): Blob {
    [QUOTE] + (PrintChars(s) + [QUOTE])
  }

  function PrintDigits(n: nat): (r: Blob)
    ensures r != [] && forall i | 0 <= i < |r| :: IsDigit(r[i])
  {
    if n < 10 then [(48 + n) as Byte] else PrintDigits(n / 10) + [(48 + n % 10) as Byte]
  }

  function PrintInt(i: int): Blob {
    if i < 0 then [MINUS] + PrintDigits(-i) else PrintDigits(i)
  }

  function PrintValue(reals: Reals, v: Value): Blob {
    match v
    case Null => NULL_TEXT
    case Bool(b) => if b then TRUE_TEXT else FALSE_TEXT
    case Int(i) => PrintInt(i)
    case Num(bits) => reals.text(bits)
    case Str(s) => PrintString(s)
    case Arr(items) => [OPEN_BRACKET] + PrintItems(reals, items)
    case Obj(fields) => [OPEN_BRACE] + PrintFields(reals, fields)
  }

  /** The items, separated by commas, and the closing bracket. */
  function PrintItems(reals: Reals, items: Items): Blob {
    match items
    case Nil => [CLOSE_BRACKET]
    case Item(first, rest) => PrintValue(reals, first) + PrintMoreItems(reals, rest)
  }

  function PrintMoreItems(reals: Reals, items: Items): Blob {
    if items.Nil? then [CLOSE_BRACKET]
    else [COMMA] + (PrintValue(reals, items.first) + PrintMoreItems(reals, items.rest))
  }

  function PrintFields(reals: Reals, fields: Fields): Blob {
    match fields
    case Bare => [CLOSE_BRACE]
    case Field(key, value, rest) => PrintString(key) + ([COLON] + (PrintValue(reals, value) + PrintMoreFields(reals, rest)))
  }

  function PrintMoreFields(reals: Reals, fields: Fields): Blob {
    if fields.Bare? then [CLOSE_BRACE]
    else [COMMA] + (PrintString(fields.key) + ([COLON] + (PrintValue(reals, fields.value) + PrintMoreFields(reals, fields.rest))))
  }

  // ------------------------------------------------------------------
  // Strings come back
  // ------------------------------------------------------------------

  function Prepend(c: Blob, r: Result<(Blob, Blob)>): Result<(Blob, Blob)> {
    match r
    case Ok((more, rest)) => Ok((c + more, rest))
    case Err(e) => Err(e)
  }

  lemma {:induction false} HexReads(n: nat)
    requires n < 16
    ensures HexDigit(Hex(n)) == n
  {
  }

  /** A control character without a short escape comes back from its hexadecimal one. */
  lemma {:induction false} ControlReads(c: Byte, rest: Blob)
    requires c < 0x20
    ensures Escape([117, 48, 48, Hex(c as nat / 16), Hex(c as nat % 16)] + rest) == Ok(([c], rest))
  {
    var s := [48, 48, Hex(c as nat / 16), Hex(c as nat % 16)] + rest;
    assert [117, 48, 48, Hex(c as nat / 16), Hex(c as nat % 16)] + rest == [117] + s;
    HexReads(c as nat / 16);
    HexReads(c as nat % 16);
    assert s[4..] == rest;
    assert ParseHex(s) == Ok((c as nat, rest));
    assert ([117] + s)[1..] == s;
  }

  lemma {:induction false} CharReads(c: Byte, rest: Blob)
    ensures ParseChars(PrintChar(c) + rest) == Prepend([c], ParseChars(rest))
  {
    var text := PrintChar(c);
    var s := text + rest;
    if |text| == 1 {
      assert s[1..] == rest;
    } else if |text| == 2 {
      assert s[1..] == [text[1]] + rest;
      assert s[1..][1..] == rest;
    } else {
      assert s[1..] == [117, 48, 48, Hex(c as nat / 16), Hex(c as nat % 16)] + rest;
      ControlReads(c, rest);
    }
  }

  lemma {:induction false} CharsRead(s: Blob, rest: Blob)
    ensures ParseChars(PrintChars(s) + ([QUOTE] + rest)) == Ok((s, rest))
    decreases |s|
  {
    var tail := [QUOTE] + rest;
    if s == [] {
      assert PrintChars(s) + tail == tail;
      assert tail[1..] == rest;
    } else {
      ConcatAssoc(PrintChar(s[0]), PrintChars(s[1..]), tail);
      CharReads(s[0], PrintChars(s[1..]) + tail);
      CharsRead(s[1..], rest);
      assert [s[0]] + s[1..] == s;
    }
  }

  /** Every byte string comes back from its JSON text. */
  lemma {:induction false} StringReads(s: Blob, rest: Blob)
    ensures ParseString(PrintString(s) + rest) == Ok((s, rest))
    ensures Starts(PrintString(s) + rest, QUOTE)
  {
    var inner := PrintChars(s) + [QUOTE];
    assert PrintString(s) + rest == [QUOTE] + (inner + rest);
    ConcatAssoc(PrintChars(s), [QUOTE], rest);
    assert ([QUOTE] + (inner + rest))[1..] == inner + rest;
    CharsRead(s, rest);
  }

  // ------------------------------------------------------------------
  // Integers come back
  // ------------------------------------------------------------------

  lemma {:induction false} DigitsDenote(n: nat)
    ensures Decimal(PrintDigits(n)) == n
  {
    var r := PrintDigits(n);
    if n < 10 {
      assert r[..0] == [];
    } else {
      assert r[..|r| - 1] == PrintDigits(n / 10);
      DigitsDenote(n / 10);
    }
  }

  /** Only zero begins with a zero. */
  lemma {:induction false} DigitsLead(n: nat)
    ensures n == 0 ==> PrintDigits(n) == [ZERO]
    ensures n > 0 ==> PrintDigits(n)[0] != ZERO
  {
    if n >= 10 {
      DigitsLead(n / 10);
    }
  }

  /** What may follow a value inside a text. */
  predicate Stops(rest: Blob) {
    rest == [] || rest[0] == COMMA || rest[0] == CLOSE_BRACKET || rest[0] == CLOSE_BRACE
  }

  lemma {:induction false} DigitsCounted(digits: Blob, rest: Blob)
    requires (forall i | 0 <= i < |digits| :: IsDigit(digits[i])) && (rest == [] || !IsDigit(rest[0]))
    ensures DigitCount(digits + rest) == |digits|
    decreases |digits|
  {
    if digits == [] {
      assert digits + rest == rest;
    } else {
      assert (digits + rest)[1..] == digits[1..] + rest;
      DigitsCounted(digits[1..], rest);
    }
  }

  lemma {:induction false} WholeReads(n: nat, rest: Blob)
    requires Stops(rest)
    ensures IntegerPart(PrintDigits(n) + rest) == Ok(|PrintDigits(n)|)
  {
    DigitsLead(n);
    DigitsCounted(PrintDigits(n), rest);
  }

  lemma {:induction false} NoFraction(rest: Blob)
    requires Stops(rest)
    ensures NumberTail(rest) == Ok(0)
  {
    assert rest[0..] == rest;
  }

  lemma {:induction false} MagnitudeReads(n: nat, rest: Blob)
    requires Stops(rest)
    ensures Magnitude(PrintDigits(n) + rest) == Ok((|PrintDigits(n)|, false))
  {
    WholeReads(n, rest);
    ConcatParts(PrintDigits(n), rest);
    NoFraction(rest);
  }

  lemma {:induction false} NegativeSpan(n: nat, rest: Blob)
    requires Stops(rest)
    ensures NumberSpan([MINUS] + PrintDigits(n) + rest) == Ok((1 + |PrintDigits(n)|, false))
  {
    ConcatAssoc([MINUS], PrintDigits(n), rest);
    ConcatParts([MINUS], PrintDigits(n) + rest);
    MagnitudeReads(n, rest);
  }

  lemma {:induction false} PositiveSpan(n: nat, rest: Blob)
    requires Stops(rest)
    ensures NumberSpan(PrintDigits(n) + rest) == Ok((|PrintDigits(n)|, false))
  {
    MagnitudeReads(n, rest);
    assert IsDigit(PrintDigits(n)[0]);
  }

  lemma {:induction false} SpanReads(i: int, rest: Blob)
    requires Stops(rest)
    ensures NumberSpan(PrintInt(i) + rest) == Ok((|PrintInt(i)|, false))
  {
    if i < 0 {
      NegativeSpan(-i, rest);
    } else {
      PositiveSpan(i, rest);
    }
  }

  lemma {:induction false} IntegerReads(i: int)
    ensures IntegerValue(PrintInt(i)) == Some(i)
  {
    var n: nat := if i < 0 then -i else i;
    var digits := PrintDigits(n);
    DigitsDenote(n);
    assert i >= 0 ==> IsDigit(PrintInt(i)[0]);
    assert PrintInt(i)[if i < 0 then 1 else 0..] == digits;
  }

  lemma {:induction false} NumberReads(reals: Reals, i: int, rest: Blob)
    requires InRange(i) && Stops(rest)
    ensures ParseNumber(reals, PrintInt(i) + rest) == Ok((Int(i), rest))
  {
    SpanReads(i, rest);
    IntegerReads(i);
    ConcatParts(PrintInt(i), rest);
  }

  // ------------------------------------------------------------------
  // Values come back
  // ------------------------------------------------------------------

  // What the text of a tree reads back as.

  /** The text is a number, all of it. */
  predicate NumberText(t: Blob) {
    NumberSpan(t).Ok? && NumberSpan(t).value.0 == |t|
  }

  /** The text of an infinity or of a value that is not a number: inf, nan, nan(...), or one of
      these after a minus sign. */
  predicate NonFiniteText(t: Blob) {
    var u := if Starts(t, MINUS) then t[1..] else t;
    Starts(u, 105) || (|u| > 1 && u[0] == 110 && u[1] == 97)
  }

  /** Integers of 64 bits, keys in order, and doubles whose text is a number or names a non-finite value. */
  predicate WellFormed(reals: Reals, v: Value) {
    match v
    case Int(i) => InRange(i)
    case Num(bits) => NumberText(reals.text(bits)) || NonFiniteText(reals.text(bits))
    case Arr(items) => ItemsFormed(reals, items)
    case Obj(fields) => Ordered(fields) && FieldsFormed(reals, fields)
    case _ => true
  }

  predicate ItemsFormed(reals: Reals, items: Items) {
    match items
    case Nil => true
    case Item(first, rest) => WellFormed(reals, first) && ItemsFormed(reals, rest)
  }

  predicate FieldsFormed(reals: Reals, fields: Fields) {
    match fields
    case Bare => true
    case Field(_, value, rest) => WellFormed(reals, value) && FieldsFormed(reals, rest)
  }

  /** What a double's text reads back as. */
  function EchoDouble(reals: Reals, bits: nat): Result<Value> {
    var t := reals.text(bits);
    if NumberText(t) then NumberValue(reals, t, NumberSpan(t).value.1) else Err(Malformed)
  }

  /** The tree with every double as its text reads back; nothing, if one of them cannot be read. */
  function Echo(reals: Reals, v: Value): Result<Value> {
    match v
    case Num(bits) => EchoDouble(reals, bits)
    case Arr(items) =>
      var echoed :- EchoItems(reals, items);
      Ok(Arr(echoed))
    case Obj(fields) =>
      var echoed :- EchoFields(reals, fields);
      Ok(Obj(echoed))
    case _ => Ok(v)
  }

  function EchoItems(reals: Reals, items: Items): Result<Items> {
    match items
    case Nil => Ok(Nil)
    case Item(first, rest) =>
      var one :- Echo(reals, first);
      var more :- EchoItems(reals, rest);
      Ok(Item(one, more))
  }

  function EchoFields(reals: Reals, fields: Fields): (r: Result<Fields>)
    ensures r.Ok? ==> (r.value.Field? <==> fields.Field?) && (fields.Field? ==> r.value.key == fields.key)
  {
    match fields
    case Bare => Ok(Bare)
    case Field(key, value, rest) =>
      var one :- Echo(reals, value);
      var more :- EchoFields(reals, rest);
      Ok(Field(key, one, more))
  }

  /** A double comes back if its text is a number that converts to it and does not read as an
      integer of 64 bits. */
  predicate KeepsDouble(reals: Reals, bits: nat) {
    var t := reals.text(bits);
    && NumberText(t) && reals.parse(t) == Some(bits)
    && (NumberSpan(t).value.1 || IntegerValue(t).None? || !InRange(IntegerValue(t).value))
  }

  /** All of the tree's doubles come back. */
  predicate Printable(reals: Reals, v: Value) {
    match v
    case Num(bits) => KeepsDouble(reals, bits)
    case Arr(items) => ItemsPrintable(reals, items)
    case Obj(fields) => FieldsPrintable(reals, fields)
    case _ => true
  }

  predicate ItemsPrintable(reals: Reals, items: Items) {
    match items
    case Nil => true
    case Item(first, rest) => Printable(reals, first) && ItemsPrintable(reals, rest)
  }

  predicate FieldsPrintable(reals: Reals, fields: Fields) {
    match fields
    case Bare => true
    case Field(_, value, rest) => Printable(reals, value) && FieldsPrintable(reals, rest)
  }

  /** A tree reads back as itself if and only if all of its doubles do. */
  lemma {:induction false} EchoIff(reals: Reals, v: Value)
    ensures Echo(reals, v) == Ok(v) <==> Printable(reals, v)
    decreases v
  {
    match v
    case Arr(items) => EchoItemsIff(reals, items);
    case Obj(fields) => EchoFieldsIff(reals, fields);
    case _ =>
  }

  lemma {:induction false} EchoItemsIff(reals: Reals, items: Items)
    ensures EchoItems(reals, items) == Ok(items) <==> ItemsPrintable(reals, items)
    decreases items
  {
    if items.Item? {
      EchoIff(reals, items.first);
      EchoItemsIff(reals, items.rest);
    }
  }

  lemma {:induction false} EchoFieldsIff(reals: Reals, fields: Fields)
    ensures EchoFields(reals, fields) == Ok(fields) <==> FieldsPrintable(reals, fields)
    decreases fields
  {
    if fields.Field? {
      EchoIff(reals, fields.value);
      EchoFieldsIff(reals, fields.rest);
    }
  }

  // A number's text reads the same with something after it.

  lemma {:induction false} DigitsExtend(s: Blob, rest: Blob)
    requires Stops(rest)
    ensures DigitCount(s + rest) == DigitCount(s)
    decreases |s|
  {
    if s == [] {
      assert s + rest == rest;
    } else {
      assert (s + rest)[1..] == s[1..] + rest;
      DigitsExtend(s[1..], rest);
    }
  }

  lemma {:induction false} WholeExtends(s: Blob, rest: Blob)
    requires Stops(rest)
    ensures IntegerPart(s + rest) == IntegerPart(s)
  {
    DigitsExtend(s, rest);
    if s == [] {
      assert s + rest == rest;
    }
  }

  lemma {:induction false} FractionExtends(s: Blob, rest: Blob)
    requires Stops(rest)
    ensures Fraction(s + rest) == Fraction(s)
  {
    if s == [] {
      assert s + rest == rest;
    } else {
      ConcatDrop(s, rest, 1);
      DigitsExtend(s[1..], rest);
    }
  }

  lemma {:induction false} SignedExtends(s: Blob, rest: Blob)
    requires Stops(rest)
    ensures SignedDigits(s + rest) == SignedDigits(s)
  {
    if s == [] {
      assert s + rest == rest;
    }
    var sign := SignCount(s);
    ConcatDrop(s, rest, sign);
    DigitsExtend(s[sign..], rest);
  }

  lemma {:induction false} ExponentExtends(s: Blob, rest: Blob)
    requires Stops(rest)
    ensures Exponent(s + rest) == Exponent(s)
  {
    if s == [] {
      assert s + rest == rest;
    } else {
      ConcatDrop(s, rest, 1);
      SignedExtends(s[1..], rest);
    }
  }

  lemma {:induction false} TailExtends(s: Blob, rest: Blob)
    requires Stops(rest)
    ensures NumberTail(s + rest) == NumberTail(s)
  {
    FractionExtends(s, rest);
    if Fraction(s).Ok? {
      ConcatDrop(s, rest, Fraction(s).value);
      ExponentExtends(s[Fraction(s).value..], rest);
    }
  }

  function WithTail(whole: nat, tail: Result<nat>): Result<(nat, bool)> {
    match tail
    case Ok(n) => Ok((whole + n, n > 0))
    case Err(e) => Err(e)
  }

  lemma {:induction false} MagnitudeSplits(s: Blob)
    ensures Magnitude(s) == if IntegerPart(s).Ok? then WithTail(IntegerPart(s).value, NumberTail(s[IntegerPart(s).value..]))
                            else Err(IntegerPart(s).error)
  {
  }

  lemma {:induction false} MagnitudeExtends(s: Blob, rest: Blob)
    requires Stops(rest)
    ensures Magnitude(s + rest) == Magnitude(s)
  {
    var whole := IntegerPart(s);
    WholeExtends(s, rest);
    MagnitudeSplits(s);
    MagnitudeSplits(s + rest);
    if whole.Ok? {
      var left := s[whole.value..];
      ConcatDrop(s, rest, whole.value);
      TailExtends(left, rest);
    }
  }

  lemma {:induction false} SpanExtends(s: Blob, rest: Blob)
    requires s != [] && Stops(rest)
    ensures NumberSpan(s + rest) == NumberSpan(s)
  {
    assert Starts(s + rest, MINUS) == Starts(s, MINUS);
    if Starts(s, MINUS) {
      ConcatDrop(s, rest, 1);
      MagnitudeExtends(s[1..], rest);
    } else {
      MagnitudeExtends(s, rest);
    }
  }

  /** What was read, and what follows it. */
  function Before<T>(r: Result<T>, rest: Blob): Result<(T, Blob)> {
    match r
    case Ok(v) => Ok((v, rest))
    case Err(e) => Err(e)
  }

  lemma {:induction false} NumberTextLeads(t: Blob)
    requires NumberText(t)
    ensures t != [] && (t[0] == MINUS || IsDigit(t[0]))
  {
  }

  lemma {:induction false} NumberTextReads(reals: Reals, t: Blob, rest: Blob)
    requires NumberText(t) && Stops(rest)
    ensures ParseNumber(reals, t + rest) == Before(NumberValue(reals, t, NumberSpan(t).value.1), rest)
  {
    SpanExtends(t, rest);
    ConcatParts(t, rest);
  }

  lemma {:induction false} NonFiniteFails(reals: Reals, t: Blob, rest: Blob)
    requires NonFiniteText(t)
    ensures ParseValue(reals, t + rest) == Err(Malformed) && !NumberText(t)
  {
    var s := t + rest;
    if Starts(t, MINUS) {
      ConcatDrop(t, rest, 1);
      assert s[1..][0] == t[1..][0];
    } else if t[0] == 110 {
      assert s[1] == 97;
    }
  }

  lemma {:induction false} DoubleReads(reals: Reals, bits: nat, rest: Blob)
    requires WellFormed(reals, Num(bits)) && Stops(rest)
    ensures ParseValue(reals, PrintValue(reals, Num(bits)) + rest) == Before(EchoDouble(reals, bits), rest)
  {
    var t := reals.text(bits);
    if NumberText(t) {
      NumberTextLeads(t);
      assert (t + rest)[0] == t[0];
      NumberChosen(reals, t + rest);
      NumberTextReads(reals, t, rest);
    } else {
      NonFiniteFails(reals, t, rest);
    }
  }

  /** The text of a value begins with neither space nor a closing bracket. */
  lemma {:induction false} ValueLeads(reals: Reals, v: Value, rest: Blob)
    requires WellFormed(reals, v)
    ensures var s := PrintValue(reals, v) + rest;
            s != [] && SkipSpace(s) == s && s[0] != CLOSE_BRACKET
  {
    var s := PrintValue(reals, v) + rest;
    match v
    case Int(i) => IntLeads(i, rest);
    case Num(bits) => DoubleLeads(reals.text(bits), rest);
    case Str(t) => assert s[0] == QUOTE;
    case Arr(items) => assert s[0] == OPEN_BRACKET;
    case Obj(fields) => assert s[0] == OPEN_BRACE;
    case _ =>
  }

  lemma {:induction false} DoubleLeads(t: Blob, rest: Blob)
    requires NumberText(t) || NonFiniteText(t)
    ensures var s := t + rest; s != [] && SkipSpace(s) == s && s[0] != CLOSE_BRACKET
  {
    if NumberText(t) {
      NumberTextLeads(t);
    }
    assert (t + rest)[0] == t[0];
  }

  lemma {:induction false} NumberChosen(reals: Reals, s: Blob)
    requires s != [] && (s[0] == MINUS || IsDigit(s[0]))
    ensures ParseValue(reals, s) == ParseNumber(reals, s)
  {
  }

  lemma {:induction false} IntLeads(i: int, rest: Blob)
    ensures var s := PrintInt(i) + rest; s != [] && (s[0] == MINUS || IsDigit(s[0]))
  {
    if i >= 0 {
      assert IsDigit(PrintDigits(i)[0]);
    }
  }

  lemma {:induction false} IntReads(reals: Reals, i: int, rest: Blob)
    requires InRange(i) && Stops(rest)
    ensures ParseValue(reals, PrintInt(i) + rest) == Ok((Int(i), rest))
  {
    IntLeads(i, rest);
    NumberChosen(reals, PrintInt(i) + rest);
    NumberReads(reals, i, rest);
  }

  lemma {:induction false} LiteralReads(reals: Reals, v: Value, rest: Blob)
    requires v.Null? || v.Bool?
    ensures ParseValue(reals, PrintValue(reals, v) + rest) == Ok((v, rest))
  {
    ConcatParts(PrintValue(reals, v), rest);
  }

  lemma {:induction false} StrReads(reals: Reals, t: Blob, rest: Blob)
    ensures ParseValue(reals, PrintString(t) + rest) == Ok((Str(t), rest))
  {
    StringReads(t, rest);
  }

  function OntoItem(first: Value, r: Result<(Items, Blob)>): Result<(Items, Blob)> {
    match r
    case Ok((items, rest)) => Ok((Item(first, items), rest))
    case Err(e) => Err(e)
  }

  lemma {:induction false} ItemsStep(reals: Reals, s: Blob, first: Result<Value>, more: Blob)
    requires SkipSpace(s) == s && ParseValue(reals, s) == Before(first, more)
    requires Starts(more, CLOSE_BRACKET) || Starts(more, COMMA)
    ensures ParseItems(reals, s) == if first.Err? then Err(first.error)
                                    else if Starts(more, CLOSE_BRACKET) then Ok((Item(first.value, Nil), more[1..]))
                                    else OntoItem(first.value, ParseItems(reals, more[1..]))
  {
    assert SkipSpace(more) == more;
  }

  lemma {:induction false} ArrayReads(reals: Reals, items: Items, rest: Blob)
    requires ItemsFormed(reals, items)
    requires items.Item? ==> ParseItems(reals, PrintItems(reals, items) + rest) == Before(EchoItems(reals, items), rest)
    ensures ParseValue(reals, PrintValue(reals, Arr(items)) + rest) == Before(Echo(reals, Arr(items)), rest)
  {
    var inner := PrintItems(reals, items) + rest;
    ConcatAssoc([OPEN_BRACKET], PrintItems(reals, items), rest);
    ConcatParts([OPEN_BRACKET], inner);
    if items.Item? {
      ConcatAssoc(PrintValue(reals, items.first), PrintMoreItems(reals, items.rest), rest);
      ValueLeads(reals, items.first, PrintMoreItems(reals, items.rest) + rest);
    } else {
      ConcatParts([CLOSE_BRACKET], rest);
      assert SkipSpace(inner) == inner;
    }
  }

  /** The rest of an array's text. */
  lemma {:induction false} MoreItems(reals: Reals, items: Items, rest: Blob)
    ensures var more := PrintMoreItems(reals, items) + rest;
            && Stops(more)
            && (items.Nil? ==> Starts(more, CLOSE_BRACKET) && more[1..] == rest)
            && (items.Item? ==> Starts(more, COMMA) && more[1..] == PrintItems(reals, items) + rest)
  {
    if items.Item? {
      ConcatAssoc([COMMA], PrintItems(reals, items), rest);
      ConcatParts([COMMA], PrintItems(reals, items) + rest);
    } else {
      ConcatParts([CLOSE_BRACKET], rest);
    }
  }

  lemma {:induction false} MoreFields(reals: Reals, fields: Fields, rest: Blob)
    ensures var more := PrintMoreFields(reals, fields) + rest;
            && Stops(more)
            && (fields.Bare? ==> Starts(more, CLOSE_BRACE) && more[1..] == rest)
            && (fields.Field? ==> Starts(more, COMMA) && more[1..] == PrintFields(reals, fields) + rest)
  {
    if fields.Field? {
      ConcatAssoc([COMMA], PrintFields(reals, fields), rest);
      ConcatParts([COMMA], PrintFields(reals, fields) + rest);
    } else {
      ConcatParts([CLOSE_BRACE], rest);
    }
  }

  lemma {:induction false} KeyReads(key: Blob, rest: Blob)
    requires SkipSpace(rest) == rest
    ensures ParseKey(PrintString(key) + ([COLON] + rest)) == Ok((key, rest))
  {
    StringReads(key, [COLON] + rest);
    ConcatParts([COLON], rest);
    assert SkipSpace([COLON] + rest) == [COLON] + rest;
    assert SkipSpace(PrintString(key) + ([COLON] + rest)) == PrintString(key) + ([COLON] + rest);
  }

  lemma {:induction false} FieldsStep(reals: Reals, s: Blob, before: Fields, key: Blob, s1: Blob, value: Result<Value>, more: Blob)
    requires ParseKey(s) == Ok((key, s1)) && !HasField(before, key) && ParseValue(reals, s1) == Before(value, more)
    requires Starts(more, CLOSE_BRACE) || Starts(more, COMMA)
    ensures ParseFields(reals, s, before)
            == if value.Err? then Err(value.error)
               else if Starts(more, CLOSE_BRACE) then Ok((PutField(before, key, value.value), more[1..]))
               else ParseFields(reals, more[1..], PutField(before, key, value.value))
  {
    assert SkipSpace(more) == more;
  }

  lemma {:induction false} BelowIsNew(fields: Fields, key: Blob)
    requires AllBelow(fields, key)
    ensures !HasField(fields, key)
  {
    if fields.Field? {
      LessTotal(fields.key, key);
      BelowIsNew(fields.rest, key);
    }
  }

  lemma {:induction false} ObjectReads(reals: Reals, fields: Fields, rest: Blob)
    requires FieldsFormed(reals, fields)
    requires fields.Field? ==> ParseFields(reals, PrintFields(reals, fields) + rest, Bare) == Before(EchoFields(reals, fields), rest)
    ensures ParseValue(reals, PrintValue(reals, Obj(fields)) + rest) == Before(Echo(reals, Obj(fields)), rest)
  {
    var inner := PrintFields(reals, fields) + rest;
    ConcatAssoc([OPEN_BRACE], PrintFields(reals, fields), rest);
    ConcatParts([OPEN_BRACE], inner);
    if fields.Field? {
      assert inner[0] == QUOTE;
    } else {
      ConcatParts([CLOSE_BRACE], rest);
    }
    assert SkipSpace(inner) == inner;
  }

  /** Parsing the text of a tree reads back the tree, its doubles as their texts read, and leaves
      what follows the text. */
  lemma {:induction false} ParseOfPrint(reals: Reals, v: Value, rest: Blob)
    requires WellFormed(reals, v) && Stops(rest)
    ensures ParseValue(reals, PrintValue(reals, v) + rest) == Before(Echo(reals, v), rest)
    decreases v
  {
    match v
    case Int(i) => IntReads(reals, i, rest);
    case Num(bits) => DoubleReads(reals, bits, rest);
    case Str(s) => StrReads(reals, s, rest);
    case Arr(items) =>
      if items.Item? {
        ItemsRead(reals, items, rest);
      }
      ArrayReads(reals, items, rest);
    case Obj(fields) =>
      if fields.Field? {
        FieldsRead(reals, fields, Bare, rest);
      }
      ObjectReads(reals, fields, rest);
    case _ => LiteralReads(reals, v, rest);
  }

  lemma {:induction false} ItemsRead(reals: Reals, items: Items, rest: Blob)
    requires items.Item? && ItemsFormed(reals, items)
    ensures ParseItems(reals, PrintItems(reals, items) + rest) == Before(EchoItems(reals, items), rest)
    decreases items
  {
    var more := PrintMoreItems(reals, items.rest) + rest;
    ConcatAssoc(PrintValue(reals, items.first), PrintMoreItems(reals, items.rest), rest);
    MoreItems(reals, items.rest, rest);
    ValueLeads(reals, items.first, more);
    ParseOfPrint(reals, items.first, more);
    ItemsStep(reals, PrintValue(reals, items.first) + more, Echo(reals, items.first), more);
    if items.rest.Item? {
      ItemsRead(reals, items.rest, rest);
    }
  }

  /** Fields that come after those already read. */
  function AfterFields(before: Fields, r: Result<Fields>): Result<Fields> {
    match r
    case Ok(fields) => Ok(JoinFields(before, fields))
    case Err(e) => Err(e)
  }

  lemma {:induction false} FieldsRead(reals: Reals, fields: Fields, before: Fields, rest: Blob)
    requires fields.Field? && FieldsFormed(reals, fields) && Ordered(fields) && AllBelow(before, fields.key)
    ensures ParseFields(reals, PrintFields(reals, fields) + rest, before) == Before(AfterFields(before, EchoFields(reals, fields)), rest)
    decreases fields
  {
    var more := PrintMoreFields(reals, fields.rest) + rest;
    var value := PrintValue(reals, fields.value) + more;
    FieldText(reals, fields, rest);
    MoreFields(reals, fields.rest, rest);
    ValueLeads(reals, fields.value, more);
    KeyReads(fields.key, value);
    BelowIsNew(before, fields.key);
    ParseOfPrint(reals, fields.value, more);
    var echo := Echo(reals, fields.value);
    FieldsStep(reals, PrintString(fields.key) + ([COLON] + value), before, fields.key, value, echo, more);
    if echo.Ok? {
      PutLast(before, fields.key, echo.value);
      if fields.rest.Field? {
        BelowNext(before, fields.key, fields.rest.key);
        BelowLast(before, fields.key, echo.value, fields.rest.key);
        FieldsRead(reals, fields.rest, JoinFields(before, Field(fields.key, echo.value, Bare)), rest);
        if EchoFields(reals, fields.rest).Ok? {
          JoinLast(before, fields.key, echo.value, EchoFields(reals, fields.rest).value);
        }
      }
    }
  }

  lemma {:induction false} FieldText(reals: Reals, fields: Fields, rest: Blob)
    requires fields.Field?
    ensures PrintFields(reals, fields) + rest
            == PrintString(fields.key) + ([COLON] + (PrintValue(reals, fields.value) + (PrintMoreFields(reals, fields.rest) + rest)))
  {
    var k, v, m := PrintString(fields.key), PrintValue(reals, fields.value), PrintMoreFields(reals, fields.rest);
    ConcatAssoc(k, [COLON] + (v + m), rest);
    ConcatAssoc([COLON], v + m, rest);
    ConcatAssoc(v, m, rest);
  }

  /** Parsing what was printed reads back the tree, its doubles as their texts read, with no trailing input. */
  lemma {:induction false} ParseIsEcho(reals: Reals, v: Value)
    requires WellFormed(reals, v)
    ensures Parse(reals, PrintValue(reals, v)) == Echo(reals, v)
  {
    assert PrintValue(reals, v) + [] == PrintValue(reals, v);
    ValueLeads(reals, v, []);
    ParseOfPrint(reals, v, []);
  }

  /** Parsing what was printed returns the same tree if and only if every double in it has a text that
      converts to it and does not read as an integer of 64 bits. */
  lemma {:induction false} RoundTrip(reals: Reals, v: Value)
    requires WellFormed(reals, v)
    ensures Parse(reals, PrintValue(reals, v)) == Ok(v) <==> Printable(reals, v)
  {
    ParseIsEcho(reals, v);
    EchoIff(reals, v);
  }

  predicate NoDoubles(v: Value) {
    match v
    case Num(_) => false
    case Arr(items) => ItemsNoDoubles(items)
    case Obj(fields) => FieldsNoDoubles(fields)
    case _ => true
  }

  predicate ItemsNoDoubles(items: Items) {
    match items
    case Nil => true
    case Item(first, rest) => NoDoubles(first) && ItemsNoDoubles(rest)
  }

  predicate FieldsNoDoubles(fields: Fields) {
    match fields
    case Bare => true
    case Field(_, value, rest) => NoDoubles(value) && FieldsNoDoubles(rest)
  }

  lemma {:induction false} NoDoublesPrintable(reals: Reals, v: Value)
    requires NoDoubles(v) && Storable(v)
    ensures WellFormed(reals, v) && Printable(reals, v)
    decreases v
  {
    match v
    case Arr(items) => ItemsNoDoublesPrintable(reals, items);
    case Obj(fields) => FieldsNoDoublesPrintable(reals, fields);
    case _ =>
  }

  lemma {:induction false} ItemsNoDoublesPrintable(reals: Reals, items: Items)
    requires ItemsNoDoubles(items) && ItemsStorable(items)
    ensures ItemsFormed(reals, items) && ItemsPrintable(reals, items)
    decreases items
  {
    if items.Item? {
      NoDoublesPrintable(reals, items.first);
      ItemsNoDoublesPrintable(reals, items.rest);
    }
  }

  lemma {:induction false} FieldsNoDoublesPrintable(reals: Reals, fields: Fields)
    requires FieldsNoDoubles(fields) && FieldsStorable(fields)
    ensures FieldsFormed(reals, fields) && FieldsPrintable(reals, fields)
    decreases fields
  {
    if fields.Field? {
      NoDoublesPrintable(reals, fields.value);
      FieldsNoDoublesPrintable(reals, fields.rest);
    }
  }

  /** Every tree without doubles comes back, whatever its strings and integers are. */
  lemma {:induction false} RoundTripNoDoubles(reals: Reals, v: Value)
    requires NoDoubles(v) && Storable(v)
    ensures Parse(reals, PrintValue(reals, v)) == Ok(v)
  {
    NoDoublesPrintable(reals, v);
    RoundTrip(reals, v);
  }

  /** One double: if it is printed as a number it comes back exactly under the condition; printed as
      an integer of 64 bits it comes back as that integer; a non-finite one cannot be read. */
  lemma {:induction false} DoubleReturns(reals: Reals, bits: nat)
    requires WellFormed(reals, Num(bits))
    ensures var t := reals.text(bits);
            var r := Parse(reals, PrintValue(reals, Num(bits)));
            && (r == Ok(Num(bits)) <==> KeepsDouble(reals, bits))
            && (NonFiniteText(t) ==> r == Err(Malformed))
            && (forall i | InRange(i) && t == PrintInt(i) :: r == Ok(Int(i)))
  {
    var t := reals.text(bits);
    RoundTrip(reals, Num(bits));
    ParseIsEcho(reals, Num(bits));
    if NonFiniteText(t) {
      NonFiniteFails(reals, t, []);
    }
    forall i | InRange(i) && t == PrintInt(i)
      ensures Parse(reals, t) == Ok(Int(i))
    {
      ParseIsEcho(reals, Int(i));
    }
  }
}

/** The parser and the printer. */
module Json {
  import opened Bytes
  import opened BinaryIO
  import opened Values
  import opened JsonText
  import opened ValueCodec

  function HexPrefix(s: Blob, n: nat): nat
    requires n <= |s|
  {
    if n == 0 then 0 else HexPrefix(s, n - 1) * 16 + HexDigit(s[n - 1])
  }

  lemma {:induction false} HexFour(s: Blob)
    requires |s| >= 4
    ensures HexPrefix(s, 4) == ((HexDigit(s[0]) * 16 + HexDigit(s[1])) * 16 + HexDigit(s[2])) * 16 + HexDigit(s[3])
  {
    var two := 2;
    assert HexPrefix(s, two) == HexPrefix(s, 1) * 16 + HexDigit(s[1]);
    assert HexPrefix(s, 1) == HexDigit(s[0]);
    var three := 3;
    assert HexPrefix(s, three) == HexPrefix(s, two) * 16 + HexDigit(s[2]);
    var four := 4;
    assert HexPrefix(s, four) == HexPrefix(s, three) * 16 + HexDigit(s[3]);
  }

  lemma {:induction false} DigitsPassed(s: Blob, n: nat)
    requires n < DigitCount(s)
    ensures DigitCount(s[n..]) == DigitCount(s) - n
  {
    if n > 0 {
      DigitsPassed(s[1..], n - 1);
      assert s[1..][n - 1..] == s[n..];
    } else {
      assert s[0..] == s;
    }
  }

  class Parser {
    const input: Blob
    const reals: Reals
    var position: nat

    ghost predicate Valid()
      reads this
    {
      position <= |input|
    }

    ghost function Rest(): Blob
      requires Valid()
      reads this
    {
      input[position..]
    }

    constructor (input: Blob, reals: Reals)
      ensures Valid() && this.input == input && this.reals == reals && Rest() == input
    {
      this.input, this.reals, position := input, reals, 0;
    }

    predicate More()
      requires Valid()
      reads this
      ensures More() <==> Rest() != []
    {
      position < |input|
    }

    function Peek(): (c: Byte)
      requires Valid() && More()
      reads this
      ensures c == Rest()[0]
    {
      input[position]
    }

    method Advance(n: nat)
      requires Valid() && n <= |Rest()|
      modifies this
      ensures Valid() && Rest() == old(Rest())[n..] && position == old(position) + n
    {
      DropDrop(input, position, n);
      position := position + n;
    }

    method SkipSpaces()
      requires Valid()
      modifies this
      ensures Valid() && Rest() == SkipSpace(old(Rest()))
    {
      while More() && IsSpace(Peek())
        invariant Valid() && SkipSpace(Rest()) == SkipSpace(old(Rest()))
        decreases |input| - position
      {
        Advance(1);
      }
    }

    method Consume(c: Byte) returns (taken: bool)
      requires Valid()
      modifies this
      ensures Valid() && taken == Starts(old(Rest()), c)
      ensures Rest() == if taken then old(Rest())[1..] else old(Rest())
    {
      taken := More() && Peek() == c;
      if taken {
        Advance(1);
      }
    }

    method ExpectText(text: Blob, v: Value) returns (r: Result<Value>)
      requires Valid()
      modifies this
      ensures Valid() && Took(Expect(old(Rest()), text, v), r, Rest())
    {
      assert |text| <= |Rest()| ==> input[position..position + |text|] == Rest()[..|text|];
      if |text| > |input| - position || input[position..position + |text|] != text {
        return Err(Malformed);
      }
      Advance(|text|);
      r := Ok(v);
    }

    /** Passes over digits and counts them. */
    method SkipDigits() returns (n: nat)
      requires Valid()
      modifies this
      ensures Valid() && n == DigitCount(old(Rest())) && Rest() == old(Rest())[n..] && position == old(position) + n
    {
      n := 0;
      ghost var start := Rest();
      assert start[0..] == start;
      while More() && IsDigit(Peek())
        invariant Valid() && n <= DigitCount(start) && Rest() == start[n..] && position == old(position) + n
        decreases |input| - position
      {
        DigitsPassed(start, n);
        DropDrop(start, n, 1);
        Advance(1);
        n := n + 1;
      }
    }

    // ----------------------------------------------------------------
    // Strings
    // ----------------------------------------------------------------

    method HexEscape() returns (r: Result<nat>)
      requires Valid()
      modifies this
      ensures Valid() && Took(ParseHex(old(Rest())), r, Rest())
    {
      if |input| - position < 4 {
        return Err(Malformed);
      }
      ghost var start := Rest();
      assert start[0..] == start;
      var code := 0;
      for i := 0 to 4
        invariant Valid() && Rest() == start[i..] && code == HexPrefix(start, i)
        invariant forall j | 0 <= j < i :: HexDigit(start[j]) != 16
      {
        var digit := HexDigit(Peek());
        if digit == 16 {
          return Err(Malformed);
        }
        DropDrop(start, i, 1);
        Advance(1);
        code := code * 16 + digit;
      }
      HexFour(start);
      r := Ok(code);
    }

    method LowHalf() returns (r: Result<nat>)
      requires Valid()
      modifies this
      ensures Valid() && Took(LowSurrogate(old(Rest())), r, Rest())
    {
      if |input| - position < 6 || input[position] != BACKSLASH || input[position + 1] != 117 {
        return Err(Malformed);
      }
      Advance(2);
      var low :- HexEscape();
      if low < 0xdc00 || low > 0xdfff {
        return Err(Malformed);
      }
      r := Ok(low);
    }

    method CodePoint() returns (r: Result<Blob>)
      requires Valid()
      modifies this
      ensures Valid() && Took(UnicodeEscape(old(Rest())), r, Rest())
    {
      var code :- HexEscape();
      if 0xd800 <= code <= 0xdbff {
        var low :- LowHalf();
        code := 0x10000 + (code - 0xd800) * 1024 + (low - 0xdc00);
      } else if 0xdc00 <= code <= 0xdfff {
        return Err(Malformed);
      }
      r := Ok(Utf8(code));
    }

    method EscapeFrom() returns (r: Result<Blob>)
      requires Valid()
      modifies this
      ensures Valid() && Took(Escape(old(Rest())), r, Rest())
    {
      if !More() {
        return Err(Malformed);
      }
      var c := Peek();
      Advance(1);
      if c == 117 {
        r := CodePoint();
      } else if c == QUOTE || c == BACKSLASH || c == 47 {
        r := Ok([c]);
      } else if c == 98 {
        r := Ok([8]);
      } else if c == 102 {
        r := Ok([12]);
      } else if c == 110 {
        r := Ok([10]);
      } else if c == 114 {
        r := Ok([13]);
      } else if c == 116 {
        r := Ok([9]);
      } else {
        r := Err(Malformed);
      }
    }

    method StringFrom() returns (r: Result<Blob>)
      requires Valid()
      modifies this
      ensures Valid() && Took(ParseString(old(Rest())), r, Rest())
    {
      var quoted := Consume(QUOTE);
      if !quoted {
        return Err(Malformed);
      }
      ghost var start := Rest();
      var output: Blob := [];
      PrependNone(ParseChars(start));
      while More()
        invariant Valid() && Prepend(output, ParseChars(Rest())) == ParseChars(start)
        decreases |input| - position
      {
        var c := Peek();
        ghost var before := ParseChars(Rest());
        Advance(1);
        if c == QUOTE {
          assert output + [] == output;
          return Ok(output);
        }
        if c < 0x20 {
          return Err(Malformed);
        }
        var piece := [c];
        if c == BACKSLASH {
          piece :- EscapeFrom();
        }
        PrependTwice(output, piece, ParseChars(Rest()));
        output := output + piece;
      }
      r := Err(Malformed);
    }

    // ----------------------------------------------------------------
    // Numbers
    // ----------------------------------------------------------------

    method IntegerFrom() returns (r: Result<nat>)
      requires Valid()
      modifies this
      ensures Valid() && Passes(IntegerPart(old(Rest())), r, old(Rest()), Rest())
    {
      var zero := Consume(ZERO);
      if zero {
        if More() && IsDigit(Peek()) {
          return Err(Malformed);
        }
        return Ok(1);
      }
      var n := SkipDigits();
      if n == 0 {
        return Err(Malformed);
      }
      r := Ok(n);
    }

    method FractionFrom() returns (r: Result<nat>)
      requires Valid()
      modifies this
      ensures Valid() && Passes(Fraction(old(Rest())), r, old(Rest()), Rest())
    {
      ghost var start := Rest();
      var dot := Consume(DOT);
      if !dot {
        assert start[0..] == start;
        return Ok(0);
      }
      var n := SkipDigits();
      if n == 0 {
        return Err(Malformed);
      }
      DropDrop(start, 1, n);
      r := Ok(1 + n);
    }

    method SignedDigitsFrom() returns (r: Result<nat>)
      requires Valid()
      modifies this
      ensures Valid() && Passes(SignedDigits(old(Rest())), r, old(Rest()), Rest())
    {
      ghost var start := Rest();
      var sign := 0;
      assert start[0..] == start;
      if More() && (Peek() == 43 || Peek() == MINUS) {
        Advance(1);
        sign := 1;
      }
      var n := SkipDigits();
      if n == 0 {
        return Err(Malformed);
      }
      DropDrop(start, sign, n);
      r := Ok(sign + n);
    }

    method ExponentFrom() returns (r: Result<nat>)
      requires Valid()
      modifies this
      ensures Valid() && Passes(Exponent(old(Rest())), r, old(Rest()), Rest())
    {
      ghost var start := Rest();
      assert start[0..] == start;
      var marked := Consume(101);
      if !marked {
        marked := Consume(69);
      }
      if !marked {
        return Ok(0);
      }
      var digits := SignedDigitsFrom();
      ExponentPasses(start, digits, Rest());
      if digits.Err? {
        return Err(digits.error);
      }
      r := Ok(1 + digits.value);
    }

    method TailFrom() returns (r: Result<nat>)
      requires Valid()
      modifies this
      ensures Valid() && Passes(NumberTail(old(Rest())), r, old(Rest()), Rest())
    {
      ghost var start := Rest();
      var fraction :- FractionFrom();
      var exponent :- ExponentFrom();
      DropDrop(start, fraction, exponent);
      r := Ok(fraction + exponent);
    }

    method MagnitudeFrom() returns (r: Result<bool>)
      requires Valid()
      modifies this
      ensures Valid() && Spans(Magnitude(old(Rest())), r, old(Rest()), Rest())
    {
      ghost var start := Rest();
      var whole :- IntegerFrom();
      ghost var middle := Rest();
      var tail := TailFrom();
      MagnitudePasses(start, whole, middle, tail, Rest());
      if tail.Err? {
        return Err(tail.error);
      }
      r := Ok(tail.value > 0);
    }

    method SpanFrom() returns (r: Result<bool>)
      requires Valid()
      modifies this
      ensures Valid() && Spans(NumberSpan(old(Rest())), r, old(Rest()), Rest())
    {
      ghost var start := Rest();
      var negative := Consume(MINUS);
      r := MagnitudeFrom();
      if negative && Magnitude(start[1..]).Ok? {
        DropDrop(start, 1, Magnitude(start[1..]).value.0);
      }
    }

    method NumberFrom() returns (r: Result<Value>)
      requires Valid()
      modifies this
      ensures Valid() && Took(ParseNumber(reals, old(Rest())), r, Rest())
    {
      var start := position;
      var floating :- SpanFrom();
      assert input[start..position] == old(Rest())[..position - start];
      r := NumberValue(reals, input[start..position], floating);
    }

    // ----------------------------------------------------------------
    // Values
    // ----------------------------------------------------------------

    method ValueFrom() returns (r: Result<Value>)
      requires Valid()
      modifies this
      ensures Valid() && Took(ParseValue(reals, old(Rest())), r, Rest())
      decreases |Rest()|, 0
    {
      if !More() {
        return Err(Malformed);
      }
      var c := Peek();
      if c == 110 {
        r := ExpectText(NULL_TEXT, Null);
      } else if c == 116 {
        r := ExpectText(TRUE_TEXT, Bool(true));
      } else if c == 102 {
        r := ExpectText(FALSE_TEXT, Bool(false));
      } else if c == QUOTE {
        var text :- StringFrom();
        r := Ok(Str(text));
      } else if c == OPEN_BRACKET {
        Advance(1);
        r := ArrayFrom();
      } else if c == OPEN_BRACE {
        Advance(1);
        r := ObjectFrom();
      } else {
        r := NumberFrom();
      }
    }

    method ArrayFrom() returns (r: Result<Value>)
      requires Valid()
      modifies this
      ensures Valid() && Took(ParseArray(reals, old(Rest())), r, Rest())
      decreases |Rest()|, 1
    {
      SkipSpaces();
      var closed := Consume(CLOSE_BRACKET);
      if closed {
        return Ok(Arr(Nil));
      }
      ghost var start := Rest();
      var items := Nil;
      OntoNil(ParseItems(reals, start));
      while true
        invariant Valid() && |Rest()| <= |old(Rest())|
        invariant Onto(items, ParseItems(reals, Rest())) == ParseItems(reals, start)
        decreases |Rest()|
      {
        OntoItems(reals, items, Rest());
        SkipSpaces();
        var one :- ValueFrom();
        SkipSpaces();
        items := Join(items, Item(one, Nil));
        closed := Consume(CLOSE_BRACKET);
        if closed {
          return Ok(Arr(items));
        }
        var comma := Consume(COMMA);
        if !comma {
          return Err(Malformed);
        }
      }
    }

    method KeyFrom() returns (r: Result<Blob>)
      requires Valid()
      modifies this
      ensures Valid() && Took(ParseKey(old(Rest())), r, Rest())
    {
      SkipSpaces();
      if !More() || Peek() != QUOTE {
        return Err(Malformed);
      }
      var key :- StringFrom();
      SkipSpaces();
      var colon := Consume(COLON);
      if !colon {
        return Err(Malformed);
      }
      SkipSpaces();
      r := Ok(key);
    }

    method ObjectFrom() returns (r: Result<Value>)
      requires Valid()
      modifies this
      ensures Valid() && Took(ParseObject(reals, old(Rest())), r, Rest())
      decreases |Rest()|, 1
    {
      SkipSpaces();
      var closed := Consume(CLOSE_BRACE);
      if closed {
        return Ok(Obj(Bare));
      }
      ghost var start := Rest();
      var fields := Bare;
      while true
        invariant Valid() && |Rest()| <= |old(Rest())|
        invariant ParseFields(reals, Rest(), fields) == ParseFields(reals, start, Bare)
        decreases |Rest()|
      {
        var key :- KeyFrom();
        if HasField(fields, key) {
          return Err(Malformed);
        }
        var value :- ValueFrom();
        fields := PutField(fields, key, value);
        SkipSpaces();
        closed := Consume(CLOSE_BRACE);
        if closed {
          return Ok(Obj(fields));
        }
        var comma := Consume(COMMA);
        if !comma {
          return Err(Malformed);
        }
      }
    }

    /** A whole text. */
    method ParseText() returns (r: Result<Value>)
      requires Valid()
      modifies this
      ensures r == Parse(reals, old(Rest()))
    {
      SkipSpaces();
      var v :- ValueFrom();
      SkipSpaces();
      if position != |input| {
        return Err(Malformed);
      }
      r := Ok(v);
    }
  }

  /** What a method that passes over part of a number does. */
  ghost predicate Passes(spec: Result<nat>, r: Result<nat>, before: Blob, after: Blob) {
    match spec
    case Ok(n) => r == Ok(n) && n <= |before| && after == before[n..]
    case Err(e) => r == Err(e)
  }

  ghost predicate Spans(spec: Result<(nat, bool)>, r: Result<bool>, before: Blob, after: Blob) {
    match spec
    case Ok((length, floating)) => r == Ok(floating) && length <= |before| && after == before[length..]
    case Err(e) => r == Err(e)
  }

  lemma {:induction false} ExponentPasses(start: Blob, digits: Result<nat>, rest: Blob)
    requires start != [] && (start[0] == 101 || start[0] == 69) && Passes(SignedDigits(start[1..]), digits, start[1..], rest)
    ensures Passes(Exponent(start), if digits.Ok? then Ok(1 + digits.value) else Err(digits.error), start, rest)
  {
    if digits.Ok? {
      DropDrop(start, 1, digits.value);
    }
  }

  lemma {:induction false} MagnitudePasses(start: Blob, whole: nat, middle: Blob, tail: Result<nat>, rest: Blob)
    requires Passes(IntegerPart(start), Ok(whole), start, middle) && Passes(NumberTail(middle), tail, middle, rest)
    ensures Spans(Magnitude(start), if tail.Ok? then Ok(tail.value > 0) else Err(tail.error), start, rest)
  {
    if tail.Ok? {
      DropDrop(start, whole, tail.value);
    }
  }

  lemma {:induction false} OntoNil(r: Result<(Items, Blob)>)
    ensures Onto(Nil, r) == r
  {
  }

  lemma {:induction false} OntoItems(reals: Reals, done: Items, s: Blob)
    ensures Onto(done, ParseItems(reals, s))
            == match ParseValue(reals, SkipSpace(s))
               case Err(e) => Err(e)
               case Ok((first, s1)) =>
                 var s2 := SkipSpace(s1);
                 if Starts(s2, CLOSE_BRACKET) then Ok((Join(done, Item(first, Nil)), s2[1..]))
                 else if !Starts(s2, COMMA) then Err(Malformed)
                 else Onto(Join(done, Item(first, Nil)), ParseItems(reals, s2[1..]))
  {
    var v := ParseValue(reals, SkipSpace(s));
    if v.Ok? {
      var s2 := SkipSpace(v.value.1);
      if Starts(s2, COMMA) && ParseItems(reals, s2[1..]).Ok? {
        JoinAssoc(done, Item(v.value.0, Nil), ParseItems(reals, s2[1..]).value.0);
      }
    }
  }

  lemma {:induction false} PrependNone(r: Result<(Blob, Blob)>)
    ensures Prepend([], r) == r
  {
    if r.Ok? {
      assert [] + r.value.0 == r.value.0;
    }
  }

  lemma {:induction false} PrependTwice(a: Blob, b: Blob, r: Result<(Blob, Blob)>)
    ensures Prepend(a, Prepend(b, r)) == Prepend(a + b, r)
  {
    if r.Ok? {
      ConcatAssoc(a, b, r.value.0);
    }
  }

  // ------------------------------------------------------------------
  // The printer
  // ------------------------------------------------------------------

  method WriteString(w: Writer, s: Blob)
    modifies w
    ensures w.bytes == old(w.bytes) + PrintString(s)
  {
    w.Bytes([QUOTE]);
    ghost var start := w.bytes;
    for i := 0 to |s|
      invariant w.bytes + PrintChars(s[i..]) == start + PrintChars(s)
    {
      assert s[i..][1..] == s[i + 1..];
      ConcatAssoc(w.bytes, PrintChar(s[i]), PrintChars(s[i + 1..]));
      w.Bytes(PrintChar(s[i]));
    }
    assert w.bytes + [] == w.bytes;
    w.Bytes([QUOTE]);
    ConcatAssoc(start, PrintChars(s), [QUOTE]);
    ConcatAssoc(old(w.bytes), [QUOTE], PrintChars(s) + [QUOTE]);
  }

  /** Writes the text of a value. */
  method WriteJson(w: Writer, reals: Reals, v: Value)
    modifies w
    ensures w.bytes == old(w.bytes) + PrintValue(reals, v)
    decreases Weight(v), 1
  {
    match v
    case Null => w.Bytes(NULL_TEXT);
    case Bool(b) => w.Bytes(if b then TRUE_TEXT else FALSE_TEXT);
    case Int(i) => w.Bytes(PrintInt(i));
    case Num(bits) => w.Bytes(reals.text(bits));
    case Str(s) => WriteString(w, s);
    case Arr(items) => WriteArray(w, reals, items);
    case Obj(fields) => WriteObject(w, reals, fields);
  }

  /** The text of the items that are left, after a comma unless they are the first. */
  ghost function ItemsLeft(reals: Reals, first: bool, left: Items): Blob {
    if first then PrintItems(reals, left) else PrintMoreItems(reals, left)
  }

  method WriteArray(w: Writer, reals: Reals, items: Items)
    modifies w
    ensures w.bytes == old(w.bytes) + ([OPEN_BRACKET] + PrintItems(reals, items))
    decreases 1 + ItemsWeight(items), 0
  {
    w.Bytes([OPEN_BRACKET]);
    ConcatAssoc(old(w.bytes), [OPEN_BRACKET], PrintItems(reals, items));
    ghost var text := w.bytes + PrintItems(reals, items);
    var left, first := items, true;
    while left.Item?
      invariant ItemsWeight(left) <= ItemsWeight(items)
      invariant w.bytes + ItemsLeft(reals, first, left) == text
      decreases left
    {
      ghost var one, more := PrintValue(reals, left.first), PrintMoreItems(reals, left.rest);
      if !first {
        ConcatAssoc(w.bytes, [COMMA], one + more);
        w.Bytes([COMMA]);
      }
      first := false;
      ConcatAssoc(w.bytes, one, more);
      WriteJson(w, reals, left.first);
      left := left.rest;
    }
    w.Bytes([CLOSE_BRACKET]);
  }

  ghost function FieldsLeft(reals: Reals, first: bool, left: Fields): Blob {
    if first then PrintFields(reals, left) else PrintMoreFields(reals, left)
  }

  method WriteField(w: Writer, reals: Reals, key: Blob, value: Value, ghost more: Blob)
    modifies w
    ensures w.bytes + more == old(w.bytes) + (PrintString(key) + ([COLON] + (PrintValue(reals, value) + more)))
    decreases Weight(value), 2
  {
    ghost var k, v := PrintString(key), PrintValue(reals, value);
    ghost var was := w.bytes;
    WriteString(w, key);
    w.Bytes([COLON]);
    WriteJson(w, reals, value);
    ConcatAssoc(was + k + [COLON], v, more);
    ConcatAssoc(was + k, [COLON], v + more);
    ConcatAssoc(was, k, [COLON] + (v + more));
  }

  method WriteObject(w: Writer, reals: Reals, fields: Fields)
    modifies w
    ensures w.bytes == old(w.bytes) + ([OPEN_BRACE] + PrintFields(reals, fields))
    decreases 1 + FieldsWeight(fields), 0
  {
    w.Bytes([OPEN_BRACE]);
    ConcatAssoc(old(w.bytes), [OPEN_BRACE], PrintFields(reals, fields));
    ghost var text := w.bytes + PrintFields(reals, fields);
    var left, first := fields, true;
    while left.Field?
      invariant FieldsWeight(left) <= FieldsWeight(fields)
      invariant w.bytes + FieldsLeft(reals, first, left) == text
      decreases left
    {
      ghost var more := PrintMoreFields(reals, left.rest);
      if !first {
        ConcatAssoc(w.bytes, [COMMA], PrintString(left.key) + ([COLON] + (PrintValue(reals, left.value) + more)));
        w.Bytes([COMMA]);
      }
      first := false;
      WriteField(w, reals, left.key, left.value, more);
      left := left.rest;
    }
    w.Bytes([CLOSE_BRACE]);
  }
}
