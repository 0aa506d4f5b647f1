/** The characters of JSON strings as RFC 8259 spells them, and UTF-8 as RFC 3629 defines it. */
module JsonCharacters {
  import opened Bytes
  import opened JsonText

  // ------------------------------------------------------------------
  // UTF-8 (section 4 of RFC 3629)
  // ------------------------------------------------------------------

  predicate Continues(b: Byte) {
    0x80 <= b <= 0xbf
  }

  predicate ThreeByteStart(a: Byte, b: Byte) {
    || (a == 0xe0 && 0xa0 <= b <= 0xbf)
    || (0xe1 <= a <= 0xec && Continues(b))
    || (a == 0xed && 0x80 <= b <= 0x9f)
    || (0xee <= a <= 0xef && Continues(b))
  }

  predicate FourByteStart(a: Byte, b: Byte) {
    || (a == 0xf0 && 0x90 <= b <= 0xbf)
    || (0xf1 <= a <= 0xf3 && Continues(b))
    || (a == 0xf4 && 0x80 <= b <= 0x8f)
  }

  function Low6(b: Byte): int {
    b as int - 0x80
  }

  /** The character at the front of a byte string, and what follows it. */
  function Character(s: Blob): Option<(int, Blob)> {
    if |s| >= 1 && s[0] <= 0x7f then Some((s[0] as int, s[1..]))
    else if |s| >= 2 && 0xc2 <= s[0] <= 0xdf && Continues(s[1]) then Some(((s[0] as int - 0xc0) * 64 + Low6(s[1]), s[2..]))
    else if |s| >= 3 && ThreeByteStart(s[0], s[1]) && Continues(s[2]) then
      Some(((s[0] as int - 0xe0) * 4096 + Low6(s[1]) * 64 + Low6(s[2]), s[3..]))
    else if |s| >= 4 && FourByteStart(s[0], s[1]) && Continues(s[2]) && Continues(s[3]) then
      Some(((s[0] as int - 0xf0) * 262144 + Low6(s[1]) * 4096 + Low6(s[2]) * 64 + Low6(s[3]), s[4..]))
    else None
  }

  /** A Unicode scalar value. */
  predicate Scalar(code: int) {
    0 <= code < 0x11_0000 && !(0xd800 <= code <= 0xdfff)
  }

  /** The bytes made for a character are its UTF-8 form. */
  lemma {:induction false} CharacterOfUtf8(code: nat, rest: Blob)
    requires Scalar(code)
    ensures Character(Utf8(code) + rest) == Some((code, rest))
  {
    var s := Utf8(code);
    ConcatParts(s, rest);
    assert forall i | 0 <= i < |s| :: (s + rest)[i] == s[i];
    if code > 0xffff {
      FourDigits(code);
    } else if code > 0x7ff {
      ThreeDigits(code);
    }
  }

  lemma {:induction false} ThreeDigits(code: nat)
    ensures code == code / 4096 * 4096 + code / 64 % 64 * 64 + code % 64
  {
    assert code / 64 / 64 == code / 4096;
  }

  lemma {:induction false} FourDigits(code: nat)
    ensures code == code / 262144 * 262144 + code / 4096 % 64 * 4096 + code / 64 % 64 * 64 + code % 64
  {
    ThreeDigits(code);
    assert code / 4096 / 64 == code / 262144;
  }

  lemma {:induction false} LastDigit(high: int, low: int)
    requires high >= 0 && 0 <= low < 64
    ensures (high * 64 + low) / 64 == high && (high * 64 + low) % 64 == low
  {
  }

  lemma {:induction false} TwoBytes(a: int, b: int)
    requires 2 <= a < 32 && 0 <= b < 64
    ensures Utf8(a * 64 + b) == [(0xc0 + a) as Byte, (0x80 + b) as Byte]
  {
    LastDigit(a, b);
  }

  lemma {:induction false} ThreeBytes(a: int, b: int, c: int)
    requires 0 <= a < 16 && 0 <= b < 64 && 0 <= c < 64 && a * 64 + b >= 32
    ensures Utf8(a * 4096 + b * 64 + c) == [(0xe0 + a) as Byte, (0x80 + b) as Byte, (0x80 + c) as Byte]
  {
    var code := (a * 64 + b) * 64 + c;
    LastDigit(a * 64 + b, c);
    LastDigit(a, b);
    assert code / 4096 == code / 64 / 64;
  }

  lemma {:induction false} FourBytes(a: int, b: int, c: int, d: int)
    requires 0 <= a < 5 && 0 <= b < 64 && 0 <= c < 64 && 0 <= d < 64 && 16 <= a * 64 + b < 272
    ensures Utf8(a * 262144 + b * 4096 + c * 64 + d)
            == [(0xf0 + a) as Byte, (0x80 + b) as Byte, (0x80 + c) as Byte, (0x80 + d) as Byte]
  {
    var high := a * 64 + b;
    var code := (high * 64 + c) * 64 + d;
    LastDigit(high * 64 + c, d);
    LastDigit(high, c);
    LastDigit(a, b);
    assert code / 4096 == code / 64 / 64 && code / 262144 == code / 64 / 64 / 64;
  }

  /** Every well-formed character is one, with the bytes made for it. */
  lemma {:induction false} Utf8OfCharacter(s: Blob)
    requires Character(s).Some?
    ensures Scalar(Character(s).value.0)
    ensures s == Utf8(Character(s).value.0) + Character(s).value.1
  {
    if s[0] > 0x7f {
      if s[0] <= 0xdf {
        TwoBytes(s[0] as int - 0xc0, Low6(s[1]));
      } else if s[0] <= 0xef {
        ThreeBytes(s[0] as int - 0xe0, Low6(s[1]), Low6(s[2]));
      } else {
        FourBytes(s[0] as int - 0xf0, Low6(s[1]), Low6(s[2]), Low6(s[3]));
      }
    }
  }

  // ------------------------------------------------------------------
  // The characters of a string
  // ------------------------------------------------------------------

  /** A byte as it is, a short escape, the escape of a 16-bit unit, or two of them for one character.
      Each hexadecimal digit may be in either case. */
  datatype Char =
    | Plain(byte: Byte)
    | Short(letter: Byte)
    | Unit(code: nat, cases: seq<bool>)
    | Pair(high: nat, highCases: seq<bool>, low: nat, lowCases: seq<bool>)

  /** quotation mark, reverse solidus, solidus, b, f, n, r, t */
  const SHORT: map<Byte, Byte> :=
    map[0x22 := 0x22, 0x5c := 0x5c, 0x2f := 0x2f, 0x62 := 0x08, 0x66 := 0x0c, 0x6e := 0x0a, 0x72 := 0x0d, 0x74 := 0x09]

  predicate SpelledChar(c: Char) {
    match c
    case Plain(b) => b >= 0x20 && b != 0x22 && b != 0x5c
    case Short(letter) => letter in SHORT
    case Unit(code, cases) => code < 0x1_0000 && Scalar(code) && |cases| == 4
    case Pair(high, highCases, low, lowCases) =>
      0xd800 <= high <= 0xdbff && 0xdc00 <= low <= 0xdfff && |highCases| == |lowCases| == 4
  }

  function CodeOf(high: nat, low: nat): int {
    0x1_0000 + (high - 0xd800) * 0x400 + (low - 0xdc00)
  }

  function HexLetter(n: nat, upper: bool): Byte
    requires n < 16
  {
    if n < 10 then (0x30 + n) as Byte else if upper then (0x41 + (n - 10)) as Byte else (0x61 + (n - 10)) as Byte
  }

  function HexText(code: nat, cases: seq<bool>): (r: Blob)
    requires code < 0x1_0000 && |cases| == 4
    ensures |r| == 4
  {
    [HexLetter(code / 0x1000, cases[0]), HexLetter(code / 0x100 % 16, cases[1]),
     HexLetter(code / 0x10 % 16, cases[2]), HexLetter(code % 16, cases[3])]
  }

  function SpellChar(c: Char, rest: Blob): Blob
    requires SpelledChar(c)
  {
    match c
    case Plain(b) => [b] + rest
    case Short(letter) => [0x5c, letter] + rest
    case Unit(code, cases) => [0x5c, 0x75] + (HexText(code, cases) + rest)
    case Pair(high, highCases, low, lowCases) =>
      [0x5c, 0x75] + (HexText(high, highCases) + ([0x5c, 0x75] + (HexText(low, lowCases) + rest)))
  }

  function CharText(c: Char): Blob
    requires SpelledChar(c)
  {
    match c
    case Plain(b) => [b]
    case Short(letter) => [SHORT[letter]]
    case Unit(code, _) => Utf8(code)
    case Pair(high, _, low, _) => Utf8(CodeOf(high, low))
  }

  predicate SpelledChars(cs: seq<Char>) {
    forall i | 0 <= i < |cs| :: SpelledChar(cs[i])
  }

  /** The characters and the closing quotation mark, in front of what follows. */
  function SpellChars(cs: seq<Char>, rest: Blob): Blob
    requires SpelledChars(cs)
    decreases |cs|
  {
    if cs == [] then [0x22] + rest else SpellChar(cs[0], SpellChars(cs[1..], rest))
  }

  function CharsText(cs: seq<Char>): Blob
    requires SpelledChars(cs)
    decreases |cs|
  {
    if cs == [] then [] else CharText(cs[0]) + CharsText(cs[1..])
  }

  lemma {:induction false} HexLetterReads(n: nat, upper: bool)
    requires n < 16
    ensures HexDigit(HexLetter(n, upper)) == n
  {
  }

  lemma {:induction false} HexTextReads(code: nat, cases: seq<bool>, rest: Blob)
    requires code < 0x1_0000 && |cases| == 4
    ensures ParseHex(HexText(code, cases) + rest) == Ok((code, rest))
  {
    var s := HexText(code, cases);
    HexLetterReads(code / 0x1000, cases[0]);
    HexLetterReads(code / 0x100 % 16, cases[1]);
    HexLetterReads(code / 0x10 % 16, cases[2]);
    HexLetterReads(code % 16, cases[3]);
    HexParts(code);
    ConcatParts(s, rest);
    assert forall i | 0 <= i < 4 :: (s + rest)[i] == s[i];
  }

  lemma {:induction false} HexParts(code: nat)
    ensures code == ((code / 0x1000 * 16 + code / 0x100 % 16) * 16 + code / 0x10 % 16) * 16 + code % 16
  {
    assert code / 0x10 / 16 == code / 0x100 && code / 0x100 / 16 == code / 0x1000;
  }

  lemma {:induction false} UnitReads(code: nat, cases: seq<bool>, rest: Blob)
    requires code < 0x1_0000 && Scalar(code) && |cases| == 4
    ensures UnicodeEscape(HexText(code, cases) + rest) == Ok((Utf8(code), rest))
  {
    HexTextReads(code, cases, rest);
  }

  lemma {:induction false} LowReads(low: nat, cases: seq<bool>, rest: Blob)
    requires 0xdc00 <= low <= 0xdfff && |cases| == 4
    ensures LowSurrogate([0x5c, 0x75] + (HexText(low, cases) + rest)) == Ok((low, rest))
  {
    ConcatParts([0x5c, 0x75], HexText(low, cases) + rest);
    HexTextReads(low, cases, rest);
  }

  lemma {:induction false} PairReads(high: nat, highCases: seq<bool>, low: nat, lowCases: seq<bool>, rest: Blob)
    requires SpelledChar(Pair(high, highCases, low, lowCases))
    ensures UnicodeEscape(HexText(high, highCases) + ([0x5c, 0x75] + (HexText(low, lowCases) + rest)))
            == Ok((Utf8(CodeOf(high, low)), rest))
  {
    HexTextReads(high, highCases, [0x5c, 0x75] + (HexText(low, lowCases) + rest));
    LowReads(low, lowCases, rest);
  }

  lemma {:induction false} EscapeReads(letter: Byte, rest: Blob)
    ensures Escape([letter] + rest) == if letter == 0x75 then UnicodeEscape(rest)
                                       else if letter in SHORT then Ok(([SHORT[letter]], rest)) else Err(Malformed)
  {
    ConcatParts([letter], rest);
  }

  lemma {:induction false} EscapeTaken(s: Blob, c: Blob, left: Blob)
    requires |s| >= 1 && s[0] == 0x5c && Escape(s[1..]) == Ok((c, left))
    ensures ParseChars(s) == Prepend(c, ParseChars(left))
  {
  }

  /** One spelled character. */
  lemma {:induction false} CharSpelled(c: Char, rest: Blob)
    requires SpelledChar(c)
    ensures ParseChars(SpellChar(c, rest)) == Prepend(CharText(c), ParseChars(rest))
  {
    var s := SpellChar(c, rest);
    match c
    case Plain(b) => assert s[1..] == rest;
    case Short(letter) =>
      assert s[1..] == [letter] + rest;
      EscapeReads(letter, rest);
      EscapeTaken(s, [SHORT[letter]], rest);
    case Unit(code, cases) =>
      assert s[1..] == [0x75] + (HexText(code, cases) + rest);
      EscapeReads(0x75, HexText(code, cases) + rest);
      UnitReads(code, cases, rest);
      EscapeTaken(s, Utf8(code), rest);
    case Pair(high, highCases, low, lowCases) =>
      var more := HexText(high, highCases) + ([0x5c, 0x75] + (HexText(low, lowCases) + rest));
      assert s[1..] == [0x75] + more;
      EscapeReads(0x75, more);
      PairReads(high, highCases, low, lowCases, rest);
      EscapeTaken(s, Utf8(CodeOf(high, low)), rest);
  }

  /** A spelled string reads as its text. */
  lemma {:induction false} CharsSpelled(cs: seq<Char>, rest: Blob)
    requires SpelledChars(cs)
    ensures ParseChars(SpellChars(cs, rest)) == Ok((CharsText(cs), rest))
    decreases |cs|
  {
    if cs == [] {
      ConcatParts([0x22], rest);
    } else {
      CharSpelled(cs[0], SpellChars(cs[1..], rest));
      CharsSpelled(cs[1..], rest);
    }
  }

  /** The code point an escape stands for. */
  function EscapedCode(c: Char): int
    requires SpelledChar(c) && !c.Plain?
  {
    match c
    case Short(letter) => SHORT[letter] as int
    case Unit(code, _) => code
    case Pair(high, _, low, _) => CodeOf(high, low)
  }

  /** An escape reads as the UTF-8 form of its code point, whichever spelling it is. */
  lemma {:induction false} EscapedCharacter(c: Char, rest: Blob)
    requires SpelledChar(c) && !c.Plain?
    ensures Character(CharText(c)) == Some((EscapedCode(c), []))
    ensures ParseChars(SpellChars([c], rest)) == Ok((CharText(c), rest))
  {
    CharsSpelled([c], rest);
    assert CharsText([c]) == CharText(c) + CharsText([c][1..]);
    assert CharsText([c]) == CharText(c);
    if !c.Short? {
      CharacterOfUtf8(EscapedCode(c), []);
      assert Utf8(EscapedCode(c)) + [] == CharText(c);
    }
  }

  /** Every scalar value has an escape. */
  lemma {:induction false} EscapeExists(code: int, cases: seq<bool>) returns (c: Char)
    requires Scalar(code) && |cases| == 4
    ensures SpelledChar(c) && !c.Plain? && EscapedCode(c) == code
  {
    if code < 0x1_0000 {
      c := Unit(code, cases);
    } else {
      var offset := code - 0x1_0000;
      c := Pair(0xd800 + offset / 0x400, cases, 0xdc00 + offset % 0x400, cases);
    }
  }

  // ------------------------------------------------------------------
  // Every string that is read is spelled so
  // ------------------------------------------------------------------

  lemma {:induction false} HexLetterOf(c: Byte)
    requires HexDigit(c) < 16
    ensures c == HexLetter(HexDigit(c), c < 97)
  {
  }

  lemma {:induction false} HexCases(s: Blob) returns (cases: seq<bool>)
    requires ParseHex(s).Ok?
    ensures |cases| == 4 && s == HexText(ParseHex(s).value.0, cases) + ParseHex(s).value.1
  {
    cases := [s[0] < 97, s[1] < 97, s[2] < 97, s[3] < 97];
    HexLetterOf(s[0]);
    HexLetterOf(s[1]);
    HexLetterOf(s[2]);
    HexLetterOf(s[3]);
    HexDigits(HexDigit(s[0]), HexDigit(s[1]), HexDigit(s[2]), HexDigit(s[3]));
    assert s == s[..4] + s[4..];
    assert s[..4] == HexText(ParseHex(s).value.0, cases);
  }

  lemma {:induction false} HexDigits(a: nat, b: nat, c: nat, d: nat)
    requires a < 16 && b < 16 && c < 16 && d < 16
    ensures var n := ((a * 16 + b) * 16 + c) * 16 + d;
            n / 0x1000 == a && n / 0x100 % 16 == b && n / 0x10 % 16 == c && n % 16 == d
  {
    var n := ((a * 16 + b) * 16 + c) * 16 + d;
    assert n / 0x10 == (a * 16 + b) * 16 + c && n / 0x100 == a * 16 + b && n / 0x1000 == a;
  }

  lemma {:induction false} UnicodeDerived(s: Blob) returns (c: Char)
    requires UnicodeEscape(s).Ok?
    ensures SpelledChar(c) && CharText(c) == UnicodeEscape(s).value.0
    ensures [0x5c, 0x75] + s == SpellChar(c, UnicodeEscape(s).value.1)
  {
    var (code, rest) := ParseHex(s).value;
    var cases := HexCases(s);
    if 0xd800 <= code <= 0xdbff {
      var low := LowSurrogate(rest).value.0;
      var lowCases := HexCases(rest[2..]);
      assert rest == [0x5c, 0x75] + rest[2..];
      c := Pair(code, cases, low, lowCases);
    } else {
      c := Unit(code, cases);
    }
  }

  /** The first character of a string that is read. */
  lemma {:induction false} CharDerived(s: Blob) returns (c: Char, left: Blob)
    requires ParseChars(s).Ok? && s[0] != 0x22
    ensures SpelledChar(c) && s == SpellChar(c, left) && |left| < |s|
    ensures ParseChars(s) == Prepend(CharText(c), ParseChars(left))
  {
    if s[0] == 0x5c {
      var e := Escape(s[1..]).value;
      left := e.1;
      EscapeTaken(s, e.0, left);
      if s[1] == 0x75 {
        c := UnicodeDerived(s[2..]);
        assert s == [0x5c, 0x75] + s[2..] && s[1..][1..] == s[2..];
      } else {
        c := Short(s[1]);
        assert s == [0x5c, s[1]] + s[2..] && s[1..][1..] == s[2..];
      }
    } else {
      c, left := Plain(s[0]), s[1..];
      assert s == [s[0]] + s[1..];
    }
  }

  lemma {:induction false} CharsDerived(s: Blob) returns (cs: seq<Char>)
    requires ParseChars(s).Ok?
    ensures SpelledChars(cs) && s == SpellChars(cs, ParseChars(s).value.1) && CharsText(cs) == ParseChars(s).value.0
    decreases |s|
  {
    if s[0] == 0x22 {
      cs := [];
      assert s == [0x22] + s[1..];
    } else {
      var c, left := CharDerived(s);
      var more := CharsDerived(left);
      cs := [c] + more;
      assert cs[1..] == more;
    }
  }
}
