/** White space and numbers of JSON texts, as RFC 8259 spells them (sections 2 and 6). */
module JsonNumbers {
  import opened Bytes
  import opened Values
  import opened ValueCodec
  import opened JsonText

  // ------------------------------------------------------------------
  // White space
  // ------------------------------------------------------------------

  const WHITE: set<Byte> := {0x20, 0x09, 0x0a, 0x0d}

  predicate Gap(s: Blob) {
    forall i | 0 <= i < |s| :: s[i] in WHITE
  }

  predicate Dark(s: Blob) {
    s != [] ==> s[0] !in WHITE
  }

  /** White space is passed over, and nothing else. */
  lemma {:induction false} GapSkipped(gap: Blob, s: Blob)
    requires Gap(gap) && Dark(s)
    ensures SkipSpace(gap + s) == s
    decreases |gap|
  {
    if gap == [] {
      assert gap + s == s;
    } else {
      assert (gap + s)[1..] == gap[1..] + s;
      GapSkipped(gap[1..], s);
    }
  }

  lemma {:induction false} GapDerived(s: Blob) returns (gap: Blob)
    ensures Gap(gap) && s == gap + SkipSpace(s) && Dark(SkipSpace(s))
    decreases |s|
  {
    gap := [];
    if s != [] && IsSpace(s[0]) {
      var more := GapDerived(s[1..]);
      gap := [s[0]] + more;
      ConcatAssoc([s[0]], more, SkipSpace(s));
    }
  }

  // ------------------------------------------------------------------
  // Numbers
  // ------------------------------------------------------------------

  datatype Number = Number(minus: bool, whole: Blob, fraction: Option<Blob>, power: Option<Power>)

  /** The sign is absent, plus or minus. */
  datatype Power = Power(upper: bool, sign: Option<bool>, digits: Blob)

  predicate Digits(s: Blob) {
    s != [] && forall i | 0 <= i < |s| :: 0x30 <= s[i] <= 0x39
  }

  predicate SpelledNumber(n: Number) {
    && Digits(n.whole) && (n.whole[0] == 0x30 ==> |n.whole| == 1)
    && (n.fraction.Some? ==> Digits(n.fraction.value))
    && (n.power.Some? ==> Digits(n.power.value.digits))
  }

  function FractionBytes(fraction: Option<Blob>): Blob {
    match fraction
    case None => []
    case Some(digits) => [0x2e] + digits
  }

  function SignBytes(sign: Option<bool>): Blob {
    match sign
    case None => []
    case Some(plus) => if plus then [0x2b] else [0x2d]
  }

  function PowerBytes(power: Option<Power>): Blob {
    match power
    case None => []
    case Some(Power(upper, sign, digits)) => [if upper then 0x45 else 0x65] + (SignBytes(sign) + digits)
  }

  function MinusBytes(minus: bool): Blob {
    if minus then [0x2d] else []
  }

  function TailBytes(n: Number): Blob {
    FractionBytes(n.fraction) + PowerBytes(n.power)
  }

  function NumberBytes(n: Number): Blob {
    MinusBytes(n.minus) + (n.whole + TailBytes(n))
  }

  function WholeValue(n: Number): int
    requires SpelledNumber(n)
  {
    if n.minus then 0 - Decimal(n.whole) else Decimal(n.whole)
  }

  /** An integer in the signed 64-bit range without fraction and exponent is that integer. */
  function NumberDenotes(reals: Reals, n: Number): Result<Value>
    requires SpelledNumber(n)
  {
    if n.fraction.None? && n.power.None? && -0x8000_0000_0000_0000 <= WholeValue(n) <= 0x7fff_ffff_ffff_ffff
    then Ok(Int(WholeValue(n)))
    else match reals.parse(NumberBytes(n))
      case Some(bits) => Ok(Num(bits))
      case None => Err(Malformed)
  }

  /** What may follow a number: nothing that would go on with it. */
  predicate Ends(s: Blob) {
    s != [] ==> !(0x30 <= s[0] <= 0x39) && s[0] != 0x2e && s[0] != 0x45 && s[0] != 0x65
  }

  lemma {:induction false} SignedSpelled(sign: Option<bool>, digits: Blob, rest: Blob)
    requires Digits(digits) && Ends(rest)
    ensures SignedDigits(SignBytes(sign) + (digits + rest)) == Ok(|SignBytes(sign)| + |digits|)
  {
    var s := SignBytes(sign) + (digits + rest);
    DigitsCounted(digits, rest);
    ConcatParts(SignBytes(sign), digits + rest);
    if sign.None? {
      assert s == digits + rest;
      assert s[0] == digits[0];
    }
    assert SignCount(s) == |SignBytes(sign)|;
  }

  lemma {:induction false} ExponentTaken(letter: Byte, s: Blob)
    requires letter == 0x45 || letter == 0x65
    ensures Exponent([letter] + s) == if SignedDigits(s).Ok? then Ok(1 + SignedDigits(s).value) else Err(SignedDigits(s).error)
  {
    ConcatParts([letter], s);
  }

  lemma {:induction false} LetterSpelled(letter: Byte, signed: Blob, rest: Blob)
    requires (letter == 0x45 || letter == 0x65) && SignedDigits(signed + rest) == Ok(|signed|)
    ensures Exponent(([letter] + signed) + rest) == Ok(|[letter] + signed|)
  {
    ConcatAssoc([letter], signed, rest);
    ExponentTaken(letter, signed + rest);
  }

  lemma {:induction false} PowerSpelled(power: Option<Power>, rest: Blob)
    requires (power.Some? ==> Digits(power.value.digits)) && Ends(rest)
    ensures Exponent(PowerBytes(power) + rest) == Ok(|PowerBytes(power)|)
  {
    if power.None? {
      assert PowerBytes(power) + rest == rest;
    } else {
      var p := power.value;
      ConcatAssoc(SignBytes(p.sign), p.digits, rest);
      SignedSpelled(p.sign, p.digits, rest);
      LetterSpelled(if p.upper then 0x45 else 0x65, SignBytes(p.sign) + p.digits, rest);
    }
  }

  predicate NoDigitOrDot(s: Blob) {
    s != [] ==> !IsDigit(s[0]) && s[0] != 0x2e
  }

  lemma {:induction false} FractionSpelled(fraction: Option<Blob>, rest: Blob)
    requires (fraction.Some? ==> Digits(fraction.value)) && NoDigitOrDot(rest)
    ensures Fraction(FractionBytes(fraction) + rest) == Ok(|FractionBytes(fraction)|)
  {
    if fraction.None? {
      assert FractionBytes(fraction) + rest == rest;
    } else {
      ConcatAssoc([0x2e], fraction.value, rest);
      ConcatParts([0x2e], fraction.value + rest);
      DigitsCounted(fraction.value, rest);
    }
  }

  lemma {:induction false} TailSpelled(n: Number, rest: Blob)
    requires SpelledNumber(n) && Ends(rest)
    ensures NumberTail(TailBytes(n) + rest) == Ok(|TailBytes(n)|) && (Floating(n) <==> |TailBytes(n)| > 0)
    ensures TailBytes(n) + rest != [] ==> !IsDigit((TailBytes(n) + rest)[0])
  {
    var more := PowerBytes(n.power) + rest;
    PowerSpelled(n.power, rest);
    assert n.power.None? ==> more == rest;
    assert n.power.Some? ==> more[0] == PowerBytes(n.power)[0];
    FractionSpelled(n.fraction, more);
    ConcatAssoc(FractionBytes(n.fraction), PowerBytes(n.power), rest);
    ConcatParts(FractionBytes(n.fraction), more);
    assert n.fraction.None? ==> FractionBytes(n.fraction) + more == more;
    assert n.fraction.Some? ==> (FractionBytes(n.fraction) + more)[0] == 0x2e;
  }

  predicate Floating(n: Number) {
    n.fraction.Some? || n.power.Some?
  }

  lemma {:induction false} WholeSpelled(whole: Blob, rest: Blob)
    requires Digits(whole) && (whole[0] == 0x30 ==> |whole| == 1) && (rest != [] ==> !IsDigit(rest[0]))
    ensures IntegerPart(whole + rest) == Ok(|whole|)
  {
    DigitsCounted(whole, rest);
    assert (whole + rest)[0] == whole[0];
  }

  lemma {:induction false} MagnitudeSpelled(whole: Blob, tail: Blob, rest: Blob)
    requires Digits(whole) && (whole[0] == 0x30 ==> |whole| == 1)
    requires NumberTail(tail + rest) == Ok(|tail|) && (tail + rest != [] ==> !IsDigit((tail + rest)[0]))
    ensures Magnitude((whole + tail) + rest) == Ok((|whole + tail|, |tail| > 0))
  {
    WholeSpelled(whole, tail + rest);
    ConcatAssoc(whole, tail, rest);
    ConcatParts(whole, tail + rest);
  }

  lemma {:induction false} NegativeSpelled(body: Blob, rest: Blob, floating: bool)
    requires Magnitude(body + rest) == Ok((|body|, floating))
    ensures NumberSpan(([0x2d] + body) + rest) == Ok((1 + |body|, floating))
  {
    ConcatAssoc([0x2d], body, rest);
    ConcatParts([0x2d], body + rest);
  }

  lemma {:induction false} PositiveSpelled(body: Blob, rest: Blob, floating: bool)
    requires body != [] && body[0] != MINUS && Magnitude(body + rest) == Ok((|body|, floating))
    ensures NumberSpan(([] + body) + rest) == Ok((|body|, floating))
  {
    assert [] + body == body;
    assert (body + rest)[0] == body[0];
  }

  lemma {:induction false} SpanSpelled(n: Number, rest: Blob)
    requires SpelledNumber(n) && Ends(rest)
    ensures NumberSpan(NumberBytes(n) + rest) == Ok((|NumberBytes(n)|, Floating(n)))
  {
    TailSpelled(n, rest);
    MagnitudeSpelled(n.whole, TailBytes(n), rest);
    BodySpelled(n.minus, n.whole + TailBytes(n), rest, Floating(n));
  }

  lemma {:induction false} BodySpelled(minus: bool, body: Blob, rest: Blob, floating: bool)
    requires body != [] && body[0] != MINUS && Magnitude(body + rest) == Ok((|body|, floating))
    ensures NumberSpan((MinusBytes(minus) + body) + rest) == Ok((|MinusBytes(minus) + body|, floating))
  {
    if minus {
      NegativeSpelled(body, rest, floating);
    } else {
      PositiveSpelled(body, rest, floating);
    }
  }

  lemma {:induction false} ValueOfDigits(text: Blob, digits: Blob)
    requires Digits(digits) && text[if Starts(text, MINUS) then 1 else 0..] == digits
    ensures IntegerValue(text) == Some(if Starts(text, MINUS) then 0 - Decimal(digits) else Decimal(digits))
  {
    assert forall i | 0 <= i < |digits| :: IsDigit(digits[i]);
  }

  lemma {:induction false} WholeDenotes(n: Number)
    requires SpelledNumber(n) && !Floating(n)
    ensures IntegerValue(NumberBytes(n)) == Some(WholeValue(n))
  {
    assert TailBytes(n) == [];
    assert n.whole + [] == n.whole;
    var text := MinusBytes(n.minus) + n.whole;
    ConcatParts(MinusBytes(n.minus), n.whole);
    assert text[|MinusBytes(n.minus)|] == n.whole[0];
    ValueOfDigits(text, n.whole);
  }

  /** A spelled number reads as what it denotes. */
  lemma {:induction false} NumberSpelled(reals: Reals, n: Number, rest: Blob)
    requires SpelledNumber(n) && Ends(rest)
    ensures ParseNumber(reals, NumberBytes(n) + rest) == Before(NumberDenotes(reals, n), rest)
  {
    SpanSpelled(n, rest);
    ConcatParts(NumberBytes(n), rest);
    if !Floating(n) {
      WholeDenotes(n);
    }
  }

  lemma {:induction false} NumberLeads(n: Number, rest: Blob)
    requires SpelledNumber(n)
    ensures NumberBytes(n) + rest != []
    ensures var c := (NumberBytes(n) + rest)[0]; c == 0x2d || 0x30 <= c <= 0x39
  {
    var s := NumberBytes(n);
    if n.minus {
      assert s[0] == 0x2d;
    } else {
      assert s[0] == n.whole[0];
    }
    assert (s + rest)[0] == s[0];
  }

  // Every number that is read is spelled so.

  lemma {:induction false} SignDerived(s: Blob) returns (sign: Option<bool>)
    requires SignedDigits(s).Ok?
    ensures SignCount(s) == |SignBytes(sign)| && SignBytes(sign) == s[..SignCount(s)]
  {
    sign := if SignCount(s) == 0 then None else Some(s[0] == 43);
  }

  lemma {:induction false} PowerDerived(s: Blob) returns (power: Option<Power>)
    requires Exponent(s).Ok?
    ensures (power.Some? ==> Digits(power.value.digits)) && PowerBytes(power) == s[..Exponent(s).value]
  {
    power := None;
    if Exponent(s).value > 0 {
      var t := s[1..];
      var sign := SignDerived(t);
      var k, n := SignCount(t), SignedDigits(t).value;
      var digits := t[k..][..n - k];
      assert t[..n] == t[..k] + digits;
      assert s[..1 + n] == [s[0]] + t[..n];
      power := Some(Power(s[0] == 69, sign, digits));
    }
  }

  lemma {:induction false} FractionDerived(s: Blob) returns (fraction: Option<Blob>)
    requires Fraction(s).Ok?
    ensures (fraction.Some? ==> Digits(fraction.value)) && FractionBytes(fraction) == s[..Fraction(s).value]
  {
    fraction := None;
    if Fraction(s).value > 0 {
      fraction := Some(s[1..][..Fraction(s).value - 1]);
      assert s[..Fraction(s).value] == [s[0]] + fraction.value;
    }
  }

  lemma {:induction false} TailDerived(s: Blob, n: Number)
    requires NumberTail(s).Ok? && FractionBytes(n.fraction) == s[..Fraction(s).value]
    requires PowerBytes(n.power) == s[Fraction(s).value..][..Exponent(s[Fraction(s).value..]).value]
    ensures TailBytes(n) == s[..NumberTail(s).value] && (Floating(n) <==> NumberTail(s).value > 0)
  {
  }

  lemma {:induction false} WholeDerived(s: Blob)
    requires IntegerPart(s).Ok?
    ensures var whole := s[..IntegerPart(s).value]; Digits(whole) && (whole[0] == 0x30 ==> |whole| == 1)
  {
  }

  lemma {:induction false} PartsJoined(s: Blob, w: nat, tail: Blob)
    requires w <= |s| && |tail| <= |s| - w && tail == s[w..][..|tail|]
    ensures s[..w] + tail == s[..w + |tail|]
  {
  }

  lemma {:induction false} MagnitudeDerived(s: Blob, minus: bool) returns (n: Number)
    requires Magnitude(s).Ok?
    ensures SpelledNumber(n) && n.minus == minus && Floating(n) == Magnitude(s).value.1
    ensures n.whole + TailBytes(n) == s[..Magnitude(s).value.0]
  {
    var w := IntegerPart(s).value;
    var t := s[w..];
    MagnitudeSplits(s);
    var fraction := FractionDerived(t);
    var power := PowerDerived(t[Fraction(t).value..]);
    n := Number(minus, s[..w], fraction, power);
    WholeDerived(s);
    TailDerived(t, n);
    PartsJoined(s, w, TailBytes(n));
  }

  lemma {:induction false} SpanDerived(s: Blob) returns (n: Number)
    requires NumberSpan(s).Ok?
    ensures SpelledNumber(n) && Floating(n) == NumberSpan(s).value.1 && NumberBytes(n) == s[..NumberSpan(s).value.0]
  {
    var length := NumberSpan(s).value.0;
    if Starts(s, MINUS) {
      n := MagnitudeDerived(s[1..], true);
      assert s[..length] == [s[0]] + s[1..][..length - 1];
    } else {
      n := MagnitudeDerived(s, false);
      assert [] + s[..length] == s[..length];
    }
  }

  lemma {:induction false} NumberDerived(reals: Reals, s: Blob) returns (n: Number)
    requires ParseNumber(reals, s).Ok?
    ensures SpelledNumber(n) && s == NumberBytes(n) + ParseNumber(reals, s).value.1
    ensures NumberDenotes(reals, n) == Ok(ParseNumber(reals, s).value.0)
  {
    n := SpanDerived(s);
    var length := NumberSpan(s).value.0;
    assert s == s[..length] + s[length..];
    if !Floating(n) {
      WholeDenotes(n);
    }
  }
}
