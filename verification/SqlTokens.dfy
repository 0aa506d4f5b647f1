/** Texts spelled from tokens, white space and comments, and what they tokenize to.

The spelling of each token is said here apart from the tokenizer.
 */
module SqlTokens {
  import opened Bytes
  import opened SqlSyntax
  import L = SqlLexer

  // ------------------------------------------------------------------
  // Spellings
  // ------------------------------------------------------------------

  /** The names of a keyword, in upper case. */
  predicate Names(k: Keyword, name: string) {
    match k
    case SELECT => name == "SELECT"
    case FROM => name == "FROM"
    case WHERE => name == "WHERE"
    case INSERT => name == "INSERT"
    case INTO => name == "INTO"
    case VALUES => name == "VALUES"
    case UPDATE => name == "UPDATE"
    case SET => name == "SET"
    case DELETE => name == "DELETE"
    case CREATE => name == "CREATE"
    case TABLE => name == "TABLE"
    case ORDER => name == "ORDER"
    case BY => name == "BY"
    case ASC => name == "ASC"
    case DESC => name == "DESC"
    case LIMIT => name == "LIMIT"
    case AND => name == "AND"
    case OR => name == "OR"
    case NOT => name == "NOT"
    case NULL => name == "NULL"
    case TRUE => name == "TRUE"
    case FALSE => name == "FALSE"
    case INTEGER => name == "INTEGER" || name == "INT"
    case REAL => name == "REAL" || name == "DOUBLE"
    case TEXT => name == "TEXT"
    case BOOLEAN => name == "BOOLEAN" || name == "BOOL"
  }

  /** A letter in either case stands for the upper-case one; other characters for themselves. */
  predicate SameLetter(c: char, upper: char) {
    (c == upper && !('a' <= c <= 'z')) || ('A' <= upper <= 'Z' && c as int == upper as int + 32)
  }

  predicate SameWord(word: string, upper: string) {
    |word| == |upper| && forall i | 0 <= i < |word| :: SameLetter(word[i], upper[i])
  }

  type Group = map<string, Keyword>

  predicate OfLength(group: Group, name: string, n: nat) {
    name in group ==> |name| == n
  }

  predicate Leads(group: Group, name: string, k: Keyword, n: nat) {
    |name| == n ==> name in group && group[name] == k
  }

  lemma {:induction false} Named2(name: string)
    requires name in L.WORDS2
    ensures |name| == 2 && Names(L.WORDS2[name], name)
  {
  }

  lemma {:induction false} Words2(k: Keyword, name: string)
    requires Names(k, name)
    ensures Leads(L.WORDS2, name, k, 2) && OfLength(L.WORDS2, name, 2)
  {
  }

  lemma {:induction false} Named3(name: string)
    requires name in L.WORDS3
    ensures |name| == 3 && Names(L.WORDS3[name], name)
  {
  }

  lemma {:induction false} Words3(k: Keyword, name: string)
    requires Names(k, name)
    ensures Leads(L.WORDS3, name, k, 3) && OfLength(L.WORDS3, name, 3)
  {
  }

  lemma {:induction false} Named4(name: string)
    requires name in L.WORDS4
    ensures |name| == 4 && Names(L.WORDS4[name], name)
  {
  }

  lemma {:induction false} Words4(k: Keyword, name: string)
    requires Names(k, name)
    ensures Leads(L.WORDS4, name, k, 4) && OfLength(L.WORDS4, name, 4)
  {
  }

  lemma {:induction false} Named5(name: string)
    requires name in L.WORDS5
    ensures |name| == 5 && Names(L.WORDS5[name], name)
  {
  }

  lemma {:induction false} Words5(k: Keyword, name: string)
    requires Names(k, name)
    ensures Leads(L.WORDS5, name, k, 5) && OfLength(L.WORDS5, name, 5)
  {
  }

  lemma {:induction false} Named6(name: string)
    requires name in L.WORDS6
    ensures |name| == 6 && Names(L.WORDS6[name], name)
  {
  }

  lemma {:induction false} Words6(k: Keyword, name: string)
    requires Names(k, name)
    ensures Leads(L.WORDS6, name, k, 6) && OfLength(L.WORDS6, name, 6)
  {
  }

  lemma {:induction false} Named7(name: string)
    requires name in L.WORDS7
    ensures |name| == 7 && Names(L.WORDS7[name], name)
  {
  }

  lemma {:induction false} Words7(k: Keyword, name: string)
    requires Names(k, name)
    ensures Leads(L.WORDS7, name, k, 7) && OfLength(L.WORDS7, name, 7)
  {
  }

  lemma {:induction false} KeywordsNamed(name: string)
    requires name in L.KEYWORDS
    ensures Names(L.KEYWORDS[name], name)
  {
    if name in L.WORDS7 {
      Named7(name);
    } else if name in L.WORDS6 {
      Named6(name);
    } else if name in L.WORDS5 {
      Named5(name);
    } else if name in L.WORDS4 {
      Named4(name);
    } else if name in L.WORDS3 {
      Named3(name);
    } else {
      Named2(name);
    }
  }

  lemma {:induction false} NameLength(k: Keyword, name: string)
    requires Names(k, name)
    ensures 2 <= |name| <= 7
  {
  }

  lemma {:induction false} GroupTaken(w2: Group, w3: Group, w4: Group, w5: Group, w6: Group, w7: Group, name: string, k: Keyword)
    requires 2 <= |name| <= 7
    requires OfLength(w2, name, 2) && OfLength(w3, name, 3) && OfLength(w4, name, 4)
    requires OfLength(w5, name, 5) && OfLength(w6, name, 6) && OfLength(w7, name, 7)
    requires Leads(w2, name, k, 2) && Leads(w3, name, k, 3) && Leads(w4, name, k, 4)
    requires Leads(w5, name, k, 5) && Leads(w6, name, k, 6) && Leads(w7, name, k, 7)
    ensures var all := w2 + w3 + w4 + w5 + w6 + w7; name in all && all[name] == k
  {
  }

  lemma {:induction false} NamesKeywords(k: Keyword, name: string)
    requires Names(k, name)
    ensures name in L.KEYWORDS && L.KEYWORDS[name] == k
  {
    NameLength(k, name);
    Words2(k, name);
    Words3(k, name);
    Words4(k, name);
    Words5(k, name);
    Words6(k, name);
    Words7(k, name);
    GroupTaken(L.WORDS2, L.WORDS3, L.WORDS4, L.WORDS5, L.WORDS6, L.WORDS7, name, k);
  }

  // ------------------------------------------------------------------
  // Spellings
  // ------------------------------------------------------------------

  predicate Letter(c: char) {
    'A' <= c <= 'Z' || 'a' <= c <= 'z' || c == '_'
  }

  predicate Digit(c: char) {
    '0' <= c <= '9'
  }

  predicate White(c: char) {
    c as int in {0x20, 0x09, 0x0a, 0x0b, 0x0c, 0x0d}
  }

  predicate Wordlike(s: string) {
    s != [] && Letter(s[0]) && forall i | 0 <= i < |s| :: Letter(s[i]) || Digit(s[i])
  }

  predicate AllDigits(s: string) {
    forall i | 0 <= i < |s| :: '0' <= s[i] <= '9'
  }

  predicate Digits(s: string) {
    s != [] && AllDigits(s)
  }

  /** What the digits denote, read from the left. */
  function Number(before: nat, s: string): nat
    requires AllDigits(s)
    decreases |s|
  {
    if s == [] then before else
    assert Digit(s[0]);
    Number(10 * before + (s[0] as int - 0x30), s[1..])
  }

  /** A token as it is spelled. */
  datatype Piece =
    | NamePiece(word: string)
    | KeywordPiece(keyword: Keyword, name: string, word: string)
    | WholePiece(digits: string)
    | RealPiece(whole: string, fraction: string, value: real)
    | TextPiece(content: string)
    | SymbolPiece(token: Token, text: string)

  predicate Signs(t: Token, text: string) {
    match t
    case Comma => text == ","
    case Dot => text == "."
    case Star => text == "*"
    case Semicolon => text == ";"
    case OpenParen => text == "("
    case CloseParen => text == ")"
    case Op(Eq) => text == "="
    case Op(Neq) => text == "<>" || text == "!="
    case Op(Lt) => text == "<"
    case Op(Lte) => text == "<="
    case Op(Gt) => text == ">"
    case Op(Gte) => text == ">="
    case _ => false
  }

  ghost predicate SpelledPiece(reals: L.RealReader, p: Piece) {
    match p
    case NamePiece(word) => Wordlike(word) && forall k, name {:trigger Names(k, name)} | Names(k, name) :: !SameWord(word, name)
    case KeywordPiece(keyword, name, word) => Names(keyword, name) && SameWord(word, name)
    case WholePiece(digits) => Digits(digits) && Number(0, digits) <= 0x7fff_ffff_ffff_ffff
    case RealPiece(whole, fraction, value) =>
      Digits(whole) && Digits(fraction) && reals(whole + ("." + fraction)) == Some(value)
    case TextPiece(_) => true
    case SymbolPiece(token, text) => Signs(token, text)
  }

  /** A text with its quotes doubled. */
  function Doubled(s: string): string
    decreases |s|
  {
    if s == [] then [] else (if s[0] == '\'' then "\'\'" else [s[0]]) + Doubled(s[1..])
  }

  function PieceText(p: Piece): string {
    match p
    case NamePiece(word) => word
    case KeywordPiece(_, _, word) => word
    case WholePiece(digits) => digits
    case RealPiece(whole, fraction, _) => whole + ("." + fraction)
    case TextPiece(content) => "\'" + (Doubled(content) + "\'")
    case SymbolPiece(_, text) => text
  }

  function PieceToken(reals: L.RealReader, p: Piece): Token
    requires SpelledPiece(reals, p)
  {
    match p
    case NamePiece(word) => Identifier(word)
    case KeywordPiece(keyword, _, _) => Word(keyword)
    case WholePiece(digits) => IntegerLiteral(Number(0, digits))
    case RealPiece(_, _, value) => RealLiteral(value)
    case TextPiece(content) => StringLiteral(content)
    case SymbolPiece(token, _) => token
  }

  predicate Front(s: string, c: char) {
    s != [] && s[0] == c
  }

  /** What follows a token does not go on with it. */
  predicate Apart(p: Piece, rest: string) {
    match p
    case NamePiece(_) => rest != [] ==> !Letter(rest[0]) && !Digit(rest[0])
    case KeywordPiece(_, _, _) => rest != [] ==> !Letter(rest[0]) && !Digit(rest[0])
    case WholePiece(_) => rest != [] ==> !Digit(rest[0]) && !(rest[0] == '.' && |rest| > 1 && Digit(rest[1]))
    case RealPiece(_, _, _) => rest != [] ==> !Digit(rest[0])
    case TextPiece(_) => !Front(rest, '\'')
    case SymbolPiece(_, text) => (text == "<" ==> !Front(rest, '>') && !Front(rest, '=')) && (text == ">" ==> !Front(rest, '='))
  }

  /** A text as it is spelled: white space, comments, and tokens. */
  datatype Spelling = Done | Space(c: char, rest: Spelling) | Comment(remark: string, rest: Spelling) | Spelled(piece: Piece, rest: Spelling)

  function Text(sp: Spelling): string {
    match sp
    case Done => ""
    case Space(c, rest) => [c] + Text(rest)
    case Comment(remark, rest) => "--" + (remark + Text(rest))
    case Spelled(piece, rest) => PieceText(piece) + Text(rest)
  }

  ghost predicate WellSpelled(reals: L.RealReader, sp: Spelling) {
    match sp
    case Done => true
    case Space(c, rest) => White(c) && WellSpelled(reals, rest)
    case Comment(remark, rest) =>
      && (forall i | 0 <= i < |remark| :: remark[i] != '\n') && (Text(rest) == "" || Front(Text(rest), '\n'))
      && WellSpelled(reals, rest)
    case Spelled(piece, rest) => SpelledPiece(reals, piece) && Apart(piece, Text(rest)) && WellSpelled(reals, rest)
  }

  function TokensOf(reals: L.RealReader, sp: Spelling): seq<Token>
    requires WellSpelled(reals, sp)
  {
    match sp
    case Done => [End]
    case Space(_, rest) => TokensOf(reals, rest)
    case Comment(_, rest) => TokensOf(reals, rest)
    case Spelled(piece, rest) => [PieceToken(reals, piece)] + TokensOf(reals, rest)
  }

  // ------------------------------------------------------------------
  // Each piece is taken whole
  // ------------------------------------------------------------------

  /** What the tokenizer does at the front of a spelled piece. */
  ghost predicate Taken(reals: L.RealReader, p: Piece, rest: string)
    requires SpelledPiece(reals, p)
  {
    PieceText(p) + rest != [] && L.LexOne(reals, PieceText(p) + rest) == L.Take(PieceToken(reals, p), |PieceText(p)|)
  }

  lemma {:induction false} UpperIs(word: string, name: string)
    requires SameWord(word, name)
    ensures L.ToUpper(word) == name
  {
    forall i | 0 <= i < |word|
      ensures L.Upper(word[i]) == name[i]
    {
      assert SameLetter(word[i], name[i]);
    }
  }

  lemma {:induction false} UpperSame(word: string)
    ensures SameWord(word, L.ToUpper(word))
  {
    forall i | 0 <= i < |word|
      ensures SameLetter(word[i], L.ToUpper(word)[i])
    {
      var c := word[i];
      assert L.ToUpper(word)[i] == L.Upper(c);
    }
  }

  lemma {:induction false} WordMeasured(word: string, rest: string)
    requires (forall i | 0 <= i < |word| :: L.InWord(word[i])) && (rest != [] ==> !L.InWord(rest[0]))
    ensures L.WordLength(word + rest) == |word|
    decreases |word|
  {
    if word == [] {
      assert word + rest == rest;
    } else {
      assert (word + rest)[1..] == word[1..] + rest;
      WordMeasured(word[1..], rest);
    }
  }

  lemma {:induction false} DigitsMeasured(s: string, rest: string)
    requires (forall i | 0 <= i < |s| :: L.IsDigit(s[i])) && (rest != [] ==> !L.IsDigit(rest[0]))
    ensures L.DigitLength(s + rest) == |s|
    decreases |s|
  {
    if s == [] {
      assert s + rest == rest;
    } else {
      assert (s + rest)[1..] == s[1..] + rest;
      DigitsMeasured(s[1..], rest);
    }
  }

  lemma {:induction false} WordTaken(reals: L.RealReader, word: string, rest: string)
    requires Wordlike(word) && (rest != [] ==> !Letter(rest[0]) && !Digit(rest[0]))
    ensures word + rest != [] && L.LexOne(reals, word + rest) == L.Take(L.WordToken(word), |word|)
  {
    WordMeasured(word, rest);
    assert (word + rest)[0] == word[0];
    assert (word + rest)[..|word|] == word;
  }

  lemma {:induction false} NameTaken(reals: L.RealReader, p: Piece, rest: string)
    requires p.NamePiece? && SpelledPiece(reals, p) && Apart(p, rest)
    ensures Taken(reals, p, rest)
  {
    WordTaken(reals, p.word, rest);
    var upper := L.ToUpper(p.word);
    UpperSame(p.word);
    if upper in L.KEYWORDS {
      KeywordsNamed(upper);
    }
  }

  lemma {:induction false} NamedWordlike(k: Keyword, name: string, word: string)
    requires Names(k, name) && SameWord(word, name)
    ensures Wordlike(word)
  {
    NameLetters(k, name);
    forall i | 0 <= i < |word|
      ensures Letter(word[i])
    {
      assert SameLetter(word[i], name[i]);
    }
  }

  lemma {:induction false} NameLetters(k: Keyword, name: string)
    requires Names(k, name)
    ensures forall i | 0 <= i < |name| :: 'A' <= name[i] <= 'Z'
  {
  }

  lemma {:induction false} KeywordTaken(reals: L.RealReader, p: Piece, rest: string)
    requires p.KeywordPiece? && SpelledPiece(reals, p) && Apart(p, rest)
    ensures Taken(reals, p, rest)
  {
    NameLength(p.keyword, p.name);
    NamedWordlike(p.keyword, p.name, p.word);
    WordTaken(reals, p.word, rest);
    UpperIs(p.word, p.name);
    NamesKeywords(p.keyword, p.name);
  }

  /** Reading digits from the left and from the right is the same. */
  lemma {:induction false} NumberSnoc(before: nat, s: string, c: char)
    requires AllDigits(s) && Digit(c)
    ensures Number(before, s + [c]) == 10 * Number(before, s) + (c as int - 0x30)
    decreases |s|
  {
    if s == [] {
      assert s + [c] == [c] && [c][1..] == [];
    } else {
      assert (s + [c])[0] == s[0] && (s + [c])[1..] == s[1..] + [c];
      NumberSnoc(10 * before + (s[0] as int - 0x30), s[1..], c);
    }
  }

  lemma {:induction false} DecimalIs(s: string)
    requires AllDigits(s)
    ensures L.Decimal(s) == Number(0, s)
    decreases |s|
  {
    if s != [] {
      var front := s[..|s| - 1];
      assert s == front + [s[|s| - 1]];
      DecimalIs(front);
      NumberSnoc(0, front, s[|s| - 1]);
    }
  }

  lemma {:induction false} WholeTaken(reals: L.RealReader, p: Piece, rest: string)
    requires p.WholePiece? && SpelledPiece(reals, p) && Apart(p, rest)
    ensures Taken(reals, p, rest)
  {
    var s := p.digits + rest;
    DigitsMeasured(p.digits, rest);
    ConcatParts(p.digits, rest);
    DecimalIs(p.digits);
    assert s[0] == p.digits[0];
    assert L.FractionLength(rest) == 0;
    assert forall i | 0 <= i < |p.digits| :: L.IsDigit(p.digits[i]);
  }

  lemma {:induction false} FractionMeasured(fraction: string, rest: string)
    requires Digits(fraction) && (rest != [] ==> !Digit(rest[0]))
    ensures L.FractionLength(("." + fraction) + rest) == 1 + |fraction|
  {
    DigitsMeasured(fraction, rest);
    ConcatAssoc(".", fraction, rest);
    ConcatParts(".", fraction + rest);
    assert (("." + fraction) + rest)[1] == fraction[0];
  }

  lemma {:induction false} RealMeasured(whole: string, fraction: string, rest: string)
    requires Digits(whole) && Digits(fraction) && (rest != [] ==> !Digit(rest[0]))
    ensures var s := (whole + ("." + fraction)) + rest;
            && s != [] && Digit(s[0]) && L.DigitLength(s) == |whole| && L.FractionLength(s[|whole|..]) == 1 + |fraction|
  {
    var tail := "." + fraction;
    ConcatAssoc(whole, tail, rest);
    assert (tail + rest)[0] == '.';
    DigitsMeasured(whole, tail + rest);
    ConcatParts(whole, tail + rest);
    FractionMeasured(fraction, rest);
    assert ((whole + tail) + rest)[0] == whole[0];
  }

  lemma {:induction false} NumberLexed(reals: L.RealReader, s: string)
    requires s != [] && Digit(s[0])
    ensures L.LexOne(reals, s) == L.LexNumber(reals, s)
  {
  }

  lemma {:induction false} RealTaken(reals: L.RealReader, p: Piece, rest: string)
    requires p.RealPiece? && SpelledPiece(reals, p) && Apart(p, rest)
    ensures Taken(reals, p, rest)
  {
    var text := p.whole + ("." + p.fraction);
    RealMeasured(p.whole, p.fraction, rest);
    ConcatParts(text, rest);
    NumberLexed(reals, text + rest);
  }

  lemma {:induction false} QuotedReads(value: string, rest: string)
    requires !Front(rest, '\'')
    ensures L.Quoted(Doubled(value) + ("\'" + rest)) == Some((value, |Doubled(value)| + 1))
    decreases |value|
  {
    var tail := "\'" + rest;
    var s := Doubled(value) + tail;
    if value == [] {
      assert s == tail;
      assert |s| > 1 ==> s[1] == rest[0];
    } else {
      var head := if value[0] == '\'' then "\'\'" else [value[0]];
      ConcatAssoc(head, Doubled(value[1..]), tail);
      ConcatParts(head, Doubled(value[1..]) + tail);
      QuotedReads(value[1..], rest);
      assert [value[0]] + value[1..] == value;
      assert s[0] == head[0];
      if value[0] == '\'' {
        assert s[1] == head[1];
      }
    }
  }

  lemma {:induction false} TextTaken(reals: L.RealReader, p: Piece, rest: string)
    requires p.TextPiece? && Apart(p, rest)
    ensures Taken(reals, p, rest)
  {
    var inner := Doubled(p.content);
    QuotedReads(p.content, rest);
    ConcatAssoc("\'", inner + "\'", rest);
    ConcatAssoc(inner, "\'", rest);
    ConcatParts("\'", inner + ("\'" + rest));
    assert (PieceText(p) + rest)[0] == '\'';
  }

  lemma {:induction false} SymbolLexed(reals: L.RealReader, s: string)
    requires s != [] && s[0] in {',', '.', '*', ';', '(', ')', '=', '<', '>', '!'}
    ensures L.LexOne(reals, s) == L.LexSymbol(s)
  {
  }

  lemma {:induction false} OneSign(t: Token, c: char, rest: string)
    requires Signs(t, [c]) && (c == '<' ==> !Front(rest, '>') && !Front(rest, '=')) && (c == '>' ==> !Front(rest, '='))
    ensures L.LexSymbol([c] + rest) == L.Take(t, 1)
  {
    var s := [c] + rest;
    assert rest != [] ==> s[1] == rest[0];
  }

  lemma {:induction false} TwoSigns(t: Token, c: char, d: char, rest: string)
    requires Signs(t, [c, d])
    ensures L.LexSymbol([c, d] + rest) == L.Take(t, 2)
  {
    var s := [c, d] + rest;
    assert s[0] == c && s[1] == d;
    assert [c, d][0] == c && [c, d][1] == d;
  }

  lemma {:induction false} SignsShort(t: Token, text: string)
    requires Signs(t, text)
    ensures |text| == 1 || |text| == 2
    ensures |text| == 1 ==> text == [text[0]]
    ensures |text| == 2 ==> text == [text[0], text[1]]
    ensures text != "<" ==> text != [] && (|text| == 1 ==> text[0] != '<')
    ensures text != ">" ==> text != [] && (|text| == 1 ==> text[0] != '>')
  {
  }

  lemma {:induction false} SymbolTaken(reals: L.RealReader, p: Piece, rest: string)
    requires p.SymbolPiece? && SpelledPiece(reals, p) && Apart(p, rest)
    ensures Taken(reals, p, rest)
  {
    var text := p.text;
    SignsShort(p.token, text);
    SignLexed(reals, p.token, text, rest);
    if |text| == 1 {
      OneSign(p.token, text[0], rest);
    } else {
      TwoSigns(p.token, text[0], text[1], rest);
    }
  }

  lemma {:induction false} SignLexed(reals: L.RealReader, t: Token, text: string, rest: string)
    requires Signs(t, text)
    ensures text + rest != [] && L.LexOne(reals, text + rest) == L.LexSymbol(text + rest)
  {
    SignsShort(t, text);
    assert (text + rest)[0] == text[0];
    SignLeads(t, text);
    SymbolLexed(reals, text + rest);
  }

  lemma {:induction false} SignLeads(t: Token, text: string)
    requires Signs(t, text) && text != []
    ensures text[0] in {',', '.', '*', ';', '(', ')', '=', '<', '>', '!'}
  {
  }

  lemma {:induction false} PieceTaken(reals: L.RealReader, p: Piece, rest: string)
    requires SpelledPiece(reals, p) && Apart(p, rest)
    ensures Taken(reals, p, rest)
  {
    match p
    case NamePiece(_) => NameTaken(reals, p, rest);
    case KeywordPiece(_, _, _) => KeywordTaken(reals, p, rest);
    case WholePiece(_) => WholeTaken(reals, p, rest);
    case RealPiece(_, _, _) => RealTaken(reals, p, rest);
    case TextPiece(_) => TextTaken(reals, p, rest);
    case SymbolPiece(_, _) => SymbolTaken(reals, p, rest);
  }

  // ------------------------------------------------------------------
  // Spelled texts tokenize to their tokens
  // ------------------------------------------------------------------

  lemma {:induction false} SkipStep(reals: L.RealReader, front: string, rest: string)
    requires front != [] && L.LexOne(reals, front + rest) == L.Skip(|front|)
    ensures L.Tokenize(L.LexerOf(reals), front + rest) == L.Tokenize(L.LexerOf(reals), rest)
  {
    ConcatParts(front, rest);
    assert L.LexerOf(reals)(front + rest) == L.LexOne(reals, front + rest);
    var r := L.Tokenize(L.LexerOf(reals), rest);
    assert r.Ok? ==> [] + r.value == r.value;
  }

  lemma {:induction false} TakeStep(reals: L.RealReader, front: string, rest: string, token: Token)
    requires front != [] && L.LexOne(reals, front + rest) == L.Take(token, |front|)
    ensures L.Tokenize(L.LexerOf(reals), front + rest) == L.After([token], L.Tokenize(L.LexerOf(reals), rest))
  {
    ConcatParts(front, rest);
    assert L.LexerOf(reals)(front + rest) == L.LexOne(reals, front + rest);
  }

  lemma {:induction false} LineMeasured(line: string, rest: string)
    requires (forall i | 0 <= i < |line| :: line[i] != '\n') && (rest == [] || rest[0] == '\n')
    ensures L.LineLength(line + rest) == |line|
    decreases |line|
  {
    if line == [] {
      assert line + rest == rest;
    } else {
      assert (line + rest)[1..] == line[1..] + rest;
      LineMeasured(line[1..], rest);
    }
  }

  lemma {:induction false} CommentSkipped(reals: L.RealReader, remark: string, rest: string)
    requires (forall i | 0 <= i < |remark| :: remark[i] != '\n') && (rest == "" || Front(rest, '\n'))
    ensures L.LexOne(reals, ("--" + remark) + rest) == L.Skip(2 + |remark|)
  {
    var line := "--" + remark;
    LineMeasured(line, rest);
    assert (line + rest)[0] == '-' && (line + rest)[1] == '-';
  }

  /** Tokenizing the text of any spelling gives its tokens: words as written, keywords in any case,
      numbers by their digits, strings without the doubling of quotes. */
  lemma {:induction false} TokenizeOfSpelling(reals: L.RealReader, sp: Spelling)
    requires WellSpelled(reals, sp)
    ensures L.Tokenize(L.LexerOf(reals), Text(sp)) == Ok(TokensOf(reals, sp))
    decreases sp
  {
    match sp
    case Done =>
    case Space(c, rest) =>
      TokenizeOfSpelling(reals, rest);
      assert ([c] + Text(rest))[0] == c;
      SkipStep(reals, [c], Text(rest));
    case Comment(remark, rest) =>
      TokenizeOfSpelling(reals, rest);
      CommentSkipped(reals, remark, Text(rest));
      ConcatAssoc("--", remark, Text(rest));
      SkipStep(reals, "--" + remark, Text(rest));
    case Spelled(piece, rest) =>
      TokenizeOfSpelling(reals, rest);
      PieceTaken(reals, piece, Text(rest));
      PieceSolid(reals, piece);
      TakeStep(reals, PieceText(piece), Text(rest), PieceToken(reals, piece));
  }

  lemma {:induction false} PieceSolid(reals: L.RealReader, p: Piece)
    requires SpelledPiece(reals, p)
    ensures PieceText(p) != []
  {
    if p.KeywordPiece? {
      NameLength(p.keyword, p.name);
    }
  }

  /** White space or a comment after a piece always keeps it apart from what follows. */
  lemma {:induction false} GapsKeepApart(reals: L.RealReader, p: Piece, rest: Spelling)
    requires SpelledPiece(reals, p) && WellSpelled(reals, rest) && !rest.Spelled?
    ensures Apart(p, Text(rest))
  {
    match rest
    case Done =>
    case Space(c, _) => assert Text(rest)[0] == c;
    case Comment(_, _) => assert Text(rest)[0] == '-';
  }

  // ------------------------------------------------------------------
  // Every text that tokenizes is spelled so
  // ------------------------------------------------------------------

  /** What was taken from the front of a text, as a piece. */
  ghost predicate PieceAt(reals: L.RealReader, s: string, p: Piece, token: Token, size: nat) {
    && SpelledPiece(reals, p) && PieceToken(reals, p) == token
    && size <= |s| && PieceText(p) == s[..size] && Apart(p, s[size..])
  }

  lemma {:induction false} WordDerived(reals: L.RealReader, s: string) returns (p: Piece)
    requires s != [] && Letter(s[0])
    ensures PieceAt(reals, s, p, L.WordToken(s[..L.WordLength(s)]), L.WordLength(s))
  {
    var n := L.WordLength(s);
    var word := s[..n];
    assert n > 0 && Wordlike(word);
    UpperSame(word);
    if L.ToUpper(word) in L.KEYWORDS {
      KeywordsNamed(L.ToUpper(word));
      p := KeywordPiece(L.KEYWORDS[L.ToUpper(word)], L.ToUpper(word), word);
    } else {
      p := NamePiece(word);
      forall k, name {:trigger Names(k, name)} | Names(k, name)
        ensures !SameWord(word, name)
      {
        NamesKeywords(k, name);
        if SameWord(word, name) {
          UpperIs(word, name);
        }
      }
    }
  }

  lemma {:induction false} WholeDerived(reals: L.RealReader, s: string, token: Token) returns (p: Piece)
    requires s != [] && Digit(s[0]) && L.FractionLength(s[L.DigitLength(s)..]) == 0
    requires L.NumberToken(reals, s[..L.DigitLength(s)], false) == Some(token)
    ensures PieceAt(reals, s, p, token, L.DigitLength(s))
  {
    var n := L.DigitLength(s);
    p := WholePiece(s[..n]);
    assert n > 0 && Digits(s[..n]);
    DecimalIs(s[..n]);
    if n < |s| {
      assert s[n..][0] == s[n];
    }
  }

  lemma {:induction false} RealDerived(reals: L.RealReader, s: string, token: Token) returns (p: Piece)
    requires s != [] && Digit(s[0]) && L.FractionLength(s[L.DigitLength(s)..]) > 0
    requires L.NumberToken(reals, s[..L.DigitLength(s) + L.FractionLength(s[L.DigitLength(s)..])], true) == Some(token)
    ensures PieceAt(reals, s, p, token, L.DigitLength(s) + L.FractionLength(s[L.DigitLength(s)..]))
  {
    var n := L.DigitLength(s);
    var t := s[n..];
    var m := L.DigitLength(t[1..]);
    var fraction := t[1..][..m];
    assert n > 0 && Digits(s[..n]);
    assert t[1..][0] == t[1] && m > 0 && Digits(fraction);
    assert "." + fraction == t[..1 + m];
    assert s[..n] + t[..1 + m] == s[..n + (1 + m)];
    p := RealPiece(s[..n], fraction, token.r);
    if n + 1 + m < |s| {
      assert s[n + (1 + m)..][0] == t[1..][m];
    }
  }

  lemma {:induction false} QuotedDerived(s: string)
    requires L.Quoted(s).Some?
    ensures var (value, n) := L.Quoted(s).value;
            n <= |s| && s[..n] == Doubled(value) + "\'" && !Front(s[n..], '\'')
    decreases |s|
  {
    if s[0] == L.QUOTE && !(|s| > 1 && s[1] == L.QUOTE) {
      assert s[..1] == "\'";
      assert |s| > 1 ==> s[1..][0] == s[1];
    } else {
      var size := if s[0] == L.QUOTE then 2 else 1;
      QuotedDerived(s[size..]);
      var (more, n) := L.Quoted(s[size..]).value;
      var head := if s[0] == L.QUOTE then "\'\'" else [s[0]];
      QuotedJoined(s, size, n, head, more);
    }
  }

  lemma {:induction false} QuotedJoined(s: string, size: nat, n: nat, head: string, more: string)
    requires size <= |s| && n <= |s| - size && s != [] && size == |head| && head == (if s[0] == '\'' then "\'\'" else [s[0]])
    requires s[..size] == head && s[size..][..n] == Doubled(more) + "\'"
    ensures s[..size + n] == Doubled([s[0]] + more) + "\'" && s[size + n..] == s[size..][n..]
  {
    assert ([s[0]] + more)[1..] == more;
    ConcatAssoc(head, Doubled(more), "\'");
    assert s[..size + n] == s[..size] + s[size..][..n];
  }

  lemma {:induction false} TextDerived(reals: L.RealReader, s: string) returns (p: Piece)
    requires s != [] && s[0] == '\'' && L.LexString(s).Take?
    ensures PieceAt(reals, s, p, L.LexString(s).token, L.LexString(s).size)
  {
    var (value, n) := L.Quoted(s[1..]).value;
    QuotedDerived(s[1..]);
    p := TextPiece(value);
    assert s[..1 + n] == "\'" + s[1..][..n];
    assert s[1 + n..] == s[1..][n..];
  }

  lemma {:induction false} SymbolDerived(reals: L.RealReader, s: string) returns (p: Piece)
    requires s != [] && L.LexSymbol(s).Take?
    ensures PieceAt(reals, s, p, L.LexSymbol(s).token, L.LexSymbol(s).size)
  {
    var n := L.LexSymbol(s).size;
    p := SymbolPiece(L.LexSymbol(s).token, s[..n]);
    assert s[..n] == if n == 1 then [s[0]] else [s[0], s[1]];
    assert n == 1 && |s| > 1 ==> s[1..][0] == s[1];
  }

  lemma {:induction false} PieceDerived(reals: L.RealReader, s: string) returns (p: Piece)
    requires s != [] && L.LexOne(reals, s).Take?
    ensures PieceAt(reals, s, p, L.LexOne(reals, s).token, L.LexOne(reals, s).size)
  {
    if Letter(s[0]) {
      p := WordDerived(reals, s);
    } else if Digit(s[0]) {
      if L.FractionLength(s[L.DigitLength(s)..]) == 0 {
        p := WholeDerived(reals, s, L.LexOne(reals, s).token);
      } else {
        p := RealDerived(reals, s, L.LexOne(reals, s).token);
      }
    } else if s[0] == '\'' {
      p := TextDerived(reals, s);
    } else {
      p := SymbolDerived(reals, s);
    }
  }

  lemma {:induction false} LineDerived(s: string)
    ensures forall i | 0 <= i < L.LineLength(s) :: s[i] != '\n'
    ensures s[L.LineLength(s)..] == "" || Front(s[L.LineLength(s)..], '\n')
    decreases |s|
  {
    if s != [] && s[0] != '\n' {
      LineDerived(s[1..]);
      assert forall i | 0 < i < L.LineLength(s) :: s[i] == s[1..][i - 1];
      assert s[L.LineLength(s)..] == s[1..][L.LineLength(s[1..])..];
    }
  }

  lemma {:induction false} SpellingDerived(reals: L.RealReader, s: string) returns (sp: Spelling)
    requires L.Tokenize(L.LexerOf(reals), s).Ok?
    ensures WellSpelled(reals, sp) && Text(sp) == s && TokensOf(reals, sp) == L.Tokenize(L.LexerOf(reals), s).value
    decreases |s|
  {
    if s == [] {
      sp := Done;
    } else {
      var r := L.LexOne(reals, s);
      assert L.LexerOf(reals)(s) == r;
      var rest := SpellingDerived(reals, s[r.size..]);
      assert s == s[..r.size] + s[r.size..];
      if r.Take? {
        var p := PieceDerived(reals, s);
        sp := Spelled(p, rest);
      } else if L.IsSpace(s[0]) {
        assert s[..1] == [s[0]];
        sp := Space(s[0], rest);
      } else {
        LineDerived(s);
        CommentLong(s);
        var remark := s[..r.size][2..];
        assert s[..r.size] == "--" + remark;
        ConcatAssoc("--", remark, Text(rest));
        sp := Comment(remark, rest);
      }
    }
  }

  lemma {:induction false} CommentLong(s: string)
    requires L.Comments(s)
    ensures L.LineLength(s) >= 2
  {
    assert s[1..][0] == '-';
    assert L.LineLength(s[1..]) >= 1;
  }

  /** A text tokenizes to a list of tokens if and only if it is a spelling of them. */
  lemma {:induction false} TokenizesIff(reals: L.RealReader, s: string, tokens: seq<Token>)
    ensures L.Tokenize(L.LexerOf(reals), s) == Ok(tokens)
            <==> exists sp :: WellSpelled(reals, sp) && Text(sp) == s && TokensOf(reals, sp) == tokens
  {
    if L.Tokenize(L.LexerOf(reals), s) == Ok(tokens) {
      var sp := SpellingDerived(reals, s);
    }
    forall sp | WellSpelled(reals, sp) && Text(sp) == s
      ensures L.Tokenize(L.LexerOf(reals), s) == Ok(TokensOf(reals, sp))
    {
      TokenizeOfSpelling(reals, sp);
    }
  }
}
