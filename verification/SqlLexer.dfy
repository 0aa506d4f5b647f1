/** The SQL tokenizer, and the splitter that looks for the end of a statement without it. */
module SqlLexer {
  import opened Bytes
  import opened SqlSyntax
  import SqlParser

  /** The value of a real literal's text, if a double can hold it. */
  type RealReader = string -> Option<real>

  const QUOTE: char := '\''

  // ------------------------------------------------------------------
  // Characters
  // ------------------------------------------------------------------

  predicate IsSpace(c: char) {
    c == ' ' || c == '\t' || c == '\n' || c == '\r' || c as int == 11 || c as int == 12
  }

  predicate IsAlpha(c: char) {
    'a' <= c <= 'z' || 'A' <= c <= 'Z'
  }

  predicate IsDigit(c: char) {
    '0' <= c <= '9'
  }

  predicate InWord(c: char) {
    IsAlpha(c) || IsDigit(c) || c == '_'
  }

  function Upper(c: char): char {
    if 'a' <= c <= 'z' then (c as int - 32) as char else c
  }

  function ToUpper(s: string): (r: string)
    ensures |r| == |s|
  {
    seq(|s|, i requires 0 <= i < |s| => Upper(s[i]))
  }

  // ------------------------------------------------------------------
  // Words, numbers, strings
  // ------------------------------------------------------------------

  // The keywords, by length.
  const WORDS2: map<string, Keyword> := map["BY" := BY, "OR" := OR]
  const WORDS3: map<string, Keyword> := map["SET" := SET, "ASC" := ASC, "AND" := AND, "NOT" := NOT, "INT" := INTEGER]
  const WORDS4: map<string, Keyword> := map[
    "FROM" := FROM, "INTO" := INTO, "DESC" := DESC, "NULL" := NULL, "TRUE" := TRUE, "REAL" := REAL, "TEXT" := TEXT, "BOOL" := BOOLEAN]
  const WORDS5: map<string, Keyword> := map["WHERE" := WHERE, "TABLE" := TABLE, "ORDER" := ORDER, "LIMIT" := LIMIT, "FALSE" := FALSE]
  const WORDS6: map<string, Keyword> := map[
    "SELECT" := SELECT, "INSERT" := INSERT, "VALUES" := VALUES, "UPDATE" := UPDATE, "DELETE" := DELETE, "CREATE" := CREATE,
    "DOUBLE" := REAL]
  const WORDS7: map<string, Keyword> := map["INTEGER" := INTEGER, "BOOLEAN" := BOOLEAN]

  const KEYWORDS: map<string, Keyword> := WORDS2 + WORDS3 + WORDS4 + WORDS5 + WORDS6 + WORDS7

  /** Keywords are recognised in any case; every other word is an identifier as written. */
  function WordToken(word: string): (t: Token)
    ensures t.Word? || t.Identifier?
  {
    if ToUpper(word) in KEYWORDS then Word(KEYWORDS[ToUpper(word)]) else Identifier(word)
  }

  function WordLength(s: string): (n: nat)
    ensures n <= |s| && (n < |s| ==> !InWord(s[n])) && forall i | 0 <= i < n :: InWord(s[i])
    decreases |s|
  {
    if s != [] && InWord(s[0]) then 1 + WordLength(s[1..]) else 0
  }

  function DigitLength(s: string): (n: nat)
    ensures n <= |s| && (n < |s| ==> !IsDigit(s[n])) && forall i | 0 <= i < n :: IsDigit(s[i])
    decreases |s|
  {
    if s != [] && IsDigit(s[0]) then 1 + DigitLength(s[1..]) else 0
  }

  /** A dot belongs to a number only if a digit follows it. */
  function FractionLength(s: string): (n: nat)
    ensures n <= |s|
  {
    if |s| > 1 && s[0] == '.' && IsDigit(s[1]) then 1 + DigitLength(s[1..]) else 0
  }

  function Decimal(s: string): (n: nat)
    requires forall i | 0 <= i < |s| :: IsDigit(s[i])
    decreases |s|
  {
    if s == [] then 0 else
    assert IsDigit(s[|s| - 1]);
    10 * Decimal(s[..|s| - 1]) + (s[|s| - 1] as int - '0' as int)
  }

  function NumberToken(reals: RealReader, text: string, isReal: bool): (r: Option<Token>)
    ensures r.Some? ==> r.value.RealLiteral? || r.value.IntegerLiteral?
  {
    if isReal then (match reals(text) case Some(r) => Some(RealLiteral(r)) case None => None)
    else if (forall i | 0 <= i < |text| :: IsDigit(text[i])) && Decimal(text) < 0x8000_0000_0000_0000
    then Some(IntegerLiteral(Decimal(text)))
    else None
  }

  /** A string after its opening quote: its value, and its length up to and with the closing
      quote. A doubled quote stands for one. */
  function Quoted(s: string): (r: Option<(string, nat)>)
    ensures r.Some? ==> 0 < r.value.1 <= |s|
    decreases |s|
  {
    if s == [] then None
    else if s[0] == QUOTE && !(|s| > 1 && s[1] == QUOTE) then Some(("", 1))
    else
      var size := if s[0] == QUOTE then 2 else 1;
      match Quoted(s[size..])
      case None => None
      case Some((more, n)) => Some(([s[0]] + more, size + n))
  }

  function LineLength(s: string): (n: nat)
    ensures n <= |s| && (s != [] && s[0] != '\n' ==> n > 0)
    decreases |s|
  {
    if s != [] && s[0] != '\n' then 1 + LineLength(s[1..]) else 0
  }

  // ------------------------------------------------------------------
  // Tokens
  // ------------------------------------------------------------------

  /** What lies at the front of a text. */
  datatype Lexed = Skip(size: nat) | Take(token: Token, size: nat) | Reject

  function LexNumber(reals: RealReader, s: string): (r: Lexed)
    requires s != [] && IsDigit(s[0])
    ensures !r.Reject? ==> 0 < r.size <= |s|
    ensures r.Take? ==> r.token != Semicolon && r.token != End
    ensures !r.Skip?
  {
    var whole := DigitLength(s);
    var fraction := FractionLength(s[whole..]);
    match NumberToken(reals, s[..whole + fraction], fraction > 0)
    case Some(t) => Take(t, whole + fraction)
    case None => Reject
  }

  function LexString(s: string): (r: Lexed)
    requires Starts(s, QUOTE)
    ensures !r.Reject? ==> 0 < r.size <= |s|
    ensures r.Take? ==> r.token != Semicolon && r.token != End
    ensures !r.Skip?
  {
    match Quoted(s[1..])
    case Some((value, n)) => Take(StringLiteral(value), 1 + n)
    case None => Reject
  }

  predicate Starts(s: string, c: char) {
    s != [] && s[0] == c
  }

  predicate StartsWith(s: string, c: char, d: char) {
    |s| > 1 && s[0] == c && s[1] == d
  }

  function LexSymbol(s: string): (r: Lexed)
    requires s != []
    ensures !r.Reject? ==> 0 < r.size <= |s|
    ensures r.Take? ==> r.token != End && (r.token == Semicolon <==> s[0] == ';')
    ensures r.Take? && s[0] != ';' ==> s[0] != QUOTE && (r.size > 1 ==> s[1] != QUOTE && s[1] != ';')
    ensures r.Take? ==> r.size <= 2 && (s[0] == ';' ==> r.size == 1)
    ensures !r.Skip?
  {
    if StartsWith(s, '!', '=') then Take(Op(Neq), 2)
    else if StartsWith(s, '<', '>') then Take(Op(Neq), 2)
    else if StartsWith(s, '<', '=') then Take(Op(Lte), 2)
    else if StartsWith(s, '>', '=') then Take(Op(Gte), 2)
    else if s[0] == ',' then Take(Comma, 1)
    else if s[0] == '.' then Take(Dot, 1)
    else if s[0] == '*' then Take(Star, 1)
    else if s[0] == ';' then Take(Semicolon, 1)
    else if s[0] == '(' then Take(OpenParen, 1)
    else if s[0] == ')' then Take(CloseParen, 1)
    else if s[0] == '=' then Take(Op(Eq), 1)
    else if s[0] == '<' then Take(Op(Lt), 1)
    else if s[0] == '>' then Take(Op(Gt), 1)
    else Reject
  }

  predicate Comments(s: string) {
    StartsWith(s, '-', '-')
  }

  function LexOne(reals: RealReader, s: string): (r: Lexed)
    requires s != []
    ensures !r.Reject? ==> 0 < r.size <= |s|
    ensures r.Take? ==> r.token != End
  {
    if IsSpace(s[0]) then Skip(1)
    else if Comments(s) then Skip(LineLength(s))
    else if IsAlpha(s[0]) || s[0] == '_' then Take(WordToken(s[..WordLength(s)]), WordLength(s))
    else if IsDigit(s[0]) then LexNumber(reals, s)
    else if s[0] == QUOTE then LexString(s)
    else LexSymbol(s)
  }

  /** What finds the token at the front of a text. */
  type Lexer = string -> Lexed

  function LexerOf(reals: RealReader): Lexer {
    (s: string) => if s == [] then Reject else LexOne(reals, s)
  }

  /** The lexer found something that lies within the text; ours always does. */
  predicate Advances(s: string, r: Lexed) {
    !r.Reject? && 0 < r.size <= |s|
  }

  function Tokenize(lex: Lexer, s: string): (r: Result<seq<Token>>)
    ensures r.Ok? ==> r.value != []
    decreases |s|
  {
    if s == [] then Ok([End])
    else if !Advances(s, lex(s)) then Err(Malformed)
    else After(if lex(s).Take? then [lex(s).token] else [], Tokenize(lex, s[lex(s).size..]))
  }

  function After(tokens: seq<Token>, r: Result<seq<Token>>): Result<seq<Token>> {
    match r
    case Ok(more) => Ok(tokens + more)
    case Err(e) => Err(e)
  }

  /** Token lists end in `End`, so the parser's demand is met. */
  lemma {:induction false} TokenizeEnds(reals: RealReader, s: string)
    ensures Tokenize(LexerOf(reals), s).Ok? ==> SqlParser.Ended(Tokenize(LexerOf(reals), s).value)
    decreases |s|
  {
    var lex := LexerOf(reals);
    if s != [] && Advances(s, lex(s)) {
      TokenizeEnds(reals, s[lex(s).size..]);
      if Tokenize(lex, s[lex(s).size..]).Ok? {
        EndsAfter(if lex(s).Take? then [lex(s).token] else [], Tokenize(lex, s[lex(s).size..]).value);
      }
    }
  }

  lemma {:induction false} EndsAfter(a: seq<Token>, b: seq<Token>)
    requires SqlParser.NoEnd(a) && SqlParser.Ended(b)
    ensures SqlParser.Ended(a + b)
  {
    SqlParser.EndedConcat(a, b);
  }

  // ------------------------------------------------------------------
  // Splitting
  // ------------------------------------------------------------------

  /** The place of the first semicolon outside quotes. */
  function Split(s: string, inString: bool): (r: Option<nat>)
    ensures r.Some? ==> r.value < |s| && s[r.value] == ';'
    decreases |s|
  {
    if s == [] then None
    else if s[0] == ';' && !inString then Some(0)
    else Shift(1, Split(s[1..], if s[0] == QUOTE then !inString else inString))
  }

  function Shift(n: nat, r: Option<nat>): Option<nat> {
    if r.Some? then Some(n + r.value) else None
  }

  /** Text without quotes and semicolons is passed over. */
  lemma {:induction false} SplitPasses(s: string, n: nat, inString: bool)
    requires n <= |s| && forall i | 0 <= i < n :: s[i] != QUOTE && s[i] != ';'
    ensures Split(s, inString) == Shift(n, Split(s[n..], inString))
    decreases n
  {
    if n == 0 {
      assert s[0..] == s;
    } else {
      SplitPasses(s[1..], n - 1, inString);
      assert s[1..][n - 1..] == s[n..];
    }
  }

  /** Inside a string the splitter passes over n characters, and is outside after them. */
  predicate LeavesString(s: string, n: nat)
    requires n <= |s|
  {
    Split(s, true) == Shift(n, Split(s[n..], false))
  }

  lemma {:induction false} LeavesLater(s: string, n: nat)
    requires s != [] && s[0] != QUOTE && n < |s| && LeavesString(s[1..], n)
    ensures LeavesString(s, n + 1)
  {
    DropDrop(s, 1, n);
  }

  lemma {:induction false} LeavesDoubled(s: string, n: nat)
    requires StartsWith(s, QUOTE, QUOTE) && n + 2 <= |s| && LeavesString(s[2..], n)
    ensures LeavesString(s, n + 2)
  {
    DropDrop(s, 1, 1);
    DropDrop(s, 2, n);
  }

  /** So is a string: a doubled quote leaves it and enters it again. */
  lemma {:induction false} SplitPassesString(s: string)
    requires Quoted(s).Some?
    ensures LeavesString(s, Quoted(s).value.1)
    decreases |s|
  {
    var n := Quoted(s).value.1;
    if s[0] != QUOTE {
      SplitPassesString(s[1..]);
      LeavesLater(s, n - 1);
    } else if |s| > 1 && s[1] == QUOTE {
      SplitPassesString(s[2..]);
      LeavesDoubled(s, n - 2);
    }
  }

  /** The splitter does not stop within the first n characters, and is outside quotes after them. */
  predicate PassesOver(s: string, n: nat)
    requires n <= |s|
  {
    Split(s, false) == Shift(n, Split(s[n..], false))
  }

  lemma {:induction false} PassesPlain(s: string, n: nat)
    requires n <= |s| && forall i | 0 <= i < n :: s[i] != QUOTE && s[i] != ';'
    ensures PassesOver(s, n)
  {
    SplitPasses(s, n, false);
  }

  lemma {:induction false} PassesNumber(reals: RealReader, s: string)
    requires s != [] && IsDigit(s[0]) && LexNumber(reals, s).Take?
    ensures PassesOver(s, LexNumber(reals, s).size)
  {
    var whole := DigitLength(s);
    var rest := s[whole..];
    var fraction := FractionLength(rest);
    forall i | 0 <= i < whole + fraction
      ensures s[i] != QUOTE && s[i] != ';'
    {
      if i >= whole {
        assert s[i] == rest[i - whole];
        if i > whole {
          assert rest[i - whole] == rest[1..][i - whole - 1];
        }
      }
    }
    PassesPlain(s, whole + fraction);
  }

  lemma {:induction false} PassesString(s: string)
    requires Starts(s, QUOTE) && LexString(s).Take?
    ensures PassesOver(s, LexString(s).size)
  {
    SplitPassesString(s[1..]);
    var n := Quoted(s[1..]).value.1;
    assert s[1..][n..] == s[1 + n..];
  }

  lemma {:induction false} PassesSymbol(s: string)
    requires s != [] && s[0] != QUOTE && LexSymbol(s).Take?
    ensures if LexSymbol(s).token == Semicolon then Split(s, false) == Some(0) && LexSymbol(s).size == 1 && s[0] == ';'
            else PassesOver(s, LexSymbol(s).size)
  {
    if s[0] != ';' {
      PassesPlain(s, LexSymbol(s).size);
    }
  }

  /** The splitter passes over every token but a semicolon, and over space. */
  lemma {:induction false} PassesToken(reals: RealReader, s: string)
    requires s != [] && !Comments(s) && !LexOne(reals, s).Reject?
    ensures var r := LexOne(reals, s);
            if r.Take? && r.token == Semicolon then Split(s, false) == Some(0) && r.size == 1 && s[0] == ';'
            else PassesOver(s, r.size)
  {
    if IsSpace(s[0]) {
      PassesPlain(s, 1);
    } else if IsAlpha(s[0]) || s[0] == '_' {
      PassesPlain(s, WordLength(s));
    } else if IsDigit(s[0]) {
      PassesNumber(reals, s);
    } else if s[0] == QUOTE {
      PassesString(s);
    } else {
      PassesSymbol(s);
    }
  }

  // ------------------------------------------------------------------
  // Cutting a text before a semicolon
  // ------------------------------------------------------------------

  lemma {:induction false} CutWord(a: string, b: string)
    requires Starts(b, ';')
    ensures WordLength(a + b) == WordLength(a)
    decreases |a|
  {
    if a == [] {
      assert a + b == b;
    } else {
      assert (a + b)[1..] == a[1..] + b;
      CutWord(a[1..], b);
    }
  }

  lemma {:induction false} CutDigits(a: string, b: string)
    requires Starts(b, ';')
    ensures DigitLength(a + b) == DigitLength(a)
    decreases |a|
  {
    if a == [] {
      assert a + b == b;
    } else {
      assert (a + b)[1..] == a[1..] + b;
      CutDigits(a[1..], b);
    }
  }

  lemma {:induction false} CutFraction(a: string, b: string)
    requires Starts(b, ';')
    ensures FractionLength(a + b) == FractionLength(a)
  {
    if a == [] {
      assert a + b == b;
    } else {
      assert (a + b)[1..] == a[1..] + b;
      CutDigits(a[1..], b);
    }
  }

  lemma {:induction false} NumberIs(reals: RealReader, s: string, whole: nat, fraction: nat, text: string)
    requires s != [] && IsDigit(s[0]) && whole == DigitLength(s) && fraction == FractionLength(s[whole..])
    requires text == s[..whole + fraction]
    ensures LexNumber(reals, s) == match NumberToken(reals, text, fraction > 0)
                                   case Some(t) => Take(t, whole + fraction)
                                   case None => Reject
  {
  }

  lemma {:induction false} CutNumber(reals: RealReader, a: string, b: string)
    requires Starts(b, ';') && a != [] && IsDigit(a[0])
    ensures LexNumber(reals, a + b) == LexNumber(reals, a)
  {
    var whole := DigitLength(a);
    CutDigits(a, b);
    ConcatDrop(a, b, whole);
    CutFraction(a[whole..], b);
    var fraction := FractionLength(a[whole..]);
    ConcatTake(a, b, whole + fraction);
    NumberIs(reals, a, whole, fraction, a[..whole + fraction]);
    NumberIs(reals, a + b, whole, fraction, a[..whole + fraction]);
  }

  lemma {:induction false} CutQuoted(a: string, b: string)
    requires Starts(b, ';') && Quoted(a + b).Some? && Quoted(a + b).value.1 <= |a|
    ensures Quoted(a) == Quoted(a + b)
    decreases |a|
  {
    var s := a + b;
    if s[0] == QUOTE && !(|s| > 1 && s[1] == QUOTE) {
      assert |a| > 1 ==> a[1] == s[1];
    } else {
      var size := if s[0] == QUOTE then 2 else 1;
      assert size == 2 ==> |a| >= 2;
      assert s[size..] == a[size..] + b;
      CutQuoted(a[size..], b);
    }
  }

  lemma {:induction false} CutString(a: string, b: string)
    requires Starts(b, ';') && Starts(a, QUOTE) && LexString(a + b).Take? && LexString(a + b).size <= |a|
    ensures LexString(a) == LexString(a + b)
  {
    assert (a + b)[1..] == a[1..] + b;
    CutQuoted(a[1..], b);
  }

  lemma {:induction false} CutSymbol(a: string, b: string)
    requires Starts(b, ';') && a != [] && LexSymbol(a + b).Take? && LexSymbol(a + b).size <= |a|
    ensures LexSymbol(a) == LexSymbol(a + b)
  {
    assert (a + b)[0] == a[0];
    assert (a + b)[1] == if |a| > 1 then a[1] else ';';
  }

  lemma {:induction false} CutLine(a: string, b: string)
    requires Starts(b, ';')
    ensures LineLength(a + b) <= |a| ==> LineLength(a) == LineLength(a + b)
    decreases |a|
  {
    if a == [] {
      assert a + b == b;
    } else {
      assert (a + b)[1..] == a[1..] + b;
      if a[0] != '\n' {
        CutLine(a[1..], b);
      }
    }
  }

  /** What is found before a semicolon, and ends before it, is the same without what follows it. */
  lemma {:induction false} CutToken(reals: RealReader, a: string, b: string)
    requires Starts(b, ';') && a != []
    requires !LexOne(reals, a + b).Reject? && LexOne(reals, a + b).size <= |a|
    ensures LexOne(reals, a) == LexOne(reals, a + b)
  {
    var s := a + b;
    assert s[0] == a[0] && (|a| > 1 ==> s[1] == a[1]);
    if IsSpace(a[0]) {
    } else if Comments(s) {
      assert s[1..] == a[1..] + b && LineLength(s[1..]) > 0;
      CutLine(a, b);
    } else if IsAlpha(a[0]) || a[0] == '_' {
      CutWord(a, b);
      assert s[..WordLength(a)] == a[..WordLength(a)];
    } else if IsDigit(a[0]) {
      CutNumber(reals, a, b);
    } else if a[0] == QUOTE {
      CutString(a, b);
    } else {
      CutSymbol(a, b);
    }
  }

  // ------------------------------------------------------------------
  // The splitter agrees with the tokenizer
  // ------------------------------------------------------------------

  function Front(ts: seq<Token>): seq<Token> {
    if ts == [] then [] else ts[..|ts| - 1]
  }

  // The argument uses two facts about the lexer, and not its body.

  predicate IsSemicolon(r: Lexed) {
    r.Take? && r.token == Semicolon
  }

  /** The splitter stops at a semicolon token and passes over any other. */
  predicate StopsOrPasses(lex: Lexer, s: string) {
    Advances(s, lex(s)) ==>
      if IsSemicolon(lex(s)) then Split(s, false) == Some(0) && lex(s).size == 1 && s[0] == ';'
      else PassesOver(s, lex(s).size) && !QuotesOdd(s[..lex(s).size])
  }

  predicate CommentSkips(lex: Lexer, s: string) {
    lex(s).Skip?
  }

  /** A token that ends before a semicolon is the same without what follows it. */
  predicate SameCut(lex: Lexer, a: string, b: string) {
    Advances(a, lex(a + b)) ==> lex(a) == lex(a + b)
  }

  ghost function Sharp(lex: Lexer): Law {
    if && (forall s {:trigger StopsOrPasses(lex, s)} | s != [] && !Comments(s) :: StopsOrPasses(lex, s))
       && (forall s {:trigger CommentSkips(lex, s)} | Comments(s) :: CommentSkips(lex, s))
       && (forall a, b {:trigger SameCut(lex, a, b)} | a != [] && Starts(b, ';') :: SameCut(lex, a, b))
    then Kept else Broken
  }

  lemma {:induction false} LexerSharp(reals: RealReader)
    ensures Sharp(LexerOf(reals)).Kept?
  {
    var lex := LexerOf(reals);
    forall s | s != [] && !Comments(s)
      ensures StopsOrPasses(lex, s)
    {
      if Advances(s, lex(s)) {
        PassesToken(reals, s);
        TokenQuotes(reals, s);
      }
    }
    forall a, b | a != [] && Starts(b, ';')
      ensures SameCut(lex, a, b)
    {
      if Advances(a, lex(a + b)) {
        CutToken(reals, a, b);
      }
    }
  }

  /** The text is cut at the first semicolon token: the tokens of the whole are those of the piece
      before it, the semicolon, and those of the rest. */
  ghost predicate CutsAt(lex: Lexer, s: string, i: nat) {
    && i < |s| && s[i] == ';'
    && Tokenize(lex, s).Ok? && Tokenize(lex, s[..i]).Ok? && Tokenize(lex, s[i + 1..]).Ok?
    && Semicolon !in Tokenize(lex, s[..i]).value
    && Tokenize(lex, s).value == Front(Tokenize(lex, s[..i]).value) + ([Semicolon] + Tokenize(lex, s[i + 1..]).value)
  }

  lemma {:induction false} CutHere(lex: Lexer, s: string)
    requires s != [] && lex(s) == Take(Semicolon, 1) && s[0] == ';' && Tokenize(lex, s).Ok?
    ensures CutsAt(lex, s, 0)
  {
    assert s[..0] == [];
    assert Front([End]) == [];
    assert [] + ([Semicolon] + Tokenize(lex, s[1..]).value) == [Semicolon] + Tokenize(lex, s[1..]).value;
  }

  lemma {:induction false} FrontAfter(a: seq<Token>, ts: seq<Token>)
    requires ts != []
    ensures Front(a + ts) == a + Front(ts)
  {
  }

  function Piece(r: Lexed): seq<Token> {
    if r.Take? then [r.token] else []
  }

  lemma {:induction false} CutSlices(s: string, n: nat, j: nat)
    requires n + j < |s|
    ensures s == s[..n + j] + s[n + j..] && s[..n + j][n..] == s[n..][..j]
    ensures s[n..][j] == s[n + j] && s[n..][j + 1..] == s[n + j + 1..] && s[n + j..][0] == s[n + j]
  {
  }

  /** Tokenizing with a known first step. */
  lemma {:induction false} TokenizeStep(lex: Lexer, s: string, r: Lexed)
    requires s != [] && lex(s) == r && Advances(s, r) && Tokenize(lex, s[r.size..]).Ok?
    ensures Tokenize(lex, s) == Ok(Piece(r) + Tokenize(lex, s[r.size..]).value)
  {
  }

  lemma {:induction false} JoinAtCut(piece: seq<Token>, before: seq<Token>, after: seq<Token>, whole: seq<Token>)
    requires before != [] && whole == Front(before) + ([Semicolon] + after)
    ensures piece + whole == Front(piece + before) + ([Semicolon] + after)
  {
    FrontAfter(piece, before);
    ConcatAssoc(piece, Front(before), [Semicolon] + after);
  }

  lemma {:induction false} CutLater(lex: Lexer, s: string, j: nat)
    requires Sharp(lex).Kept? && s != [] && Advances(s, lex(s)) && !IsSemicolon(lex(s))
    requires CutsAt(lex, s[lex(s).size..], j)
    ensures CutsAt(lex, s, lex(s).size + j)
  {
    var r := lex(s);
    var i := r.size + j;
    CutSlices(s, r.size, j);
    assert SameCut(lex, s[..i], s[i..]);
    TokenizeStep(lex, s, r);
    TokenizeStep(lex, s[..i], r);
    var before, after, whole := Tokenize(lex, s[..i][r.size..]).value, Tokenize(lex, s[i + 1..]).value, Tokenize(lex, s[r.size..]).value;
    JoinAtCut(Piece(r), before, after, whole);
    CutFrom(lex, s, i, Piece(r) + whole, Piece(r) + before, after);
  }

  lemma {:induction false} CutFrom(lex: Lexer, s: string, i: nat, whole: seq<Token>, before: seq<Token>, after: seq<Token>)
    requires i < |s| && s[i] == ';' && Tokenize(lex, s) == Ok(whole) && Tokenize(lex, s[..i]) == Ok(before) && Tokenize(lex, s[i + 1..]) == Ok(after)
    requires Semicolon !in before && before != [] && whole == Front(before) + ([Semicolon] + after)
    ensures CutsAt(lex, s, i)
  {
  }

  lemma {:induction false} NoneLater(lex: Lexer, s: string)
    requires s != [] && Advances(s, lex(s)) && !IsSemicolon(lex(s))
    requires Tokenize(lex, s[lex(s).size..]).Ok? && Semicolon !in Tokenize(lex, s[lex(s).size..]).value
    ensures Tokenize(lex, s).Ok? && Semicolon !in Tokenize(lex, s).value
  {
    TokenizeStep(lex, s, lex(s));
    assert Semicolon !in Piece(lex(s));
  }

  /** The place, or its absence, is that of the first semicolon token. */
  ghost predicate Agrees(lex: Lexer, s: string, found: Option<nat>) {
    match found
    case Some(i) => CutsAt(lex, s, i)
    case None => Tokenize(lex, s).Ok? && Semicolon !in Tokenize(lex, s).value
  }

  lemma {:induction false} AgreesLater(lex: Lexer, s: string, found: Option<nat>)
    requires Sharp(lex).Kept? && s != [] && Advances(s, lex(s)) && !IsSemicolon(lex(s))
    requires Agrees(lex, s[lex(s).size..], found)
    ensures Agrees(lex, s, Shift(lex(s).size, found))
  {
    if found.Some? {
      CutLater(lex, s, found.value);
    } else {
      NoneLater(lex, s);
    }
  }

  /** The place of the first semicolon token. */
  function FirstSemicolon(lex: Lexer, s: string): Option<nat>
    decreases |s|
  {
    if s == [] || !Advances(s, lex(s)) then None
    else if IsSemicolon(lex(s)) then Some(0)
    else Shift(lex(s).size, FirstSemicolon(lex, s[lex(s).size..]))
  }

  lemma {:induction false} FirstAgrees(lex: Lexer, s: string)
    requires Sharp(lex).Kept? && Tokenize(lex, s).Ok?
    ensures Agrees(lex, s, FirstSemicolon(lex, s))
    decreases |s|
  {
    if s != [] {
      if IsSemicolon(lex(s)) {
        assert Comments(s) ==> CommentSkips(lex, s);
        assert StopsOrPasses(lex, s);
        CutHere(lex, s);
      } else {
        FirstAgrees(lex, s[lex(s).size..]);
        AgreesLater(lex, s, FirstSemicolon(lex, s[lex(s).size..]));
      }
    }
  }

  // What comments do to the splitter.

  predicate QuotesOdd(s: string)
    decreases |s|
  {
    s != [] && ((s[0] == QUOTE) != QuotesOdd(s[1..]))
  }

  lemma {:induction false} QuotesConcat(a: string, b: string)
    ensures QuotesOdd(a + b) == (QuotesOdd(a) != QuotesOdd(b))
    decreases |a|
  {
    if a == [] {
      assert a + b == b;
    } else {
      assert (a + b)[1..] == a[1..] + b;
      QuotesConcat(a[1..], b);
    }
  }

  lemma {:induction false} NoQuotes(s: string)
    requires forall i | 0 <= i < |s| :: s[i] != QUOTE
    ensures !QuotesOdd(s)
    decreases |s|
  {
    if s != [] {
      NoQuotes(s[1..]);
    }
  }

  lemma {:induction false} QuotedQuotes(s: string)
    requires Quoted(s).Some?
    ensures QuotesOdd(s[..Quoted(s).value.1])
    decreases |s|
  {
    var n := Quoted(s).value.1;
    if s[0] == QUOTE && !(|s| > 1 && s[1] == QUOTE) {
      assert s[..1][1..] == [];
    } else {
      var size := if s[0] == QUOTE then 2 else 1;
      QuotedQuotes(s[size..]);
      assert s[..n] == s[..size] + s[size..][..n - size];
      QuotesConcat(s[..size], s[size..][..n - size]);
      assert s[..size][1..] == if size == 2 then [QUOTE] else [];
      assert QuotesOdd([QUOTE]) by {
        assert [QUOTE][1..] == [];
      }
    }
  }

  /** Tokens and space hold an even number of quotes. */
  lemma {:induction false} TokenQuotes(reals: RealReader, s: string)
    requires s != [] && !Comments(s) && !LexOne(reals, s).Reject?
    ensures !QuotesOdd(s[..LexOne(reals, s).size])
  {
    var n := LexOne(reals, s).size;
    if s[0] == QUOTE {
      QuotedQuotes(s[1..]);
      assert s[..n][1..] == s[1..][..n - 1];
    } else if IsDigit(s[0]) {
      NumberQuotes(reals, s);
    } else {
      NoQuotes(s[..n]);
    }
  }

  lemma {:induction false} NumberQuotes(reals: RealReader, s: string)
    requires s != [] && IsDigit(s[0]) && LexNumber(reals, s).Take?
    ensures !QuotesOdd(s[..LexNumber(reals, s).size])
  {
    var whole := DigitLength(s);
    var rest := s[whole..];
    var fraction := FractionLength(rest);
    forall i | 0 <= i < whole + fraction
      ensures s[i] != QUOTE
    {
      if i >= whole {
        assert s[i] == rest[i - whole];
        if i > whole {
          assert rest[i - whole] == rest[1..][i - whole - 1];
        }
      }
    }
    NoQuotes(s[..whole + fraction]);
  }

  function Going(first: Option<nat>, n: nat, next: Option<nat>): Option<nat> {
    if first.Some? then first else Shift(n, next)
  }

  lemma {:induction false} ShiftGoing(first: Option<nat>, n: nat, next: Option<nat>)
    ensures Shift(1, Going(first, n, next)) == Going(Shift(1, first), n + 1, next)
  {
  }

  /** Splitting a text is splitting its front and, if that has no cut, going on in the state it leaves. */
  lemma {:induction false} SplitConcat(a: string, b: string, inString: bool)
    ensures Split(a + b, inString) == Going(Split(a, inString), |a|, Split(b, inString != QuotesOdd(a)))
    decreases |a|
  {
    if a == [] {
      assert a + b == b;
    } else if a[0] != ';' || inString {
      var next := if a[0] == QUOTE then !inString else inString;
      assert (a + b)[1..] == a[1..] + b;
      SplitConcat(a[1..], b, next);
      ShiftGoing(Split(a[1..], next), |a| - 1, Split(b, next != QuotesOdd(a[1..])));
    }
  }

  lemma {:induction false} SplitAcross(s: string, n: nat, inString: bool)
    requires n <= |s|
    ensures Split(s, inString) == Going(Split(s[..n], inString), n, Split(s[n..], inString != QuotesOdd(s[..n])))
  {
    assert s == s[..n] + s[n..];
    SplitConcat(s[..n], s[n..], inString);
  }

  /** Seen by the splitter in the given state, the text shows no semicolon before the first semicolon
      token, and that one it shows. Outside strings only comments can change this; inside, the
      splitter takes what is outside strings for inside, and the other way round. */
  predicate Steady(lex: Lexer, s: string, inString: bool)
    decreases |s|
  {
    if s == [] || !Advances(s, lex(s)) then true
    else if IsSemicolon(lex(s)) then !inString
    else
      var piece, rest := s[..lex(s).size], s[lex(s).size..];
      if Comments(s) then Split(piece, inString).None? && Steady(lex, rest, inString != QuotesOdd(piece))
      else (inString ==> Split(piece, true).None?) && Steady(lex, rest, inString)
  }

  lemma {:induction false} SteadyIff(lex: Lexer, s: string, inString: bool)
    requires Sharp(lex).Kept? && Tokenize(lex, s).Ok?
    ensures Split(s, inString) == FirstSemicolon(lex, s) <==> Steady(lex, s, inString)
    decreases |s|
  {
    if s != [] {
      assert Comments(s) ==> CommentSkips(lex, s);
      assert !Comments(s) ==> StopsOrPasses(lex, s);
      if !IsSemicolon(lex(s)) {
        var n := lex(s).size;
        var after := inString != QuotesOdd(s[..n]);
        SplitAcross(s, n, inString);
        SteadyIff(lex, s[n..], after);
        PieceDecides(Split(s[..n], inString), n, Split(s[n..], after), FirstSemicolon(lex, s[n..]));
      }
    }
  }

  lemma {:induction false} PieceDecides(piece: Option<nat>, n: nat, found: Option<nat>, first: Option<nat>)
    requires piece.Some? ==> piece.value < n
    ensures Going(piece, n, found) == Shift(n, first) <==> piece.None? && found == first
  {
  }

  /** On every text that can be tokenized, comments and all, the splitter cuts at the first semicolon
      token, or finds none if there is none, exactly if the text is steady; and there the tokens of the
      whole are those of the piece, the semicolon and those of the rest. */
  lemma {:induction false} SplitterAgreesIff(reals: RealReader, s: string)
    requires Tokenize(LexerOf(reals), s).Ok?
    ensures Split(s, false) == FirstSemicolon(LexerOf(reals), s) <==> Steady(LexerOf(reals), s, false)
    ensures Agrees(LexerOf(reals), s, FirstSemicolon(LexerOf(reals), s))
  {
    LexerSharp(reals);
    SteadyIff(LexerOf(reals), s, false);
    FirstAgrees(LexerOf(reals), s);
  }

  /** A comment that shows the splitter no semicolon and leaves it outside quotes. */
  predicate Harmless(comment: string) {
    Split(comment, false).None? && !QuotesOdd(comment)
  }

  /** Comments before the first semicolon token are harmless. */
  predicate CommentsHarmless(lex: Lexer, s: string)
    decreases |s|
  {
    s == [] || !Advances(s, lex(s)) || IsSemicolon(lex(s))
    || ((Comments(s) ==> Harmless(s[..lex(s).size])) && CommentsHarmless(lex, s[lex(s).size..]))
  }

  lemma {:induction false} HarmlessSteady(lex: Lexer, s: string)
    requires Sharp(lex).Kept? && CommentsHarmless(lex, s)
    ensures Steady(lex, s, false)
    decreases |s|
  {
    if s != [] && Advances(s, lex(s)) && !IsSemicolon(lex(s)) {
      HarmlessSteady(lex, s[lex(s).size..]);
    }
  }

  /** So on every text whose comments before the first semicolon token are harmless, the splitter
      cuts exactly at that token. */
  lemma {:induction false} SplitterAgrees(reals: RealReader, s: string)
    requires Tokenize(LexerOf(reals), s).Ok? && CommentsHarmless(LexerOf(reals), s)
    ensures Agrees(LexerOf(reals), s, Split(s, false))
  {
    LexerSharp(reals);
    HarmlessSteady(LexerOf(reals), s);
    SplitterAgreesIff(reals, s);
  }

  /** A comment is passed over, whatever follows it, if and only if it is harmless. */
  lemma {:induction false} HarmlessIff(comment: string)
    ensures (forall rest :: Split(comment + rest, false) == Shift(|comment|, Split(rest, false))) <==> Harmless(comment)
  {
    forall rest
      ensures Harmless(comment) ==> Split(comment + rest, false) == Shift(|comment|, Split(rest, false))
    {
      SplitConcat(comment, rest, false);
    }
    if !Harmless(comment) {
      SplitConcat(comment, ";", false);
      assert ";"[1..] == "";
      assert Split(";", false) == Some(0) && Split(";", true) == None;
    }
  }

  /** Whether the comments before the first semicolon token hold an odd number of quotes together. */
  predicate CommentQuotesOdd(lex: Lexer, s: string)
    decreases |s|
  {
    if s == [] || !Advances(s, lex(s)) || IsSemicolon(lex(s)) then false
    else (Comments(s) && QuotesOdd(s[..lex(s).size])) != CommentQuotesOdd(lex, s[lex(s).size..])
  }

  lemma {:induction false} SteadyQuotes(lex: Lexer, s: string, inString: bool)
    requires Steady(lex, s, inString) && FirstSemicolon(lex, s).Some?
    ensures inString == CommentQuotesOdd(lex, s)
    decreases |s|
  {
    if !IsSemicolon(lex(s)) {
      var n := lex(s).size;
      SteadyQuotes(lex, s[n..], if Comments(s) then inString != QuotesOdd(s[..n]) else inString);
    }
  }

  /** If those comments hold an odd number of quotes together, the splitter misses the semicolon. */
  lemma {:induction false} OddCommentsMislead(reals: RealReader, s: string)
    requires Tokenize(LexerOf(reals), s).Ok? && FirstSemicolon(LexerOf(reals), s).Some?
    requires CommentQuotesOdd(LexerOf(reals), s)
    ensures Split(s, false) != FirstSemicolon(LexerOf(reals), s)
  {
    SplitterAgreesIff(reals, s);
    if Steady(LexerOf(reals), s, false) {
      SteadyQuotes(LexerOf(reals), s, false);
    }
  }

  /** A comment with a quote hides the semicolon from the splitter but not from the tokenizer. */
  lemma {:induction false} CommentMisleads(reals: RealReader)
    ensures Tokenize(LexerOf(reals), "--'\n;") == Ok([Semicolon, End]) && Split("--'\n;", false) == None
  {
    MisledSplit();
    CommentLexed(reals);
    CommentTokenized(LexerOf(reals));
  }

  lemma {:induction false} CommentLexed(reals: RealReader)
    ensures LexOne(reals, "--'\n;") == Skip(3) && LexOne(reals, "\n;") == Skip(1) && LexOne(reals, ";") == Take(Semicolon, 1)
  {
    var s := "--'\n;";
    assert s[1..] == "-'\n;" && "-'\n;"[1..] == "'\n;" && "'\n;"[1..] == "\n;";
    assert LineLength("\n;") == 0;
    assert LineLength("'\n;") == 1;
    assert LineLength("-'\n;") == 2;
  }

  lemma {:induction false} CommentTokenized(lex: Lexer)
    requires lex("--'\n;") == Skip(3) && lex("\n;") == Skip(1) && lex(";") == Take(Semicolon, 1)
    ensures Tokenize(lex, "--'\n;") == Ok([Semicolon, End])
  {
    assert "--'\n;"[3..] == "\n;" && "\n;"[1..] == ";" && ";"[1..] == "";
    assert Tokenize(lex, "") == Ok([End]);
    assert [Semicolon] + [End] == [Semicolon, End] && [] + [Semicolon, End] == [Semicolon, End];
    assert Tokenize(lex, ";") == Ok([Semicolon, End]);
    assert Tokenize(lex, "\n;") == Ok([Semicolon, End]);
  }

  lemma {:induction false} MisledSplit()
    ensures Split("--'\n;", false) == None
  {
    var s := "--'\n;";
    assert s[1..] == "-'\n;" && s[1..][1..] == "'\n;" && "'\n;"[1..] == "\n;" && "\n;"[1..] == ";" && ";"[1..] == "";
    assert Split(";", true) == None;
    assert Split("\n;", true) == None;
    assert Split("'\n;", false) == None;
    assert Split("-'\n;", false) == None;
  }

  // ------------------------------------------------------------------
  // The loops
  // ------------------------------------------------------------------

  lemma {:induction false} SplitTurn(s: string, i: nat, inString: bool)
    requires i < |s|
    ensures Split(s[i..], inString)
            == if s[i] == ';' && !inString then Some(0)
               else Shift(1, Split(s[i + 1..], if s[i] == QUOTE then !inString else inString))
  {
    DropDrop(s, i, 1);
  }

  /** The piece before the first semicolon outside quotes, and how much to drop. */
  method ExtractStatement(buffer: string) returns (r: Option<(string, nat)>)
    ensures match Split(buffer, false)
            case Some(i) => r == Some((buffer[..i], i + 1))
            case None => r == None
  {
    var inString := false;
    assert buffer[0..] == buffer;
    for i := 0 to |buffer|
      invariant Split(buffer, false) == Shift(i, Split(buffer[i..], inString))
    {
      SplitTurn(buffer, i, inString);
      var c := buffer[i];
      if c == QUOTE {
        inString := !inString;
      } else if c == ';' && !inString {
        return Some((buffer[..i], i + 1));
      }
    }
    r := None;
  }

  method WordEnd(text: string, start: nat) returns (i: nat)
    requires start <= |text|
    ensures i == start + WordLength(text[start..])
  {
    i := start;
    while i < |text| && InWord(text[i])
      invariant start <= i <= |text| && start + WordLength(text[start..]) == i + WordLength(text[i..])
    {
      DropDrop(text, i, 1);
      i := i + 1;
    }
  }

  method DigitsEnd(text: string, start: nat) returns (i: nat)
    requires start <= |text|
    ensures i == start + DigitLength(text[start..])
  {
    i := start;
    while i < |text| && IsDigit(text[i])
      invariant start <= i <= |text| && start + DigitLength(text[start..]) == i + DigitLength(text[i..])
    {
      DropDrop(text, i, 1);
      i := i + 1;
    }
  }

  method LineEnd(text: string, start: nat) returns (i: nat)
    requires start <= |text|
    ensures i == start + LineLength(text[start..])
  {
    i := start;
    while i < |text| && text[i] != '\n'
      invariant start <= i <= |text| && start + LineLength(text[start..]) == i + LineLength(text[i..])
    {
      DropDrop(text, i, 1);
      i := i + 1;
    }
  }

  ghost function Onto(value: string, size: nat, r: Option<(string, nat)>): Option<(string, nat)> {
    match r
    case Some((more, n)) => Some((value + more, size + n))
    case None => None
  }

  lemma {:induction false} OntoNext(s: string, value: string, size: nat)
    requires s != [] && !(s[0] == QUOTE && !(|s| > 1 && s[1] == QUOTE))
    ensures var step := if s[0] == QUOTE then 2 else 1;
            Onto(value, size, Quoted(s)) == Onto(value + [s[0]], size + step, Quoted(s[step..]))
  {
    var step := if s[0] == QUOTE then 2 else 1;
    if Quoted(s[step..]).Some? {
      ConcatAssoc(value, [s[0]], Quoted(s[step..]).value.0);
    }
  }

  lemma {:induction false} OntoEnd(s: string, value: string, size: nat)
    requires s != [] && s[0] == QUOTE && !(|s| > 1 && s[1] == QUOTE)
    ensures Onto(value, size, Quoted(s)) == Some((value, size + 1))
  {
    assert value + "" == value;
  }

  lemma {:induction false} OntoStart(r: Option<(string, nat)>)
    ensures Onto("", 0, r) == r
  {
    if r.Some? {
      assert "" + r.value.0 == r.value.0;
    }
  }

  method ReadQuoted(text: string, start: nat) returns (r: Option<(string, nat)>)
    requires start <= |text|
    ensures r == Quoted(text[start..])
  {
    var value, i := "", start;
    OntoStart(Quoted(text[start..]));
    while i < |text|
      invariant start <= i <= |text|
      invariant Onto(value, i - start, Quoted(text[i..])) == Quoted(text[start..])
      decreases |text| - i
    {
      var doubled := i + 1 < |text| && text[i + 1] == QUOTE;
      QuoteAt(text, i, value, i - start);
      if text[i] == QUOTE && !doubled {
        return Some((value, i + 1 - start));
      }
      value := value + [text[i]];
      i := if text[i] == QUOTE then i + 2 else i + 1;
    }
    r := None;
  }

  /** One turn of the loop over a string. */
  lemma {:induction false} QuoteAt(text: string, i: nat, value: string, size: nat)
    requires i < |text|
    ensures var doubled := i + 1 < |text| && text[i + 1] == QUOTE;
            var step := if text[i] == QUOTE then 2 else 1;
            Onto(value, size, Quoted(text[i..]))
            == if text[i] == QUOTE && !doubled then Some((value, size + 1))
               else Onto(value + [text[i]], size + step, Quoted(text[i + step..]))
  {
    var s := text[i..];
    var step := if text[i] == QUOTE then 2 else 1;
    assert s[0] == text[i] && (|s| > 1 ==> s[1] == text[i + 1]);
    if text[i] == QUOTE && !(i + 1 < |text| && text[i + 1] == QUOTE) {
      OntoEnd(s, value, size);
    } else {
      OntoNext(s, value, size);
      DropDrop(text, i, step);
    }
  }

  method FractionEnd(text: string, start: nat) returns (end: nat)
    requires start <= |text|
    ensures end == start + FractionLength(text[start..])
  {
    end := start;
    if start + 1 < |text| && text[start] == '.' && IsDigit(text[start + 1]) {
      DropDrop(text, start, 1);
      end := DigitsEnd(text, start + 1);
    }
  }

  method ReadNumber(reals: RealReader, text: string, i: nat) returns (r: Lexed)
    requires i < |text| && IsDigit(text[i])
    ensures r == LexNumber(reals, text[i..])
  {
    ghost var s := text[i..];
    var whole := DigitsEnd(text, i);
    DropDrop(text, i, whole - i);
    var end := FractionEnd(text, whole);
    TakeDrop(text, i, end);
    NumberIs(reals, s, whole - i, end - whole, text[i..end]);
    var token := NumberToken(reals, text[i..end], end > whole);
    r := match token
         case Some(t) => Take(t, end - i)
         case None => Reject;
  }

  lemma {:induction false} TakeDrop(s: string, i: nat, end: nat)
    requires i <= end <= |s|
    ensures s[i..end] == s[i..][..end - i]
  {
  }

  method ReadToken(reals: RealReader, text: string, i: nat) returns (r: Lexed)
    requires i < |text|
    ensures r == LexOne(reals, text[i..])
  {
    var c := text[i];
    var s := text[i..];
    if IsSpace(c) {
      r := Skip(1);
    } else if c == '-' && i + 1 < |text| && text[i + 1] == '-' {
      var end := LineEnd(text, i);
      r := Skip(end - i);
    } else if IsAlpha(c) || c == '_' {
      var end := WordEnd(text, i);
      assert text[i..end] == s[..end - i];
      r := Take(WordToken(text[i..end]), end - i);
    } else if IsDigit(c) {
      r := ReadNumber(reals, text, i);
    } else if c == QUOTE {
      var quoted := ReadQuoted(text, i + 1);
      DropDrop(text, i, 1);
      r := match quoted
           case Some((value, n)) => Take(StringLiteral(value), 1 + n)
           case None => Reject;
    } else {
      r := LexSymbol(s);
    }
  }

  lemma {:induction false} AfterNext(tokens: seq<Token>, piece: seq<Token>, r: Result<seq<Token>>)
    ensures After(tokens + piece, r) == After(tokens, After(piece, r))
  {
    if r.Ok? {
      ConcatAssoc(tokens, piece, r.value);
    }
  }

  lemma {:induction false} AfterNone(r: Result<seq<Token>>)
    ensures After([], r) == r
  {
    if r.Ok? {
      assert [] + r.value == r.value;
    }
  }

  /** One turn of the loop, whatever the lexer is. */
  lemma {:induction false} TokenizeTurn(lex: Lexer, tokens: seq<Token>, text: string, i: nat)
    requires i < |text| && Advances(text[i..], lex(text[i..]))
    ensures After(tokens, Tokenize(lex, text[i..]))
            == After(tokens + Piece(lex(text[i..])), Tokenize(lex, text[i + lex(text[i..]).size..]))
  {
    var r := lex(text[i..]);
    DropDrop(text, i, r.size);
    AfterNext(tokens, Piece(r), Tokenize(lex, text[i + r.size..]));
  }

  predicate MirrorsAt(lex: Lexer, reals: RealReader, s: string) {
    s != [] ==> lex(s) == LexOne(reals, s)
  }

  /** The lexer value is the one the loop calls. */
  ghost function Mirrors(lex: Lexer, reals: RealReader): Law {
    if forall s {:trigger MirrorsAt(lex, reals, s)} :: MirrorsAt(lex, reals, s) then Kept else Broken
  }

  method ReadWith(reals: RealReader, ghost lex: Lexer, text: string, i: nat) returns (r: Lexed)
    requires i < |text| && Mirrors(lex, reals).Kept?
    ensures r == lex(text[i..]) && (r.Reject? || Advances(text[i..], r))
  {
    assert MirrorsAt(lex, reals, text[i..]);
    r := ReadToken(reals, text, i);
  }

  method TokenizeLoop(reals: RealReader, ghost lex: Lexer, text: string) returns (r: Result<seq<Token>>)
    requires Mirrors(lex, reals).Kept?
    ensures r == Tokenize(lex, text)
  {
    var tokens: seq<Token> := [];
    var i: nat := 0;
    AfterNone(Tokenize(lex, text));
    assert text[0..] == text;
    while i < |text|
      invariant i <= |text| && After(tokens, Tokenize(lex, text[i..])) == Tokenize(lex, text)
      decreases |text| - i
    {
      var lexed := ReadWith(reals, lex, text, i);
      if lexed.Reject? {
        return Err(Malformed);
      }
      TokenizeTurn(lex, tokens, text, i);
      if lexed.Take? {
        tokens := tokens + [lexed.token];
      } else {
        assert tokens + [] == tokens;
      }
      i := i + lexed.size;
    }
    r := Ok(tokens + [End]);
  }

  /** The tokens of a text. */
  method TokenizeText(reals: RealReader, text: string) returns (r: Result<seq<Token>>)
    ensures r == Tokenize(LexerOf(reals), text)
  {
    assert Mirrors(LexerOf(reals), reals).Kept?;
    r := TokenizeLoop(reals, LexerOf(reals), text);
  }
}
