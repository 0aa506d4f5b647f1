/** SQL tokens and WHERE expressions. */
module SqlSyntax {

  datatype Keyword =
    | SELECT | FROM | WHERE | INSERT | INTO | VALUES | UPDATE | SET | DELETE | CREATE | TABLE
    | ORDER | BY | ASC | DESC | LIMIT | AND | OR | NOT | NULL | TRUE | FALSE
    | INTEGER | REAL | TEXT | BOOLEAN

  datatype Comparator = Eq | Neq | Lt | Lte | Gt | Gte

  datatype Token =
    | End
    | Identifier(name: string)
    | IntegerLiteral(i: int)
    | RealLiteral(r: real)
    | StringLiteral(s: string)
    | Word(keyword: Keyword)
    | Comma | Dot | Star | Semicolon | OpenParen | CloseParen
    | Op(comparator: Comparator)

  datatype Literal = NullLiteral | BoolLiteral(b: bool) | IntLiteral(i: int) | DoubleLiteral(r: real) | TextLiteral(s: string)

  datatype Expr =
    | Compare(column: string, comparator: Comparator, value: Literal)
    | And(left: Expr, right: Expr)
    | Or(left: Expr, right: Expr)
    | Not(operand: Expr)
}

/** The expression parser: NOT binds tightest, then AND, then OR; AND and OR group to the left. */
module SqlParser {
  import opened Bytes
  import opened SqlSyntax

  type Tokens = seq<Token>

  /** A token list as the tokenizer makes it: `End` is last, and only last. */
  predicate Ended(ts: Tokens) {
    ts != [] && ts[|ts| - 1] == End && forall i | 0 <= i < |ts| - 1 :: ts[i] != End
  }

  /** The stream never moves past its last token. */
  function Advance(ts: Tokens): (r: Tokens)
    requires Ended(ts)
    ensures Ended(r) && |r| <= |ts| && (ts[0] != End ==> r == ts[1..])
  {
    if |ts| > 1 then ts[1..] else ts
  }

  function LiteralOf(t: Token): Option<Literal> {
    match t
    case IntegerLiteral(i) => Some(IntLiteral(i))
    case RealLiteral(r) => Some(DoubleLiteral(r))
    case StringLiteral(s) => Some(TextLiteral(s))
    case Word(TRUE) => Some(BoolLiteral(true))
    case Word(FALSE) => Some(BoolLiteral(false))
    case Word(NULL) => Some(NullLiteral)
    case _ => None
  }

  type Parsed = Result<(Expr, Tokens)>

  function ParseComparison(ts: Tokens): (r: Parsed)
    requires Ended(ts)
    ensures r.Ok? ==> Ended(r.value.1) && |r.value.1| < |ts|
  {
    if !ts[0].Identifier? then Err(Malformed) else
    var t1 := Advance(ts);
    if !t1[0].Op? then Err(Malformed) else
    var t2 := Advance(t1);
    match LiteralOf(t2[0])
    case None => Err(Malformed)
    case Some(value) => Ok((Compare(ts[0].name, t1[0].comparator, value), Advance(t2)))
  }

  function Closed(r: Parsed): Parsed
    requires r.Ok? ==> Ended(r.value.1)
  {
    var (e, rest) :- r;
    if rest[0] != CloseParen then Err(Malformed) else Ok((e, Advance(rest)))
  }

  function Negated(r: Parsed): Parsed {
    var (e, rest) :- r;
    Ok((Not(e), rest))
  }

  /** Ends on every token list that ends in `End`: each call consumes a token or fails. */
  function ParseUnary(ts: Tokens): (r: Parsed)
    requires Ended(ts)
    ensures r.Ok? ==> Ended(r.value.1) && |r.value.1| < |ts|
    decreases |ts|, 0
  {
    if ts[0] == Word(NOT) then Negated(ParseUnary(Advance(ts)))
    else if ts[0] == OpenParen then Closed(ParseOr(Advance(ts)))
    else ParseComparison(ts)
  }

  function ParseAnd(ts: Tokens): (r: Parsed)
    requires Ended(ts)
    ensures r.Ok? ==> Ended(r.value.1) && |r.value.1| < |ts|
    decreases |ts|, 1
  {
    var (left, rest) :- ParseUnary(ts);
    AndTail(left, rest)
  }

  /** The loop over further operands. */
  function AndTail(left: Expr, ts: Tokens): (r: Parsed)
    requires Ended(ts)
    ensures r.Ok? ==> Ended(r.value.1) && |r.value.1| <= |ts|
    decreases |ts|, 0
  {
    if ts[0] != Word(AND) then Ok((left, ts)) else
    var (right, rest) :- ParseUnary(Advance(ts));
    AndTail(And(left, right), rest)
  }

  function ParseOr(ts: Tokens): (r: Parsed)
    requires Ended(ts)
    ensures r.Ok? ==> Ended(r.value.1) && |r.value.1| < |ts|
    decreases |ts|, 2
  {
    var (left, rest) :- ParseAnd(ts);
    OrTail(left, rest)
  }

  function OrTail(left: Expr, ts: Tokens): (r: Parsed)
    requires Ended(ts)
    ensures r.Ok? ==> Ended(r.value.1) && |r.value.1| <= |ts|
    decreases |ts|, 0
  {
    if ts[0] != Word(OR) then Ok((left, ts)) else
    var (right, rest) :- ParseAnd(Advance(ts));
    OrTail(Or(left, right), rest)
  }

  // ------------------------------------------------------------------
  // The text of an expression, with only the parentheses precedence requires
  // ------------------------------------------------------------------

  function LiteralToken(l: Literal): Token {
    match l
    case NullLiteral => Word(NULL)
    case BoolLiteral(b) => if b then Word(TRUE) else Word(FALSE)
    case IntLiteral(i) => IntegerLiteral(i)
    case DoubleLiteral(r) => RealLiteral(r)
    case TextLiteral(s) => StringLiteral(s)
  }

  function Rank(e: Expr): nat {
    match e
    case Compare(_, _, _) => 1
    case And(l, r) => 1 + Rank(l) + Rank(r)
    case Or(l, r) => 1 + Rank(l) + Rank(r)
    case Not(x) => 1 + Rank(x)
  }

  /** As an operand of NOT, or to the right of AND. */
  function UnaryTokens(e: Expr): Tokens
    decreases Rank(e), 0
  {
    match e
    case Compare(column, op, value) => [Identifier(column), Op(op), LiteralToken(value)]
    case Not(x) => [Word(NOT)] + UnaryTokens(x)
    case And(l, r) => [OpenParen] + (AndTokens(l) + ([Word(AND)] + UnaryTokens(r))) + [CloseParen]
    case Or(l, r) => [OpenParen] + (OrTokens(l) + ([Word(OR)] + AndTokens(r))) + [CloseParen]
  }

  /** To the left of AND, or to the right of OR. */
  function AndTokens(e: Expr): Tokens
    decreases Rank(e), 1
  {
    if e.And? then AndTokens(e.left) + ([Word(AND)] + UnaryTokens(e.right)) else UnaryTokens(e)
  }

  /** On its own, in parentheses, or to the left of OR. */
  function OrTokens(e: Expr): Tokens
    decreases Rank(e), 2
  {
    if e.Or? then OrTokens(e.left) + ([Word(OR)] + AndTokens(e.right)) else AndTokens(e)
  }

  predicate NoEnd(ts: Tokens) {
    forall i | 0 <= i < |ts| :: ts[i] != End
  }

  lemma {:induction false} NoEndConcat(a: Tokens, b: Tokens)
    requires NoEnd(a) && NoEnd(b)
    ensures NoEnd(a + b)
  {
  }

  lemma {:induction false} TokensNoEnd(e: Expr)
    ensures NoEnd(UnaryTokens(e)) && NoEnd(AndTokens(e)) && NoEnd(OrTokens(e))
    decreases Rank(e)
  {
    match e
    case Compare(_, _, value) => assert LiteralToken(value) != End;
    case Not(x) =>
      TokensNoEnd(x);
      NoEndConcat([Word(NOT)], UnaryTokens(x));
    case And(l, r) =>
      TokensNoEnd(l);
      TokensNoEnd(r);
      NoEndConcat([Word(AND)], UnaryTokens(r));
      NoEndConcat(AndTokens(l), [Word(AND)] + UnaryTokens(r));
    case Or(l, r) =>
      TokensNoEnd(l);
      TokensNoEnd(r);
      NoEndConcat([Word(OR)], AndTokens(r));
      NoEndConcat(OrTokens(l), [Word(OR)] + AndTokens(r));
  }

  lemma {:induction false} EndedConcat(a: Tokens, b: Tokens)
    requires NoEnd(a) && Ended(b)
    ensures Ended(a + b)
  {
    var ts := a + b;
    forall i | 0 <= i < |ts| - 1
      ensures ts[i] != End
    {
      if i >= |a| {
        assert ts[i] == b[i - |a|];
      }
    }
  }

  // ------------------------------------------------------------------
  // Parsing it returns the expression
  // ------------------------------------------------------------------

  lemma {:induction false} AdvanceCons(t: Token, rest: Tokens)
    requires t != End && Ended(rest)
    ensures Ended([t] + rest) && Advance([t] + rest) == rest
  {
    EndedConcat([t], rest);
    assert ([t] + rest)[1..] == rest;
  }

  lemma {:induction false} LiteralReads(l: Literal)
    ensures LiteralOf(LiteralToken(l)) == Some(l) && LiteralToken(l) != End
  {
  }

  lemma {:induction false} ComparisonSteps(ts: Tokens, t1: Tokens, t2: Tokens, rest: Tokens, value: Literal)
    requires Ended(ts) && ts[0].Identifier? && Advance(ts) == t1
    requires Ended(t1) && t1[0].Op? && Advance(t1) == t2
    requires Ended(t2) && LiteralOf(t2[0]) == Some(value) && Advance(t2) == rest
    ensures ParseUnary(ts) == Ok((Compare(ts[0].name, t1[0].comparator, value), rest))
  {
  }

  lemma {:induction false} ComparisonReads(column: string, op: Comparator, value: Literal, rest: Tokens)
    requires Ended(rest)
    ensures var ts := [Identifier(column), Op(op), LiteralToken(value)] + rest;
            Ended(ts) && ParseUnary(ts) == Ok((Compare(column, op, value), rest))
  {
    var lit := LiteralToken(value);
    var t2 := [lit] + rest;
    var t1 := [Op(op)] + t2;
    var ts := [Identifier(column)] + t1;
    assert [Identifier(column), Op(op), lit] + rest == ts;
    LiteralReads(value);
    AdvanceCons(lit, rest);
    AdvanceCons(Op(op), t2);
    AdvanceCons(Identifier(column), t1);
    ComparisonSteps(ts, t1, t2, rest, value);
  }

  lemma {:induction false} ParenReads(inner: Tokens, e: Expr, rest: Tokens)
    requires NoEnd(inner) && Ended(rest)
    requires Ended(inner + ([CloseParen] + rest)) && ParseOr(inner + ([CloseParen] + rest)) == Ok((e, [CloseParen] + rest))
    ensures var ts := [OpenParen] + inner + [CloseParen] + rest; Ended(ts) && ParseUnary(ts) == Ok((e, rest))
  {
    assert [OpenParen] + inner + [CloseParen] + rest == [OpenParen] + (inner + ([CloseParen] + rest));
    AdvanceCons(CloseParen, rest);
    AdvanceCons(OpenParen, inner + ([CloseParen] + rest));
  }

  lemma {:induction false} NotReads(inner: Tokens, e: Expr, rest: Tokens)
    requires Ended(inner + rest) && ParseUnary(inner + rest) == Ok((e, rest))
    ensures var ts := [Word(NOT)] + inner + rest; Ended(ts) && ParseUnary(ts) == Ok((Not(e), rest))
  {
    ConcatAssoc([Word(NOT)], inner, rest);
    AdvanceCons(Word(NOT), inner + rest);
  }

  /** The tokens of an operand are read back, whatever follows. */
  lemma {:induction false} UnaryReads(e: Expr, rest: Tokens)
    requires Ended(rest)
    ensures Ended(UnaryTokens(e) + rest) && ParseUnary(UnaryTokens(e) + rest) == Ok((e, rest))
    decreases Rank(e), 1
  {
    match e
    case Compare(column, op, value) => ComparisonReads(column, op, value, rest);
    case Not(x) =>
      UnaryReads(x, rest);
      NotReads(UnaryTokens(x), x, rest);
    case And(l, r) => InnerReads(e, rest);
    case Or(l, r) => InnerReads(e, rest);
  }

  /** An AND or OR in parentheses. */
  lemma {:induction false} InnerReads(e: Expr, rest: Tokens)
    requires Ended(rest) && (e.And? || e.Or?)
    ensures Ended(UnaryTokens(e) + rest) && ParseUnary(UnaryTokens(e) + rest) == Ok((e, rest))
    decreases Rank(e), 0
  {
    AdvanceCons(CloseParen, rest);
    var tail := [CloseParen] + rest;
    TokensNoEnd(e);
    if e.And? {
      AndStep(e.left, e.right, tail);
      assert AndTail(e, tail) == Ok((e, tail));
      assert OrTail(e, tail) == Ok((e, tail));
      ParenReads(AndTokens(e), e, rest);
    } else {
      OrStep(e.left, e.right, tail);
      assert OrTail(e, tail) == Ok((e, tail));
      ParenReads(OrTokens(e), e, rest);
    }
  }

  /** After l AND r the loop goes on with that conjunction. */
  lemma {:induction false} AndStep(l: Expr, r: Expr, rest: Tokens)
    requires Ended(rest)
    ensures var ts := AndTokens(l) + ([Word(AND)] + UnaryTokens(r)) + rest;
            Ended(ts) && ParseAnd(ts) == AndTail(And(l, r), rest)
    decreases Rank(l) + Rank(r), 2
  {
    UnaryReads(r, rest);
    AdvanceCons(Word(AND), UnaryTokens(r) + rest);
    var more := [Word(AND)] + (UnaryTokens(r) + rest);
    ConcatAssoc([Word(AND)], UnaryTokens(r), rest);
    ConcatAssoc(AndTokens(l), [Word(AND)] + UnaryTokens(r), rest);
    AndReads(l, more);
  }

  /** Reading the tokens of a conjunction comes to the loop that looks for more. */
  lemma {:induction false} AndReads(e: Expr, rest: Tokens)
    requires Ended(rest)
    ensures Ended(AndTokens(e) + rest) && ParseAnd(AndTokens(e) + rest) == AndTail(e, rest)
    decreases Rank(e), 2
  {
    if e.And? {
      AndStep(e.left, e.right, rest);
    } else {
      UnaryReads(e, rest);
    }
  }

  lemma {:induction false} OrStep(l: Expr, r: Expr, rest: Tokens)
    requires Ended(rest) && rest[0] != Word(AND)
    ensures var ts := OrTokens(l) + ([Word(OR)] + AndTokens(r)) + rest;
            Ended(ts) && ParseOr(ts) == OrTail(Or(l, r), rest)
    decreases Rank(l) + Rank(r), 4
  {
    AndReads(r, rest);
    AdvanceCons(Word(OR), AndTokens(r) + rest);
    var more := [Word(OR)] + (AndTokens(r) + rest);
    ConcatAssoc([Word(OR)], AndTokens(r), rest);
    ConcatAssoc(OrTokens(l), [Word(OR)] + AndTokens(r), rest);
    OrReads(l, more);
  }

  lemma {:induction false} OrReads(e: Expr, rest: Tokens)
    requires Ended(rest) && rest[0] != Word(AND)
    ensures Ended(OrTokens(e) + rest) && ParseOr(OrTokens(e) + rest) == OrTail(e, rest)
    decreases Rank(e), 3
  {
    if e.Or? {
      OrStep(e.left, e.right, rest);
    } else {
      AndReads(e, rest);
    }
  }

  /** Parsing the tokens of an expression, written with only the parentheses precedence requires,
      returns the expression and stops at the first token that cannot continue it. */
  lemma {:induction false} ParseOfTokens(e: Expr, rest: Tokens)
    requires Ended(rest) && rest[0] != Word(AND) && rest[0] != Word(OR)
    ensures Ended(OrTokens(e) + rest) && ParseOr(OrTokens(e) + rest) == Ok((e, rest))
  {
    OrReads(e, rest);
  }

  /** Without its parentheses an OR to the left of AND would be regrouped. */
  lemma {:induction false} PrecedenceRegroups(a: Expr, b: Expr, c: Expr, rest: Tokens)
    requires Ended(rest) && rest[0] != Word(AND) && rest[0] != Word(OR)
    ensures var bare := OrTokens(Or(a, b)) + ([Word(AND)] + UnaryTokens(c));
            Ended(bare + rest) && ParseOr(bare + rest) == Ok((Or(a, And(b, c)), rest))
  {
    ConcatAssoc(OrTokens(a), [Word(OR)] + AndTokens(b), [Word(AND)] + UnaryTokens(c));
    ConcatAssoc([Word(OR)], AndTokens(b), [Word(AND)] + UnaryTokens(c));
    ParseOfTokens(Or(a, And(b, c)), rest);
  }

  // ------------------------------------------------------------------
  // The parser
  // ------------------------------------------------------------------

  lemma {:induction false} EndedSuffix(ts: Tokens, k: nat)
    requires Ended(ts) && k < |ts|
    ensures Ended(ts[k..])
  {
    assert forall i | 0 <= i < |ts| - k :: ts[k..][i] == ts[k + i];
  }

  class TokenStream {
    const tokens: Tokens
    var position: nat

    ghost predicate Valid()
      reads this
    {
      position < |tokens| && Ended(tokens[position..])
    }

    ghost function Rest(): Tokens
      requires Valid()
      reads this
    {
      tokens[position..]
    }

    constructor (tokens: Tokens)
      requires Ended(tokens)
      ensures Valid() && this.tokens == tokens && Rest() == tokens
    {
      this.tokens, position := tokens, 0;
      new;
      assert tokens[0..] == tokens;
    }

    function Peek(): (t: Token)
      requires Valid()
      reads this
      ensures t == Rest()[0]
    {
      tokens[position]
    }

    /** Returns the current token and moves on, unless it is the last. */
    method Next() returns (t: Token)
      requires Valid()
      modifies this
      ensures Valid() && t == old(Rest())[0] && Rest() == Advance(old(Rest()))
    {
      t := tokens[position];
      if position + 1 < |tokens| {
        EndedSuffix(tokens[position..], 1);
        DropDrop(tokens, position, 1);
        position := position + 1;
      }
    }

    method Match(t: Token) returns (matched: bool)
      requires Valid()
      modifies this
      ensures Valid() && matched == (old(Rest())[0] == t)
      ensures Rest() == if matched then Advance(old(Rest())) else old(Rest())
    {
      matched := Peek() == t;
      if matched {
        var _ := Next();
      }
    }

    method ComparisonFrom() returns (r: Result<Expr>)
      requires Valid()
      modifies this
      ensures Valid() && Took(ParseComparison(old(Rest())), r, Rest())
    {
      if !Peek().Identifier? {
        return Err(Malformed);
      }
      var column := Next();
      var op := Next();
      if !op.Op? {
        return Err(Malformed);
      }
      var literal := Next();
      var value := LiteralOf(literal);
      if value.None? {
        return Err(Malformed);
      }
      r := Ok(Compare(column.name, op.comparator, value.value));
    }

    method UnaryFrom() returns (r: Result<Expr>)
      requires Valid()
      modifies this
      ensures Valid() && Took(ParseUnary(old(Rest())), r, Rest())
      decreases |Rest()|, 0
    {
      var negated := Match(Word(NOT));
      if negated {
        var e :- UnaryFrom();
        return Ok(Not(e));
      }
      var parenthesis := Match(OpenParen);
      if parenthesis {
        var e :- OrFrom();
        var closed := Match(CloseParen);
        if !closed {
          return Err(Malformed);
        }
        return Ok(e);
      }
      r := ComparisonFrom();
    }

    method AndFrom() returns (r: Result<Expr>)
      requires Valid()
      modifies this
      ensures Valid() && Took(ParseAnd(old(Rest())), r, Rest())
      decreases |Rest()|, 1
    {
      var left :- UnaryFrom();
      var more := Match(Word(AND));
      while more
        invariant Valid() && |Rest()| < |old(Rest())|
        invariant ParseAnd(old(Rest())) == if more then AndMore(left, Rest()) else Ok((left, Rest()))
        decreases |Rest()|, more
      {
        var right :- UnaryFrom();
        left := And(left, right);
        more := Match(Word(AND));
      }
      r := Ok(left);
    }

    method OrFrom() returns (r: Result<Expr>)
      requires Valid()
      modifies this
      ensures Valid() && Took(ParseOr(old(Rest())), r, Rest())
      decreases |Rest()|, 2
    {
      var left :- AndFrom();
      var more := Match(Word(OR));
      while more
        invariant Valid() && |Rest()| < |old(Rest())|
        invariant ParseOr(old(Rest())) == if more then OrMore(left, Rest()) else Ok((left, Rest()))
        decreases |Rest()|, more
      {
        var right :- AndFrom();
        left := Or(left, right);
        more := Match(Word(OR));
      }
      r := Ok(left);
    }
  }

  /** What a parsing method does to its stream. */
  ghost predicate Took(spec: Parsed, r: Result<Expr>, rest: Tokens) {
    match spec
    case Ok((e, left)) => r == Ok(e) && rest == left
    case Err(e) => r == Err(e)
  }

  /** The loops once their operator has been consumed. */
  ghost function AndMore(left: Expr, ts: Tokens): Parsed
    requires Ended(ts)
  {
    var (right, rest) :- ParseUnary(ts);
    AndTail(And(left, right), rest)
  }

  ghost function OrMore(left: Expr, ts: Tokens): Parsed
    requires Ended(ts)
  {
    var (right, rest) :- ParseAnd(ts);
    OrTail(Or(left, right), rest)
  }
}
