/** The grammar of WHERE expressions, and that the parser accepts exactly its sentences.

    or = and *( OR and )        and = unary *( AND unary )
    unary = NOT unary / "(" or ")" / column operator literal

AND and OR group to the left, so a phrase of theirs keeps its last operand apart.
 */
module SqlGrammar {
  import opened Bytes
  import opened SqlSyntax
  import opened SqlParser

  datatype UnaryPhrase =
    | Comparison(column: string, comparator: Comparator, value: Literal)
    | Negation(operand: UnaryPhrase)
    | Parentheses(inner: OrPhrase)

  datatype AndPhrase = OneUnary(unary: UnaryPhrase) | AndMore(left: AndPhrase, right: UnaryPhrase)

  datatype OrPhrase = OneAnd(conjunction: AndPhrase) | OrMore(left: OrPhrase, right: AndPhrase)

  /** The token of a literal: a number, a string, TRUE, FALSE or NULL. */
  function Spelled(l: Literal): Token {
    match l
    case IntLiteral(i) => IntegerLiteral(i)
    case DoubleLiteral(r) => RealLiteral(r)
    case TextLiteral(s) => StringLiteral(s)
    case BoolLiteral(b) => if b then Word(TRUE) else Word(FALSE)
    case NullLiteral => Word(NULL)
  }

  // Phrases as tokens, in front of what follows them.

  function UnarySpelled(p: UnaryPhrase, follows: Tokens): Tokens
    decreases p
  {
    match p
    case Comparison(column, comparator, value) => [Identifier(column)] + ([Op(comparator)] + ([Spelled(value)] + follows))
    case Negation(operand) => [Word(NOT)] + UnarySpelled(operand, follows)
    case Parentheses(inner) => [OpenParen] + OrSpelled(inner, [CloseParen] + follows)
  }

  function AndSpelled(p: AndPhrase, follows: Tokens): Tokens
    decreases p
  {
    match p
    case OneUnary(unary) => UnarySpelled(unary, follows)
    case AndMore(left, right) => AndSpelled(left, [Word(AND)] + UnarySpelled(right, follows))
  }

  function OrSpelled(p: OrPhrase, follows: Tokens): Tokens
    decreases p
  {
    match p
    case OneAnd(conjunction) => AndSpelled(conjunction, follows)
    case OrMore(left, right) => OrSpelled(left, [Word(OR)] + AndSpelled(right, follows))
  }

  // What they mean.

  function UnaryMeaning(p: UnaryPhrase): Expr {
    match p
    case Comparison(column, comparator, value) => Compare(column, comparator, value)
    case Negation(operand) => Not(UnaryMeaning(operand))
    case Parentheses(inner) => OrMeaning(inner)
  }

  function AndMeaning(p: AndPhrase): Expr {
    match p
    case OneUnary(unary) => UnaryMeaning(unary)
    case AndMore(left, right) => And(AndMeaning(left), UnaryMeaning(right))
  }

  function OrMeaning(p: OrPhrase): Expr {
    match p
    case OneAnd(conjunction) => AndMeaning(conjunction)
    case OrMore(left, right) => Or(OrMeaning(left), AndMeaning(right))
  }

  // ------------------------------------------------------------------
  // Phrases are read as what they mean
  // ------------------------------------------------------------------

  lemma {:induction false} UnaryReads(p: UnaryPhrase, follows: Tokens)
    requires Ended(follows)
    ensures Ended(UnarySpelled(p, follows)) && ParseUnary(UnarySpelled(p, follows)) == Ok((UnaryMeaning(p), follows))
    decreases p, 0
  {
    match p
    case Comparison(column, comparator, value) => ComparisonReads(column, comparator, value, follows);
    case Negation(operand) =>
      UnaryReads(operand, follows);
      AdvanceCons(Word(NOT), UnarySpelled(operand, follows));
    case Parentheses(inner) =>
      var tail := [CloseParen] + follows;
      AdvanceCons(CloseParen, follows);
      OrReads(inner, tail);
      AdvanceCons(OpenParen, OrSpelled(inner, tail));
  }

  lemma {:induction false} ComparisonReads(column: string, comparator: Comparator, value: Literal, follows: Tokens)
    requires Ended(follows)
    ensures var ts := [Identifier(column)] + ([Op(comparator)] + ([Spelled(value)] + follows));
            Ended(ts) && ParseUnary(ts) == Ok((Compare(column, comparator, value), follows))
  {
    var t2 := [Spelled(value)] + follows;
    var t1 := [Op(comparator)] + t2;
    assert LiteralOf(Spelled(value)) == Some(value);
    AdvanceCons(Spelled(value), follows);
    AdvanceCons(Op(comparator), t2);
    AdvanceCons(Identifier(column), t1);
    ComparisonSteps([Identifier(column)] + t1, t1, t2, follows, value);
  }

  /** After a conjunction the loop goes on with it. */
  lemma {:induction false} AndGoesOn(p: AndPhrase, follows: Tokens)
    requires Ended(follows)
    ensures Ended(AndSpelled(p, follows)) && ParseAnd(AndSpelled(p, follows)) == AndTail(AndMeaning(p), follows)
    decreases p, 0
  {
    match p
    case OneUnary(unary) => UnaryReads(unary, follows);
    case AndMore(left, right) =>
      UnaryReads(right, follows);
      AdvanceCons(Word(AND), UnarySpelled(right, follows));
      AndGoesOn(left, [Word(AND)] + UnarySpelled(right, follows));
  }

  lemma {:induction false} OrGoesOn(p: OrPhrase, follows: Tokens)
    requires Ended(follows) && follows[0] != Word(AND)
    ensures Ended(OrSpelled(p, follows)) && ParseOr(OrSpelled(p, follows)) == OrTail(OrMeaning(p), follows)
    decreases p, 0
  {
    match p
    case OneAnd(conjunction) => AndGoesOn(conjunction, follows);
    case OrMore(left, right) =>
      AndGoesOn(right, follows);
      AdvanceCons(Word(OR), AndSpelled(right, follows));
      OrGoesOn(left, [Word(OR)] + AndSpelled(right, follows));
  }

  lemma {:induction false} OrReads(p: OrPhrase, follows: Tokens)
    requires Ended(follows) && follows[0] != Word(AND) && follows[0] != Word(OR)
    ensures Ended(OrSpelled(p, follows)) && ParseOr(OrSpelled(p, follows)) == Ok((OrMeaning(p), follows))
    decreases p, 1
  {
    OrGoesOn(p, follows);
  }

  // ------------------------------------------------------------------
  // Whatever is read is a phrase
  // ------------------------------------------------------------------

  lemma {:induction false} FirstOff(ts: Tokens)
    requires Ended(ts) && ts[0] != End
    ensures ts == [ts[0]] + Advance(ts)
  {
  }

  lemma {:induction false} ComparisonDerived(ts: Tokens) returns (p: UnaryPhrase)
    requires Ended(ts) && ParseComparison(ts).Ok?
    ensures ts == UnarySpelled(p, ParseComparison(ts).value.1) && UnaryMeaning(p) == ParseComparison(ts).value.0
  {
    var t1 := Advance(ts);
    var t2 := Advance(t1);
    FirstOff(ts);
    FirstOff(t1);
    FirstOff(t2);
    p := Comparison(ts[0].name, t1[0].comparator, LiteralOf(t2[0]).value);
    assert Spelled(LiteralOf(t2[0]).value) == t2[0];
  }

  lemma {:induction false} UnaryDerived(ts: Tokens) returns (p: UnaryPhrase)
    requires Ended(ts) && ParseUnary(ts).Ok?
    ensures ts == UnarySpelled(p, ParseUnary(ts).value.1) && UnaryMeaning(p) == ParseUnary(ts).value.0
    decreases |ts|, 0
  {
    if ts[0] == Word(NOT) {
      var operand := UnaryDerived(Advance(ts));
      FirstOff(ts);
      p := Negation(operand);
    } else if ts[0] == OpenParen {
      var inner := OrDerived(Advance(ts));
      FirstOff(ts);
      FirstOff(ParseOr(Advance(ts)).value.1);
      p := Parentheses(inner);
    } else {
      p := ComparisonDerived(ts);
    }
  }

  lemma {:induction false} AndDerived(ts: Tokens) returns (p: AndPhrase)
    requires Ended(ts) && ParseAnd(ts).Ok?
    ensures ts == AndSpelled(p, ParseAnd(ts).value.1) && AndMeaning(p) == ParseAnd(ts).value.0
    ensures ParseAnd(ts).value.1[0] != Word(AND)
    decreases |ts|, 1
  {
    var unary := UnaryDerived(ts);
    p := AndContinued(ts, OneUnary(unary), ParseUnary(ts).value.1);
  }

  lemma {:induction false} AndContinued(all: Tokens, left: AndPhrase, ts: Tokens) returns (p: AndPhrase)
    requires Ended(ts) && |ts| < |all| && all == AndSpelled(left, ts) && AndTail(AndMeaning(left), ts).Ok?
    ensures all == AndSpelled(p, AndTail(AndMeaning(left), ts).value.1) && AndMeaning(p) == AndTail(AndMeaning(left), ts).value.0
    ensures AndTail(AndMeaning(left), ts).value.1[0] != Word(AND)
    decreases |all|, 0, |ts|
  {
    if ts[0] != Word(AND) {
      p := left;
    } else {
      var right := UnaryDerived(Advance(ts));
      FirstOff(ts);
      p := AndContinued(all, AndMore(left, right), ParseUnary(Advance(ts)).value.1);
    }
  }

  lemma {:induction false} OrDerived(ts: Tokens) returns (p: OrPhrase)
    requires Ended(ts) && ParseOr(ts).Ok?
    ensures ts == OrSpelled(p, ParseOr(ts).value.1) && OrMeaning(p) == ParseOr(ts).value.0
    ensures ParseOr(ts).value.1[0] != Word(AND) && ParseOr(ts).value.1[0] != Word(OR)
    decreases |ts|, 3
  {
    var conjunction := AndDerived(ts);
    p := OrContinued(ts, OneAnd(conjunction), ParseAnd(ts).value.1);
  }

  lemma {:induction false} OrContinued(all: Tokens, left: OrPhrase, ts: Tokens) returns (p: OrPhrase)
    requires Ended(ts) && |ts| < |all| && all == OrSpelled(left, ts) && OrTail(OrMeaning(left), ts).Ok? && ts[0] != Word(AND)
    ensures all == OrSpelled(p, OrTail(OrMeaning(left), ts).value.1) && OrMeaning(p) == OrTail(OrMeaning(left), ts).value.0
    ensures OrTail(OrMeaning(left), ts).value.1[0] != Word(AND) && OrTail(OrMeaning(left), ts).value.1[0] != Word(OR)
    decreases |all|, 2, |ts|
  {
    if ts[0] != Word(OR) {
      p := left;
    } else {
      var right := AndDerived(Advance(ts));
      FirstOff(ts);
      p := OrContinued(all, OrMore(left, right), ParseAnd(Advance(ts)).value.1);
    }
  }

  /** An expression is read from the front of a token list if and only if a phrase that means it is
      there and what follows does not go on with it. */
  lemma {:induction false} ParsesIff(ts: Tokens, e: Expr, rest: Tokens)
    requires Ended(ts) && Ended(rest)
    ensures ParseOr(ts) == Ok((e, rest))
            <==> rest[0] != Word(AND) && rest[0] != Word(OR) && exists p :: ts == OrSpelled(p, rest) && OrMeaning(p) == e
  {
    if ParseOr(ts) == Ok((e, rest)) {
      var p := OrDerived(ts);
    }
    if rest[0] != Word(AND) && rest[0] != Word(OR) {
      forall p | ts == OrSpelled(p, rest)
        ensures ParseOr(ts) == Ok((OrMeaning(p), rest))
      {
        OrReads(p, rest);
      }
    }
  }
}
