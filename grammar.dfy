/**
 * The expression grammar of Parser.java stated as functions: each rule takes
 * the token list and a position and gives the expression it builds and the
 * position after it, or the error it throws. The four binary tiers share one
 * definition, parameterised by their operators.
 */
module LoxGrammar {
  import opened Wrappers
  import opened LoxValues
  import opened LoxTokens
  import opened LoxAst

  /** A token list the parser can run over: the scanner's output always ends with EOF. */
  predicate EndsWithEof(ts: seq<Token>)
  {
    |ts| > 0 && ts[|ts| - 1].kind == EOF
  }

  /** The tokens from `a` up to `b` hold no EOF. */
  predicate NoEof(ts: seq<Token>, a: nat, b: nat)
    requires a <= b <= |ts|
  {
    forall k :: a <= k < b ==> ts[k].kind != EOF
  }

  /** An expression and the position of the first token after it. */
  datatype Parsed = Parsed(expr: Expr, next: nat)

  /** `match`: the token at `pos` is not EOF and is of one of `kinds`; it is then consumed. */
  predicate Matches(ts: seq<Token>, pos: nat, kinds: set<TokenType>)
    requires pos < |ts|
  {
    ts[pos].kind != EOF && ts[pos].kind in kinds
  }

  /** A rule that succeeds stops on a token and has consumed no EOF on its way. */
  predicate Consumed(ts: seq<Token>, pos: nat, r: Result<Parsed, Error>)
  {
    r.Ok? ==> pos <= r.value.next < |ts| && NoEof(ts, pos, r.value.next)
  }

  /** The left-associative binary tiers, loosest first. */
  datatype Tier = Equality | Comparison | Term | Factor

  function Operators(t: Tier): set<TokenType>
  {
    match t
    case Equality => {BANG_EQUAL, EQUAL_EQUAL}
    case Comparison => {GREATER, GREATER_EQUAL, LESS, LESS_EQUAL}
    case Term => {PLUS, MINUS}
    case Factor => {STAR, SLASH}
  }

  /** The tier whose expressions are the operands of `t`. */
  function Tighter(t: Tier): Tier
    requires t != Factor
  {
    match t
    case Equality => Comparison
    case Comparison => Term
    case Term => Factor
  }

  function Rank(t: Tier): nat
  {
    match t
    case Equality => 4
    case Comparison => 3
    case Term => 2
    case Factor => 1
  }

  const UnaryOperators: set<TokenType> := {BANG, MINUS, MINUS_MINUS, PLUS_PLUS}

  const PostfixOperators: set<TokenType> := {PLUS_PLUS, MINUS_MINUS}

  /** The binary operators `primary` rejects with "Expected left hand side". */
  const MissingLeftOperators: set<TokenType> :=
    {BANG_EQUAL, EQUAL_EQUAL, GREATER, GREATER_EQUAL, LESS, LESS_EQUAL, PLUS, SLASH, STAR}

  /** `expression`. */
  function ParseExpression(ts: seq<Token>, pos: nat): (r: Result<Parsed, Error>)
    requires EndsWithEof(ts) && pos < |ts|
    ensures Consumed(ts, pos, r)
    decreases |ts| - pos, 16
  {
    ParseConditional(ts, pos)
  }

  /** `conditional`: an equality, optionally followed by `? expression : conditional`. */
  function ParseConditional(ts: seq<Token>, pos: nat): (r: Result<Parsed, Error>)
    requires EndsWithEof(ts) && pos < |ts|
    ensures Consumed(ts, pos, r)
    decreases |ts| - pos, 15
  {
    match ParseBinary(Equality, ts, pos)
    case Failure(e) => Failure(e)
    case Ok(Parsed(cond, p)) =>
      if !Matches(ts, p, {Q_MARK}) then Ok(Parsed(cond, p))
      else
        match ParseExpression(ts, p + 1)
        case Failure(e) => Failure(e)
        case Ok(Parsed(mid, q)) =>
          if !Matches(ts, q, {COLON}) then Failure(Error(ts[q], "Expected : after if branch"))
          else
            match ParseConditional(ts, q + 1)
            case Failure(e) => Failure(e)
            case Ok(Parsed(otherwise, s)) => Ok(Parsed(Conditional(ts[p], cond, mid, otherwise), s))
  }

  /** One binary tier: an operand, then any number of `operator operand` pairs. */
  function ParseBinary(t: Tier, ts: seq<Token>, pos: nat): (r: Result<Parsed, Error>)
    requires EndsWithEof(ts) && pos < |ts|
    ensures Consumed(ts, pos, r)
    decreases |ts| - pos, 3 * Rank(t) + 2
  {
    match ParseOperand(t, ts, pos)
    case Failure(e) => Failure(e)
    case Ok(Parsed(left, p)) => ParseBinaryRest(t, ts, p, left)
  }

  /** The loop of a binary tier, with `left` the expression built so far. */
  function ParseBinaryRest(t: Tier, ts: seq<Token>, pos: nat, left: Expr): (r: Result<Parsed, Error>)
    requires EndsWithEof(ts) && pos < |ts|
    ensures Consumed(ts, pos, r)
    decreases |ts| - pos, 3 * Rank(t)
  {
    if !Matches(ts, pos, Operators(t)) then Ok(Parsed(left, pos))
    else
      match ParseOperand(t, ts, pos + 1)
      case Failure(e) => Failure(e)
      case Ok(Parsed(right, q)) => ParseBinaryRest(t, ts, q, Binary(left, ts[pos], right))
  }

  /** An operand of tier `t`: an expression of the next tighter tier, or a unary one below factor. */
  function ParseOperand(t: Tier, ts: seq<Token>, pos: nat): (r: Result<Parsed, Error>)
    requires EndsWithEof(ts) && pos < |ts|
    ensures Consumed(ts, pos, r)
    decreases |ts| - pos, 3 * Rank(t) + 1
  {
    if t == Factor then ParseUnary(ts, pos) else ParseBinary(Tighter(t), ts, pos)
  }

  /** `unary`: prefix `! - -- ++`, nesting, over a postfix expression. */
  function ParseUnary(ts: seq<Token>, pos: nat): (r: Result<Parsed, Error>)
    requires EndsWithEof(ts) && pos < |ts|
    ensures Consumed(ts, pos, r)
    decreases |ts| - pos, 2
  {
    if Matches(ts, pos, UnaryOperators) then
      match ParseUnary(ts, pos + 1)
      case Failure(e) => Failure(e)
      case Ok(Parsed(right, q)) => Ok(Parsed(Unary(ts[pos], right), q))
    else ParsePostfix(ts, pos)
  }

  /** `postfix`: a primary followed by any number of `++` and `--`. */
  function ParsePostfix(ts: seq<Token>, pos: nat): (r: Result<Parsed, Error>)
    requires EndsWithEof(ts) && pos < |ts|
    ensures Consumed(ts, pos, r)
    decreases |ts| - pos, 1
  {
    match ParsePrimary(ts, pos)
    case Failure(e) => Failure(e)
    case Ok(Parsed(e, p)) => Ok(PostfixRest(ts, p, e))
  }

  /** The loop of `postfix`, with `e` the expression built so far. */
  function PostfixRest(ts: seq<Token>, pos: nat, e: Expr): (r: Parsed)
    requires EndsWithEof(ts) && pos < |ts|
    ensures pos <= r.next < |ts| && NoEof(ts, pos, r.next)
    decreases |ts| - pos
  {
    if Matches(ts, pos, PostfixOperators) then PostfixRest(ts, pos + 1, PostFix(e, ts[pos]))
    else Parsed(e, pos)
  }

  /** `primary`: a literal, a parenthesised expression, or one of its two errors. */
  function ParsePrimary(ts: seq<Token>, pos: nat): (r: Result<Parsed, Error>)
    requires EndsWithEof(ts) && pos < |ts|
    ensures Consumed(ts, pos, r)
    decreases |ts| - pos, 0
  {
    if Matches(ts, pos, {FALSE}) then Ok(Parsed(Literal(Bool(false)), pos + 1))
    else if Matches(ts, pos, {TRUE}) then Ok(Parsed(Literal(Bool(true)), pos + 1))
    else if Matches(ts, pos, {NIL}) then Ok(Parsed(Literal(Nil), pos + 1))
    else if Matches(ts, pos, {NUMBER, STRING}) then Ok(Parsed(Literal(ts[pos].literal), pos + 1))
    else if Matches(ts, pos, {LEFT_PAREN}) then ParseGroup(ts, pos + 1)
    else if Matches(ts, pos, MissingLeftOperators) then
      Failure(Error(ts[pos + 1], "Expected left hand side of '" + ts[pos].lexeme + "'"))
    else Failure(Error(ts[pos], "Expected expression here."))
  }

  /** The rest of a parenthesised expression, from the token after `(`. */
  function ParseGroup(ts: seq<Token>, pos: nat): (r: Result<Parsed, Error>)
    requires EndsWithEof(ts) && pos < |ts|
    ensures Consumed(ts, pos, r)
    decreases |ts| - pos, 17
  {
    match ParseExpression(ts, pos)
    case Failure(e) => Failure(e)
    case Ok(Parsed(inner, q)) =>
      if Matches(ts, q, {RIGHT_PAREN}) then Ok(Parsed(Grouping(inner), q + 1))
      else Failure(Error(ts[q], "Expected ')' after expression."))
  }

  /** `parse` from position `pos`: an expression that must reach EOF. */
  function Parse(ts: seq<Token>, pos: nat): Result<Expr, Error>
    requires EndsWithEof(ts) && pos < |ts|
  {
    match ParseExpression(ts, pos)
    case Failure(e) => Failure(e)
    case Ok(Parsed(e, p)) =>
      if ts[p].kind == EOF then Ok(e) else Failure(Error(ts[p], "Expected operand here."))
  }

  /**
   * `parse` returns an expression only when the expression ends on an EOF token
   * and has consumed every token before it; when the expression stops short of
   * EOF, the error "Expected operand here." names the token it stopped on.
   */
  lemma ParseConsumesAll(ts: seq<Token>, pos: nat)
    requires EndsWithEof(ts) && pos < |ts|
    ensures Parse(ts, pos).Ok? ==>
      var r := ParseExpression(ts, pos);
      r.Ok? && r.value.expr == Parse(ts, pos).value && ts[r.value.next].kind == EOF && NoEof(ts, pos, r.value.next)
    ensures var r := ParseExpression(ts, pos);
      r.Ok? && ts[r.value.next].kind != EOF ==> Parse(ts, pos) == Failure(Error(ts[r.value.next], "Expected operand here."))
    ensures ParseExpression(ts, pos).Failure? ==> Parse(ts, pos) == Failure(ParseExpression(ts, pos).error)
  {
  }

  /**
   * Every binary tier is left-associative: `a op b op' c` builds
   * `Binary(Binary(a, op, b), op', c)`.
   */
  lemma BinaryLeftAssociative(t: Tier, ts: seq<Token>, pos: nat, a: Expr, p: nat, b: Expr, q: nat, c: Expr, s: nat)
    requires EndsWithEof(ts) && pos < |ts|
    requires ParseOperand(t, ts, pos) == Ok(Parsed(a, p))
    requires Matches(ts, p, Operators(t)) && ParseOperand(t, ts, p + 1) == Ok(Parsed(b, q))
    requires Matches(ts, q, Operators(t)) && ParseOperand(t, ts, q + 1) == Ok(Parsed(c, s))
    requires !Matches(ts, s, Operators(t))
    ensures ParseBinary(t, ts, pos) == Ok(Parsed(Binary(Binary(a, ts[p], b), ts[q], c), s))
  {
    assert ParseBinaryRest(t, ts, s, Binary(Binary(a, ts[p], b), ts[q], c)) == Ok(Parsed(Binary(Binary(a, ts[p], b), ts[q], c), s));
    assert ParseBinaryRest(t, ts, q, Binary(a, ts[p], b)) == Ok(Parsed(Binary(Binary(a, ts[p], b), ts[q], c), s));
    assert ParseBinaryRest(t, ts, p, a) == Ok(Parsed(Binary(Binary(a, ts[p], b), ts[q], c), s));
  }

  /** A token kind on which no tier, prefix or postfix rule continues. */
  predicate Closes(k: TokenType)
  {
    k in {EOF, Q_MARK, COLON, RIGHT_PAREN, SEMICOLON, COMMA}
  }

  /** A number or string followed by a closing token is that literal, at every tier. */
  lemma {:induction false} LiteralOperand(t: Tier, ts: seq<Token>, pos: nat)
    requires EndsWithEof(ts) && pos + 1 < |ts|
    requires ts[pos].kind in {NUMBER, STRING} && Closes(ts[pos + 1].kind)
    ensures ParseBinary(t, ts, pos) == Ok(Parsed(Literal(ts[pos].literal), pos + 1))
    decreases Rank(t)
  {
    if t == Factor {
      LiteralUnary(ts, pos);
    } else {
      LiteralOperand(Tighter(t), ts, pos);
    }
    assert ParseOperand(t, ts, pos) == Ok(Parsed(Literal(ts[pos].literal), pos + 1));
    TierStops(t, ts, pos);
  }

  /** A number followed by a closing token is a whole expression. */
  lemma LiteralExpression(ts: seq<Token>, pos: nat)
    requires EndsWithEof(ts) && pos + 1 < |ts|
    requires ts[pos].kind in {NUMBER, STRING} && Closes(ts[pos + 1].kind) && ts[pos + 1].kind != Q_MARK
    ensures ParseExpression(ts, pos) == Ok(Parsed(Literal(ts[pos].literal), pos + 1))
  {
    LiteralOperand(Equality, ts, pos);
  }

  /** A number or string not followed by a postfix operator is a literal at the unary level. */
  lemma LiteralUnary(ts: seq<Token>, pos: nat)
    requires EndsWithEof(ts) && pos + 1 < |ts|
    requires ts[pos].kind in {NUMBER, STRING} && ts[pos + 1].kind !in PostfixOperators
    ensures ParseUnary(ts, pos) == Ok(Parsed(Literal(ts[pos].literal), pos + 1))
  {
    assert ParsePrimary(ts, pos) == Ok(Parsed(Literal(ts[pos].literal), pos + 1));
  }

  /** A tier whose operand is not followed by one of its operators yields that operand. */
  lemma TierStops(t: Tier, ts: seq<Token>, pos: nat)
    requires EndsWithEof(ts) && pos < |ts|
    requires ParseOperand(t, ts, pos).Ok? && !Matches(ts, ParseOperand(t, ts, pos).value.next, Operators(t))
    ensures ParseBinary(t, ts, pos) == ParseOperand(t, ts, pos)
  {
  }

  /** A tier applied to `a op b` with no operator of the tier after `b`. */
  lemma TierOnce(t: Tier, ts: seq<Token>, pos: nat, a: Expr, p: nat, b: Expr, q: nat)
    requires EndsWithEof(ts) && pos < |ts|
    requires ParseOperand(t, ts, pos) == Ok(Parsed(a, p))
    requires Matches(ts, p, Operators(t)) && ParseOperand(t, ts, p + 1) == Ok(Parsed(b, q))
    requires !Matches(ts, q, Operators(t))
    ensures ParseBinary(t, ts, pos) == Ok(Parsed(Binary(a, ts[p], b), q))
  {
    assert ParseBinaryRest(t, ts, q, Binary(a, ts[p], b)) == Ok(Parsed(Binary(a, ts[p], b), q));
  }

  /** An equality-level expression that ends on EOF is what `parse` returns. */
  lemma WholeEquality(ts: seq<Token>)
    requires EndsWithEof(ts)
    requires ParseBinary(Equality, ts, 0).Ok? && ts[ParseBinary(Equality, ts, 0).value.next].kind == EOF
    ensures Parse(ts, 0) == Ok(ParseBinary(Equality, ts, 0).value.expr)
  {
    assert ParseConditional(ts, 0) == ParseBinary(Equality, ts, 0);
  }

  /**
   * `*` binds tighter than `+`: `a + b * c` with a, b, c numbers or strings
   * parses as `a + (b * c)`, the factor tier building the product before the
   * term tier sees it.
   */
  lemma ProductBindsTighter(ts: seq<Token>)
    requires |ts| == 6 && ts[0].kind in {NUMBER, STRING} && ts[1].kind == PLUS && ts[2].kind in {NUMBER, STRING}
    requires ts[3].kind == STAR && ts[4].kind in {NUMBER, STRING} && ts[5].kind == EOF
    ensures EndsWithEof(ts)
    ensures Parse(ts, 0) ==
      Ok(Binary(Literal(ts[0].literal), ts[1], Binary(Literal(ts[2].literal), ts[3], Literal(ts[4].literal))))
  {
    var sum := Binary(Literal(ts[0].literal), ts[1], Binary(Literal(ts[2].literal), ts[3], Literal(ts[4].literal)));
    SumOfProduct(ts);
    assert ParseOperand(Comparison, ts, 0) == Ok(Parsed(sum, 5));
    TierStops(Comparison, ts, 0);
    assert ParseOperand(Equality, ts, 0) == Ok(Parsed(sum, 5));
    TierStops(Equality, ts, 0);
    WholeEquality(ts);
  }

  /** The factor tier of `b * c` followed by a closing token. */
  lemma Product(ts: seq<Token>, pos: nat)
    requires EndsWithEof(ts) && pos + 3 < |ts|
    requires ts[pos].kind in {NUMBER, STRING} && ts[pos + 1].kind == STAR && ts[pos + 2].kind in {NUMBER, STRING}
    requires Closes(ts[pos + 3].kind)
    ensures ParseBinary(Factor, ts, pos) ==
      Ok(Parsed(Binary(Literal(ts[pos].literal), ts[pos + 1], Literal(ts[pos + 2].literal)), pos + 3))
  {
    var b, c := Literal(ts[pos].literal), Literal(ts[pos + 2].literal);
    LiteralUnary(ts, pos);
    LiteralUnary(ts, pos + 2);
    assert ParseOperand(Factor, ts, pos) == Ok(Parsed(b, pos + 1));
    assert ParseOperand(Factor, ts, pos + 2) == Ok(Parsed(c, pos + 3));
    TierOnce(Factor, ts, pos, b, pos + 1, c, pos + 3);
  }

  /** The term tier of `a + b * c`, its right operand built by the factor tier. */
  lemma SumOfProduct(ts: seq<Token>)
    requires |ts| == 6 && ts[0].kind in {NUMBER, STRING} && ts[1].kind == PLUS && ts[2].kind in {NUMBER, STRING}
    requires ts[3].kind == STAR && ts[4].kind in {NUMBER, STRING} && ts[5].kind == EOF
    ensures EndsWithEof(ts)
    ensures ParseBinary(Term, ts, 0) ==
      Ok(Parsed(Binary(Literal(ts[0].literal), ts[1], Binary(Literal(ts[2].literal), ts[3], Literal(ts[4].literal))), 5))
  {
    var a, b, c := Literal(ts[0].literal), Literal(ts[2].literal), Literal(ts[4].literal);
    LiteralUnary(ts, 0);
    assert ParseOperand(Factor, ts, 0) == Ok(Parsed(a, 1));
    TierStops(Factor, ts, 0);
    assert ParseOperand(Term, ts, 0) == Ok(Parsed(a, 1));
    Product(ts, 2);
    assert ParseOperand(Term, ts, 2) == Ok(Parsed(Binary(b, ts[3], c), 5));
    TierOnce(Term, ts, 0, a, 1, Binary(b, ts[3], c), 5);
  }

  /**
   * The ternary is right-associative: `a ? b : c ? d : e` parses as
   * `a ? b : (c ? d : e)`, the else branch being a conditional of its own.
   */
  lemma ConditionalRightAssociative(ts: seq<Token>)
    requires |ts| == 10 && ts[9].kind == EOF
    requires forall k :: 0 <= k < 9 && k % 2 == 0 ==> ts[k].kind in {NUMBER, STRING}
    requires ts[1].kind == Q_MARK && ts[3].kind == COLON && ts[5].kind == Q_MARK && ts[7].kind == COLON
    ensures EndsWithEof(ts)
    ensures Parse(ts, 0) ==
      Ok(Conditional(ts[1], Literal(ts[0].literal), Literal(ts[2].literal),
                     Conditional(ts[5], Literal(ts[4].literal), Literal(ts[6].literal), Literal(ts[8].literal))))
  {
    var inner := Conditional(ts[5], Literal(ts[4].literal), Literal(ts[6].literal), Literal(ts[8].literal));
    assert ts[8].kind in {NUMBER, STRING};
    LiteralOperand(Equality, ts, 8);
    assert ParseConditional(ts, 8) == Ok(Parsed(Literal(ts[8].literal), 9));
    assert ts[6].kind in {NUMBER, STRING};
    LiteralExpression(ts, 6);
    assert ts[4].kind in {NUMBER, STRING};
    LiteralOperand(Equality, ts, 4);
    assert ParseConditional(ts, 4) == Ok(Parsed(inner, 9));
    assert ts[2].kind in {NUMBER, STRING};
    LiteralExpression(ts, 2);
    assert ts[0].kind in {NUMBER, STRING};
    LiteralOperand(Equality, ts, 0);
    assert ParseExpression(ts, 0) == Ok(Parsed(Conditional(ts[1], Literal(ts[0].literal), Literal(ts[2].literal), inner), 9));
  }

  /** A `?` whose middle expression is not followed by `:` is the error "Expected : after if branch". */
  lemma MissingColon(ts: seq<Token>, pos: nat)
    requires EndsWithEof(ts) && pos < |ts|
    requires ParseBinary(Equality, ts, pos).Ok?
    requires var p := ParseBinary(Equality, ts, pos).value.next;
      Matches(ts, p, {Q_MARK}) && ParseExpression(ts, p + 1).Ok?
      && !Matches(ts, ParseExpression(ts, p + 1).value.next, {COLON})
    ensures var q := ParseExpression(ts, ParseBinary(Equality, ts, pos).value.next + 1).value.next;
      ParseConditional(ts, pos) == Failure(Error(ts[q], "Expected : after if branch"))
  {
  }

  /** `ops` applied as prefix operators to `e`, the first one outermost. */
  function Prefixed(ops: seq<Token>, e: Expr): Expr
  {
    if ops == [] then e else Unary(ops[0], Prefixed(ops[1..], e))
  }

  /** `ops` applied as postfix operators to `e`, the first one innermost. */
  function Postfixed(e: Expr, ops: seq<Token>): Expr
    decreases |ops|
  {
    if ops == [] then e else Postfixed(PostFix(e, ops[0]), ops[1..])
  }

  /** Prefix operators nest: a run of `n` of them wraps the postfix expression after it in `n` Unary nodes. */
  lemma {:induction false} PrefixRun(ts: seq<Token>, pos: nat, n: nat)
    requires EndsWithEof(ts) && pos + n < |ts|
    requires forall k :: pos <= k < pos + n ==> ts[k].kind in UnaryOperators
    requires !Matches(ts, pos + n, UnaryOperators)
    ensures var r := ParsePostfix(ts, pos + n);
      ParseUnary(ts, pos) == if r.Failure? then r else Ok(Parsed(Prefixed(ts[pos..pos + n], r.value.expr), r.value.next))
    decreases n
  {
    if n > 0 {
      PrefixRun(ts, pos + 1, n - 1);
      assert ts[pos..pos + n][1..] == ts[pos + 1..pos + n];
    }
  }

  /** Postfix operators repeat: a run of `n` of them wraps the expression before it in `n` PostFix nodes. */
  lemma {:induction false} PostfixRun(ts: seq<Token>, pos: nat, n: nat, e: Expr)
    requires EndsWithEof(ts) && pos + n < |ts|
    requires forall k :: pos <= k < pos + n ==> ts[k].kind in PostfixOperators
    requires !Matches(ts, pos + n, PostfixOperators)
    ensures PostfixRest(ts, pos, e) == Parsed(Postfixed(e, ts[pos..pos + n]), pos + n)
    decreases n
  {
    if n > 0 {
      PostfixRun(ts, pos + 1, n - 1, PostFix(e, ts[pos]));
      assert ts[pos..pos + n][1..] == ts[pos + 1..pos + n];
    }
  }

  /**
   * A `(` with no `)` anywhere after it is an error: whatever the inner
   * expression, it cannot be followed by the closing parenthesis.
   */
  lemma UnclosedGroup(ts: seq<Token>, pos: nat)
    requires EndsWithEof(ts) && pos < |ts| && ts[pos].kind == LEFT_PAREN
    requires forall k :: pos < k < |ts| ==> ts[k].kind != RIGHT_PAREN
    ensures ParsePrimary(ts, pos).Failure?
  {
  }

  /** A closed group is a Grouping node around the inner expression. */
  lemma ClosedGroup(ts: seq<Token>, pos: nat)
    requires EndsWithEof(ts) && pos < |ts| && ts[pos].kind == LEFT_PAREN
    requires ParseExpression(ts, pos + 1).Ok?
    requires ts[ParseExpression(ts, pos + 1).value.next].kind == RIGHT_PAREN
    ensures var r := ParseExpression(ts, pos + 1).value;
      ParsePrimary(ts, pos) == Ok(Parsed(Grouping(r.expr), r.next + 1))
  {
  }

  /** A failure in `primary` with no prefix operator before it is the failure of every tier above. */
  lemma {:induction false} PrimaryFailureRises(t: Tier, ts: seq<Token>, pos: nat)
    requires EndsWithEof(ts) && pos < |ts|
    requires ParsePrimary(ts, pos).Failure? && !Matches(ts, pos, UnaryOperators)
    ensures ParseBinary(t, ts, pos) == ParsePrimary(ts, pos)
    decreases Rank(t)
  {
    if t == Factor {
      assert ParseUnary(ts, pos) == ParsePrimary(ts, pos);
    } else {
      PrimaryFailureRises(Tighter(t), ts, pos);
    }
    assert ParseOperand(t, ts, pos) == ParsePrimary(ts, pos);
  }

  /**
   * An expression that starts with a binary operator other than `-` reports
   * the missing left-hand side, naming the operator and pointing at the token
   * after it, rather than "Expected expression here.".
   */
  lemma MissingLeftOperand(ts: seq<Token>, pos: nat)
    requires EndsWithEof(ts) && pos < |ts| && ts[pos].kind in MissingLeftOperators
    ensures pos + 1 < |ts|
    ensures ParseExpression(ts, pos) == Failure(Error(ts[pos + 1], "Expected left hand side of '" + ts[pos].lexeme + "'"))
  {
    MissingLeftPrimary(ts, pos);
    PrimaryFailureRises(Equality, ts, pos);
  }

  /** The error `primary` gives on a binary operator other than `-`. */
  lemma MissingLeftPrimary(ts: seq<Token>, pos: nat)
    requires EndsWithEof(ts) && pos < |ts| && ts[pos].kind in MissingLeftOperators
    ensures pos + 1 < |ts|
    ensures ParsePrimary(ts, pos) == Failure(Error(ts[pos + 1], "Expected left hand side of '" + ts[pos].lexeme + "'"))
  {
  }

  /** The rank of a binary operator: that of the tier it belongs to, 0 for any other token. */
  function OperatorRank(k: TokenType): nat
  {
    if k in Operators(Factor) then Rank(Factor)
    else if k in Operators(Term) then Rank(Term)
    else if k in Operators(Comparison) then Rank(Comparison)
    else if k in Operators(Equality) then Rank(Equality)
    else 0
  }

  /** The rank of a conditional, above every binary tier. */
  const ConditionalRank: nat := 5

  /**
   * The trees the parser builds where an expression of rank at most `k` may
   * stand: rank 0 for primaries, prefix and postfix expressions, the tier's
   * rank for a binary node, and `ConditionalRank` for a ternary. A binary
   * node's left operand ranks at most its own tier and its right operand
   * strictly below it; a ternary's condition is at most an equality; a
   * group takes any expression. So a looser operator appears under a
   * tighter one only inside parentheses, a tier is left-associative and the
   * ternary right-associative.
   */
  predicate Ranked(e: Expr, k: nat)
  {
    match e
    case Literal(_) => true
    case Grouping(inner) => Ranked(inner, ConditionalRank)
    case Unary(operator, right) => operator.kind in UnaryOperators && Ranked(right, 0)
    case PostFix(left, operator) => operator.kind in PostfixOperators && Ranked(left, 0)
    case Binary(left, operator, right) =>
      var r := OperatorRank(operator.kind);
      1 <= r <= k && Ranked(left, r) && Ranked(right, r - 1)
    case Conditional(operator, cond, mid, otherwise) =>
      ConditionalRank <= k && operator.kind == Q_MARK
      && Ranked(cond, Rank(Equality)) && Ranked(mid, ConditionalRank) && Ranked(otherwise, ConditionalRank)
    case Assign(_, _) => false
    case Variable(_) => false
  }

  /** An expression ranked at `j` may stand where rank `k >= j` is allowed. */
  lemma RankedWeakens(e: Expr, j: nat, k: nat)
    requires Ranked(e, j) && j <= k
    ensures Ranked(e, k)
  {
  }

  /**
   * What ranking means for one binary node: an operand that is itself a
   * binary node without parentheses binds at least as tightly on the left and
   * strictly more tightly on the right, and no operand is a bare ternary.
   */
  lemma Precedence(e: Expr, k: nat)
    requires Ranked(e, k) && e.Binary?
    ensures e.left.Binary? ==> OperatorRank(e.left.operator.kind) <= OperatorRank(e.operator.kind)
    ensures e.right.Binary? ==> OperatorRank(e.right.operator.kind) < OperatorRank(e.operator.kind)
    ensures !e.left.Conditional? && !e.right.Conditional?
  {
  }

  /** A ternary's condition is never a bare ternary, so `a ? b : c ? d : e` nests to the right. */
  lemma TernaryNestsRight(e: Expr, k: nat)
    requires Ranked(e, k) && e.Conditional?
    ensures !e.left.Conditional?
    ensures e.left.Binary? ==> OperatorRank(e.left.operator.kind) <= Rank(Equality)
  {
  }

  /** Every expression `parse` returns is ranked as a conditional. */
  lemma ParseRanked(ts: seq<Token>, pos: nat)
    requires EndsWithEof(ts) && pos < |ts|
    ensures Parse(ts, pos).Ok? ==> Ranked(Parse(ts, pos).value, ConditionalRank)
  {
    ExpressionRanked(ts, pos);
  }

  /** `expression` builds a tree of rank at most `ConditionalRank`. */
  lemma {:induction false} ExpressionRanked(ts: seq<Token>, pos: nat)
    requires EndsWithEof(ts) && pos < |ts|
    ensures ParseExpression(ts, pos).Ok? ==> Ranked(ParseExpression(ts, pos).value.expr, ConditionalRank)
    decreases |ts| - pos, 16
  {
    ConditionalRanked(ts, pos);
  }

  /** `conditional` builds a tree of rank at most `ConditionalRank`, its condition an equality. */
  lemma {:induction false} ConditionalRanked(ts: seq<Token>, pos: nat)
    requires EndsWithEof(ts) && pos < |ts|
    ensures ParseConditional(ts, pos).Ok? ==> Ranked(ParseConditional(ts, pos).value.expr, ConditionalRank)
    decreases |ts| - pos, 15
  {
    BinaryRanked(Equality, ts, pos);
    match ParseBinary(Equality, ts, pos)
    case Failure(_) =>
    case Ok(Parsed(cond, p)) =>
      RankedWeakens(cond, Rank(Equality), ConditionalRank);
      if Matches(ts, p, {Q_MARK}) {
        ExpressionRanked(ts, p + 1);
        match ParseExpression(ts, p + 1)
        case Failure(_) =>
        case Ok(Parsed(mid, q)) =>
          if Matches(ts, q, {COLON}) {
            ConditionalRanked(ts, q + 1);
          }
      }
  }

  /** Tier `t` builds a tree of rank at most `Rank(t)`. */
  lemma {:induction false} BinaryRanked(t: Tier, ts: seq<Token>, pos: nat)
    requires EndsWithEof(ts) && pos < |ts|
    ensures ParseBinary(t, ts, pos).Ok? ==> Ranked(ParseBinary(t, ts, pos).value.expr, Rank(t))
    decreases |ts| - pos, 3 * Rank(t) + 2
  {
    OperandRanked(t, ts, pos);
    match ParseOperand(t, ts, pos)
    case Failure(_) =>
    case Ok(Parsed(left, p)) =>
      RankedWeakens(left, Rank(t) - 1, Rank(t));
      BinaryRestRanked(t, ts, p, left);
  }

  /** The loop of tier `t` keeps the tree it builds at rank `Rank(t)`. */
  lemma {:induction false} BinaryRestRanked(t: Tier, ts: seq<Token>, pos: nat, left: Expr)
    requires EndsWithEof(ts) && pos < |ts| && Ranked(left, Rank(t))
    ensures ParseBinaryRest(t, ts, pos, left).Ok? ==> Ranked(ParseBinaryRest(t, ts, pos, left).value.expr, Rank(t))
    decreases |ts| - pos, 3 * Rank(t)
  {
    if Matches(ts, pos, Operators(t)) {
      OperandRanked(t, ts, pos + 1);
      match ParseOperand(t, ts, pos + 1)
      case Failure(_) =>
      case Ok(Parsed(right, q)) =>
        assert OperatorRank(ts[pos].kind) == Rank(t);
        BinaryRestRanked(t, ts, q, Binary(left, ts[pos], right));
    }
  }

  /** An operand of tier `t` ranks strictly below `t`. */
  lemma {:induction false} OperandRanked(t: Tier, ts: seq<Token>, pos: nat)
    requires EndsWithEof(ts) && pos < |ts|
    ensures ParseOperand(t, ts, pos).Ok? ==> Ranked(ParseOperand(t, ts, pos).value.expr, Rank(t) - 1)
    decreases |ts| - pos, 3 * Rank(t) + 1
  {
    if t == Factor {
      UnaryRanked(ts, pos);
    } else {
      BinaryRanked(Tighter(t), ts, pos);
    }
  }

  /** `unary` builds a tree of rank 0. */
  lemma {:induction false} UnaryRanked(ts: seq<Token>, pos: nat)
    requires EndsWithEof(ts) && pos < |ts|
    ensures ParseUnary(ts, pos).Ok? ==> Ranked(ParseUnary(ts, pos).value.expr, 0)
    decreases |ts| - pos, 2
  {
    if Matches(ts, pos, UnaryOperators) {
      UnaryRanked(ts, pos + 1);
    } else {
      PostfixRanked(ts, pos);
    }
  }

  /** `postfix` builds a tree of rank 0. */
  lemma {:induction false} PostfixRanked(ts: seq<Token>, pos: nat)
    requires EndsWithEof(ts) && pos < |ts|
    ensures ParsePostfix(ts, pos).Ok? ==> Ranked(ParsePostfix(ts, pos).value.expr, 0)
    decreases |ts| - pos, 1
  {
    PrimaryRanked(ts, pos);
    match ParsePrimary(ts, pos)
    case Failure(_) =>
    case Ok(Parsed(e, p)) => PostfixRestRanked(ts, p, e);
  }

  /** The loop of `postfix` keeps its tree at rank 0. */
  lemma {:induction false} PostfixRestRanked(ts: seq<Token>, pos: nat, e: Expr)
    requires EndsWithEof(ts) && pos < |ts| && Ranked(e, 0)
    ensures Ranked(PostfixRest(ts, pos, e).expr, 0)
    decreases |ts| - pos
  {
    if Matches(ts, pos, PostfixOperators) {
      PostfixRestRanked(ts, pos + 1, PostFix(e, ts[pos]));
    }
  }

  /** `primary` builds a tree of rank 0: a literal or a group. */
  lemma {:induction false} PrimaryRanked(ts: seq<Token>, pos: nat)
    requires EndsWithEof(ts) && pos < |ts|
    ensures ParsePrimary(ts, pos).Ok? ==> Ranked(ParsePrimary(ts, pos).value.expr, 0)
    decreases |ts| - pos, 0
  {
    if Matches(ts, pos, {LEFT_PAREN}) {
      GroupRanked(ts, pos + 1);
    }
  }

  /** A group builds a tree of rank 0 around any expression. */
  lemma {:induction false} GroupRanked(ts: seq<Token>, pos: nat)
    requires EndsWithEof(ts) && pos < |ts|
    ensures ParseGroup(ts, pos).Ok? ==> Ranked(ParseGroup(ts, pos).value.expr, 0)
    decreases |ts| - pos, 17
  {
    ExpressionRanked(ts, pos);
  }
}
