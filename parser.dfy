/**
 * The parser object of Parser.java: a cursor over the token list, one method
 * per grammar rule. A thrown ParserError is a `Failure` result that every
 * caller passes straight up; the error itself has been reported, by `Panic`,
 * at the point it was thrown. Each method is proved against the rule of
 * LoxGrammar it implements.
 */
module LoxParser {
  import opened Wrappers
  import opened LoxValues
  import opened LoxTokens
  import opened LoxAst
  import opened LoxGrammar

  class Parser {
    const tokens: seq<Token>
    /** The token about to be read. */
    var current: nat
    /** Errors reported so far (the parser's calls into the error reporter). */
    var reports: seq<Error>

    /** The cursor is on a token of a list that ends with EOF. */
    ghost predicate Valid()
      reads this
    {
      EndsWithEof(tokens) && current < |tokens|
    }

    constructor (tokens: seq<Token>)
      requires EndsWithEof(tokens)
      ensures Valid()
      ensures this.tokens == tokens && current == 0 && reports == []
    {
      this.tokens := tokens;
      current := 0;
      reports := [];
    }

    /**
     * The result `r` and the state after a rule agree with `spec`, the rule's
     * value from where the rule started, with `reports0` the reports before
     * it: a parsed expression leaves the cursor after it and reports nothing;
     * an error is returned and reported once.
     */
    ghost predicate Agrees(spec: Result<Parsed, Error>, r: Result<Expr, Error>, reports0: seq<Error>)
      reads this
    {
      match spec
      case Ok(Parsed(e, next)) => r == Ok(e) && current == next && reports == reports0
      case Failure(err) => r == Failure(err) && reports == reports0 + [err]
    }

    /** `parse`: an expression that must end on EOF; None once an error has been reported. */
    method Parse() returns (r: Option<Expr>)
      requires Valid()
      modifies this`current, this`reports
      ensures match LoxGrammar.Parse(tokens, old(current))
        case Ok(e) => r == Some(e) && reports == old(reports)
        case Failure(err) => r == None && reports == old(reports) + [err]
    {
      var expr := Expression();
      if expr.Failure? {
        return None;
      }
      if IsAtEnd() {
        return Some(expr.value);
      }
      var _ := Panic("Expected operand here.");
      return None;
    }

    method Expression() returns (r: Result<Expr, Error>)
      requires Valid()
      modifies this`current, this`reports
      ensures Valid() && Agrees(ParseExpression(tokens, old(current)), r, old(reports))
      decreases |tokens| - current, 16
    {
      r := Conditional();
    }

    method Conditional() returns (r: Result<Expr, Error>)
      requires Valid()
      modifies this`current, this`reports
      ensures Valid() && Agrees(ParseConditional(tokens, old(current)), r, old(reports))
      decreases |tokens| - current, 15
    {
      var expr := BinaryTier(Equality);
      if expr.Failure? {
        return expr;
      }
      var question := Match([Q_MARK]);
      if question {
        r := Ternary(old(current), expr.value);
        return;
      }
      return expr;
    }

    /** The branch of `conditional` after its `?`, the condition `cond` having started at `pos`. */
    method Ternary(ghost pos: nat, cond: Expr) returns (r: Result<Expr, Error>)
      requires Valid() && pos < current
      requires ParseBinary(Equality, tokens, pos) == Ok(Parsed(cond, current - 1))
      requires Matches(tokens, current - 1, {Q_MARK})
      modifies this`current, this`reports
      ensures Valid() && Agrees(ParseConditional(tokens, pos), r, old(reports))
      decreases |tokens| - current, 17
    {
      var operator := PeekPrev();
      ghost var p := current;
      var mid := Expression();
      if mid.Failure? {
        assert ParseConditional(tokens, pos) == Failure(mid.error);
        return mid;
      }
      ghost var q := current;
      var colon := Match([COLON]);
      if !colon {
        var e := Panic("Expected : after if branch");
        assert ParseConditional(tokens, pos) == Failure(e);
        return Failure(e);
      }
      var right := Conditional();
      if right.Failure? {
        assert ParseConditional(tokens, pos) == Failure(right.error);
        return right;
      }
      assert ParseConditional(tokens, pos) == Ok(Parsed(Expr.Conditional(operator, cond, mid.value, right.value), current));
      return Ok(Expr.Conditional(operator, cond, mid.value, right.value));
    }

    /** `equality`, `comparison`, `term` and `factor`: the loop of tier `t`. */
    method BinaryTier(t: Tier) returns (r: Result<Expr, Error>)
      requires Valid()
      modifies this`current, this`reports
      ensures Valid() && Agrees(ParseBinary(t, tokens, old(current)), r, old(reports))
      decreases |tokens| - current, 3 * Rank(t) + 2
    {
      var left := Operand(t);
      if left.Failure? {
        return left;
      }
      r := BinaryRest(t, left.value);
    }

    /** The `while (match(...))` loop of tier `t`, with `left` the expression built so far. */
    method BinaryRest(t: Tier, left: Expr) returns (r: Result<Expr, Error>)
      requires Valid()
      modifies this`current, this`reports
      ensures Valid() && Agrees(ParseBinaryRest(t, tokens, old(current), left), r, old(reports))
      decreases |tokens| - current, 3 * Rank(t)
    {
      var expr := left;
      while true
        invariant Valid() && old(current) <= current && reports == old(reports)
        invariant ParseBinaryRest(t, tokens, old(current), left) == ParseBinaryRest(t, tokens, current, expr)
        decreases |tokens| - current
      {
        var more := MatchOperator(t);
        if !more {
          return Ok(expr);
        }
        var operator := PeekPrev();
        var right := Operand(t);
        if right.Failure? {
          return right;
        }
        expr := Binary(expr, operator, right.value);
      }
    }

    /** The operand rule of tier `t`: the next tighter tier, or `unary` under `factor`. */
    method Operand(t: Tier) returns (r: Result<Expr, Error>)
      requires Valid()
      modifies this`current, this`reports
      ensures Valid() && Agrees(ParseOperand(t, tokens, old(current)), r, old(reports))
      decreases |tokens| - current, 3 * Rank(t) + 1
    {
      if t == Factor {
        r := Unary();
      } else {
        r := BinaryTier(Tighter(t));
      }
    }

    /** The `match` call of tier `t`, with that tier's operators. */
    method MatchOperator(t: Tier) returns (matched: bool)
      requires Valid()
      modifies this`current
      ensures Valid()
      ensures matched <==> Matches(tokens, old(current), Operators(t))
      ensures current == if matched then old(current) + 1 else old(current)
    {
      match t
      case Equality => matched := Match([BANG_EQUAL, EQUAL_EQUAL]);
      case Comparison => matched := Match([GREATER, GREATER_EQUAL, LESS, LESS_EQUAL]);
      case Term => matched := Match([PLUS, MINUS]);
      case Factor => matched := Match([STAR, SLASH]);
    }

    method Unary() returns (r: Result<Expr, Error>)
      requires Valid()
      modifies this`current, this`reports
      ensures Valid() && Agrees(ParseUnary(tokens, old(current)), r, old(reports))
      decreases |tokens| - current, 3
    {
      var prefix := Match([BANG, MINUS, MINUS_MINUS, PLUS_PLUS]);
      if prefix {
        var operator := PeekPrev();
        var right := Unary();
        if right.Failure? {
          return right;
        }
        return Ok(Expr.Unary(operator, right.value));
      }
      r := Postfix();
    }

    method Postfix() returns (r: Result<Expr, Error>)
      requires Valid()
      modifies this`current, this`reports
      ensures Valid() && Agrees(ParsePostfix(tokens, old(current)), r, old(reports))
      decreases |tokens| - current, 2
    {
      var primary := Primary();
      if primary.Failure? {
        return primary;
      }
      var expr := primary.value;
      while true
        invariant Valid() && old(current) <= current && reports == old(reports)
        invariant ParsePostfix(tokens, old(current)) == Ok(PostfixRest(tokens, current, expr))
        decreases |tokens| - current
      {
        var more := Match([PLUS_PLUS, MINUS_MINUS]);
        if !more {
          return Ok(expr);
        }
        var operator := PeekPrev();
        expr := PostFix(expr, operator);
      }
    }

    method Primary() returns (r: Result<Expr, Error>)
      requires Valid()
      modifies this`current, this`reports
      ensures Valid() && Agrees(ParsePrimary(tokens, old(current)), r, old(reports))
      decreases |tokens| - current, 1
    {
      var matched := Match([FALSE]);
      if matched {
        return Ok(Literal(Bool(false)));
      }
      matched := Match([TRUE]);
      if matched {
        return Ok(Literal(Bool(true)));
      }
      matched := Match([NIL]);
      if matched {
        return Ok(Literal(Nil));
      }
      matched := Match([NUMBER, STRING]);
      if matched {
        return Ok(Literal(PeekPrev().literal));
      }
      r := Nonliteral();
    }

    /** The rest of `primary`, on a token that is not a literal: a group or an error. */
    method Nonliteral() returns (r: Result<Expr, Error>)
      requires Valid()
      requires !Matches(tokens, current, {FALSE}) && !Matches(tokens, current, {TRUE})
      requires !Matches(tokens, current, {NIL}) && !Matches(tokens, current, {NUMBER, STRING})
      modifies this`current, this`reports
      ensures Valid() && Agrees(ParsePrimary(tokens, old(current)), r, old(reports))
      decreases |tokens| - current, 0
    {
      var matched := Match([LEFT_PAREN]);
      if matched {
        r := Group();
        return;
      }
      matched := Match([BANG_EQUAL, EQUAL_EQUAL, GREATER, GREATER_EQUAL, LESS, LESS_EQUAL, PLUS, SLASH, STAR]);
      if matched {
        var e := Panic("Expected left hand side of '" + PeekPrev().lexeme + "'");
        return Failure(e);
      }
      var e := Panic("Expected expression here.");
      return Failure(e);
    }

    /** The branch of `primary` after a `(`: the expression and its closing `)`. */
    method Group() returns (r: Result<Expr, Error>)
      requires Valid()
      modifies this`current, this`reports
      ensures Valid() && Agrees(ParseGroup(tokens, old(current)), r, old(reports))
      decreases |tokens| - current, 17
    {
      var inner := Expression();
      if inner.Failure? {
        return inner;
      }
      var closed := Match([RIGHT_PAREN]);
      if !closed {
        var e := Panic("Expected ')' after expression.");
        return Failure(e);
      }
      return Ok(Grouping(inner.value));
    }

    /** Reports `message` at the token under the cursor and gives the error to throw. */
    method Panic(message: string) returns (e: Error)
      requires Valid()
      modifies this`reports
      ensures e == Error(tokens[current], message) && reports == old(reports) + [e]
    {
      e := Error(Peek(), message);
      reports := reports + [e];
    }

    /** Reads the token under the cursor and moves past it. */
    method Consume() returns (t: Token)
      requires current < |tokens|
      modifies this`current
      ensures t == tokens[old(current)] && current == old(current) + 1
    {
      t := tokens[current];
      current := current + 1;
    }

    function Peek(): (t: Token)
      requires current < |tokens|
      reads this
      ensures t == tokens[current]
    {
      tokens[current]
    }

    /** The token just consumed. */
    function PeekPrev(): (t: Token)
      requires 0 < current <= |tokens|
      reads this
      ensures t == tokens[current - 1]
    {
      tokens[current - 1]
    }

    /**
     * `match`: tries the kinds in order and consumes the token under the
     * cursor when one of them is its kind; EOF is never consumed.
     */
    method Match(types: seq<TokenType>) returns (matched: bool)
      requires Valid()
      modifies this`current
      ensures Valid()
      ensures matched <==> tokens[old(current)].kind != EOF && tokens[old(current)].kind in types
      ensures current == if matched then old(current) + 1 else old(current)
    {
      for i := 0 to |types|
        invariant current == old(current)
        invariant forall j :: 0 <= j < i ==> IsAtEnd() || Peek().kind != types[j]
      {
        if !IsAtEnd() && Peek().kind == types[i] {
          var _ := Consume();
          return true;
        }
      }
      return false;
    }

    predicate IsAtEnd()
      requires current < |tokens|
      reads this
    {
      Peek().kind == EOF
    }
  }
}
