/**
 * What Interpreter.java computes, stated as functions: the value rules of its
 * pure helpers and visitors, and the evaluation of expressions and execution
 * of statements over a state made of the scope chain and the printed lines.
 * A thrown runtime error is the `Thrown` outcome, which carries the state at
 * the point the error was thrown.
 */
module LoxSemantics {
  import opened Wrappers
  import opened LoxValues
  import opened LoxTokens
  import opened LoxAst
  import opened LoxEnvironment

  /** The interpreter's state: the scopes of its current environment, innermost first, and the lines printed. */
  datatype State = State(scopes: seq<Scope>, output: seq<string>)

  /** The end of an evaluation or execution: normal with a value, or a thrown runtime error. */
  datatype Outcome<T> = Normal(value: T, state: State) | Thrown(error: Error, state: State)

  const NumbersMessage := "Expected operands to be numbers"
  const PlusMessage := "Either operands must be string or both numbers."
  const PostfixMessage := "Unexpected PostFix operator."
  /** The model's own error for a zero divisor, where Java's doubles give an infinity or NaN. */
  const DivisionMessage := "Division by zero."

  /** `isTruthy`: nil and false are false, a number is false exactly when it is zero, all else is true. */
  predicate IsTruthy(v: Value): (r: bool)
    ensures r <==> !(v == Nil || v == Bool(false) || v == Num(0.0))
  {
    match v
    case Nil => false
    case Bool(b) => b
    case Num(n) => n != 0.0
    case Str(_) => true
  }

  /** `isEqual`: two nils are equal, a nil equals nothing else, other values compare with `equals`. */
  predicate IsEqual(a: Value, b: Value): (r: bool)
    ensures r <==> a == b
  {
    if a.Nil? && b.Nil? then true
    else if a.Nil? then false
    else a == b
  }

  /** `checkNumberOperand` on one operand: the error it throws, if any. */
  function CheckNumberOperand(operator: Token, v: Value): Option<Error>
  {
    if v.Num? then None else Some(Error(operator, NumbersMessage))
  }

  /** `checkNumberOperand` on two operands. */
  function CheckNumberOperands(operator: Token, left: Value, right: Value): Option<Error>
  {
    if left.Num? && right.Num? then None else Some(Error(operator, NumbersMessage))
  }

  /** The switch of `visitUnaryExpr`, on the value of the operand; any other operator gives nil. */
  function UnaryOp(operator: Token, right: Value): Result<Value, Error>
  {
    match operator.kind
    case BANG => Ok(Bool(!IsTruthy(right)))
    case MINUS => if right.Num? then Ok(Num(-right.n)) else Failure(Error(operator, NumbersMessage))
    case PLUS_PLUS => if right.Num? then Ok(Num(right.n + 1.0)) else Failure(Error(operator, NumbersMessage))
    case MINUS_MINUS => if right.Num? then Ok(Num(right.n - 1.0)) else Failure(Error(operator, NumbersMessage))
    case _ => Ok(Nil)
  }

  /** The arithmetic and comparison operators, whose operands must both be numbers. */
  predicate IsNumeric(k: TokenType)
  {
    k in {MINUS, STAR, SLASH, GREATER, GREATER_EQUAL, LESS, LESS_EQUAL}
  }

  /** A numeric operator on two numbers. */
  function Arithmetic(operator: Token, x: real, y: real): Result<Value, Error>
    requires IsNumeric(operator.kind)
  {
    match operator.kind
    case MINUS => Ok(Num(x - y))
    case STAR => Ok(Num(x * y))
    case SLASH => if y == 0.0 then Failure(Error(operator, DivisionMessage)) else Ok(Num(x / y))
    case GREATER => Ok(Bool(x > y))
    case GREATER_EQUAL => Ok(Bool(x >= y))
    case LESS => Ok(Bool(x < y))
    case LESS_EQUAL => Ok(Bool(x <= y))
  }

  /** The switch of `visitBinaryExpr`, on the values of both operands; any other operator gives nil. */
  function BinaryOp(operator: Token, left: Value, right: Value): Result<Value, Error>
  {
    if operator.kind == PLUS then
      if left.Num? && right.Num? then Ok(Num(left.n + right.n))
      else if left.Str? || right.Str? then Ok(Str(Stringify(left) + Stringify(right)))
      else Failure(Error(operator, PlusMessage))
    else if IsNumeric(operator.kind) then
      match CheckNumberOperands(operator, left, right)
      case Some(e) => Failure(e)
      case None => Arithmetic(operator, left.n, right.n)
    else if operator.kind == BANG_EQUAL then Ok(Bool(!IsEqual(left, right)))
    else if operator.kind == EQUAL_EQUAL then Ok(Bool(IsEqual(left, right)))
    else Ok(Nil)
  }

  /** The switch of `visitPostFixExpr`: a number comes back unchanged. */
  function PostfixOp(operator: Token, left: Value): Result<Value, Error>
  {
    if operator.kind == PLUS_PLUS || operator.kind == MINUS_MINUS then
      match CheckNumberOperand(operator, left)
      case Some(e) => Failure(e)
      case None => Ok(left)
    else Failure(Error(operator, PostfixMessage))
  }

  /** The outcome of an operator applied to a value `v` computed in state `st`. */
  function Apply(r: Result<Value, Error>, st: State): Outcome<Value>
  {
    match r
    case Ok(v) => Normal(v, st)
    case Failure(e) => Thrown(e, st)
  }

  /** Evaluation of an expression, the `visit*Expr` methods; operands are evaluated left to right. */
  function Eval(e: Expr, st: State): (r: Outcome<Value>)
    requires st.scopes != []
    ensures |r.state.scopes| == |st.scopes| && r.state.output == st.output
    decreases e
  {
    match e
    case Literal(v) => Normal(v, st)
    case Grouping(inner) => Eval(inner, st)
    case Unary(operator, right) =>
      (match Eval(right, st)
       case Thrown(err, s1) => Thrown(err, s1)
       case Normal(v, s1) => Apply(UnaryOp(operator, v), s1))
    case Binary(left, operator, right) =>
      (match Eval(left, st)
       case Thrown(err, s1) => Thrown(err, s1)
       case Normal(a, s1) =>
         match Eval(right, s1)
         case Thrown(err, s2) => Thrown(err, s2)
         case Normal(b, s2) => Apply(BinaryOp(operator, a, b), s2))
    case Conditional(_, left, mid, right) =>
      (match Eval(left, st)
       case Thrown(err, s1) => Thrown(err, s1)
       case Normal(c, s1) =>
         match Eval(mid, s1)
         case Thrown(err, s2) => Thrown(err, s2)
         case Normal(m, s2) =>
           match Eval(right, s2)
           case Thrown(err, s3) => Thrown(err, s3)
           case Normal(o, s3) => Normal(if IsTruthy(c) then m else o, s3))
    case PostFix(left, operator) =>
      (match Eval(left, st)
       case Thrown(err, s1) => Thrown(err, s1)
       case Normal(v, s1) => Apply(PostfixOp(operator, v), s1))
    case Assign(name, rhs) =>
      (match Eval(rhs, st)
       case Thrown(err, s1) => Thrown(err, s1)
       case Normal(v, s1) =>
         match AssignIn(s1.scopes, name, v)
         case Failure(err) => Thrown(err, s1)
         case Ok(scopes) => AssignKeepsDepth(s1.scopes, name, v); Normal(v, State(scopes, s1.output)))
    case Variable(name) => Apply(FetchFrom(st.scopes, name), st)
  }

  /** An assignment keeps the number of scopes. */
  lemma {:induction false} AssignKeepsDepth(scopes: seq<Scope>, name: Token, value: Value)
    requires AssignIn(scopes, name, value).Ok?
    ensures |AssignIn(scopes, name, value).value| == |scopes|
  {
    AssignInnermost(scopes, name, value);
  }

  /** The statements the interpreter has a visitor for: no If and no While, at any depth. */
  predicate Executable(s: Stmt)
  {
    match s
    case Block(statements) => forall i :: 0 <= i < |statements| ==> Executable(statements[i])
    case Expression(_) => true
    case Print(_) => true
    case Var(_, _) => true
    case _ => false
  }

  /** Execution of one statement, the `visit*Stmt` methods. */
  function Exec(s: Stmt, st: State): (r: Outcome<()>)
    requires st.scopes != [] && Executable(s)
    ensures |r.state.scopes| == |st.scopes|
    decreases s, 1
  {
    match s
    case Expression(e) =>
      (match Eval(e, st)
       case Thrown(err, s1) => Thrown(err, s1)
       case Normal(_, s1) => Normal((), s1))
    case Print(e) =>
      (match Eval(e, st)
       case Thrown(err, s1) => Thrown(err, s1)
       case Normal(v, s1) => Normal((), State(s1.scopes, s1.output + [Stringify(v)])))
    case Var(name, initializer) =>
      (match (if initializer.Some? then Eval(initializer.value, st) else Normal(Nil, st))
       case Thrown(err, s1) => Thrown(err, s1)
       case Normal(v, s1) =>
         match DefineIn(s1.scopes, name, v)
         case Failure(err) => Thrown(err, s1)
         case Ok(scopes) => Normal((), State(scopes, s1.output)))
    case Block(statements) =>
      match ExecAll(statements, State([map[]] + st.scopes, st.output))
      case Normal(_, s1) => Normal((), State(s1.scopes[1..], s1.output))
      case Thrown(err, s1) => Thrown(err, State(s1.scopes[1..], s1.output))
  }

  /** The statements in order, stopping at the first thrown error: the loop of `executeBlock` and `interprete`. */
  function ExecAll(statements: seq<Stmt>, st: State): (r: Outcome<()>)
    requires st.scopes != [] && forall i :: 0 <= i < |statements| ==> Executable(statements[i])
    ensures |r.state.scopes| == |st.scopes|
    decreases statements, 0
  {
    if statements == [] then Normal((), st)
    else
      match Exec(statements[0], st)
      case Thrown(err, s1) => Thrown(err, s1)
      case Normal(_, s1) => ExecAll(statements[1..], s1)
  }

  /** `!` is the negation of truthiness, and applying it twice gives truthiness as a boolean. */
  lemma NotNegatesTruth(operator: Token, v: Value)
    requires operator.kind == BANG
    ensures UnaryOp(operator, v) == Ok(Bool(!IsTruthy(v)))
    ensures UnaryOp(operator, UnaryOp(operator, v).value) == Ok(Bool(IsTruthy(v)))
  {
  }

  /** `==` is value equality, nil equal only to nil, and `!=` is its negation. */
  lemma EqualityOperators(operator: Token, left: Value, right: Value)
    ensures operator.kind == EQUAL_EQUAL ==> BinaryOp(operator, left, right) == Ok(Bool(left == right))
    ensures operator.kind == BANG_EQUAL ==> BinaryOp(operator, left, right) == Ok(Bool(left != right))
    ensures operator.kind == EQUAL_EQUAL ==> (BinaryOp(operator, left, Nil) == Ok(Bool(true)) <==> left == Nil)
  {
  }

  /**
   * `+` sums two numbers, concatenates the stringified operands when either
   * is a string, and is the type error for every other pair of operands.
   */
  lemma PlusOverloading(operator: Token, left: Value, right: Value)
    requires operator.kind == PLUS
    ensures left.Num? && right.Num? ==> BinaryOp(operator, left, right) == Ok(Num(left.n + right.n))
    ensures left.Str? || right.Str? ==> BinaryOp(operator, left, right) == Ok(Str(Stringify(left) + Stringify(right)))
    ensures BinaryOp(operator, left, right).Failure? <==> !(left.Num? && right.Num?) && !left.Str? && !right.Str?
    ensures BinaryOp(operator, left, right).Failure? ==> BinaryOp(operator, left, right).error == Error(operator, PlusMessage)
  {
  }

  /**
   * `-`, `*`, `/` and the comparisons fail, naming the operator, exactly when
   * an operand is not a number; on numbers only a zero divisor fails.
   */
  lemma NumericOperands(operator: Token, left: Value, right: Value)
    requires IsNumeric(operator.kind)
    ensures !(left.Num? && right.Num?) ==> BinaryOp(operator, left, right) == Failure(Error(operator, NumbersMessage))
    ensures left.Num? && right.Num? ==>
      (BinaryOp(operator, left, right).Failure? <==> operator.kind == SLASH && right.n == 0.0)
  {
  }

  /**
   * On two numbers `-`, `*` and `/` give the difference, product and
   * quotient, `/` by zero fails, and `>`, `>=`, `<`, `<=` compare.
   */
  lemma NumericResults(operator: Token, x: real, y: real)
    requires IsNumeric(operator.kind)
    ensures operator.kind == MINUS ==> BinaryOp(operator, Num(x), Num(y)) == Ok(Num(x - y))
    ensures operator.kind == STAR ==> BinaryOp(operator, Num(x), Num(y)) == Ok(Num(x * y))
    ensures operator.kind == SLASH && y != 0.0 ==> BinaryOp(operator, Num(x), Num(y)) == Ok(Num(x / y))
    ensures operator.kind == SLASH && y == 0.0 ==> BinaryOp(operator, Num(x), Num(y)) == Failure(Error(operator, DivisionMessage))
    ensures operator.kind == GREATER ==> BinaryOp(operator, Num(x), Num(y)) == Ok(Bool(x > y))
    ensures operator.kind == GREATER_EQUAL ==> BinaryOp(operator, Num(x), Num(y)) == Ok(Bool(x >= y))
    ensures operator.kind == LESS ==> BinaryOp(operator, Num(x), Num(y)) == Ok(Bool(x < y))
    ensures operator.kind == LESS_EQUAL ==> BinaryOp(operator, Num(x), Num(y)) == Ok(Bool(x <= y))
  {
    match operator.kind
    case STAR => ProductOfNumbers(operator, x, y);
    case SLASH => QuotientOfNumbers(operator, x, y);
    case _ =>
  }

  lemma ProductOfNumbers(operator: Token, x: real, y: real)
    requires operator.kind == STAR
    ensures BinaryOp(operator, Num(x), Num(y)) == Ok(Num(x * y))
  {
  }

  lemma QuotientOfNumbers(operator: Token, x: real, y: real)
    requires operator.kind == SLASH
    ensures y != 0.0 ==> BinaryOp(operator, Num(x), Num(y)) == Ok(Num(x / y))
    ensures y == 0.0 ==> BinaryOp(operator, Num(x), Num(y)) == Failure(Error(operator, DivisionMessage))
  {
  }

  /** Unary `-` needs a number too, and negates it. */
  lemma NegationNeedsNumber(operator: Token, v: Value)
    requires operator.kind == MINUS
    ensures UnaryOp(operator, v).Ok? <==> v.Num?
    ensures v.Num? ==> UnaryOp(operator, v) == Ok(Num(-v.n))
    ensures !v.Num? ==> UnaryOp(operator, v) == Failure(Error(operator, NumbersMessage))
  {
  }

  /** Expressions with no assignment anywhere in them. */
  predicate NoAssign(e: Expr)
  {
    match e
    case Binary(left, _, right) => NoAssign(left) && NoAssign(right)
    case Grouping(inner) => NoAssign(inner)
    case Literal(_) => true
    case Unary(_, right) => NoAssign(right)
    case Conditional(_, left, mid, right) => NoAssign(left) && NoAssign(mid) && NoAssign(right)
    case PostFix(left, _) => NoAssign(left)
    case Assign(_, _) => false
    case Variable(_) => true
  }

  /** Only an assignment changes the state during evaluation: without one the state comes back as it was. */
  lemma {:induction false} ReadOnlyEvaluation(e: Expr, st: State)
    requires st.scopes != [] && NoAssign(e)
    ensures Eval(e, st).state == st
    decreases e
  {
    match e
    case Literal(_) =>
    case Variable(_) =>
    case Grouping(inner) => ReadOnlyEvaluation(inner, st);
    case Unary(_, right) => ReadOnlyEvaluation(right, st);
    case PostFix(left, _) => ReadOnlyEvaluation(left, st);
    case Binary(left, _, right) =>
      ReadOnlyEvaluation(left, st);
      ReadOnlyEvaluation(right, st);
    case Conditional(_, left, mid, right) =>
      ReadOnlyEvaluation(left, st);
      ReadOnlyEvaluation(mid, st);
      ReadOnlyEvaluation(right, st);
  }

  /**
   * Prefix `++`/`--` on a variable holding a number gives the number plus or
   * minus one, postfix gives the number itself, and neither stores anything:
   * the variable still holds its old value afterwards.
   */
  lemma IncrementDoesNotStore(operator: Token, name: Token, n: real, st: State)
    requires st.scopes != [] && FetchFrom(st.scopes, name) == Ok(Num(n))
    requires operator.kind == PLUS_PLUS || operator.kind == MINUS_MINUS
    ensures Eval(Unary(operator, Variable(name)), st) ==
      Normal(Num(if operator.kind == PLUS_PLUS then n + 1.0 else n - 1.0), st)
    ensures Eval(PostFix(Variable(name), operator), st) == Normal(Num(n), st)
  {
  }

  /** Prefix and postfix `++`/`--` fail on anything but a number, naming the operator. */
  lemma IncrementNeedsNumber(operator: Token, v: Value)
    requires operator.kind == PLUS_PLUS || operator.kind == MINUS_MINUS
    ensures UnaryOp(operator, v).Failure? <==> !v.Num?
    ensures PostfixOp(operator, v).Failure? <==> !v.Num?
    ensures !v.Num? ==> UnaryOp(operator, v) == PostfixOp(operator, v) == Failure(Error(operator, NumbersMessage))
  {
  }

  /**
   * The conditional evaluates its condition, then both branches, and only
   * then chooses: a branch that is not chosen still has its effects, and its
   * error is still thrown.
   */
  lemma ConditionalEvaluatesAll(operator: Token, c: Expr, m: Expr, o: Expr, st: State)
    requires st.scopes != []
    ensures var r := Eval(Conditional(operator, c, m, o), st);
      var rc := Eval(c, st);
      rc.Thrown? ==> r == rc
    ensures var r := Eval(Conditional(operator, c, m, o), st);
      var rc := Eval(c, st);
      rc.Normal? ==> var rm := Eval(m, rc.state);
        rm.Thrown? ==> r == rm
    ensures var r := Eval(Conditional(operator, c, m, o), st);
      var rc := Eval(c, st);
      rc.Normal? ==> var rm := Eval(m, rc.state);
        rm.Normal? ==> var ro := Eval(o, rm.state);
          (ro.Thrown? ==> r == ro) &&
          (ro.Normal? ==> r == Normal(if IsTruthy(rc.value) then rm.value else ro.value, ro.state))
  {
  }

  /** Operands are evaluated left then right, both before any check on their types. */
  lemma OperandsFirst(operator: Token, left: Expr, right: Expr, st: State)
    requires st.scopes != []
    ensures Eval(left, st).Thrown? ==> Eval(Binary(left, operator, right), st) == Eval(left, st)
    ensures Eval(left, st).Normal? && Eval(right, Eval(left, st).state).Thrown? ==>
      Eval(Binary(left, operator, right), st) == Eval(right, Eval(left, st).state)
  {
  }

  /**
   * An assignment evaluates its right-hand side, stores it in the innermost
   * scope declaring the name, and gives it as its value; reading the name back
   * gives that value unless it is nil, which reads as unassigned.
   */
  lemma {:induction false} AssignThenRead(name: Token, rhs: Expr, st: State)
    requires st.scopes != []
    requires Eval(rhs, st).Normal? && Eval(rhs, st).value != Nil
    ensures var after := Eval(Assign(name, rhs), st);
      after.Normal? ==>
        after.value == Eval(rhs, st).value && Eval(Variable(name), after.state) == Normal(after.value, after.state)
  {
    var s1 := Eval(rhs, st).state;
    var v := Eval(rhs, st).value;
    if AssignIn(s1.scopes, name, v).Ok? {
      AssignThenFetch(s1.scopes, name, v);
    }
  }

  /** A `let` without an initializer defines the name as unassigned; it is refused only over a value in the same scope. */
  lemma UninitializedDeclaration(name: Token, st: State)
    requires st.scopes != []
    ensures Exec(Var(name, None), st).Normal? <==>
      !(name.lexeme in st.scopes[0] && st.scopes[0][name.lexeme] != Nil)
    ensures Exec(Var(name, None), st).Normal? ==>
      FetchFrom(Exec(Var(name, None), st).state.scopes, name) == Failure(Error(name, UnassignedMessage(name.lexeme)))
  {
  }

  /** `print` adds one line, the stringified value, after the effects of its expression. */
  lemma PrintAppends(e: Expr, st: State)
    requires st.scopes != []
    ensures Eval(e, st).Normal? ==>
      Exec(Print(e), st).Normal? && Exec(Print(e), st).state.output == st.output + [Stringify(Eval(e, st).value)]
    ensures Eval(e, st).Thrown? ==>
      Exec(Print(e), st) == Thrown(Eval(e, st).error, Eval(e, st).state) && Exec(Print(e), st).state.output == st.output
  {
  }

  /** Statements with no assignment anywhere in them. */
  predicate NoAssignStmt(s: Stmt)
  {
    match s
    case Block(statements) => forall i :: 0 <= i < |statements| ==> NoAssignStmt(statements[i])
    case Expression(e) => NoAssign(e)
    case Print(e) => NoAssign(e)
    case Var(_, initializer) => initializer.None? || NoAssign(initializer.value)
    case _ => true
  }

  /**
   * Without assignments, a statement can change only the innermost scope, and a
   * block none at all: its declarations vanish with its scope, on normal and
   * on error exit alike.
   */
  lemma {:induction false} OnlyInnermostChanges(s: Stmt, st: State)
    requires st.scopes != [] && Executable(s) && NoAssignStmt(s)
    ensures Exec(s, st).state.scopes[1..] == st.scopes[1..]
    ensures s.Block? ==> Exec(s, st).state.scopes == st.scopes
    decreases s, 1
  {
    match s
    case Expression(e) => ReadOnlyEvaluation(e, st);
    case Print(e) => ReadOnlyEvaluation(e, st);
    case Var(_, initializer) =>
      if initializer.Some? {
        ReadOnlyEvaluation(initializer.value, st);
      }
    case Block(statements) =>
      var inner := State([map[]] + st.scopes, st.output);
      OnlyInnermostChangesAll(statements, inner);
      assert inner.scopes[1..] == st.scopes;
  }

  lemma {:induction false} OnlyInnermostChangesAll(statements: seq<Stmt>, st: State)
    requires st.scopes != []
    requires forall i :: 0 <= i < |statements| ==> Executable(statements[i]) && NoAssignStmt(statements[i])
    ensures ExecAll(statements, st).state.scopes[1..] == st.scopes[1..]
    decreases statements, 0
  {
    if statements != [] {
      OnlyInnermostChanges(statements[0], st);
      var r := Exec(statements[0], st);
      if r.Normal? {
        OnlyInnermostChangesAll(statements[1..], r.state);
      }
    }
  }

  /** Running two lists one after the other is running their concatenation; an error stops the rest. */
  lemma {:induction false} ExecAllConcat(a: seq<Stmt>, b: seq<Stmt>, st: State)
    requires st.scopes != []
    requires forall i :: 0 <= i < |a| ==> Executable(a[i])
    requires forall i :: 0 <= i < |b| ==> Executable(b[i])
    ensures ExecAll(a + b, st) ==
      match ExecAll(a, st)
      case Normal(_, s1) => ExecAll(b, s1)
      case Thrown(err, s1) => Thrown(err, s1)
    decreases a
  {
    if a == [] {
      assert a + b == b;
    } else {
      assert (a + b)[0] == a[0];
      assert (a + b)[1..] == a[1..] + b;
      var r := Exec(a[0], st);
      if r.Normal? {
        ExecAllConcat(a[1..], b, r.state);
      }
    }
  }
}
