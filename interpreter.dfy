/**
 * The interpreter object of Interpreter.java: the current environment, which
 * a block replaces by a nested one and restores on every exit, the lines
 * printed, and the runtime errors reported. A thrown RuntimeError is a
 * `Failure` (or `Some` error) result passed straight up to `Interprete`,
 * which reports it. Each method is proved against the functions of
 * LoxSemantics.
 */
module LoxInterpreter {
  import opened Wrappers
  import opened LoxValues
  import opened LoxTokens
  import opened LoxAst
  import opened LoxEnvironment
  import opened LoxSemantics

  class Interpreter {
    /** The environment statements run in; the global one outside every block. */
    var environment: Environment
    /** Lines written by `print`. */
    var output: seq<string>
    /** Runtime errors reported (the interpreter's calls into the error reporter). */
    var reports: seq<Error>

    ghost predicate Valid()
      reads this
    {
      environment.Valid()
    }

    /** The interpreter's state as LoxSemantics sees it. */
    ghost function State(): LoxSemantics.State
      requires Valid()
      reads this, environment.Repr
    {
      LoxSemantics.State(environment.Scopes(), output)
    }

    /** A new interpreter, its environment the empty global one. */
    constructor ()
      ensures Valid() && fresh(environment.Repr)
      ensures State() == LoxSemantics.State([map[]], []) && reports == []
    {
      environment := new Environment();
      output := [];
      reports := [];
    }

    /**
     * `interprete`: runs the statements in order; the first runtime error
     * stops the rest and is reported.
     */
    method Interprete(statements: seq<Stmt>)
      requires Valid() && forall i :: 0 <= i < |statements| ==> Executable(statements[i])
      modifies this, environment.Repr
      ensures Valid() && environment == old(environment)
      ensures match ExecAll(statements, old(State()))
        case Normal(_, st) => State() == st && reports == old(reports)
        case Thrown(err, st) => State() == st && reports == old(reports) + [err]
    {
      ghost var start := State();
      var i := 0;
      while i < |statements|
        invariant 0 <= i <= |statements|
        invariant Valid() && environment == old(environment) && reports == old(reports)
        invariant ExecAll(statements, start) == ExecAll(statements[i..], State())
        modifies this, environment.Repr
      {
        assert statements[i..][1..] == statements[i + 1..];
        var err := Execute(statements[i]);
        if err.Some? {
          reports := reports + [err.value];
          return;
        }
        i := i + 1;
      }
    }

    /**
     * `executeBlock`: runs the statements in `env`, a scope nested directly in
     * the current environment, and restores the current environment on normal
     * and on error exit alike.
     */
    method ExecuteBlock(statements: seq<Stmt>, env: Environment) returns (err: Option<Error>)
      requires Valid() && env.Valid() && env.outer == environment
      requires forall i :: 0 <= i < |statements| ==> Executable(statements[i])
      modifies this`environment, this`output, env.Repr
      ensures Valid() && environment == old(environment)
      ensures match ExecAll(statements, LoxSemantics.State(old(env.Scopes()), old(output)))
        case Normal(_, st) => err == None && State() == LoxSemantics.State(st.scopes[1..], st.output)
        case Thrown(e, st) => err == Some(e) && State() == LoxSemantics.State(st.scopes[1..], st.output)
      decreases statements, 0
    {
      var previous := environment;
      ghost var start := LoxSemantics.State(env.Scopes(), output);
      environment := env;
      var i := 0;
      while i < |statements|
        invariant 0 <= i <= |statements|
        invariant environment == env && env.Valid()
        invariant ExecAll(statements, start) == ExecAll(statements[i..], State())
        modifies this`environment, this`output, env.Repr
      {
        assert statements[i..][1..] == statements[i + 1..];
        err := Execute(statements[i]);
        if err.Some? {
          break;
        }
        i := i + 1;
      }
      if i == |statements| {
        err := None;
      }
      assert env.Scopes()[1..] == previous.Scopes();
      environment := previous;
    }

    /** `execute` and the four statement visitors. */
    method Execute(s: Stmt) returns (err: Option<Error>)
      requires Valid() && Executable(s)
      modifies this`environment, this`output, environment.Repr
      ensures Valid() && environment == old(environment)
      ensures match Exec(s, old(State()))
        case Normal(_, st) => err == None && State() == st
        case Thrown(e, st) => err == Some(e) && State() == st
      decreases s, 1
    {
      match s
      case Expression(e) =>
        var r := Evaluate(e);
        err := if r.Failure? then Some(r.error) else None;
      case Print(e) =>
        var r := Evaluate(e);
        if r.Failure? {
          return Some(r.error);
        }
        output := output + [Stringify(r.value)];
        return None;
      case Var(name, initializer) =>
        err := Declare(name, initializer);
      case Block(statements) =>
        err := Enter(statements);
    }

    /** `visitBlockStmt`: the statements in a new scope nested in the current environment. */
    method Enter(statements: seq<Stmt>) returns (err: Option<Error>)
      requires Valid() && forall i :: 0 <= i < |statements| ==> Executable(statements[i])
      modifies this`environment, this`output, environment.Repr
      ensures Valid() && environment == old(environment)
      ensures match Exec(Block(statements), old(State()))
        case Normal(_, st) => err == None && State() == st
        case Thrown(e, st) => err == Some(e) && State() == st
      decreases statements, 1
    {
      var env := new Environment.Nested(environment);
      err := ExecuteBlock(statements, env);
    }

    /** `visitVarStmt`: the initializer's value, or nil without one, defined in the current environment. */
    method Declare(name: Token, initializer: Option<Expr>) returns (err: Option<Error>)
      requires Valid()
      modifies environment.Repr
      ensures Valid()
      ensures match Exec(Var(name, initializer), old(State()))
        case Normal(_, st) => err == None && State() == st
        case Thrown(e, st) => err == Some(e) && State() == st
    {
      var value := Nil;
      if initializer.Some? {
        var r := Evaluate(initializer.value);
        if r.Failure? {
          return Some(r.error);
        }
        value := r.value;
      }
      err := environment.Define(name, value);
    }

    /** `evaluate` and the expression visitors. */
    method Evaluate(e: Expr) returns (r: Result<Value, Error>)
      requires Valid()
      modifies environment.Repr
      ensures Valid()
      ensures match Eval(e, old(State()))
        case Normal(v, st) => r == Ok(v) && State() == st
        case Thrown(err, st) => r == Failure(err) && State() == st
      decreases e
    {
      match e
      case Literal(v) =>
        return Ok(v);
      case Grouping(inner) =>
        r := Evaluate(inner);
      case Unary(operator, right) =>
        var v := Evaluate(right);
        if v.Failure? {
          return v;
        }
        r := UnaryOp(operator, v.value);
      case PostFix(left, operator) =>
        var v := Evaluate(left);
        if v.Failure? {
          return v;
        }
        r := PostfixOp(operator, v.value);
      case Binary(left, operator, right) =>
        var a := Evaluate(left);
        if a.Failure? {
          return a;
        }
        var b := Evaluate(right);
        if b.Failure? {
          return b;
        }
        r := BinaryOp(operator, a.value, b.value);
      case Conditional(_, left, mid, right) =>
        var c := Evaluate(left);
        if c.Failure? {
          return c;
        }
        var m := Evaluate(mid);
        if m.Failure? {
          return m;
        }
        var o := Evaluate(right);
        if o.Failure? {
          return o;
        }
        r := if IsTruthy(c.value) then m else o;
      case Assign(name, rhs) =>
        var v := Evaluate(rhs);
        if v.Failure? {
          return v;
        }
        var err := environment.Assign(name, v.value);
        if err.Some? {
          return Failure(err.value);
        }
        return v;
      case Variable(name) =>
        r := environment.Fetch(name);
    }
  }
}
