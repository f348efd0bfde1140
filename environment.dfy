/**
 * Variable scopes, after Environment.java. A scope maps names to values, `Nil`
 * standing for a name declared without a value (Java's null). The functions
 * below state the three operations on the chain of scopes, innermost first;
 * the class `Environment` is the Java object, a mutable map with a link to
 * its enclosing environment, proved against them.
 */
module LoxEnvironment {
  import opened Wrappers
  import opened LoxValues
  import opened LoxTokens

  type Scope = map<string, Value>

  function RedefinitionMessage(name: string): string
  {
    "Variable redefinition '" + name + "'' in current scope."
  }

  function UnassignedMessage(name: string): string
  {
    "Unassigned variable '" + name + "' is used."
  }

  function UndefinedMessage(name: string): string
  {
    "Undefined variable '" + name + "'."
  }

  /** `define` in the innermost scope: refused only when the name already holds a non-nil value there. */
  function DefineIn(scopes: seq<Scope>, name: Token, value: Value): Result<seq<Scope>, Error>
    requires scopes != []
  {
    var x := name.lexeme;
    if x in scopes[0] && scopes[0][x] != Nil then Failure(Error(name, RedefinitionMessage(x)))
    else Ok(scopes[0 := scopes[0][x := value]])
  }

  /** `fetch`: the innermost scope declaring the name decides; nil there is an error. */
  function FetchFrom(scopes: seq<Scope>, name: Token): Result<Value, Error>
  {
    var x := name.lexeme;
    if scopes == [] then Failure(Error(name, UndefinedMessage(x)))
    else if x in scopes[0] then
      if scopes[0][x] == Nil then Failure(Error(name, UnassignedMessage(x))) else Ok(scopes[0][x])
    else FetchFrom(scopes[1..], name)
  }

  /** `assign`: the innermost scope declaring the name takes the value. */
  function AssignIn(scopes: seq<Scope>, name: Token, value: Value): Result<seq<Scope>, Error>
  {
    var x := name.lexeme;
    if scopes == [] then Failure(Error(name, UndefinedMessage(x)))
    else if x in scopes[0] then Ok(scopes[0 := scopes[0][x := value]])
    else
      match AssignIn(scopes[1..], name, value)
      case Failure(e) => Failure(e)
      case Ok(rest) => Ok([scopes[0]] + rest)
  }

  /** Index of the innermost scope declaring `x`, or the number of scopes when none does. */
  function Innermost(scopes: seq<Scope>, x: string): (i: nat)
    ensures i <= |scopes|
    ensures i < |scopes| ==> x in scopes[i]
    ensures forall j :: 0 <= j < i ==> x !in scopes[j]
  {
    if scopes == [] then 0
    else if x in scopes[0] then 0
    else 1 + Innermost(scopes[1..], x)
  }

  /**
   * `fetch` reads the innermost declaration: it shadows every outer one,
   * and no declaration at all is the "Undefined variable" error.
   */
  lemma {:induction false} FetchInnermost(scopes: seq<Scope>, name: Token)
    ensures var i := Innermost(scopes, name.lexeme);
      FetchFrom(scopes, name) ==
        if i == |scopes| then Failure(Error(name, UndefinedMessage(name.lexeme)))
        else if scopes[i][name.lexeme] == Nil then Failure(Error(name, UnassignedMessage(name.lexeme)))
        else Ok(scopes[i][name.lexeme])
  {
    if scopes != [] && name.lexeme !in scopes[0] {
      FetchInnermost(scopes[1..], name);
    }
  }

  /**
   * `assign` changes the innermost scope declaring the name, and no other; with
   * no declaration it is the "Undefined variable" error and changes nothing.
   */
  lemma {:induction false} AssignInnermost(scopes: seq<Scope>, name: Token, value: Value)
    ensures var i := Innermost(scopes, name.lexeme);
      AssignIn(scopes, name, value) ==
        if i == |scopes| then Failure(Error(name, UndefinedMessage(name.lexeme)))
        else Ok(scopes[i := scopes[i][name.lexeme := value]])
  {
    var x := name.lexeme;
    if scopes != [] && x !in scopes[0] {
      AssignInnermost(scopes[1..], name, value);
      var i := Innermost(scopes[1..], x);
      if i < |scopes| - 1 {
        assert [scopes[0]] + scopes[1..][i := scopes[1..][i][x := value]] == scopes[i + 1 := scopes[i + 1][x := value]];
      }
    }
  }

  /** A redefinition is refused exactly when the innermost scope holds a non-nil value for the name. */
  lemma DefineRefused(scopes: seq<Scope>, name: Token, value: Value)
    requires scopes != []
    ensures DefineIn(scopes, name, value).Failure? <==> name.lexeme in scopes[0] && scopes[0][name.lexeme] != Nil
    ensures DefineIn(scopes, name, value).Ok? ==> DefineIn(scopes, name, value).value[1..] == scopes[1..]
  {
  }

  /** After a definition with a non-nil value, `fetch` in the same scopes gives that value. */
  lemma DefineThenFetch(scopes: seq<Scope>, name: Token, value: Value)
    requires scopes != [] && value != Nil
    requires DefineIn(scopes, name, value).Ok?
    ensures FetchFrom(DefineIn(scopes, name, value).value, name) == Ok(value)
  {
  }

  /** After an assignment of a non-nil value, `fetch` gives that value. */
  lemma AssignThenFetch(scopes: seq<Scope>, name: Token, value: Value)
    requires value != Nil && AssignIn(scopes, name, value).Ok?
    ensures FetchFrom(AssignIn(scopes, name, value).value, name) == Ok(value)
  {
    var x := name.lexeme;
    var i := Innermost(scopes, x);
    AssignInnermost(scopes, name, value);
    var after := scopes[i := scopes[i][x := value]];
    assert Innermost(after, x) == i by {
      InnermostUnchanged(scopes, after, x, i);
    }
    FetchInnermost(after, name);
  }

  /** Scopes that agree on which of them declare `x` before `i`, and both declare it at `i`, have the same innermost one. */
  lemma {:induction false} InnermostUnchanged(a: seq<Scope>, b: seq<Scope>, x: string, i: nat)
    requires |a| == |b| && i < |a|
    requires forall j :: 0 <= j < i ==> x !in a[j] && x !in b[j]
    requires x in a[i] && x in b[i]
    ensures Innermost(a, x) == i && Innermost(b, x) == i
  {
    if i > 0 {
      InnermostUnchanged(a[1..], b[1..], x, i - 1);
    }
  }

  /**
   * An environment object: its own scope `values` and the enclosing
   * environment `outer`, null for the global one. `Repr` is the chain from
   * this environment outwards and `depth` its length less one.
   */
  class Environment {
    var values: Scope
    const outer: Environment?
    ghost const Repr: set<Environment>
    ghost const depth: nat

    ghost predicate Valid()
      decreases depth
    {
      && this in Repr
      && (outer == null ==> Repr == {this} && depth == 0)
      && (outer != null ==>
            && depth == outer.depth + 1
            && Repr == {this} + outer.Repr
            && this !in outer.Repr
            && outer.Valid())
    }

    /** The scopes of the chain, this environment's first. */
    ghost function Scopes(): (s: seq<Scope>)
      requires Valid()
      reads Repr
      ensures |s| == depth + 1 && s[0] == values
      decreases depth
    {
      [values] + if outer == null then [] else outer.Scopes()
    }

    /** The global environment. */
    constructor ()
      ensures Valid() && fresh(Repr)
      ensures Scopes() == [map[]] && outer == null
    {
      values := map[];
      outer := null;
      Repr := {this};
      depth := 0;
    }

    /** A new innermost scope inside `enclosing`. */
    constructor Nested(enclosing: Environment)
      requires enclosing.Valid()
      ensures Valid() && outer == enclosing && fresh(Repr - enclosing.Repr)
      ensures Scopes() == [map[]] + enclosing.Scopes()
    {
      values := map[];
      outer := enclosing;
      Repr := {this} + enclosing.Repr;
      depth := enclosing.depth + 1;
    }

    /** `define`: binds the name in this environment's own scope, or gives the redefinition error. */
    method Define(name: Token, value: Value) returns (err: Option<Error>)
      requires Valid()
      modifies this`values
      ensures Valid()
      ensures match DefineIn(old(Scopes()), name, value)
        case Ok(s) => err == None && Scopes() == s
        case Failure(e) => err == Some(e) && Scopes() == old(Scopes())
    {
      if name.lexeme in values && values[name.lexeme] != Nil {
        return Some(Error(name, RedefinitionMessage(name.lexeme)));
      }
      values := values[name.lexeme := value];
      return None;
    }

    /** `fetch`: looks the name up here, then outwards. */
    method Fetch(name: Token) returns (r: Result<Value, Error>)
      requires Valid()
      ensures r == FetchFrom(Scopes(), name)
      decreases depth
    {
      if name.lexeme in values {
        var value := values[name.lexeme];
        if value == Nil {
          return Failure(Error(name, UnassignedMessage(name.lexeme)));
        }
        return Ok(value);
      }
      if outer == null {
        return Failure(Error(name, UndefinedMessage(name.lexeme)));
      }
      assert Scopes()[1..] == outer.Scopes();
      r := outer.Fetch(name);
    }

    /** `assign`: sets the name where it is declared, innermost first, or gives the undefined error. */
    method Assign(name: Token, value: Value) returns (err: Option<Error>)
      requires Valid()
      modifies Repr
      ensures Valid()
      ensures match AssignIn(old(Scopes()), name, value)
        case Ok(s) => err == None && Scopes() == s
        case Failure(e) => err == Some(e) && Scopes() == old(Scopes())
      decreases depth
    {
      ghost var before := Scopes();
      var x := name.lexeme;
      if x in values {
        values := values[x := value];
        assert AssignIn(before, name, value) == Ok(before[0 := values]);
        assert Scopes() == before[0 := values] by {
          if outer != null {
            assert Scopes()[1..] == outer.Scopes() == before[1..];
          }
        }
        return None;
      }
      if outer == null {
        assert before == [values];
        assert AssignIn(before[1..], name, value).Failure?;
        return Some(Error(name, UndefinedMessage(x)));
      }
      assert before == [values] + outer.Scopes();
      err := outer.Assign(name, value);
      assert Scopes() == [values] + outer.Scopes();
    }
  }
}
