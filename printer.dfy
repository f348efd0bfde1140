/**
 * The debugging printer of AstPrinter.java: an expression in a Lisp-like
 * prefix form, every operator node in parentheses with its operator first.
 * Its visitor covers the four node kinds of Expr.java only.
 */
module AstPrinter {
  import opened Strings
  import opened LoxValues
  import opened LoxTokens
  import opened LoxAst

  /** The expressions the printer's visitor covers: Binary, Grouping, Literal and Unary, all the way down. */
  predicate Printable(e: Expr)
  {
    match e
    case Binary(left, _, right) => Printable(left) && Printable(right)
    case Grouping(inner) => Printable(inner)
    case Literal(_) => true
    case Unary(_, right) => Printable(right)
    case _ => false
  }

  /** `print` and the four `visit*` methods. */
  function Print(e: Expr): string
    requires Printable(e)
  {
    match e
    case Binary(left, operator, right) => Parenthesize(operator.lexeme, [Print(left), Print(right)])
    case Grouping(inner) => Parenthesize("group", [Print(inner)])
    case Literal(value) => LiteralText(value)
    case Unary(operator, right) => Parenthesize(operator.lexeme, [Print(right)])
  }

  /** A literal: "nil" for null, Java's toString otherwise. */
  function LiteralText(v: Value): string
  {
    if v.Nil? then "nil" else JavaText(v)
  }

  /** `paranthesize`: `(`, the name, each printed operand after a space, `)`. */
  function Parenthesize(name: string, parts: seq<string>): (s: string)
    ensures |s| >= 2 && s[0] == '(' && s[|s| - 1] == ')'
  {
    "(" + name + Spaced(parts) + ")"
  }

  /** The operands of `paranthesize`, each after one space. */
  function Spaced(parts: seq<string>): (s: string)
    ensures |s| >= |parts|
  {
    if parts == [] then "" else " " + parts[0] + Spaced(parts[1..])
  }

  /**
   * The forms of the four node kinds: nil prints as "nil", a binary node as
   * `(op left right)`, a group as `(group e)` and a unary node as `(op e)`.
   */
  lemma PrintForms(e: Expr)
    requires Printable(e)
    ensures e == Literal(Nil) ==> Print(e) == "nil"
    ensures e.Binary? ==> Print(e) == "(" + e.operator.lexeme + " " + Print(e.left) + " " + Print(e.right) + ")"
    ensures e.Grouping? ==> Print(e) == "(group " + Print(e.expression) + ")"
    ensures e.Unary? ==> Print(e) == "(" + e.operator.lexeme + " " + Print(e.right) + ")"
  {
    match e
    case Binary(left, operator, right) => TwoOperands(operator.lexeme, Print(left), Print(right));
    case Grouping(inner) => OneOperand("group", Print(inner));
    case Unary(operator, right) => OneOperand(operator.lexeme, Print(right));
    case Literal(_) =>
  }

  lemma OneOperand(name: string, a: string)
    ensures Parenthesize(name, [a]) == "(" + name + " " + a + ")"
  {
    assert Spaced([a]) == " " + a + Spaced([]);
    assert Spaced([a]) == " " + a;
  }

  lemma TwoOperands(name: string, a: string, b: string)
    ensures Parenthesize(name, [a, b]) == "(" + name + " " + a + " " + b + ")"
  {
    assert [a, b][1..] == [b];
    assert Spaced([b]) == " " + b + Spaced([]);
    assert Spaced([a, b]) == " " + a + (" " + b);
  }

  /** Number of nodes printed with parentheses: every node but the literals. */
  function Nodes(e: Expr): nat
  {
    match e
    case Binary(left, _, right) => 1 + Nodes(left) + Nodes(right)
    case Grouping(inner) => 1 + Nodes(inner)
    case Unary(_, right) => 1 + Nodes(right)
    case _ => 0
  }

  predicate ParenFree(s: string)
  {
    '(' !in s && ')' !in s
  }

  /** No operator lexeme and no literal text of `e` holds a parenthesis of its own. */
  predicate PlainText(e: Expr)
  {
    match e
    case Binary(left, operator, right) => ParenFree(operator.lexeme) && PlainText(left) && PlainText(right)
    case Grouping(inner) => PlainText(inner)
    case Literal(value) => ParenFree(LiteralText(value))
    case Unary(operator, right) => ParenFree(operator.lexeme) && PlainText(right)
    case _ => true
  }

  /** Total count of `c` over all the parts. */
  function CountAll(c: char, parts: seq<string>): nat
  {
    if parts == [] then 0 else Count(c, parts[0]) + CountAll(c, parts[1..])
  }

  lemma {:induction false} SpacedCount(c: char, parts: seq<string>)
    requires c != ' '
    ensures Count(c, Spaced(parts)) == CountAll(c, parts)
  {
    if parts != [] {
      SpacedCount(c, parts[1..]);
      CountConcat(c, " " + parts[0], Spaced(parts[1..]));
      CountConcat(c, " ", parts[0]);
    }
  }

  /** `paranthesize` adds exactly one `(` and one `)` to those of its name and parts. */
  lemma ParenthesizeCounts(c: char, name: string, parts: seq<string>)
    requires c == '(' || c == ')'
    requires c !in name
    ensures Count(c, Parenthesize(name, parts)) == 1 + CountAll(c, parts)
  {
    CountAbsent(c, name);
    SpacedCount(c, parts);
    CountConcat(c, "(" + name + Spaced(parts), ")");
    CountConcat(c, "(" + name, Spaced(parts));
    CountConcat(c, "(", name);
  }

  /** `s` has as many `)` as `(`, and no prefix of it closes more than it has opened. */
  predicate Nested(s: string)
  {
    Count('(', s) == Count(')', s)
    && forall k :: 0 <= k <= |s| ==> Count(')', s[..k]) <= Count('(', s[..k])
  }

  /** Text with no parenthesis is trivially nested. */
  lemma ParenFreeNested(s: string)
    requires ParenFree(s)
    ensures Nested(s)
  {
    CountAbsent('(', s);
    CountAbsent(')', s);
    forall k | 0 <= k <= |s|
      ensures Count(')', s[..k]) <= Count('(', s[..k])
    {
      assert ')' !in s[..k] by {
        forall i | 0 <= i < k
          ensures s[..k][i] != ')'
        {
          assert s[..k][i] == s[i];
        }
      }
      CountAbsent(')', s[..k]);
    }
  }

  /** Two nested texts in a row are nested. */
  lemma NestedConcat(a: string, b: string)
    requires Nested(a) && Nested(b)
    ensures Nested(a + b)
  {
    CountConcat('(', a, b);
    CountConcat(')', a, b);
    forall k | 0 <= k <= |a + b|
      ensures Count(')', (a + b)[..k]) <= Count('(', (a + b)[..k])
    {
      if k <= |a| {
        assert (a + b)[..k] == a[..k];
      } else {
        assert (a + b)[..k] == a + b[..k - |a|];
        CountConcat('(', a, b[..k - |a|]);
        CountConcat(')', a, b[..k - |a|]);
      }
    }
  }

  /** A nested text between `(` and `)` is nested. */
  lemma NestedWrap(x: string)
    requires Nested(x)
    ensures Nested("(" + x + ")")
  {
    var s := "(" + x + ")";
    CountConcat('(', "(" + x, ")");
    CountConcat(')', "(" + x, ")");
    CountConcat('(', "(", x);
    CountConcat(')', "(", x);
    forall k | 0 <= k <= |s|
      ensures Count(')', s[..k]) <= Count('(', s[..k])
    {
      if k == 0 {
        assert s[..k] == [];
      } else if k <= |x| + 1 {
        assert s[..k] == "(" + x[..k - 1];
        CountConcat('(', "(", x[..k - 1]);
        CountConcat(')', "(", x[..k - 1]);
      } else {
        assert s[..k] == s;
      }
    }
  }

  /** The operands of `paranthesize`, each nested, stay nested with their spaces. */
  lemma {:induction false} SpacedNested(parts: seq<string>)
    requires forall i :: 0 <= i < |parts| ==> Nested(parts[i])
    ensures Nested(Spaced(parts))
  {
    if parts == [] {
      ParenFreeNested("");
    } else {
      SpacedNested(parts[1..]);
      ParenFreeNested(" ");
      NestedConcat(" ", parts[0]);
      NestedConcat(" " + parts[0], Spaced(parts[1..]));
    }
  }

  /** `paranthesize` over nested operands and a name without parentheses gives nested text. */
  lemma ParenthesizeNested(name: string, parts: seq<string>)
    requires ParenFree(name) && forall i :: 0 <= i < |parts| ==> Nested(parts[i])
    ensures Nested(Parenthesize(name, parts))
  {
    ParenFreeNested(name);
    SpacedNested(parts);
    NestedConcat(name, Spaced(parts));
    NestedWrap(name + Spaced(parts));
    assert Parenthesize(name, parts) == "(" + (name + Spaced(parts)) + ")";
  }

  /**
   * The output's parentheses balance: each node but a literal contributes one
   * `(` and one `)`, no prefix of the output closes more than it has opened,
   * provided no lexeme or literal text holds a parenthesis itself.
   */
  lemma {:induction false} Balanced(e: Expr)
    requires Printable(e) && PlainText(e)
    ensures Count('(', Print(e)) == Nodes(e) && Count(')', Print(e)) == Nodes(e)
    ensures Nested(Print(e))
  {
    match e
    case Literal(value) =>
      CountAbsent('(', LiteralText(value));
      CountAbsent(')', LiteralText(value));
      ParenFreeNested(LiteralText(value));
    case Binary(left, operator, right) =>
      Balanced(left);
      Balanced(right);
      ParenthesizeCounts('(', operator.lexeme, [Print(left), Print(right)]);
      ParenthesizeCounts(')', operator.lexeme, [Print(left), Print(right)]);
      assert [Print(left), Print(right)][1..] == [Print(right)];
      assert CountAll('(', [Print(right)]) == Count('(', Print(right));
      assert CountAll(')', [Print(right)]) == Count(')', Print(right));
      ParenthesizeNested(operator.lexeme, [Print(left), Print(right)]);
    case Grouping(inner) =>
      Balanced(inner);
      ParenthesizeCounts('(', "group", [Print(inner)]);
      ParenthesizeCounts(')', "group", [Print(inner)]);
      ParenthesizeNested("group", [Print(inner)]);
    case Unary(operator, right) =>
      Balanced(right);
      ParenthesizeCounts('(', operator.lexeme, [Print(right)]);
      ParenthesizeCounts(')', operator.lexeme, [Print(right)]);
      ParenthesizeNested(operator.lexeme, [Print(right)]);
  }
}
