/**
 * The syntax trees: the expression nodes of Expr.java, extended with the four
 * kinds the parser and interpreter build and read (Conditional, PostFix,
 * Assign, Variable), and the statement nodes of Stmt.java. Nodes are values:
 * every field is fixed at construction.
 */
module LoxAst {
  import opened Wrappers
  import opened LoxValues
  import opened LoxTokens

  datatype Expr =
    | Binary(left: Expr, operator: Token, right: Expr)
    | Grouping(expression: Expr)
    /** A literal of any value, `Nil` standing for Java's null. */
    | Literal(value: Value)
    | Unary(operator: Token, right: Expr)
    /** `left ? mid : right`; `operator` is the `?` token. */
    | Conditional(operator: Token, left: Expr, mid: Expr, right: Expr)
    | PostFix(left: Expr, operator: Token)
    /** `name = rhs`; the Java field is `value`, a name Literal already uses here. */
    | Assign(name: Token, rhs: Expr)
    | Variable(name: Token)

  datatype Stmt =
    /** A loop with an optional label token (the Java field `label`). */
    | While(loopLabel: Option<Token>, condition: Expr, body: Stmt)
    | Block(statements: seq<Stmt>)
    | Expression(expression: Expr)
    | If(condition: Expr, thenBranch: Stmt, elseBranch: Option<Stmt>)
    | Print(expression: Expr)
    /** `let name = initializer;`, the initializer being optional. */
    | Var(name: Token, initializer: Option<Expr>)
}
