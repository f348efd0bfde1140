# JLox front end and evaluator, modelled in Dafny

This project models the core of JLox, a tree-walking interpreter for a small
Lox dialect written in Java. The model covers the pipeline from source text
to printed output:

- **Scanner** (`scanner.dfy`, specified by `lexical.dfy`). The `Scanner` class
  is a cursor over the source. It appends tokens as it reads and reports
  unterminated strings. An unexpected character aborts the whole scan.
  `ScanStep` and `Lex` state what one `scanToken` call and the whole scan
  produce, and every method of the class is proved against them.
- **Parser** (`parser.dfy`, specified by `grammar.dfy`). The `Parser` class is
  a recursive-descent parser over the token list. It has one method per
  grammar rule; the four binary tiers share one method, parameterised by the
  tier. A thrown parse error is a `Failure` result, reported once by `Panic`.
  Each method is proved against the grammar function of its rule. The lemmas
  of `grammar.dfy` state the grammar's shape: precedence, left-associative
  tiers, a right-associative ternary, and its error productions. Precedence
  and associativity hold for every parse: each tree the parser builds is
  `Ranked`.
- **Syntax trees** (`ast.dfy`). The expression and statement nodes are
  datatypes, so nodes are immutable. `Expr` adds the four kinds the parser and
  interpreter use (Conditional, PostFix, Assign, Variable) to the four of
  Expr.java.
- **AST printer** (`printer.dfy`). This is the Lisp-like debugging printer,
  with its output forms and well-nested parentheses proved.
- **Environment** (`environment.dfy`). The `Environment` class is a mutable
  map with a link to its enclosing environment. It is proved against
  `DefineIn`, `FetchFrom` and `AssignIn`, which act on the chain of scopes
  seen as a sequence of maps, innermost first.
- **Interpreter** (`interpreter.dfy`, specified by `semantics.dfy`). The
  value rules (truthiness, equality, `+` overloading, number checks) are
  functions. `Eval`, `Exec` and `ExecAll` give the result of an expression or
  statement over a `State`: the scopes and the printed lines. The
  `Interpreter` class swaps in a nested environment for a block and restores
  the old one on both normal and error exit. It is proved against those
  functions.

Support modules hold values (`values.dfy`), tokens and errors (`tokens.dfy`),
character counting (`strings.dfy`) and `Option`/`Result` (`wrappers.dfy`).

The model follows what the Java code does, including these points a reader
of the Lox language may not expect:

- Prefix `++`/`--` returns the value plus or minus one without storing it.
  Postfix `++`/`--` returns the value unchanged and stores nothing, so there
  is no deferred mutation (`IncrementDoesNotStore`).
- An unexpected character aborts the scan: `scanTokens` returns null rather
  than reporting the character and scanning on.
- The parser parses one expression and nothing more. It has no statements,
  no logical operators and no assignment targets.
- The interpreter has visitors for Block, Var, Expression and Print only.

## Model

| member | source | states |
|---|---|---|
| LoxValues.Stringify | app/src/main/java/com/interpreter/lox/Interpreter.java:210-221 | nil displays as "nil"; a string displays as itself |
| LoxValues.WholeNumberText | app/src/main/java/com/interpreter/lox/Interpreter.java:214-218 | a whole number displays as its integer digits (with its sign), its ".0" stripped |
| LoxLexical.ScanStep | app/src/main/java/com/interpreter/lox/Scanner.java:35-151 | one step consumes at least one character and stays within the source; it never emits EOF |
| LoxLexical.StepCountsLines | app/src/main/java/com/interpreter/lox/Scanner.java:35-151 | a step raises the line count by exactly the number of newlines it consumes, including those inside strings |
| LoxLexical.StepKeepsLineCount | app/src/main/java/com/interpreter/lox/Scanner.java:15-20 | if `line` is one plus the newlines before a position, it stays so after each step |
| LoxLexical.LexEndsWithEof | app/src/main/java/com/interpreter/lox/Scanner.java:15-29 | a scan that is not aborted ends with exactly one EOF token, on the last line, and holds no other EOF |
| LoxLexical.ScanEndsWithEof | app/src/main/java/com/interpreter/lox/Scanner.java:15-29 | the same, for a scan of the whole source from line 1 |
| LoxLexical.StepAbortsOnUnexpected | app/src/main/java/com/interpreter/lox/Scanner.java:127-148 | a step aborts exactly on a character that starts no token and is not skipped, with "Unexpected Character" naming that character |
| LoxLexical.LexAbortReported | app/src/main/java/com/interpreter/lox/Scanner.java:15-24 | an aborted scan's last report is the unexpected-character error |
| LoxLexical.TwoCharacterOperator | app/src/main/java/com/interpreter/lox/Scanner.java:63-93 | `!=`, `==`, `<=`, `>=`, `++`, `--` each become one token of two characters |
| LoxLexical.BlanksAndCommentsEmitNothing | app/src/main/java/com/interpreter/lox/Scanner.java:94-109 | blanks emit nothing and only a newline counts a line; a `//` comment emits nothing and stops before the next newline |
| LoxLexical.StepOnQuote | app/src/main/java/com/interpreter/lox/Scanner.java:110-115 | a quote dispatches to the string scan (one branch of `scanToken`, stated for reference) |
| LoxLexical.StepOnDigit | app/src/main/java/com/interpreter/lox/Scanner.java:127-128 | a digit starts a NUMBER token that runs to the end of the number |
| LoxLexical.StepOnAlpha | app/src/main/java/com/interpreter/lox/Scanner.java:129-130 | a letter or underscore starts a word token whose kind is given by the keyword table |
| LoxLexical.UnterminatedString | app/src/main/java/com/interpreter/lox/Scanner.java:227-243 | a string with no closing quote reports "Unterminated string." at the end, adds no token and counts its newlines |
| LoxLexical.TerminatedString | app/src/main/java/com/interpreter/lox/Scanner.java:227-243 | a closed string gives one STRING token whose literal is exactly the text between the quotes, on the line where it closes |
| LoxLexical.NumberToken | app/src/main/java/com/interpreter/lox/Scanner.java:254-269 | a number lexeme is a maximal digit run, with a `.` and fraction only when a digit follows the `.` |
| LoxLexical.IdentifierToken | app/src/main/java/com/interpreter/lox/Scanner.java:277-286 | an identifier is the maximal alphanumeric run; its kind is the keyword's kind if the text is a keyword, else IDENTIFIER |
| LoxScanner.Scanner.constructor | app/src/main/java/com/interpreter/lox/Scanner.java:11-13 | a new scanner has no tokens and no reports; the cursor is at 0 on line 1 |
| LoxScanner.Scanner.Peek | app/src/main/java/com/interpreter/lox/Scanner.java:165-169 | the character under the cursor, or '\0' past the end |
| LoxScanner.Scanner.PeekNext | app/src/main/java/com/interpreter/lox/Scanner.java:174-178 | the character after the cursor, or '\0' past the end |
| LoxScanner.Scanner.Consume | app/src/main/java/com/interpreter/lox/Scanner.java:156-160 | reads the character under the cursor and moves by one; at the end gives '\0' and does not move |
| LoxScanner.Scanner.Match | app/src/main/java/com/interpreter/lox/Scanner.java:199-206 | moves by exactly one when the next character is the expected one, else not at all |
| LoxScanner.Scanner.AddToken | app/src/main/java/com/interpreter/lox/Scanner.java:189-192 | appends one token spanning `start` to `current` on the current line |
| LoxScanner.Scanner.SkipStringBody | app/src/main/java/com/interpreter/lox/Scanner.java:228-232 | moves to the next quote or the end, adding the newlines passed to the line count |
| LoxScanner.Scanner.StringLiteral | app/src/main/java/com/interpreter/lox/Scanner.java:227-243 | the state moves exactly as the string step of `ScanStep` says |
| LoxScanner.Scanner.CloseString | app/src/main/java/com/interpreter/lox/Scanner.java:234-241 | the report at the end of the source, or the closing quote and the STRING token |
| LoxScanner.Scanner.SkipDigits | app/src/main/java/com/interpreter/lox/Scanner.java:255-256 | moves past the maximal run of digits |
| LoxScanner.Scanner.Number | app/src/main/java/com/interpreter/lox/Scanner.java:254-269 | moves to the end of the number and appends its NUMBER token with its value |
| LoxScanner.Scanner.Fraction | app/src/main/java/com/interpreter/lox/Scanner.java:258-266 | takes the `.` and its digits only when a digit follows the `.` |
| LoxScanner.Scanner.Identifier | app/src/main/java/com/interpreter/lox/Scanner.java:277-286 | moves past the word and appends its keyword or IDENTIFIER token |
| LoxScanner.Scanner.SkipComment | app/src/main/java/com/interpreter/lox/Scanner.java:95-97 | moves up to, not past, the next newline |
| LoxScanner.Scanner.SingleCharacter | app/src/main/java/com/interpreter/lox/Scanner.java:39-80 | one token of one fixed character, as `ScanStep` says; both brackets give RIGHT_SQ_BRACE |
| LoxScanner.Scanner.OneOrTwoCharacters | app/src/main/java/com/interpreter/lox/Scanner.java:63-93 | a one- or two-character operator, as `ScanStep` says |
| LoxScanner.Scanner.SlashOrComment | app/src/main/java/com/interpreter/lox/Scanner.java:94-101 | a SLASH token, or a skipped comment, as `ScanStep` says |
| LoxScanner.Scanner.Whitespace | app/src/main/java/com/interpreter/lox/Scanner.java:103-109 | a blank adds nothing; a newline counts a line |
| LoxScanner.Scanner.ScanToken | app/src/main/java/com/interpreter/lox/Scanner.java:35-151 | the state moves as `ScanStep` says, or the unexpected character comes back as the error thrown, with nothing added |
| LoxScanner.Scanner.ScanTokens | app/src/main/java/com/interpreter/lox/Scanner.java:15-29 | the tokens and reports of `Lex` followed by EOF; or no list when the scan aborts, with the abort reported |
| LoxGrammar.ParseExpression | app/src/main/java/com/interpreter/lox/Parser.java:45-47 | a parsed expression ends before or on EOF and consumes no EOF |
| LoxGrammar.ParseConditional | app/src/main/java/com/interpreter/lox/Parser.java:49-64 | the same, for `conditional` |
| LoxGrammar.ParseBinary | app/src/main/java/com/interpreter/lox/Parser.java:66-116 | the same, for each of the four binary tiers |
| LoxGrammar.ParseBinaryRest | app/src/main/java/com/interpreter/lox/Parser.java:66-116 | the same, for a tier's operator loop |
| LoxGrammar.ParseOperand | app/src/main/java/com/interpreter/lox/Parser.java:66-116 | the same, for a tier's operand rule |
| LoxGrammar.ParseUnary | app/src/main/java/com/interpreter/lox/Parser.java:118-128 | the same, for `unary` |
| LoxGrammar.ParsePostfix | app/src/main/java/com/interpreter/lox/Parser.java:130-139 | the same, for `postfix` |
| LoxGrammar.PostfixRest | app/src/main/java/com/interpreter/lox/Parser.java:133-136 | the postfix loop stops before or on EOF and consumes no EOF |
| LoxGrammar.ParsePrimary | app/src/main/java/com/interpreter/lox/Parser.java:141-174 | a parsed primary ends before or on EOF and consumes no EOF |
| LoxGrammar.ParseGroup | app/src/main/java/com/interpreter/lox/Parser.java:150-156 | the same, for a parenthesised group |
| LoxGrammar.ParseConsumesAll | app/src/main/java/com/interpreter/lox/Parser.java:33-43 | `parse` succeeds only when the expression reaches EOF; otherwise it fails with "Expected operand here." at the first token left over, or with the expression's own error |
| LoxGrammar.BinaryLeftAssociative | app/src/main/java/com/interpreter/lox/Parser.java:66-116 | `a op b op c` in any tier builds `Binary(Binary(a, op, b), op, c)` |
| LoxGrammar.LiteralOperand | app/src/main/java/com/interpreter/lox/Parser.java:141-149 | a number or string literal followed by a closing token parses as that literal at every tier |
| LoxGrammar.ProductBindsTighter | app/src/main/java/com/interpreter/lox/Parser.java:94-116 | an example of `Precedence`: `a + b * c` with literal operands parses as `a + (b * c)` |
| LoxGrammar.ConditionalRightAssociative | app/src/main/java/com/interpreter/lox/Parser.java:49-64 | an example of `TernaryNestsRight`: `a ? b : c ? d : e` with literal operands parses as `a ? b : (c ? d : e)` |
| LoxGrammar.ParseRanked | app/src/main/java/com/interpreter/lox/Parser.java:33-43 | every expression `parse` returns is `Ranked` as a conditional: precedence and associativity hold for every input |
| LoxGrammar.ExpressionRanked | app/src/main/java/com/interpreter/lox/Parser.java:45-47 | `expression` builds a tree of conditional rank |
| LoxGrammar.ConditionalRanked | app/src/main/java/com/interpreter/lox/Parser.java:49-64 | `conditional` builds a tree of conditional rank whose condition is at most an equality and whose branches are any expression |
| LoxGrammar.BinaryRanked | app/src/main/java/com/interpreter/lox/Parser.java:66-116 | each of the four tiers builds a tree of at most its own rank, for any tokens |
| LoxGrammar.BinaryRestRanked | app/src/main/java/com/interpreter/lox/Parser.java:66-116 | a tier's loop keeps the tree at the tier's rank: the left operand at most that rank, the right operand strictly below it |
| LoxGrammar.OperandRanked | app/src/main/java/com/interpreter/lox/Parser.java:66-116 | a tier's operand is of the next tighter tier, or unary under factor |
| LoxGrammar.UnaryRanked | app/src/main/java/com/interpreter/lox/Parser.java:118-128 | `unary` builds a prefix, postfix or primary tree, rank 0 |
| LoxGrammar.PostfixRanked | app/src/main/java/com/interpreter/lox/Parser.java:130-139 | `postfix` builds a tree of rank 0 |
| LoxGrammar.PostfixRestRanked | app/src/main/java/com/interpreter/lox/Parser.java:133-136 | the postfix loop wraps only rank-0 trees |
| LoxGrammar.PrimaryRanked | app/src/main/java/com/interpreter/lox/Parser.java:141-174 | `primary` builds a literal or a group, rank 0 |
| LoxGrammar.GroupRanked | app/src/main/java/com/interpreter/lox/Parser.java:150-156 | a group holds any expression and is itself rank 0 |
| LoxGrammar.Precedence | app/src/main/java/com/interpreter/lox/Parser.java:66-116 | in a ranked binary node, a bare binary left operand binds at least as tightly, a bare binary right operand strictly more tightly, and no operand is a bare ternary |
| LoxGrammar.TernaryNestsRight | app/src/main/java/com/interpreter/lox/Parser.java:49-64 | in a ranked ternary, the condition is never a bare ternary and binds at most as loosely as equality |
| LoxGrammar.MissingColon | app/src/main/java/com/interpreter/lox/Parser.java:55-60 | a ternary without `:` fails with "Expected : after if branch" at the token where `:` was expected (the error branch of `conditional`, stated for reference) |
| LoxGrammar.PrefixRun | app/src/main/java/com/interpreter/lox/Parser.java:118-128 | any run of prefix operators nests around the postfix expression that follows, innermost last |
| LoxGrammar.PostfixRun | app/src/main/java/com/interpreter/lox/Parser.java:130-139 | any run of postfix `++`/`--` wraps the primary, one PostFix node per operator, in order |
| LoxGrammar.UnclosedGroup | app/src/main/java/com/interpreter/lox/Parser.java:150-156 | a `(` with no `)` anywhere after it is an error |
| LoxGrammar.ClosedGroup | app/src/main/java/com/interpreter/lox/Parser.java:150-156 | `( e )` yields a Grouping of `e`, ending after the `)` (the success branch of the group rule, stated for reference) |
| LoxGrammar.MissingLeftOperand | app/src/main/java/com/interpreter/lox/Parser.java:159-173 | an expression that starts with a binary operator (other than `-`) fails with "Expected left hand side of '<op>'" |
| LoxParser.Parser.constructor | app/src/main/java/com/interpreter/lox/Parser.java:29-31 | the parser starts at the first token and has reported nothing |
| LoxParser.Parser.Parse | app/src/main/java/com/interpreter/lox/Parser.java:33-43 | the expression of `LoxGrammar.Parse`, or None with its error reported once |
| LoxParser.Parser.Expression | app/src/main/java/com/interpreter/lox/Parser.java:45-47 | result, cursor and reports agree with `ParseExpression` |
| LoxParser.Parser.Conditional | app/src/main/java/com/interpreter/lox/Parser.java:49-64 | result, cursor and reports agree with `ParseConditional` |
| LoxParser.Parser.Ternary | app/src/main/java/com/interpreter/lox/Parser.java:52-60 | the branch after `?` agrees with `ParseConditional` from where the condition began |
| LoxParser.Parser.BinaryTier | app/src/main/java/com/interpreter/lox/Parser.java:66-116 | result, cursor and reports agree with `ParseBinary` for the tier |
| LoxParser.Parser.BinaryRest | app/src/main/java/com/interpreter/lox/Parser.java:66-116 | the tier's `while (match(...))` loop agrees with `ParseBinaryRest` |
| LoxParser.Parser.Operand | app/src/main/java/com/interpreter/lox/Parser.java:66-116 | the next tighter tier, or `unary` under `factor`, agrees with `ParseOperand` |
| LoxParser.Parser.MatchOperator | app/src/main/java/com/interpreter/lox/Parser.java:66-116 | consumes one token exactly when it is one of the tier's operators |
| LoxParser.Parser.Unary | app/src/main/java/com/interpreter/lox/Parser.java:118-128 | result, cursor and reports agree with `ParseUnary` |
| LoxParser.Parser.Postfix | app/src/main/java/com/interpreter/lox/Parser.java:130-139 | result, cursor and reports agree with `ParsePostfix` |
| LoxParser.Parser.Primary | app/src/main/java/com/interpreter/lox/Parser.java:141-174 | result, cursor and reports agree with `ParsePrimary` |
| LoxParser.Parser.Nonliteral | app/src/main/java/com/interpreter/lox/Parser.java:150-173 | on a token that is not a literal, the group or error branch of `ParsePrimary` |
| LoxParser.Parser.Group | app/src/main/java/com/interpreter/lox/Parser.java:150-156 | result, cursor and reports agree with `ParseGroup` |
| LoxParser.Parser.Panic | app/src/main/java/com/interpreter/lox/Parser.java:179-182 | reports the message once, at the token under the cursor, and gives that error |
| LoxParser.Parser.Consume | app/src/main/java/com/interpreter/lox/Parser.java:202-204 | gives the token under the cursor and moves past it |
| LoxParser.Parser.Peek | app/src/main/java/com/interpreter/lox/Parser.java:206-208 | the token under the cursor |
| LoxParser.Parser.PeekPrev | app/src/main/java/com/interpreter/lox/Parser.java:210-212 | the token just consumed |
| LoxParser.Parser.Match | app/src/main/java/com/interpreter/lox/Parser.java:214-222 | consumes one token exactly when its kind is among those given and is not EOF, else nothing |
| AstPrinter.Parenthesize | app/src/main/java/com/interpreter/lox/AstPrinter.java:30-40 | the text starts with `(` and ends with `)` |
| AstPrinter.PrintForms | app/src/main/java/com/interpreter/lox/AstPrinter.java:4-28 | nil prints as "nil"; Binary as `(op left right)`; Grouping as `(group e)`; Unary as `(op e)` |
| AstPrinter.SpacedCount | app/src/main/java/com/interpreter/lox/AstPrinter.java:34-37 | the operand loop adds no character but spaces to those of the operands |
| AstPrinter.ParenthesizeCounts | app/src/main/java/com/interpreter/lox/AstPrinter.java:30-40 | `paranthesize` adds exactly one `(` and one `)` to those of its operands |
| AstPrinter.ParenthesizeNested | app/src/main/java/com/interpreter/lox/AstPrinter.java:30-40 | `paranthesize` over well-nested operands gives well-nested text |
| AstPrinter.SpacedNested | app/src/main/java/com/interpreter/lox/AstPrinter.java:34-37 | the operand loop keeps well-nested operands well-nested |
| AstPrinter.Balanced | app/src/main/java/com/interpreter/lox/AstPrinter.java:4-40 | the printed text has one `(` and one `)` per non-literal node, and no prefix of it closes more parentheses than it has opened |
| LoxEnvironment.FetchInnermost | app/src/main/java/com/interpreter/lox/Environment.java:23-39 | `fetch` reads the innermost scope declaring the name: "Undefined variable" when none does; "Unassigned variable" when it holds nil; else its value |
| LoxEnvironment.AssignInnermost | app/src/main/java/com/interpreter/lox/Environment.java:41-49 | `assign` changes the innermost scope declaring the name and no other; with none it fails with "Undefined variable" |
| LoxEnvironment.DefineRefused | app/src/main/java/com/interpreter/lox/Environment.java:16-21 | `define` fails exactly when the name holds a non-nil value in the innermost scope, and never touches outer scopes |
| LoxEnvironment.DefineThenFetch | app/src/main/java/com/interpreter/lox/Environment.java:16-31 | after `define` with a non-nil value, `fetch` gives that value |
| LoxEnvironment.AssignThenFetch | app/src/main/java/com/interpreter/lox/Environment.java:41-45 | after `assign` with a non-nil value, `fetch` gives that value |
| LoxEnvironment.Environment.constructor | app/src/main/java/com/interpreter/lox/Environment.java:8-10 | the global environment: one empty scope, no outer environment |
| LoxEnvironment.Environment.Nested | app/src/main/java/com/interpreter/lox/Environment.java:12-14 | a new empty scope in front of the enclosing environment's scopes |
| LoxEnvironment.Environment.Define | app/src/main/java/com/interpreter/lox/Environment.java:16-21 | the scopes become those of `DefineIn`, or stay unchanged with its error |
| LoxEnvironment.Environment.Fetch | app/src/main/java/com/interpreter/lox/Environment.java:23-39 | the result of `FetchFrom` on the chain's scopes |
| LoxEnvironment.Environment.Assign | app/src/main/java/com/interpreter/lox/Environment.java:41-49 | the scopes become those of `AssignIn`, or stay unchanged with its error |
| LoxSemantics.IsTruthy | app/src/main/java/com/interpreter/lox/Interpreter.java:230-238 | false exactly for nil, false and the number 0 |
| LoxSemantics.IsEqual | app/src/main/java/com/interpreter/lox/Interpreter.java:241-248 | true exactly when the two values are the same value; nil equals only nil |
| LoxSemantics.Eval | app/src/main/java/com/interpreter/lox/Interpreter.java:42-207 | evaluation keeps the number of scopes and never prints |
| LoxSemantics.Exec | app/src/main/java/com/interpreter/lox/Interpreter.java:47-86 | executing a statement leaves as many scopes as it found, so a block drops the scope it added |
| LoxSemantics.ExecAll | app/src/main/java/com/interpreter/lox/Interpreter.java:11-19 | running a statement list leaves as many scopes as it found |
| LoxSemantics.NotNegatesTruth | app/src/main/java/com/interpreter/lox/Interpreter.java:104-105 | `!v` is the negation of truthiness; `!!v` is truthiness as a boolean |
| LoxSemantics.EqualityOperators | app/src/main/java/com/interpreter/lox/Interpreter.java:171-175 | `==` is value equality and `!=` its negation; `x == nil` holds exactly for nil |
| LoxSemantics.PlusOverloading | app/src/main/java/com/interpreter/lox/Interpreter.java:133-142 | numbers add; if either operand is a string the stringified operands concatenate; any other pair fails with "Either operands must be string or both numbers." |
| LoxSemantics.NumericOperands | app/src/main/java/com/interpreter/lox/Interpreter.java:143-169 | `-`, `*`, `/` and the comparisons fail, naming the operator, exactly when an operand is not a number; on numbers only a zero divisor fails |
| LoxSemantics.NumericResults | app/src/main/java/com/interpreter/lox/Interpreter.java:143-169 | on two numbers `-`, `*`, `/` give the difference, product and quotient, `/` by zero fails, and `>`, `>=`, `<`, `<=` give the real comparisons |
| LoxSemantics.NegationNeedsNumber | app/src/main/java/com/interpreter/lox/Interpreter.java:106-108 | unary `-` negates a number and fails on anything else |
| LoxSemantics.ReadOnlyEvaluation | app/src/main/java/com/interpreter/lox/Interpreter.java:70-74 | only an assignment changes the state during evaluation: an expression without one leaves every scope as it was |
| LoxSemantics.IncrementDoesNotStore | app/src/main/java/com/interpreter/lox/Interpreter.java:109-114 | on a variable holding n, prefix `++`/`--` gives n±1 and postfix gives n; the variable still holds n afterwards |
| LoxSemantics.IncrementNeedsNumber | app/src/main/java/com/interpreter/lox/Interpreter.java:194-207 | prefix and postfix `++`/`--` fail on anything but a number, with the same error |
| LoxSemantics.ConditionalEvaluatesAll | app/src/main/java/com/interpreter/lox/Interpreter.java:182-191 | the ternary evaluates all three parts, then picks mid if the condition is truthy and right otherwise; the first error among the three, in either branch whichever is picked, is the one thrown |
| LoxSemantics.OperandsFirst | app/src/main/java/com/interpreter/lox/Interpreter.java:121-123 | a binary expression evaluates left then right; an error in either comes before any type check |
| LoxSemantics.AssignThenRead | app/src/main/java/com/interpreter/lox/Interpreter.java:70-74 | an assignment gives the assigned value, and reading the name afterwards gives it back |
| LoxSemantics.UninitializedDeclaration | app/src/main/java/com/interpreter/lox/Interpreter.java:53-61 | `let x;` defines x as nil, so reading x is "Unassigned variable"; it fails only over a value in the same scope |
| LoxSemantics.PrintAppends | app/src/main/java/com/interpreter/lox/Interpreter.java:82-86 | `print` adds exactly one line, the stringified value; on an error it adds none |
| LoxSemantics.OnlyInnermostChanges | app/src/main/java/com/interpreter/lox/Interpreter.java:25-50 | without assignments, a statement changes only the innermost scope; a block changes no scope at all, on normal and on error exit |
| LoxSemantics.ExecAllConcat | app/src/main/java/com/interpreter/lox/Interpreter.java:11-19 | running `a + b` is running `a`, then `b` only if `a` threw nothing |
| LoxInterpreter.Interpreter.constructor | app/src/main/java/com/interpreter/lox/Interpreter.java:269 | a new interpreter runs in an empty global environment, with nothing printed or reported |
| LoxInterpreter.Interpreter.Interprete | app/src/main/java/com/interpreter/lox/Interpreter.java:11-19 | the state `ExecAll` gives; the first runtime error stops the rest and is reported once |
| LoxInterpreter.Interpreter.ExecuteBlock | app/src/main/java/com/interpreter/lox/Interpreter.java:25-40 | runs the statements in the nested environment, then restores the previous environment on normal and on error exit; the state is `ExecAll`'s, less the nested scope |
| LoxInterpreter.Interpreter.Execute | app/src/main/java/com/interpreter/lox/Interpreter.java:21-23 | the error and new state `Exec` gives; the current environment is unchanged |
| LoxInterpreter.Interpreter.Enter | app/src/main/java/com/interpreter/lox/Interpreter.java:47-50 | a block runs in a fresh child of the current environment, with the state `Exec` gives |
| LoxInterpreter.Interpreter.Declare | app/src/main/java/com/interpreter/lox/Interpreter.java:53-61 | `let` defines the initializer's value, or nil without one, with the state `Exec` gives |
| LoxInterpreter.Interpreter.Evaluate | app/src/main/java/com/interpreter/lox/Interpreter.java:42-207 | the value or error and new state `Eval` gives |

## Left out

- Lox.java (the command-line driver, the REPL, exit codes and the formatting of error messages) is not part of this model. Reporting an error is appending it to a `reports` list; `print` appends to `output`.
- GenerateAST.java, LoxError.java, ErrorCode.java and ExitCode.java are not part of this model. Errors are the `Error` and `ScanError` datatypes.
- Parser.java `synchronize` is never called and is not modelled.
- Numbers are exact reals, not IEEE doubles: no rounding, infinities, NaN or negative zero. So Java `equals` on doubles (NaN equal to itself, 0.0 unlike -0.0) is plain equality here.
- LoxSemantics.BinaryOp: a zero divisor is the model's own runtime error "Division by zero.", because reals have no infinity; Java returns an infinity or NaN.
- LoxValues.Stringify: numbers print in plain notation only, with at most 16 fraction digits. Java's `Double.toString` switches to scientific notation below 10^-3 and from 10^7.
- LoxLexical.NumberValue takes the exact decimal value of the lexeme, where `Double.parseDouble` rounds to the nearest double.
- LoxParser.Parser.constructor: requires a token list that ends with EOF, as `scanTokens` always produces. On a list without EOF the Java parser would index past the end.
- LoxInterpreter.Interpreter.Execute: requires a statement with no If or While at any depth, because the interpreter has no visitor for them. `Executable` states this requirement.
- AstPrinter.Print covers only the four node kinds of Expr.java (`Printable`); its visitor has no method for the other four.
- The parser's four tier methods (equality, comparison, term, factor) are one method, `BinaryTier`, taking the tier as a parameter. Its loop is the separate method `BinaryRest`. The branches of `conditional` and `primary` are split into the helper methods `Ternary`, `Nonliteral` and `Group` to keep each proof small.
- Source text is a sequence of Unicode scalar values, not of UTF-16 code units: on a character outside the Basic Multilingual Plane Java's `charAt` sees a lone surrogate, and its "Unexpected Character" report names that surrogate, where the model names the whole character.
- `Token.toString` and the Token class's constructor are not part of this model; a token is a datatype value.
