/** Token kinds, the token record and the error record shared by parser and interpreter. */
module LoxTokens {
  import opened LoxValues

  /**
   * The token kinds of TokenType.java, with LET added: the scanner's keyword table
   * produces LET for "let", while the enum still lists VAR.
   */
  datatype TokenType =
    // single-character tokens
    | LEFT_PAREN | RIGHT_PAREN | LEFT_BRACE | RIGHT_BRACE
    | LEFT_SQ_BRACE | RIGHT_SQ_BRACE
    | COMMA | DOT | SEMICOLON | SLASH | STAR
    // one- or two-character tokens
    | PLUS | PLUS_PLUS
    | MINUS | MINUS_MINUS
    | BANG | BANG_EQUAL
    | EQUAL | EQUAL_EQUAL
    | GREATER | GREATER_EQUAL
    | LESS | LESS_EQUAL
    | Q_MARK | COLON
    // literals
    | IDENTIFIER | STRING | NUMBER
    // keywords
    | AND | CLASS | ELSE | FALSE | FUN | FOR | IF | NIL | OR
    | PRINT | RETURN | SUPER | THIS | TRUE | VAR | LET | WHILE
    | EOF

  /** A token: its kind, the source text it spans, its literal value (Nil when none) and its line. */
  datatype Token = Token(kind: TokenType, lexeme: string, literal: Value, line: int)

  /** A parse or runtime error: the offending token and a message. */
  datatype Error = Error(token: Token, message: string)

  /** The reserved words and the kinds they scan to. */
  const Keywords: map<string, TokenType> := map[
    "and" := AND, "class" := CLASS, "else" := ELSE, "false" := FALSE,
    "for" := FOR, "fun" := FUN, "if" := IF, "nil" := NIL,
    "or" := OR, "print" := PRINT, "return" := RETURN, "super" := SUPER,
    "this" := THIS, "true" := TRUE, "let" := LET, "while" := WHILE
  ]
}
