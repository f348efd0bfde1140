/**
 * The scanner object of Scanner.java: a cursor over the source that appends
 * tokens as it goes. Each method is proved against the step functions of
 * LoxLexical, and `ScanTokens` against the whole scan `Lex`.
 */
module LoxScanner {
  import opened Wrappers
  import opened Strings
  import opened LoxValues
  import opened LoxTokens
  import opened LoxLexical

  class Scanner {
    const source: string
    /** Tokens added so far. */
    var tokens: seq<Token>
    /** Errors reported so far (the scanner's calls into the error reporter). */
    var reports: seq<ScanError>
    /** First character of the token being scanned. */
    var start: nat
    /** Character about to be read. */
    var current: nat
    var line: int

    ghost predicate Valid()
      reads this
    {
      start <= current <= |source|
    }

    constructor (source: string)
      ensures Valid()
      ensures this.source == source && tokens == [] && reports == []
      ensures start == 0 && current == 0 && line == 1
    {
      this.source := source;
      tokens := [];
      reports := [];
      start := 0;
      current := 0;
      line := 1;
    }

    predicate IsAtEnd()
      reads this
    {
      current >= |source|
    }

    /** The character under the cursor, or '\0' past the end. */
    function Peek(): (c: char)
      reads this
      ensures current < |source| ==> c == source[current]
      ensures current >= |source| ==> c == '\0'
    {
      if current >= |source| then '\0' else source[current]
    }

    /** The character after the cursor, or '\0' past the end. */
    function PeekNext(): (c: char)
      reads this
      ensures current + 1 < |source| ==> c == source[current + 1]
      ensures current + 1 >= |source| ==> c == '\0'
    {
      if current + 1 >= |source| then '\0' else source[current + 1]
    }

    /** Reads the character under the cursor and moves past it; '\0' and no move at the end. */
    method Consume() returns (c: char)
      modifies this`current
      ensures old(current) < |source| ==> c == source[old(current)] && current == old(current) + 1
      ensures old(current) >= |source| ==> c == '\0' && current == old(current)
    {
      if IsAtEnd() {
        return '\0';
      }
      c := source[current];
      current := current + 1;
    }

    /** Moves past the character under the cursor exactly when it is `expected`. */
    method Match(expected: char) returns (matched: bool)
      modifies this`current
      ensures matched <==> old(current) < |source| && source[old(current)] == expected
      ensures current == if matched then old(current) + 1 else old(current)
    {
      if IsAtEnd() {
        return false;
      }
      if source[current] != expected {
        return false;
      }
      current := current + 1;
      return true;
    }

    /** Appends a token spanning `start` to `current` on the current line. */
    method AddToken(kind: TokenType, literal: Value)
      requires Valid()
      modifies this`tokens
      ensures tokens == old(tokens) + [Token(kind, source[start..current], literal, line)]
    {
      tokens := tokens + [Token(kind, source[start..current], literal, line)];
    }

    /** Moves up to the next quote or the end, counting the newlines passed. */
    method SkipStringBody()
      requires Valid()
      modifies this`current, this`line
      ensures current == SpanEnd(source, old(current), StringBody)
      ensures line == old(line) + Count('\n', source[old(current)..current])
    {
      while Peek() != '"' && !IsAtEnd()
        invariant old(current) <= current <= |source|
        invariant forall k :: old(current) <= k < current ==> InRun(StringBody, source[k])
        invariant line == old(line) + Count('\n', source[old(current)..current])
        decreases |source| - current
      {
        CountExtend('\n', source, old(current), current);
        if Peek() == '\n' {
          line := line + 1;
        }
        var _ := Consume();
      }
      SpanEndUnique(source, old(current), current, StringBody);
    }

    /**
     * The rest of a string literal whose opening quote has been read: one STRING
     * token, or the "Unterminated string." report at the end of the source.
     */
    method StringLiteral()
      requires Valid() && current == start + 1 && source[start] == '"'
      modifies this`current, this`line, this`tokens, this`reports
      ensures Moved(ScanString(source, start, old(line)), old(tokens), old(reports))
    {
      SkipStringBody();
      CloseString(old(line));
    }

    /**
     * After the body of a string that began on line `line0`: the closing quote and
     * the STRING token, or the report when the source ends first.
     */
    method CloseString(ghost line0: int)
      requires Valid() && start < current && source[start] == '"'
      requires current == SpanEnd(source, start + 1, StringBody)
      requires line == line0 + Count('\n', source[start + 1..current])
      modifies this`current, this`tokens, this`reports
      ensures Moved(ScanString(source, start, line0), old(tokens), old(reports))
    {
      if IsAtEnd() {
        reports := reports + [ScanError([Peek()], line, "Unterminated string.")];
      } else {
        var _ := Consume();
        var text := source[start + 1..current - 1];
        AddToken(STRING, Str(text));
      }
    }

    /** Moves past the digits under the cursor. */
    method SkipDigits()
      requires Valid()
      modifies this`current
      ensures old(current) <= current <= |source|
      ensures current == SpanEnd(source, old(current), Digits)
    {
      while IsDigit(Peek())
        invariant old(current) <= current <= |source|
        invariant forall k :: old(current) <= k < current ==> IsDigit(source[k])
        decreases |source| - current
      {
        var _ := Consume();
      }
      SpanEndUnique(source, old(current), current, Digits);
    }

    /** The rest of a number whose first digit has been read. */
    method Number()
      requires Valid() && current == start + 1 && IsDigit(source[start])
      modifies this`current, this`tokens
      ensures current == NumberEnd(source, start + 1)
      ensures tokens == old(tokens) + [Token(NUMBER, source[start..current], Num(NumberValue(source[start..current])), line)]
    {
      SkipDigits();
      Fraction();
      AddToken(NUMBER, Num(NumberValue(source[start..current])));
    }

    /** The fractional part of a number, read only when a digit follows the '.'. */
    method Fraction()
      requires Valid() && start < current && current == SpanEnd(source, start + 1, Digits)
      modifies this`current
      ensures Valid() && current == NumberEnd(source, start + 1)
    {
      if Peek() == '.' && IsDigit(PeekNext()) {
        var _ := Consume();
        SkipDigits();
      }
    }

    /** The rest of a word whose first letter has been read: a keyword's token, else an IDENTIFIER. */
    method Identifier()
      requires Valid() && current == start + 1 && IsAlpha(source[start])
      modifies this`current, this`tokens
      ensures current == SpanEnd(source, start + 1, Word)
      ensures tokens == old(tokens) + [Token(KeywordKind(source[start..current]), source[start..current], Nil, line)]
    {
      while IsAlphaNum(Peek())
        invariant start + 1 <= current <= |source| && tokens == old(tokens)
        invariant forall k :: start + 1 <= k < current ==> IsAlphaNum(source[k])
        decreases |source| - current
      {
        var _ := Consume();
      }
      SpanEndUnique(source, start + 1, current, Word);
      var text := source[start..current];
      var kind := if text in Keywords then Keywords[text] else IDENTIFIER;
      AddToken(kind, Nil);
    }

    /** Skips a comment whose `//` has been read, up to the next newline. */
    method SkipComment()
      requires Valid() && 2 <= current
      modifies this`current
      ensures current == SpanEnd(source, old(current), CommentBody)
    {
      while Peek() != '\n' && !IsAtEnd()
        invariant old(current) <= current <= |source|
        invariant forall k :: old(current) <= k < current ==> InRun(CommentBody, source[k])
        decreases |source| - current
      {
        current := current + 1;
      }
      SpanEndUnique(source, old(current), current, CommentBody);
    }

    /**
     * The state after one token whose step is `r`, from the token list `tokens0`
     * and the report list `reports0`: it moved as the step says.
     */
    ghost predicate Moved(r: Step, tokens0: seq<Token>, reports0: seq<ScanError>)
      reads this
    {
      && r.Advance? && current == r.next && line == r.line
      && tokens == tokens0 + OptionToSeq(r.token)
      && reports == reports0 + OptionToSeq(r.report)
    }

    /** A token of one fixed character, whose kind depends on that character alone. */
    method SingleCharacter(c: char)
      requires Valid() && current == start + 1 && source[start] == c && c in SingleCharacters
      modifies this`tokens
      ensures Moved(ScanStep(source, start, line), old(tokens), old(reports))
    {
      match c
      case '(' => AddToken(LEFT_PAREN, Nil);
      case ')' => AddToken(RIGHT_PAREN, Nil);
      case '{' => AddToken(LEFT_BRACE, Nil);
      case '}' => AddToken(RIGHT_BRACE, Nil);
      // both brackets scan to RIGHT_SQ_BRACE, as the scanner is written
      case '[' => AddToken(RIGHT_SQ_BRACE, Nil);
      case ']' => AddToken(RIGHT_SQ_BRACE, Nil);
      case ',' => AddToken(COMMA, Nil);
      case '.' => AddToken(DOT, Nil);
      case ';' => AddToken(SEMICOLON, Nil);
      case '*' => AddToken(STAR, Nil);
      case '?' => AddToken(Q_MARK, Nil);
      case ':' => AddToken(COLON, Nil);
    }

    /** An operator of one character, or of two when the character that completes it follows. */
    method OneOrTwoCharacters(c: char)
      requires Valid() && current == start + 1 && source[start] == c && c in OperatorCharacters
      modifies this`current, this`tokens
      ensures Moved(ScanStep(source, start, line), old(tokens), old(reports))
    {
      StepOnOperator(source, start, line);
      var (second, two, one) := OperatorKinds(c);
      var matched := Match(second);
      AddToken(if matched then two else one, Nil);
    }

    /** A slash, or a comment when a second slash follows. */
    method SlashOrComment()
      requires Valid() && current == start + 1 && source[start] == '/'
      modifies this`current, this`tokens
      ensures Moved(ScanStep(source, start, line), old(tokens), old(reports))
    {
      var comment := Match('/');
      if comment {
        SkipComment();
      } else {
        AddToken(SLASH, Nil);
      }
    }

    /** Blanks are skipped; a newline also counts a line. */
    method Whitespace(c: char)
      requires Valid() && current == start + 1 && source[start] == c && c in Blanks
      modifies this`line
      ensures Moved(ScanStep(source, start, old(line)), old(tokens), old(reports))
    {
      if c == '\n' {
        line := line + 1;
      }
    }

    /**
     * One token, from `start`: the state moves as `ScanStep` says, or the
     * unexpected character comes back as the failure the scanner throws.
     */
    method ScanToken() returns (failure: Option<ScanError>)
      requires Valid() && start == current < |source|
      modifies this`current, this`line, this`tokens, this`reports
      ensures Valid()
      ensures failure.None? ==> Moved(ScanStep(source, old(current), old(line)), old(tokens), old(reports))
      ensures failure.Some? ==>
        ScanStep(source, old(current), old(line)) == Abort(failure.value) && tokens == old(tokens) && reports == old(reports)
    {
      failure := None;
      var c := Consume();
      if c in SingleCharacters {
        SingleCharacter(c);
      } else if c in OperatorCharacters {
        OneOrTwoCharacters(c);
      } else if c == '/' {
        SlashOrComment();
      } else if c in Blanks {
        Whitespace(c);
      } else if c == '"' {
        StepOnQuote(source, start, line);
        StringLiteral();
      } else if IsDigit(c) {
        Number();
        StepOnDigit(source, start, line);
      } else if IsAlpha(c) {
        Identifier();
        StepOnAlpha(source, start, line);
      } else {
        StepAbortsOnUnexpected(source, start, line);
        failure := Some(ScanError([c], line, "Unexpected Character"));
      }
    }

    /**
     * The whole scan from the cursor: the tokens `Lex` yields, EOF last, or no
     * token list when a step aborts, with the abort's error reported.
     */
    method ScanTokens() returns (result: Option<seq<Token>>)
      requires Valid()
      modifies this`start, this`current, this`line, this`tokens, this`reports
      ensures match Lex(source, old(current), old(line))
        case Lexed(ts, rs) => result == Some(old(tokens) + ts) && tokens == old(tokens) + ts && reports == old(reports) + rs
        case Aborted(rs) => result.None? && reports == old(reports) + rs
    {
      ghost var lexed := Lex(source, current, line);
      ghost var goal := Prepend(tokens, reports, lexed);
      while !IsAtEnd()
        invariant Valid()
        invariant Prepend(tokens, reports, Lex(source, current, line)) == goal
        decreases |source| - current
      {
        start := current;
        ghost var (ts, rs, pos, l) := (tokens, reports, current, line);
        ghost var step := ScanStep(source, pos, l);
        var failure := ScanToken();
        if failure.Some? {
          assert Lex(source, pos, l) == Aborted([failure.value]);
          reports := reports + [failure.value];
          assert goal == Aborted(reports);
          assert lexed.Aborted? && reports == old(reports) + lexed.reports;
          return None;
        }
        PrependPrepend(ts, rs, OptionToSeq(step.token), OptionToSeq(step.report), Lex(source, step.next, step.line));
      }
      tokens := tokens + [Token(EOF, "", Nil, line)];
      return Some(tokens);
    }
  }
}
