/**
 * The scanner's behaviour stated as functions: one step of `scanToken` from a
 * position, and the whole scan as the repetition of that step (Scanner.java).
 */
module LoxLexical {
  import opened Wrappers
  import opened Strings
  import opened LoxValues
  import opened LoxTokens

  /** A lexical error: the offending text, its line and a message. The scanner's error token has no kind. */
  datatype ScanError = ScanError(lexeme: string, line: int, message: string)

  /** What one call of `scanToken` does from a position: advance, maybe adding a token or reporting, or abort. */
  datatype Step =
    | Advance(token: Option<Token>, report: Option<ScanError>, next: nat, line: int)
    | Abort(error: ScanError)

  /** Result of scanning the rest of the source: the tokens and reports, or the reports up to an abort. */
  datatype Lexed =
    | Lexed(tokens: seq<Token>, reports: seq<ScanError>)
    | Aborted(reports: seq<ScanError>)

  predicate IsAlpha(c: char) { 'a' <= c <= 'z' || 'A' <= c <= 'Z' || c == '_' }

  predicate IsAlphaNum(c: char) { IsAlpha(c) || IsDigit(c) }

  /** The runs of characters the scanner skips over in a loop. */
  datatype Run = Digits | Word | StringBody | CommentBody

  predicate InRun(run: Run, c: char)
  {
    match run
    case Digits => IsDigit(c)
    case Word => IsAlphaNum(c)
    case StringBody => c != '"'
    case CommentBody => c != '\n'
  }

  /** End of the longest run of characters in `run` that starts at `i`. */
  function SpanEnd(s: string, i: nat, run: Run): (j: nat)
    requires i <= |s|
    ensures i <= j <= |s|
    ensures forall k :: i <= k < j ==> InRun(run, s[k])
    ensures j == |s| || !InRun(run, s[j])
    decreases |s| - i
  {
    if i < |s| && InRun(run, s[i]) then SpanEnd(s, i + 1, run) else i
  }

  /** A run that cannot be extended is the one SpanEnd finds. */
  lemma SpanEndUnique(s: string, i: nat, j: nat, run: Run)
    requires i <= j <= |s|
    requires forall k :: i <= k < j ==> InRun(run, s[k])
    requires j == |s| || !InRun(run, s[j])
    ensures SpanEnd(s, i, run) == j
  {
  }

  /**
   * End of a number lexeme whose first digit lies just before `i`: a digit run, then
   * a `.` and a second digit run, the `.` only when a digit follows it.
   */
  function NumberEnd(s: string, i: nat): (j: nat)
    requires i <= |s|
    ensures i <= j <= |s|
  {
    var k := SpanEnd(s, i, Digits);
    if k + 1 < |s| && s[k] == '.' && IsDigit(s[k + 1]) then SpanEnd(s, k + 1, Digits) else k
  }

  /** Value of a run of decimal digits. */
  function DigitsValue(t: string): nat
  {
    if t == [] then 0
    else
      var d := t[|t| - 1] as int - '0' as int;
      DigitsValue(t[..|t| - 1]) * 10 + (if 0 <= d then d else 0)
  }

  function Pow10(n: nat): (p: nat)
    ensures p > 0
  {
    if n == 0 then 1 else 10 * Pow10(n - 1)
  }

  /** The exact decimal value of a number lexeme, standing in for Double.parseDouble. */
  function NumberValue(lexeme: string): real
  {
    var k := SpanEnd(lexeme, 0, Digits);
    var fraction := if k < |lexeme| then lexeme[k + 1..] else "";
    DigitsValue(lexeme[..k]) as real + DigitsValue(fraction) as real / Pow10(|fraction|) as real
  }

  /** The kind of a scanned word: its keyword kind, or IDENTIFIER. */
  function KeywordKind(text: string): TokenType
  {
    if text in Keywords then Keywords[text] else IDENTIFIER
  }

  /** Characters that are a token on their own. */
  const SingleCharacters: set<char> := {'(', ')', '{', '}', '[', ']', ',', '.', ';', '*', '?', ':'}

  /** Characters that start an operator of one or two characters. */
  const OperatorCharacters: set<char> := {'-', '+', '!', '=', '<', '>'}

  /** Characters skipped between tokens. */
  const Blanks: set<char> := {' ', '\r', '\t', '\n'}

  /** A step that advances moves forward within the source. */
  predicate Progress(src: string, pos: nat, r: Step)
  {
    r.Advance? ==> pos < r.next <= |src|
  }

  /** A token of the text from `pos` to `next`, on the current line. */
  function Emit(src: string, pos: nat, next: nat, kind: TokenType, literal: Value, line: int): Step
    requires pos < next <= |src|
  {
    Advance(Some(Token(kind, src[pos..next], literal, line)), None, next, line)
  }

  /** A one-character operator, or the two-character one when `second` follows. */
  function OneOrTwo(src: string, pos: nat, second: char, two: TokenType, one: TokenType, line: int): Step
    requires pos < |src|
  {
    if pos + 1 < |src| && src[pos + 1] == second then Emit(src, pos, pos + 2, two, Nil, line)
    else Emit(src, pos, pos + 1, one, Nil, line)
  }

  /** A blank or a newline: nothing is emitted; a newline counts one line. */
  function Blank(src: string, pos: nat, line: int): Step
    requires pos < |src|
  {
    Advance(None, None, pos + 1, if src[pos] == '\n' then line + 1 else line)
  }

  /** A `//` comment: skipped up to, and not including, the next newline. */
  function Comment(src: string, pos: nat, line: int): Step
    requires pos + 1 < |src|
  {
    Advance(None, None, SpanEnd(src, pos + 2, CommentBody), line)
  }

  /**
   * A string literal opening at `pos`: a STRING token whose literal is the text
   * between the quotes, or the "Unterminated string." report when no quote closes
   * it. It may span lines, each of which is counted.
   */
  function ScanString(src: string, pos: nat, line: int): Step
    requires pos < |src|
  {
    var j := SpanEnd(src, pos + 1, StringBody);
    var text := src[pos + 1..j];
    var l := line + Count('\n', text);
    if j == |src| then Advance(None, Some(ScanError(['\0'], l, "Unterminated string.")), j, l)
    else Advance(Some(Token(STRING, src[pos..j + 1], Str(text), l)), None, j + 1, l)
  }

  /** A number whose first digit is at `pos`. */
  function ScanNumber(src: string, pos: nat, line: int): Step
    requires pos < |src|
  {
    var j := NumberEnd(src, pos + 1);
    Emit(src, pos, j, NUMBER, Num(NumberValue(src[pos..j])), line)
  }

  /** An identifier or keyword whose first letter is at `pos`. */
  function ScanIdentifier(src: string, pos: nat, line: int): Step
    requires pos < |src|
  {
    var j := SpanEnd(src, pos + 1, Word);
    Emit(src, pos, j, KeywordKind(src[pos..j]), Nil, line)
  }

  /** The kind of a token of one fixed character. */
  function SingleKind(c: char): (kind: TokenType)
    requires c in SingleCharacters
  {
    match c
    case '(' => LEFT_PAREN
    case ')' => RIGHT_PAREN
    case '{' => LEFT_BRACE
    case '}' => RIGHT_BRACE
    // both brackets scan to RIGHT_SQ_BRACE, as the scanner is written
    case '[' => RIGHT_SQ_BRACE
    case ']' => RIGHT_SQ_BRACE
    case ',' => COMMA
    case '.' => DOT
    case ';' => SEMICOLON
    case '*' => STAR
    case '?' => Q_MARK
    case _ => COLON
  }

  /**
   * For an operator character: the character that completes the two-character
   * operator, that operator's kind, and the kind of the one-character operator.
   */
  function OperatorKinds(c: char): (kinds: (char, TokenType, TokenType))
    requires c in OperatorCharacters
  {
    match c
    case '-' => ('-', MINUS_MINUS, MINUS)
    case '+' => ('+', PLUS_PLUS, PLUS)
    case '!' => ('=', BANG_EQUAL, BANG)
    case '=' => ('=', EQUAL_EQUAL, EQUAL)
    case '<' => ('=', LESS_EQUAL, LESS)
    case _ => ('=', GREATER_EQUAL, GREATER)
  }

  /** An operator of one character, or of two when the character that completes it follows. */
  function Operator(src: string, pos: nat, line: int): Step
    requires pos < |src| && src[pos] in OperatorCharacters
  {
    var (second, two, one) := OperatorKinds(src[pos]);
    OneOrTwo(src, pos, second, two, one, line)
  }

  /**
   * One call of `scanToken` with the cursor at `pos` on line `line`. The step
   * moves forward and never yields EOF.
   */
  function ScanStep(src: string, pos: nat, line: int): (r: Step)
    requires pos < |src|
    ensures Progress(src, pos, r)
    ensures r.Advance? && r.token.Some? ==> r.token.value.kind != EOF
  {
    var c := src[pos];
    if c in SingleCharacters then Emit(src, pos, pos + 1, SingleKind(c), Nil, line)
    else if c in OperatorCharacters then Operator(src, pos, line)
    else if c == '/' then
      if pos + 1 < |src| && src[pos + 1] == '/' then Comment(src, pos, line)
      else Emit(src, pos, pos + 1, SLASH, Nil, line)
    else if c in Blanks then Blank(src, pos, line)
    else if c == '"' then ScanString(src, pos, line)
    else if IsDigit(c) then ScanNumber(src, pos, line)
    else if IsAlpha(c) then ScanIdentifier(src, pos, line)
    else Abort(ScanError([c], line, "Unexpected Character"))
  }

  /** The newlines a step consumes, by which it raises the line count. */
  ghost predicate CountsLines(src: string, pos: nat, line: int, r: Step)
    requires pos <= |src|
  {
    r.Advance? ==> pos < r.next <= |src| && r.line == line + Count('\n', src[pos..r.next])
  }

  lemma NoNewlines(s: string)
    requires forall k :: 0 <= k < |s| ==> s[k] != '\n'
    ensures Count('\n', s) == 0
  {
    assert '\n' !in s;
    CountAbsent('\n', s);
  }

  lemma EmitCountsLines(src: string, pos: nat, next: nat, kind: TokenType, literal: Value, line: int)
    requires pos < next <= |src|
    requires forall k :: pos <= k < next ==> src[k] != '\n'
    ensures CountsLines(src, pos, line, Emit(src, pos, next, kind, literal, line))
  {
    NoNewlines(src[pos..next]);
  }

  lemma OperatorCountsLines(src: string, pos: nat, line: int)
    requires pos < |src| && src[pos] in OperatorCharacters
    ensures CountsLines(src, pos, line, Operator(src, pos, line))
  {
    var (second, two, one) := OperatorKinds(src[pos]);
    if pos + 1 < |src| && src[pos + 1] == second {
      EmitCountsLines(src, pos, pos + 2, two, Nil, line);
    } else {
      EmitCountsLines(src, pos, pos + 1, one, Nil, line);
    }
  }

  lemma BlankCountsLines(src: string, pos: nat, line: int)
    requires pos < |src|
    ensures CountsLines(src, pos, line, Blank(src, pos, line))
  {
    assert src[pos..pos + 1] == [src[pos]];
  }

  lemma CommentCountsLines(src: string, pos: nat, line: int)
    requires pos + 1 < |src| && src[pos] == '/' && src[pos + 1] == '/'
    ensures CountsLines(src, pos, line, Comment(src, pos, line))
  {
    var j := SpanEnd(src, pos + 2, CommentBody);
    assert forall k :: pos + 2 <= k < j ==> InRun(CommentBody, src[k]);
    NoNewlines(src[pos..j]);
  }

  /** Dropping a leading character other than a newline keeps the newline count. */
  lemma CountAfterFirst(s: string)
    requires |s| > 0 && s[0] != '\n'
    ensures Count('\n', s) == Count('\n', s[1..])
  {
  }

  lemma StringCountsLines(src: string, pos: nat, line: int)
    requires pos < |src| && src[pos] == '"'
    ensures CountsLines(src, pos, line, ScanString(src, pos, line))
  {
    var j := SpanEnd(src, pos + 1, StringBody);
    var text := src[pos + 1..j];
    if j == |src| {
      assert src[pos..j][1..] == text;
      CountAfterFirst(src[pos..j]);
    } else {
      assert src[pos..j + 1][1..] == text + [src[j]];
      CountAfterFirst(src[pos..j + 1]);
      CountConcat('\n', text, [src[j]]);
    }
  }

  lemma NumberCountsLines(src: string, pos: nat, line: int)
    requires pos < |src| && IsDigit(src[pos])
    ensures CountsLines(src, pos, line, ScanNumber(src, pos, line))
  {
    var j := NumberEnd(src, pos + 1);
    var k := SpanEnd(src, pos + 1, Digits);
    assert forall i :: pos + 1 <= i < k ==> IsDigit(src[i]);
    if j != k {
      assert forall i :: k + 1 <= i < j ==> IsDigit(src[i]);
    }
    EmitCountsLines(src, pos, j, NUMBER, Num(NumberValue(src[pos..j])), line);
  }

  lemma IdentifierCountsLines(src: string, pos: nat, line: int)
    requires pos < |src| && IsAlpha(src[pos])
    ensures CountsLines(src, pos, line, ScanIdentifier(src, pos, line))
  {
    var j := SpanEnd(src, pos + 1, Word);
    assert forall i :: pos + 1 <= i < j ==> IsAlphaNum(src[i]);
    EmitCountsLines(src, pos, j, KeywordKind(src[pos..j]), Nil, line);
  }

  /**
   * A step raises the line count by exactly the newlines it moves over: only
   * blanks, comments and string literals can move over one.
   */
  lemma StepCountsLines(src: string, pos: nat, line: int)
    requires pos < |src|
    ensures CountsLines(src, pos, line, ScanStep(src, pos, line))
  {
    var c := src[pos];
    if c in SingleCharacters {
      EmitCountsLines(src, pos, pos + 1, SingleKind(c), Nil, line);
    } else if c in OperatorCharacters {
      OperatorCountsLines(src, pos, line);
    } else if c == '/' {
      if pos + 1 < |src| && src[pos + 1] == '/' {
        CommentCountsLines(src, pos, line);
      } else {
        EmitCountsLines(src, pos, pos + 1, SLASH, Nil, line);
      }
    } else if c in Blanks {
      BlankCountsLines(src, pos, line);
    } else if c == '"' {
      StringCountsLines(src, pos, line);
    } else if IsDigit(c) {
      NumberCountsLines(src, pos, line);
    } else if IsAlpha(c) {
      IdentifierCountsLines(src, pos, line);
    }
  }

  function Prepend(tokens: seq<Token>, reports: seq<ScanError>, rest: Lexed): Lexed
  {
    match rest
    case Lexed(ts, rs) => Lexed(tokens + ts, reports + rs)
    case Aborted(rs) => Aborted(reports + rs)
  }

  /** Scanning from `pos` on line `line` to the end: the steps' tokens and reports, then EOF. */
  function Lex(src: string, pos: nat, line: int): Lexed
    requires pos <= |src|
    decreases |src| - pos
  {
    if pos == |src| then Lexed([Token(EOF, "", Nil, line)], [])
    else
      match ScanStep(src, pos, line)
      case Abort(e) => Aborted([e])
      case Advance(t, rep, next, l) => Prepend(OptionToSeq(t), OptionToSeq(rep), Lex(src, next, l))
  }

  /** `scanTokens` on a fresh scanner. */
  function Scan(src: string): Lexed
  {
    Lex(src, 0, 1)
  }

  lemma PrependPrepend(a: seq<Token>, b: seq<ScanError>, c: seq<Token>, d: seq<ScanError>, rest: Lexed)
    ensures Prepend(a, b, Prepend(c, d, rest)) == Prepend(a + c, b + d, rest)
  {
    assert b + (d + rest.reports) == (b + d) + rest.reports;
    if rest.Lexed? {
      assert a + (c + rest.tokens) == (a + c) + rest.tokens;
    }
  }

  /** When `line` counts the newlines before `pos`, the step's new line counts those before its end. */
  lemma StepKeepsLineCount(src: string, pos: nat, line: int)
    requires pos < |src|
    requires line == 1 + Count('\n', src[..pos])
    ensures var r := ScanStep(src, pos, line);
      r.Advance? ==> r.line == 1 + Count('\n', src[..r.next])
  {
    var r := ScanStep(src, pos, line);
    StepCountsLines(src, pos, line);
    if r.Advance? {
      assert src[..r.next] == src[..pos] + src[pos..r.next];
      CountConcat('\n', src[..pos], src[pos..r.next]);
    }
  }

  /** `tokens` ends with an EOF token on line `line`, and holds no other EOF. */
  predicate EndsWithSingleEof(tokens: seq<Token>, line: int)
  {
    && |tokens| > 0
    && tokens[|tokens| - 1] == Token(EOF, "", Nil, line)
    && forall i :: 0 <= i < |tokens| - 1 ==> tokens[i].kind != EOF
  }

  lemma PrependKeepsSingleEof(head: seq<Token>, tokens: seq<Token>, line: int)
    requires forall i :: 0 <= i < |head| ==> head[i].kind != EOF
    requires EndsWithSingleEof(tokens, line)
    ensures EndsWithSingleEof(head + tokens, line)
  {
    var ts := head + tokens;
    forall i | 0 <= i < |ts| - 1 ensures ts[i].kind != EOF {
      if i >= |head| {
        assert ts[i] == tokens[i - |head|];
      }
    }
  }

  /**
   * A successful scan ends with exactly one EOF token, which carries the final
   * line: one more than the number of newlines in the source.
   */
  lemma {:induction false} LexEndsWithEof(src: string, pos: nat, line: int)
    requires pos <= |src|
    requires line == 1 + Count('\n', src[..pos])
    ensures var r := Lex(src, pos, line);
      r.Lexed? ==> EndsWithSingleEof(r.tokens, 1 + Count('\n', src))
    decreases |src| - pos
  {
    if pos == |src| {
      assert src[..pos] == src;
    } else {
      var step := ScanStep(src, pos, line);
      if step.Advance? {
        StepKeepsLineCount(src, pos, line);
        LexEndsWithEof(src, step.next, step.line);
        var rest := Lex(src, step.next, step.line);
        if rest.Lexed? {
          PrependKeepsSingleEof(OptionToSeq(step.token), rest.tokens, 1 + Count('\n', src));
        }
      }
    }
  }

  lemma ScanEndsWithEof(src: string)
    ensures var r := Scan(src);
      r.Lexed? ==> EndsWithSingleEof(r.tokens, 1 + Count('\n', src))
  {
    assert src[..0] == "";
    LexEndsWithEof(src, 0, 1);
  }

  /** The characters that start a token or are skipped; any other one is unexpected. */
  predicate Recognized(c: char)
  {
    c in SingleCharacters || c in OperatorCharacters || c in Blanks || c == '/' || c == '"' || IsDigit(c) || IsAlpha(c)
  }

  /** A step aborts exactly on an unexpected character, and the error names that character. */
  lemma StepAbortsOnUnexpected(src: string, pos: nat, line: int)
    requires pos < |src|
    ensures ScanStep(src, pos, line).Abort? <==> !Recognized(src[pos])
    ensures ScanStep(src, pos, line).Abort? ==>
      ScanStep(src, pos, line).error == ScanError([src[pos]], line, "Unexpected Character")
  {
  }

  /** An aborted scan ends with the report of the unexpected character that stopped it. */
  lemma {:induction false} LexAbortReported(src: string, pos: nat, line: int)
    requires pos <= |src|
    ensures var r := Lex(src, pos, line);
      r.Aborted? ==> |r.reports| > 0 && r.reports[|r.reports| - 1].message == "Unexpected Character"
    decreases |src| - pos
  {
    if pos < |src| {
      var step := ScanStep(src, pos, line);
      if step.Advance? {
        LexAbortReported(src, step.next, step.line);
        var rest := Lex(src, step.next, step.line);
        if rest.Aborted? {
          var rs := OptionToSeq(step.report) + rest.reports;
          assert rs[|rs| - 1] == rest.reports[|rest.reports| - 1];
        }
      }
    }
  }

  /** The operators scanned as one token of two characters. */
  const TwoCharOperators: map<string, TokenType> := map[
    "!=" := BANG_EQUAL, "==" := EQUAL_EQUAL, "<=" := LESS_EQUAL,
    ">=" := GREATER_EQUAL, "++" := PLUS_PLUS, "--" := MINUS_MINUS
  ]

  lemma TwoCharacterOperator(src: string, pos: nat, line: int)
    requires pos + 1 < |src| && src[pos..pos + 2] in TwoCharOperators
    ensures ScanStep(src, pos, line) ==
      Advance(Some(Token(TwoCharOperators[src[pos..pos + 2]], src[pos..pos + 2], Nil, line)), None, pos + 2, line)
  {
    var pair := src[pos..pos + 2];
    assert pair == [src[pos], src[pos + 1]];
  }

  /**
   * Blanks, newlines and comments emit nothing; a comment runs up to, but not
   * over, the next newline.
   */
  lemma BlanksAndCommentsEmitNothing(src: string, pos: nat, line: int)
    requires pos < |src|
    ensures src[pos] in Blanks ==>
      ScanStep(src, pos, line) == Advance(None, None, pos + 1, if src[pos] == '\n' then line + 1 else line)
    ensures pos + 1 < |src| && src[pos] == '/' && src[pos + 1] == '/' ==>
      var r := ScanStep(src, pos, line);
      && r.Advance? && r.token.None? && r.report.None? && r.line == line
      && pos + 2 <= r.next
      && (r.next == |src| || src[r.next] == '\n')
      && '\n' !in src[pos + 2..r.next]
  {
    if pos + 1 < |src| && src[pos] == '/' && src[pos + 1] == '/' {
      var r := ScanStep(src, pos, line);
      assert forall k :: pos + 2 <= k < r.next ==> InRun(CommentBody, src[k]);
    }
  }

  /** A quote starts a string literal. */
  lemma StepOnQuote(src: string, pos: nat, line: int)
    requires pos < |src| && src[pos] == '"'
    ensures ScanStep(src, pos, line) == ScanString(src, pos, line)
  {
  }

  /** A digit starts a number, which runs to NumberEnd. */
  lemma StepOnDigit(src: string, pos: nat, line: int)
    requires pos < |src| && IsDigit(src[pos])
    ensures var j := NumberEnd(src, pos + 1);
      ScanStep(src, pos, line) == Advance(Some(Token(NUMBER, src[pos..j], Num(NumberValue(src[pos..j])), line)), None, j, line)
  {
    assert ScanStep(src, pos, line) == ScanNumber(src, pos, line);
  }

  /** A letter or underscore starts a word, which runs over letters, digits and underscores. */
  lemma StepOnAlpha(src: string, pos: nat, line: int)
    requires pos < |src| && IsAlpha(src[pos])
    ensures var j := SpanEnd(src, pos + 1, Word);
      ScanStep(src, pos, line) == Advance(Some(Token(KeywordKind(src[pos..j]), src[pos..j], Nil, line)), None, j, line)
  {
    StepIsIdentifier(src, pos, line);
    var j := SpanEnd(src, pos + 1, Word);
    assert ScanIdentifier(src, pos, line) == Emit(src, pos, j, KeywordKind(src[pos..j]), Nil, line);
  }

  lemma StepIsIdentifier(src: string, pos: nat, line: int)
    requires pos < |src| && IsAlpha(src[pos])
    ensures ScanStep(src, pos, line) == ScanIdentifier(src, pos, line)
  {
  }

  /** An operator character starts an operator. */
  lemma StepOnOperator(src: string, pos: nat, line: int)
    requires pos < |src| && src[pos] in OperatorCharacters
    ensures ScanStep(src, pos, line) == Operator(src, pos, line)
  {
  }

  /** The body of a string runs up to the first quote after the opening one, or to the end. */
  lemma StringBodyEnd(src: string, pos: nat, j: nat)
    requires pos < j <= |src| && '"' !in src[pos + 1..j] && (j == |src| || src[j] == '"')
    ensures SpanEnd(src, pos + 1, StringBody) == j
  {
    var body := src[pos + 1..j];
    forall k | pos + 1 <= k < j ensures InRun(StringBody, src[k]) {
      assert src[k] == body[k - pos - 1];
    }
    SpanEndUnique(src, pos + 1, j, StringBody);
  }

  /** An unterminated string reports "Unterminated string." at the end of the source and adds no token. */
  lemma UnterminatedString(src: string, pos: nat, line: int)
    requires pos < |src| && src[pos] == '"' && '"' !in src[pos + 1..]
    ensures var l := line + Count('\n', src[pos + 1..]);
      ScanStep(src, pos, line) == Advance(None, Some(ScanError(['\0'], l, "Unterminated string.")), |src|, l)
  {
    assert src[pos + 1..|src|] == src[pos + 1..];
    StringBodyEnd(src, pos, |src|);
    StepOnQuote(src, pos, line);
  }

  /**
   * A string closed by the first quote after `pos`, at `j`, yields one STRING token
   * whose literal is exactly the text between the quotes.
   */
  lemma TerminatedString(src: string, pos: nat, j: nat, line: int)
    requires pos < j < |src| && src[pos] == '"' && src[j] == '"' && '"' !in src[pos + 1..j]
    ensures var text := src[pos + 1..j];
      var l := line + Count('\n', text);
      ScanStep(src, pos, line) == Advance(Some(Token(STRING, src[pos..j + 1], Str(text), l)), None, j + 1, l)
  {
    StepOnQuote(src, pos, line);
    ClosedString(src, pos, j, line);
  }

  lemma ClosedString(src: string, pos: nat, j: nat, line: int)
    requires pos < j < |src| && src[pos] == '"' && src[j] == '"' && '"' !in src[pos + 1..j]
    ensures var text := src[pos + 1..j];
      var l := line + Count('\n', text);
      ScanString(src, pos, line) == Advance(Some(Token(STRING, src[pos..j + 1], Str(text), l)), None, j + 1, l)
  {
    StringBodyEnd(src, pos, j);
    var r := ScanString(src, pos, line);
    var text := src[pos + 1..j];
    var l := line + Count('\n', text);
    assert r.Advance? && r.next == j + 1 && r.line == l && r.report.None?;
    assert r.token.Some? && r.token.value.kind == STRING;
    assert r.token.value.lexeme == src[pos..j + 1];
    assert r.token.value.literal == Str(text);
    assert r.token.value.line == l;
  }

  predicate AllDigits(t: string)
  {
    forall i :: 0 <= i < |t| ==> IsDigit(t[i])
  }

  /** A digit run, optionally followed by `.` and a second, non-empty digit run. */
  predicate IsNumberLexeme(t: string)
  {
    || (|t| > 0 && AllDigits(t))
    || exists d :: 0 < d < |t| - 1 && t[d] == '.' && AllDigits(t[..d]) && AllDigits(t[d + 1..])
  }

  /**
   * The number lexeme starting at `i - 1` is a maximal digit run, with a fractional
   * part only when a digit follows the `.`.
   */
  lemma NumberEndShape(s: string, i: nat)
    requires 0 < i <= |s| && IsDigit(s[i - 1])
    ensures var j := NumberEnd(s, i);
      && IsNumberLexeme(s[i - 1..j])
      && (j == |s| || !IsDigit(s[j]))
      && ('.' !in s[i - 1..j] ==> !(j + 1 < |s| && s[j] == '.' && IsDigit(s[j + 1])))
  {
    var k := SpanEnd(s, i, Digits);
    assert forall m :: i <= m < k ==> IsDigit(s[m]);
    assert AllDigits(s[i - 1..k]);
    if k + 1 < |s| && s[k] == '.' && IsDigit(s[k + 1]) {
      var j := SpanEnd(s, k + 1, Digits);
      assert forall m :: k + 1 <= m < j ==> IsDigit(s[m]);
      var t := s[i - 1..j];
      var d := k - (i - 1);
      assert t[d] == '.';
      assert t[..d] == s[i - 1..k];
      assert t[d + 1..] == s[k + 1..j];
      var u := s[k + 1..j];
      assert AllDigits(u) by {
        forall m | 0 <= m < |u| ensures IsDigit(u[m]) {
          assert u[m] == s[k + 1 + m];
        }
      }
      assert 0 < d < |t| - 1;
    } else {
      assert '.' !in s[i - 1..k];
    }
  }

  /**
   * A number token spans a maximal digit run, with a fractional part only when a
   * digit follows the `.`; a `.` not followed by a digit is left for the next token.
   */
  lemma NumberToken(src: string, pos: nat, line: int)
    requires pos < |src| && IsDigit(src[pos])
    ensures var r := ScanStep(src, pos, line);
      && r.Advance? && r.report.None? && r.line == line
      && r.token == Some(Token(NUMBER, src[pos..r.next], Num(NumberValue(src[pos..r.next])), line))
      && IsNumberLexeme(src[pos..r.next])
      && (r.next == |src| || !IsDigit(src[r.next]))
      && ('.' !in src[pos..r.next] ==> !(r.next + 1 < |src| && src[r.next] == '.' && IsDigit(src[r.next + 1])))
  {
    assert ScanStep(src, pos, line) == ScanNumber(src, pos, line);
    NumberEndShape(src, pos + 1);
  }

  /** An identifier spans a maximal alphanumeric run; its kind is the keyword's kind, else IDENTIFIER. */
  lemma IdentifierToken(src: string, pos: nat, line: int)
    requires pos < |src| && IsAlpha(src[pos])
    ensures var r := ScanStep(src, pos, line);
      && r.Advance? && r.report.None? && r.line == line && r.token.Some?
      && r.token.value.lexeme == src[pos..r.next]
      && (forall k :: pos <= k < r.next ==> IsAlphaNum(src[k]))
      && (r.next == |src| || !IsAlphaNum(src[r.next]))
      && r.token.value.kind == (if src[pos..r.next] in Keywords then Keywords[src[pos..r.next]] else IDENTIFIER)
  {
  }
}
