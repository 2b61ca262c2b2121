// The lexer as functions on the remaining input: one function per helper of
// the source lexer, each taking the characters that follow the character
// just consumed and the current line, and returning the token read (None
// for whitespace and comments), the characters left and the new line.
module LexerSpec {
  import opened Wrappers
  import opened Tokens

  /** A lexer failure: the message and the line it was raised on. */
  datatype LexError = LexError(message: string, line: int)

  /** The state after one call of a helper. */
  datatype Step = Step(token: Option<Token>, rest: seq<char>, line: int)

  // ---------------------------------------------------------------------
  // Character classes and counting

  predicate IsDigit(c: char) { '0' <= c <= '9' }

  /** The first character of an identifier: [a-zA-Z_]. */
  predicate IsIdentStart(c: char) { 'a' <= c <= 'z' || 'A' <= c <= 'Z' || c == '_' }

  /** Any later character of an identifier: [a-zA-Z0-9_]. */
  predicate IsIdentChar(c: char) { IsIdentStart(c) || IsDigit(c) }

  /** A character of a number literal: a digit or a dot. */
  predicate IsNumberChar(c: char) { IsDigit(c) || c == '.' }

  /** How often c occurs in s. */
  function Occurrences(s: seq<char>, c: char): nat
  {
    if s == [] then 0 else (if s[0] == c then 1 else 0) + Occurrences(s[1..], c)
  }

  /** The number of line breaks in s. */
  function Newlines(s: seq<char>): nat { Occurrences(s, '\n') }

  lemma {:induction false} OccurrencesAppend(a: seq<char>, b: seq<char>, c: char)
    ensures Occurrences(a + b, c) == Occurrences(a, c) + Occurrences(b, c)
  {
    if a == [] {
      assert a + b == b;
    } else {
      assert (a + b)[0] == a[0];
      assert (a + b)[1..] == a[1..] + b;
      OccurrencesAppend(a[1..], b, c);
    }
  }

  lemma {:induction false} OccurrencesZero(s: seq<char>, c: char)
    ensures Occurrences(s, c) == 0 <==> c !in s
  {
    if s != [] {
      OccurrencesZero(s[1..], c);
      assert s == [s[0]] + s[1..];
    }
  }

  /** rest is what remains of s after a prefix of s was consumed. */
  predicate Suffix(rest: seq<char>, s: seq<char>)
  {
    |rest| <= |s| && rest == s[|s| - |rest|..]
  }

  /** The characters consumed to get from s to rest. */
  function Consumed(s: seq<char>, rest: seq<char>): seq<char>
    requires Suffix(rest, s)
  {
    s[..|s| - |rest|]
  }

  /** Going from (s, line) to (rest, line') consumed a prefix of s and counted
      exactly the line breaks in that prefix. */
  predicate Moves(s: seq<char>, line: int, rest: seq<char>, line': int)
  {
    Suffix(rest, s) && line' == line + Newlines(Consumed(s, rest))
  }

  /** A helper's step from (s, line) moved as the source's counting does. */
  predicate Advances(s: seq<char>, line: int, st: Step)
  {
    Moves(s, line, st.rest, st.line)
  }

  lemma ConsumedStep(s: seq<char>, r: seq<char>)
    requires |s| > 0 && Suffix(r, s[1..])
    ensures Suffix(r, s) && Consumed(s, r) == [s[0]] + Consumed(s[1..], r)
  {
    assert s == [s[0]] + s[1..];
  }

  lemma MovesRefl(s: seq<char>, line: int)
    ensures Moves(s, line, s, line)
  {
    assert Consumed(s, s) == [];
  }

  lemma MovesOne(s: seq<char>, line: int)
    requires |s| > 0
    ensures Moves(s, line, s[1..], if s[0] == '\n' then line + 1 else line)
  {
    assert Consumed(s, s[1..]) == [s[0]];
    assert [s[0]][1..] == [];
    assert Occurrences([s[0]], '\n') == (if s[0] == '\n' then 1 else 0) + Occurrences([], '\n');
  }

  lemma MovesTrans(a: seq<char>, la: int, b: seq<char>, lb: int, c: seq<char>, lc: int)
    requires Moves(a, la, b, lb) && Moves(b, lb, c, lc)
    ensures Moves(a, la, c, lc)
  {
    assert Consumed(a, c) == Consumed(a, b) + Consumed(b, c);
    OccurrencesAppend(Consumed(a, b), Consumed(b, c), '\n');
  }

  /** Dropping a prefix that holds no line break leaves the line unchanged. */
  lemma MovesDrop(s: seq<char>, k: nat, line: int)
    requires k <= |s| && '\n' !in s[..k]
    ensures Moves(s, line, s[k..], line)
  {
    assert Consumed(s, s[k..]) == s[..k];
    OccurrencesZero(s[..k], '\n');
  }

  predicate EndsWith(s: seq<char>, c: char) { |s| > 0 && s[|s| - 1] == c }

  // ---------------------------------------------------------------------
  // Maximal runs

  /** The length of the longest prefix of s made of identifier characters. */
  function IdentRun(s: seq<char>): (k: nat)
    ensures k <= |s|
    ensures forall i :: 0 <= i < k ==> IsIdentChar(s[i])
    ensures k == |s| || !IsIdentChar(s[k])
  {
    if s != [] && IsIdentChar(s[0]) then 1 + IdentRun(s[1..]) else 0
  }

  /** The length of the longest prefix of s made of digits and dots. */
  function NumberRun(s: seq<char>): (k: nat)
    ensures k <= |s|
    ensures forall i :: 0 <= i < k ==> IsNumberChar(s[i])
    ensures k == |s| || !IsNumberChar(s[k])
  {
    if s != [] && IsNumberChar(s[0]) then 1 + NumberRun(s[1..]) else 0
  }

  // ---------------------------------------------------------------------
  // Operators

  /** The token of a character that is a token on its own. */
  function SingleCharKind(c: char): Option<TokenKind>
  {
    match c
    case '(' => Some(OpenParen)
    case ')' => Some(CloseParen)
    case '[' => Some(OpenBracket)
    case ']' => Some(CloseBracket)
    case '{' => Some(OpenCurly)
    case '}' => Some(CloseCurly)
    case ',' => Some(Comma)
    case '.' => Some(Dot)
    case ';' => Some(Semicolon)
    case ':' => Some(Colon)
    case '?' => Some(QuestionMark)
    case '@' => Some(At)
    case _ => None
  }

  /** An operator c that becomes the kind `withEqual` when '=' follows it and
      `alone` otherwise. */
  function WithOptionalEqual(c: char, rest: seq<char>, line: int, withEqual: TokenKind, alone: TokenKind): Step
  {
    if |rest| > 0 && rest[0] == '=' then Step(Some(Token(withEqual, [c, '='], line)), rest[1..], line)
    else Step(Some(Token(alone, [c], line)), rest, line)
  }

  /** A doubled operator: c followed by c is the kind `doubled`. */
  function Doubled(c: char, rest: seq<char>, line: int, doubled: TokenKind): Step
    requires |rest| > 0
  {
    Step(Some(Token(doubled, [c, c], line)), rest[1..], line)
  }

  function LessToken(rest: seq<char>, line: int): Step
  { WithOptionalEqual('<', rest, line, LessOrEqual, LessThen) }

  function GreaterToken(rest: seq<char>, line: int): Step
  { WithOptionalEqual('>', rest, line, GreaterOrEqual, GreaterThen) }

  function EqualToken(rest: seq<char>, line: int): Step
  { WithOptionalEqual('=', rest, line, Equal, Assignment) }

  function ModuloToken(rest: seq<char>, line: int): Step
  { WithOptionalEqual('%', rest, line, ModuloEqual, Modulo) }

  function StarToken(rest: seq<char>, line: int): Step
  { WithOptionalEqual('*', rest, line, StarEqual, Star) }

  function BangToken(rest: seq<char>, line: int): Step
  { WithOptionalEqual('!', rest, line, NotEqual, Bang) }

  /** '+': "++" is tried before "+=". */
  function PlusToken(rest: seq<char>, line: int): Step
  {
    if |rest| > 0 && rest[0] == '+' then Doubled('+', rest, line, Increment)
    else WithOptionalEqual('+', rest, line, PlusEqual, Plus)
  }

  /** '-': "--" is tried before "-=". */
  function MinusToken(rest: seq<char>, line: int): Step
  {
    if |rest| > 0 && rest[0] == '-' then Doubled('-', rest, line, Decrement)
    else WithOptionalEqual('-', rest, line, MinusEqual, Minus)
  }

  /** '&' must be doubled. */
  function AndToken(rest: seq<char>, line: int): Result<Step, LexError>
  {
    if |rest| > 0 && rest[0] == '&' then Ok(Doubled('&', rest, line, And))
    else Err(LexError("Unexpected single '&' token", line))
  }

  /** '|' must be doubled. */
  function OrToken(rest: seq<char>, line: int): Result<Step, LexError>
  {
    if |rest| > 0 && rest[0] == '|' then Ok(Doubled('|', rest, line, Or))
    else Err(LexError("Unexpected single '|' token", line))
  }

  // ---------------------------------------------------------------------
  // Comments and the slash

  /** Skips to the next line break, or to the end. */
  function SkipToLineEnd(s: seq<char>): (r: seq<char>)
    ensures |r| <= |s|
    ensures r == [] || r[0] == '\n'
  {
    if s == [] || s[0] == '\n' then s else SkipToLineEnd(s[1..])
  }

  /** Skips the body of a block comment: stops in front of the first "*\/"
      or at the end, counting the line breaks passed over. */
  function SkipBlockBody(s: seq<char>, line: int): (r: (seq<char>, int))
    ensures r.0 == [] || (|r.0| > 1 && r.0[0] == '*' && r.0[1] == '/')
    decreases |s|
  {
    if s == [] || (s[0] == '*' && |s| > 1 && s[1] == '/') then (s, line)
    else SkipBlockBody(s[1..], if s[0] == '\n' then line + 1 else line)
  }

  /** '/' begins a line comment, a block comment, "/=" or a plain slash.
      Consuming past the end of the input fails with 'Unexpected EOF'. */
  function SlashToken(rest: seq<char>, line: int): Result<Step, LexError>
  {
    if |rest| > 0 && rest[0] == '/' then
      var r := SkipToLineEnd(rest[1..]);
      if r == [] then Err(LexError("Unexpected EOF", line))
      else Ok(Step(None, r[1..], line + 1))
    else if |rest| > 0 && rest[0] == '*' then
      var (r, line') := SkipBlockBody(rest[1..], line);
      if r == [] then Err(LexError("Unexpected EOF", line'))
      else Ok(Step(None, r[2..], line'))
    else Ok(WithOptionalEqual('/', rest, line, SlashEqual, Slash))
  }

  // ---------------------------------------------------------------------
  // Literals and identifiers

  /** The loop of the string-literal helper: accumulates characters into acc
      until the delimiter is seen while acc does not end in a backslash, or
      the input ends. A raw line break fails. */
  function ScanString(s: seq<char>, delim: char, acc: string, line: int): (res: Result<(string, seq<char>), LexError>)
    ensures res.Ok? ==> res.value.1 == [] || (res.value.1[0] == delim && !EndsWith(res.value.0, '\\'))
    ensures res.Err? ==> res.error == LexError("Unterminated string literal", line)
    decreases |s|
  {
    if s != [] && (s[0] != delim || EndsWith(acc, '\\')) then
      if s[0] == '\n' then Err(LexError("Unterminated string literal", line))
      else ScanString(s[1..], delim, acc + [s[0]], line)
    else Ok((acc, s))
  }

  /** A quoted string opened by delim (a quote or a double quote). */
  function StringLiteralToken(delim: char, rest: seq<char>, line: int): Result<Step, LexError>
  {
    match ScanString(rest, delim, [], line)
    case Err(e) => Err(e)
    case Ok((str, r)) =>
      if r == [] && !EndsWith(str, delim) then Err(LexError("Unterminated string literal", line))
      else if r == [] then Err(LexError("Unexpected EOF", line))
      else Ok(Step(Some(Token(StringLiteral, str, line)), r[1..], line))
  }

  /** The loop of the template helper: accumulates characters up to the next
      backtick, or to the end, counting line breaks. */
  function ScanTemplate(s: seq<char>, acc: string, line: int): (r: (string, seq<char>, int))
    ensures r.1 == [] || r.1[0] == '`'
    decreases |s|
  {
    if s == [] || s[0] == '`' then (acc, s, line)
    else ScanTemplate(s[1..], acc + [s[0]], if s[0] == '\n' then line + 1 else line)
  }

  /** A backtick template: its raw text up to the next backtick. */
  function TemplateLiteralToken(rest: seq<char>, line: int): Result<Step, LexError>
  {
    var (str, r, line') := ScanTemplate(rest, [], line);
    if r == [] then Err(LexError("Unterminated template literal", line'))
    else Ok(Step(Some(Token(TemplateLiteral, str, line')), r[1..], line'))
  }

  /** An identifier beginning with c: the maximal run of identifier characters. */
  function IdentifierToken(c: char, rest: seq<char>, line: int): Step
  {
    var k := IdentRun(rest);
    Step(Some(Token(Identifier, [c] + rest[..k], line)), rest[k..], line)
  }

  /** A number beginning with digit c: the maximal run of digits and dots, kept
      verbatim. It denotes a number exactly when it holds at most one dot. */
  function NumberLiteralToken(c: char, rest: seq<char>, line: int): Result<Step, LexError>
  {
    var k := NumberRun(rest);
    var text := [c] + rest[..k];
    if Occurrences(text, '.') > 1 then Err(LexError("Invalid number literal: '" + text + "'", line))
    else Ok(Step(Some(Token(NumberLiteral, text, line)), rest[k..], line))
  }

  // ---------------------------------------------------------------------
  // Dispatch

  predicate IsOperatorChar(c: char)
  {
    c == '!' || c == '+' || c == '-' || c == '*' || c == '/' || c == '%' ||
    c == '=' || c == '<' || c == '>' || c == '&' || c == '|'
  }

  predicate IsQuote(c: char) { c == '"' || c == '\'' }

  /** The operator helpers, one per operator character. */
  function OperatorToken(c: char, rest: seq<char>, line: int): Result<Step, LexError>
    requires IsOperatorChar(c)
  {
    if c == '!' then Ok(BangToken(rest, line))
    else if c == '+' then Ok(PlusToken(rest, line))
    else if c == '-' then Ok(MinusToken(rest, line))
    else if c == '*' then Ok(StarToken(rest, line))
    else if c == '/' then SlashToken(rest, line)
    else if c == '%' then Ok(ModuloToken(rest, line))
    else if c == '=' then Ok(EqualToken(rest, line))
    else if c == '<' then Ok(LessToken(rest, line))
    else if c == '>' then Ok(GreaterToken(rest, line))
    else if c == '&' then AndToken(rest, line)
    else OrToken(rest, line)
  }

  /** The dispatch on the character c just consumed; rest follows it. */
  function Dispatch(c: char, rest: seq<char>, line: int): Result<Step, LexError>
  {
    if c == '\n' then Ok(Step(None, rest, line + 1))
    else if c == ' ' || c == '\t' || c == '\r' then Ok(Step(None, rest, line))
    else if SingleCharKind(c).Some? then
      Ok(Step(Some(Token(SingleCharKind(c).value, [c], line)), rest, line))
    else if IsOperatorChar(c) then OperatorToken(c, rest, line)
    else if IsQuote(c) then StringLiteralToken(c, rest, line)
    else if c == '`' then TemplateLiteralToken(rest, line)
    else if IsDigit(c) then NumberLiteralToken(c, rest, line)
    else if IsIdentStart(c) then Ok(IdentifierToken(c, rest, line))
    else Err(LexError("Unexpected token '" + [c] + "'", line))
  }

  // ---------------------------------------------------------------------
  // How each helper moves through the input

  /** A step that produced a token (if any) carrying its own line, and not EOF. */
  predicate WellFormedStep(st: Step)
  {
    st.token.Some? ==> st.token.value.kind != Eof && st.token.value.line == st.line
  }

  lemma WithOptionalEqualMoves(c: char, rest: seq<char>, line: int, withEqual: TokenKind, alone: TokenKind)
    ensures Advances(rest, line, WithOptionalEqual(c, rest, line, withEqual, alone))
  {
    if |rest| > 0 && rest[0] == '=' { MovesOne(rest, line); } else { MovesRefl(rest, line); }
  }

  lemma DoubledMoves(c: char, rest: seq<char>, line: int, doubled: TokenKind)
    requires |rest| > 0 && rest[0] == c && c != '\n'
    ensures Advances(rest, line, Doubled(c, rest, line, doubled))
  {
    MovesOne(rest, line);
  }

  lemma OperatorMoves(c: char, rest: seq<char>, line: int)
    requires IsOperatorChar(c)
    ensures var r := OperatorToken(c, rest, line);
      r.Ok? ==> (Advances(rest, line, r.value) && WellFormedStep(r.value) &&
        (r.value.token.Some? ==> r.value.token.value.kind != TemplateLiteral))
  {
    var doubled := |rest| > 0 && rest[0] == c;
    if c == '/' {
      assert OperatorToken(c, rest, line) == SlashToken(rest, line);
      SlashMoves(rest, line);
    } else if c == '&' || c == '|' {
      if doubled { DoubledMoves(c, rest, line, if c == '&' then And else Or); }
    } else if (c == '+' || c == '-') && doubled {
      DoubledMoves(c, rest, line, if c == '+' then Increment else Decrement);
    } else if c == '!' {
      WithOptionalEqualMoves(c, rest, line, NotEqual, Bang);
    } else if c == '+' {
      WithOptionalEqualMoves(c, rest, line, PlusEqual, Plus);
    } else if c == '-' {
      WithOptionalEqualMoves(c, rest, line, MinusEqual, Minus);
    } else if c == '*' {
      WithOptionalEqualMoves(c, rest, line, StarEqual, Star);
    } else if c == '%' {
      WithOptionalEqualMoves(c, rest, line, ModuloEqual, Modulo);
    } else if c == '=' {
      WithOptionalEqualMoves(c, rest, line, Equal, Assignment);
    } else if c == '<' {
      WithOptionalEqualMoves(c, rest, line, LessOrEqual, LessThen);
    } else {
      WithOptionalEqualMoves(c, rest, line, GreaterOrEqual, GreaterThen);
    }
  }

  lemma {:induction false} SkipToLineEndMoves(s: seq<char>)
    ensures Suffix(SkipToLineEnd(s), s) && '\n' !in Consumed(s, SkipToLineEnd(s))
  {
    if s == [] || s[0] == '\n' {
      assert Consumed(s, s) == [];
    } else {
      SkipToLineEndMoves(s[1..]);
      ConsumedStep(s, SkipToLineEnd(s[1..]));
    }
  }

  lemma {:induction false} SkipBlockBodyMoves(s: seq<char>, line: int)
    ensures Moves(s, line, SkipBlockBody(s, line).0, SkipBlockBody(s, line).1)
    decreases |s|
  {
    if s == [] || (s[0] == '*' && |s| > 1 && s[1] == '/') {
      MovesRefl(s, line);
    } else {
      var line' := if s[0] == '\n' then line + 1 else line;
      var r := SkipBlockBody(s[1..], line');
      SkipBlockBodyMoves(s[1..], line');
      MovesOne(s, line);
      MovesTrans(s, line, s[1..], line', r.0, r.1);
    }
  }

  lemma SlashMoves(rest: seq<char>, line: int)
    ensures var r := SlashToken(rest, line);
      r.Ok? ==> (Advances(rest, line, r.value) && WellFormedStep(r.value) &&
        (r.value.token.Some? ==> r.value.token.value.kind != TemplateLiteral))
  {
    if |rest| > 0 && rest[0] == '/' {
      var r := SkipToLineEnd(rest[1..]);
      SkipToLineEndMoves(rest[1..]);
      if r != [] {
        MovesOne(rest, line);
        MovesDrop(rest[1..], |rest[1..]| - |r|, line);
        MovesOne(r, line);
        MovesTrans(rest, line, rest[1..], line, r, line);
        MovesTrans(rest, line, r, line, r[1..], line + 1);
      }
    } else if |rest| > 0 && rest[0] == '*' {
      var (r, line') := SkipBlockBody(rest[1..], line);
      SkipBlockBodyMoves(rest[1..], line);
      if r != [] {
        MovesOne(rest, line);
        MovesTrans(rest, line, rest[1..], line, r, line');
        MovesDrop(r, 2, line');
        MovesTrans(rest, line, r, line', r[2..], line');
      }
    } else {
      WithOptionalEqualMoves('/', rest, line, SlashEqual, Slash);
    }
  }

  lemma {:induction false} ScanStringMoves(s: seq<char>, delim: char, acc: string, line: int)
    requires ScanString(s, delim, acc, line).Ok?
    ensures var (str, r) := ScanString(s, delim, acc, line).value;
      Suffix(r, s) && str == acc + Consumed(s, r) && '\n' !in Consumed(s, r)
    decreases |s|
  {
    if s != [] && (s[0] != delim || EndsWith(acc, '\\')) {
      ScanStringMoves(s[1..], delim, acc + [s[0]], line);
      ConsumedStep(s, ScanString(s, delim, acc, line).value.1);
    } else {
      assert Consumed(s, s) == [];
    }
  }

  lemma StringMoves(delim: char, rest: seq<char>, line: int)
    requires IsQuote(delim)
    ensures var r := StringLiteralToken(delim, rest, line);
      r.Ok? ==> (Advances(rest, line, r.value) && WellFormedStep(r.value) &&
        r.value.token.Some? && r.value.token.value.kind == StringLiteral)
  {
    var res := ScanString(rest, delim, [], line);
    if res.Ok? && res.value.1 != [] {
      ScanStringMoves(rest, delim, [], line);
      var r := res.value.1;
      MovesDrop(rest, |rest| - |r|, line);
      MovesOne(r, line);
      MovesTrans(rest, line, r, line, r[1..], line);
    }
  }

  lemma {:induction false} ScanTemplateMoves(s: seq<char>, acc: string, line: int)
    ensures var (str, r, line') := ScanTemplate(s, acc, line);
      Moves(s, line, r, line') && str == acc + Consumed(s, r) && '`' !in Consumed(s, r)
    decreases |s|
  {
    if s == [] || s[0] == '`' {
      MovesRefl(s, line);
    } else {
      var line' := if s[0] == '\n' then line + 1 else line;
      var r := ScanTemplate(s[1..], acc + [s[0]], line');
      ScanTemplateMoves(s[1..], acc + [s[0]], line');
      MovesOne(s, line);
      MovesTrans(s, line, s[1..], line', r.1, r.2);
      ConsumedStep(s, r.1);
    }
  }

  lemma TemplateMoves(rest: seq<char>, line: int)
    ensures var r := TemplateLiteralToken(rest, line);
      r.Ok? ==> (Advances(rest, line, r.value) && WellFormedStep(r.value) &&
        r.value.token.Some? && r.value.token.value.kind == TemplateLiteral &&
        '`' !in r.value.token.value.text)
  {
    var (str, r, line') := ScanTemplate(rest, [], line);
    ScanTemplateMoves(rest, [], line);
    if r != [] {
      MovesOne(r, line');
      MovesTrans(rest, line, r, line', r[1..], line');
    }
  }

  lemma IdentifierMoves(c: char, rest: seq<char>, line: int)
    ensures Advances(rest, line, IdentifierToken(c, rest, line)) && WellFormedStep(IdentifierToken(c, rest, line))
  {
    MovesDrop(rest, IdentRun(rest), line);
  }

  lemma NumberMoves(c: char, rest: seq<char>, line: int)
    ensures var r := NumberLiteralToken(c, rest, line);
      r.Ok? ==> (Advances(rest, line, r.value) && WellFormedStep(r.value) &&
        r.value.token.Some? && r.value.token.value.kind == NumberLiteral)
  {
    MovesDrop(rest, NumberRun(rest), line);
  }

  /** Every helper moves through the input as the line counting demands and
      yields neither an EOF token nor, except for a backtick, a template. */
  lemma DispatchMoves(c: char, rest: seq<char>, line: int)
    ensures var r := Dispatch(c, rest, line);
      r.Ok? ==> Advances(rest, if c == '\n' then line + 1 else line, r.value) && WellFormedStep(r.value)
    ensures var r := Dispatch(c, rest, line);
      r.Ok? && r.value.token.Some? && r.value.token.value.kind == TemplateLiteral ==>
        c == '`' && '`' !in r.value.token.value.text
  {
    if c == '\n' {
      MovesRefl(rest, line + 1);
    } else if c == ' ' || c == '\t' || c == '\r' || SingleCharKind(c).Some? {
      MovesRefl(rest, line);
    } else if IsOperatorChar(c) {
      OperatorMoves(c, rest, line);
    } else if IsQuote(c) {
      StringMoves(c, rest, line);
    } else if c == '`' {
      TemplateMoves(rest, line);
    } else if IsDigit(c) {
      NumberMoves(c, rest, line);
    } else if IsIdentStart(c) {
      IdentifierMoves(c, rest, line);
    }
  }

  // ---------------------------------------------------------------------
  // One token, all tokens

  /** Reads one token from non-empty input s: consumes its first character and
      dispatches on it. Every success consumes at least that character, counts
      the line breaks it consumed, and never yields an EOF token. */
  function ParseToken(s: seq<char>, line: int): Result<Step, LexError>
    requires |s| > 0
  {
    Dispatch(s[0], s[1..], line)
  }

  /** Every success of ParseToken consumes at least one character, counts the
      line breaks it consumed, and never yields an EOF token; a template token
      comes only from a backtick and holds none. */
  lemma ParseTokenMoves(s: seq<char>, line: int)
    requires |s| > 0
    ensures var r := ParseToken(s, line);
      r.Ok? ==> Advances(s, line, r.value) && |r.value.rest| < |s|
    ensures var r := ParseToken(s, line); r.Ok? ==> WellFormedStep(r.value)
    ensures var r := ParseToken(s, line);
      r.Ok? && r.value.token.Some? && r.value.token.value.kind == TemplateLiteral ==>
        s[0] == '`' && '`' !in r.value.token.value.text
  {
    DispatchMoves(s[0], s[1..], line);
    var r := Dispatch(s[0], s[1..], line);
    if r.Ok? {
      MovesOne(s, line);
      MovesTrans(s, line, s[1..], if s[0] == '\n' then line + 1 else line, r.value.rest, r.value.line);
    }
  }

  function OptionToSeq<T>(o: Option<T>): seq<T>
  {
    if o.Some? then [o.value] else []
  }

  /** Reads tokens until the input is exhausted, then appends the EOF token
      carrying the final line. */
  function ParseTokens(s: seq<char>, line: int): Result<seq<Token>, LexError>
    decreases |s|
  {
    if s == [] then Ok([Token(Eof, "EOF", line)])
    else
      ParseTokenMoves(s, line);
      match ParseToken(s, line)
      case Err(e) => Err(e)
      case Ok(st) =>
        match ParseTokens(st.rest, st.line)
        case Err(e) => Err(e)
        case Ok(ts) => Ok(OptionToSeq(st.token) + ts)
  }

  /** The lexer's entry point: lines are counted from 1. */
  function Tokenize(input: seq<char>): Result<seq<Token>, LexError>
  {
    ParseTokens(input, 1)
  }
}
