// The lexer as the source runs it: an object holding the characters not yet
// read and the current line, consumed from the front by each helper. Every
// method is proved to leave the object in the state, and to return the
// result, that the functions of LexerSpec give for the state it started in.
module Lexing {
  import opened Wrappers
  import opened Tokens
  import opened LexerSpec
  import LexerProps

  class Lexer {
    /** The characters not yet read. */
    var chars: seq<char>
    /** The line the lexer is on. */
    var line: int

    constructor ()
      ensures chars == [] && line == 1
    {
      chars := [];
      line := 1;
    }

    /** The method's result and the object's new state are those of the step
        `spec`; after a failure only the error is fixed. */
    ghost predicate Agrees(r: Result<Option<Token>, LexError>, spec: Result<Step, LexError>)
      reads this
    {
      match spec
      case Err(e) => r == Err(e)
      case Ok(st) => r == Ok(st.token) && chars == st.rest && line == st.line
    }

    /** The character `index` places ahead, if there is one. */
    method Seek(index: nat) returns (c: Option<char>)
      ensures c == if index < |chars| then Some(chars[index]) else None
    {
      if index < |chars| { c := Some(chars[index]); } else { c := None; }
    }

    /** Removes and returns the next character; at the end of the input it
        fails with 'Unexpected EOF'. */
    method Consume() returns (r: Result<char, LexError>)
      modifies this
      ensures old(chars) == [] ==> r == Err(LexError("Unexpected EOF", line)) && chars == []
      ensures old(chars) != [] ==> r == Ok(old(chars)[0]) && chars == old(chars)[1..]
      ensures line == old(line)
    {
      if chars == [] {
        r := Err(LexError("Unexpected EOF", line));
      } else {
        r := Ok(chars[0]);
        chars := chars[1..];
      }
    }

    /** Consume where the caller has checked that a character is left. */
    method Shift() returns (c: char)
      requires chars != []
      modifies this
      ensures c == old(chars)[0] && chars == old(chars)[1..] && line == old(line)
    {
      c := chars[0];
      chars := chars[1..];
    }

    /** The lexer's entry point. */
    method Tokenize(input: seq<char>) returns (r: Result<seq<Token>, LexError>)
      modifies this
      ensures r == LexerSpec.Tokenize(input)
    {
      chars := input;
      line := 1;
      r := ParseTokens();
    }

    /** Reads tokens until no character is left, then appends EOF. */
    method ParseTokens() returns (r: Result<seq<Token>, LexError>)
      modifies this
      ensures r == LexerSpec.ParseTokens(old(chars), old(line))
    {
      var tokens: seq<Token> := [];
      assert Prepend(tokens, LexerSpec.ParseTokens(chars, line)) == LexerSpec.ParseTokens(chars, line) by {
        if LexerSpec.ParseTokens(chars, line).Ok? {
          assert tokens + LexerSpec.ParseTokens(chars, line).value == LexerSpec.ParseTokens(chars, line).value;
        }
      }
      while |chars| > 0
        invariant LexerSpec.ParseTokens(old(chars), old(line)) == Prepend(tokens, LexerSpec.ParseTokens(chars, line))
        decreases |chars|
      {
        ghost var before, lineBefore := chars, line;
        ParseTokensStep(chars, line);
        var t := ParseToken();
        if t.Err? {
          return Err(t.error);
        }
        PrependTwice(tokens, t.value, LexerSpec.ParseTokens(chars, line));
        tokens := tokens + OptionToSeq(t.value);
      }
      r := Ok(tokens + [Token(Eof, "EOF", line)]);
    }

    /** Reads one token, or nothing for white space and comments. */
    method ParseToken() returns (r: Result<Option<Token>, LexError>)
      requires |chars| > 0
      modifies this
      ensures Agrees(r, LexerSpec.ParseToken(old(chars), old(line)))
    {
      LexerProps.ParseTokenDispatch(chars, line);
      var c := Shift();
      if c == '\n' {
        line := line + 1;
        return Ok(None);
      }
      if c == ' ' || c == '\t' || c == '\r' {
        return Ok(None);
      }
      var single := SingleCharKind(c);
      if single.Some? {
        return Ok(Some(Token(single.value, [c], line)));
      }
      if IsOperatorChar(c) {
        LexerProps.DispatchOperator(c, chars, line);
        r := ParseOperator(c);
        return;
      }
      if IsQuote(c) {
        LexerProps.DispatchQuote(c, chars, line);
        r := ParseStringLiteralToken(c);
        return;
      }
      if c == '`' {
        LexerProps.DispatchBacktick(chars, line);
        r := ParseTemplateLiteralToken();
        return;
      }
      if IsDigit(c) {
        LexerProps.DispatchDigit(c, chars, line);
        r := ParseNumberLiteralToken(c);
        return;
      }
      if IsIdentStart(c) {
        LexerProps.DispatchIdentStart(c, chars, line);
        r := ParseIdentifierToken(c);
        return;
      }
      assert Dispatch(c, chars, line) == Err(LexError("Unexpected token '" + [c] + "'", line)) by {
        assert SingleCharKind(c) == None;
      }
      r := Err(LexError("Unexpected token '" + [c] + "'", line));
    }

    /** The helpers of the operator characters. */
    method ParseOperator(c: char) returns (r: Result<Option<Token>, LexError>)
      requires IsOperatorChar(c)
      modifies this
      ensures Agrees(r, OperatorToken(c, old(chars), old(line)))
    {
      if c == '/' {
        r := ParseSlashToken();
      } else if c == '+' {
        r := ParseDoubledOrEqual(c, Increment, PlusEqual, Plus);
      } else if c == '-' {
        r := ParseDoubledOrEqual(c, Decrement, MinusEqual, Minus);
      } else if c == '&' {
        r := ParseDoubledOnly(c, And);
      } else if c == '|' {
        r := ParseDoubledOnly(c, Or);
      } else {
        var (withEqual, alone) :=
          if c == '!' then (NotEqual, Bang)
          else if c == '*' then (StarEqual, Star)
          else if c == '%' then (ModuloEqual, Modulo)
          else if c == '=' then (Equal, Assignment)
          else if c == '<' then (LessOrEqual, LessThen)
          else (GreaterOrEqual, GreaterThen);
        assert OperatorToken(c, chars, line) == Ok(WithOptionalEqual(c, chars, line, withEqual, alone));
        var t := ParseOptionalEqual(c, withEqual, alone);
        r := Ok(t);
      }
    }

    /** The shape shared by the less, greater, equal, modulo, star, bang and
        non-comment slash helpers: c, or c followed by '='. */
    method ParseOptionalEqual(c: char, withEqual: TokenKind, alone: TokenKind) returns (t: Option<Token>)
      modifies this
      ensures Agrees(Ok(t), Ok(WithOptionalEqual(c, old(chars), old(line), withEqual, alone)))
    {
      var next := Seek(0);
      if next == Some('=') {
        var e := Shift();
        return Some(Token(withEqual, [c, e], line));
      }
      return Some(Token(alone, [c], line));
    }

    /** The plus and minus helpers: the doubled operator is tried first. */
    method ParseDoubledOrEqual(c: char, doubled: TokenKind, withEqual: TokenKind, alone: TokenKind) returns (r: Result<Option<Token>, LexError>)
      requires (c == '+' && doubled == Increment && withEqual == PlusEqual && alone == Plus) ||
               (c == '-' && doubled == Decrement && withEqual == MinusEqual && alone == Minus)
      modifies this
      ensures Agrees(r, OperatorToken(c, old(chars), old(line)))
    {
      var next := Seek(0);
      if next == Some(c) {
        var d := Shift();
        return Ok(Some(Token(doubled, [c, d], line)));
      }
      var t := ParseOptionalEqual(c, withEqual, alone);
      r := Ok(t);
    }

    /** The and and or helpers: the character must be doubled. */
    method ParseDoubledOnly(c: char, doubled: TokenKind) returns (r: Result<Option<Token>, LexError>)
      requires (c == '&' && doubled == And) || (c == '|' && doubled == Or)
      modifies this
      ensures Agrees(r, OperatorToken(c, old(chars), old(line)))
    {
      var next := Seek(0);
      if next == Some(c) {
        var d := Shift();
        return Ok(Some(Token(doubled, [c, d], line)));
      }
      if c == '&' {
        return Err(LexError("Unexpected single '&' token", line));
      }
      return Err(LexError("Unexpected single '|' token", line));
    }

    /** The slash helper: comments, "/=" and the plain slash. */
    method ParseSlashToken() returns (r: Result<Option<Token>, LexError>)
      modifies this
      ensures Agrees(r, SlashToken(old(chars), old(line)))
    {
      var next := Seek(0);
      if next == Some('/') {
        var _ := Shift();
        while |chars| > 0 && chars[0] != '\n'
          invariant SkipToLineEnd(chars) == SkipToLineEnd(old(chars)[1..])
          invariant line == old(line)
          decreases |chars|
        {
          var _ := Shift();
        }
        var nl := Consume();
        if nl.Err? {
          return Err(nl.error);
        }
        line := line + 1;
        return Ok(None);
      }
      if next == Some('*') {
        var _ := Shift();
        while |chars| > 0
          invariant SkipBlockBody(chars, line) == SkipBlockBody(old(chars)[1..], old(line))
          decreases |chars|
        {
          if chars[0] == '\n' {
            line := line + 1;
          }
          if chars[0] == '*' && |chars| > 1 && chars[1] == '/' {
            break;
          }
          var _ := Shift();
        }
        var star := Consume();
        if star.Err? {
          return Err(star.error);
        }
        var _ := Shift();
        return Ok(None);
      }
      var t := ParseOptionalEqual('/', SlashEqual, Slash);
      r := Ok(t);
    }

    /** The quoted-string helper. */
    method ParseStringLiteralToken(delim: char) returns (r: Result<Option<Token>, LexError>)
      requires IsQuote(delim)
      modifies this
      ensures Agrees(r, StringLiteralToken(delim, old(chars), old(line)))
    {
      var str: string := [];
      while |chars| > 0 && (chars[0] != delim || EndsWith(str, '\\'))
        invariant ScanString(chars, delim, str, line) == ScanString(old(chars), delim, [], old(line))
        invariant line == old(line)
        decreases |chars|
      {
        if chars[0] == '\n' {
          return Err(LexError("Unterminated string literal", line));
        }
        var c := Shift();
        str := str + [c];
      }
      if |chars| == 0 && !EndsWith(str, delim) {
        return Err(LexError("Unterminated string literal", line));
      }
      var closing := Consume();
      if closing.Err? {
        return Err(closing.error);
      }
      return Ok(Some(Token(StringLiteral, str, line)));
    }

    /** The template helper: raw text up to the next backtick. */
    method ParseTemplateLiteralToken() returns (r: Result<Option<Token>, LexError>)
      modifies this
      ensures Agrees(r, TemplateLiteralToken(old(chars), old(line)))
    {
      var str: string := [];
      while |chars| > 0 && chars[0] != '`'
        invariant ScanTemplate(chars, str, line) == ScanTemplate(old(chars), [], old(line))
        decreases |chars|
      {
        if chars[0] == '\n' {
          line := line + 1;
        }
        var c := Shift();
        str := str + [c];
      }
      if |chars| == 0 {
        return Err(LexError("Unterminated template literal", line));
      }
      var _ := Shift();
      return Ok(Some(Token(TemplateLiteral, str, line)));
    }

    /** The identifier helper: c and the run of identifier characters. */
    method ParseIdentifierToken(c: char) returns (r: Result<Option<Token>, LexError>)
      modifies this
      ensures Agrees(r, Ok(IdentifierToken(c, old(chars), old(line))))
    {
      var identifier := [c];
      while |chars| > 0 && IsIdentChar(chars[0])
        invariant identifier + chars[..IdentRun(chars)] == [c] + old(chars)[..IdentRun(old(chars))]
        invariant chars[IdentRun(chars)..] == old(chars)[IdentRun(old(chars))..]
        invariant line == old(line)
        decreases |chars|
      {
        assert chars[..IdentRun(chars)] == [chars[0]] + chars[1..][..IdentRun(chars[1..])];
        var d := Shift();
        identifier := identifier + [d];
      }
      assert identifier == [c] + old(chars)[..IdentRun(old(chars))] by {
        assert chars[..IdentRun(chars)] == [];
      }
      return Ok(Some(Token(Identifier, identifier, line)));
    }

    /** The number helper: c and the run of digits and dots, which must
        denote a number. */
    method ParseNumberLiteralToken(c: char) returns (r: Result<Option<Token>, LexError>)
      modifies this
      ensures Agrees(r, NumberLiteralToken(c, old(chars), old(line)))
    {
      var number := [c];
      while |chars| > 0 && IsNumberChar(chars[0])
        invariant number + chars[..NumberRun(chars)] == [c] + old(chars)[..NumberRun(old(chars))]
        invariant chars[NumberRun(chars)..] == old(chars)[NumberRun(old(chars))..]
        invariant line == old(line)
        decreases |chars|
      {
        assert chars[..NumberRun(chars)] == [chars[0]] + chars[1..][..NumberRun(chars[1..])];
        var d := Shift();
        number := number + [d];
      }
      assert number == [c] + old(chars)[..NumberRun(old(chars))] by {
        assert chars[..NumberRun(chars)] == [];
      }
      if Occurrences(number, '.') > 1 {
        return Err(LexError("Invalid number literal: '" + number + "'", line));
      }
      return Ok(Some(Token(NumberLiteral, number, line)));
    }
  }

  /** Puts pre in front of a successful token list. */
  function Prepend(pre: seq<Token>, r: Result<seq<Token>, LexError>): Result<seq<Token>, LexError>
  {
    match r
    case Err(e) => Err(e)
    case Ok(ts) => Ok(pre + ts)
  }

  /** One turn of the token loop: the first token, then the rest. */
  lemma ParseTokensStep(s: seq<char>, line: int)
    requires |s| > 0
    ensures LexerSpec.ParseToken(s, line).Err? ==>
      LexerSpec.ParseTokens(s, line) == Err(LexerSpec.ParseToken(s, line).error)
    ensures LexerSpec.ParseToken(s, line).Ok? ==>
      (var st := LexerSpec.ParseToken(s, line).value;
       |st.rest| < |s| &&
       LexerSpec.ParseTokens(s, line) == Prepend(OptionToSeq(st.token), LexerSpec.ParseTokens(st.rest, st.line)))
  {
    ParseTokenMoves(s, line);
  }

  lemma PrependTwice(pre: seq<Token>, t: Option<Token>, r: Result<seq<Token>, LexError>)
    ensures Prepend(pre, Prepend(OptionToSeq(t), r)) == Prepend(pre + OptionToSeq(t), r)
  {
    if r.Ok? {
      assert pre + (OptionToSeq(t) + r.value) == pre + OptionToSeq(t) + r.value;
    }
  }
}
