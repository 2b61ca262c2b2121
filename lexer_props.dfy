// Properties of the lexer functions: the shape of a whole token list, and
// what each kind of lexeme turns into.
module LexerProps {
  import opened Wrappers
  import opened Tokens
  import opened LexerSpec

  // ---------------------------------------------------------------------
  // The token list

  /** A successful token list ends with exactly one EOF token, with text
      "EOF" and the line reached after counting every line break of s. */
  lemma {:induction false} EofLast(s: seq<char>, line: int)
    requires ParseTokens(s, line).Ok?
    ensures var ts := ParseTokens(s, line).value;
      |ts| > 0 && ts[|ts| - 1] == Token(Eof, "EOF", line + Newlines(s)) &&
      forall i :: 0 <= i < |ts| - 1 ==> ts[i].kind != Eof
  {
    if s != [] {
      ParseTokenMoves(s, line);
      var st := ParseToken(s, line).value;
      EofLast(st.rest, st.line);
      assert s == Consumed(s, st.rest) + st.rest;
      OccurrencesAppend(Consumed(s, st.rest), st.rest, '\n');
    }
  }

  /** The whole input, lines counted from 1. */
  lemma TokenizeEndsWithEof(input: seq<char>)
    requires Tokenize(input).Ok?
    ensures var ts := Tokenize(input).value;
      |ts| > 0 && ts[|ts| - 1] == Token(Eof, "EOF", 1 + Newlines(input)) &&
      forall i :: 0 <= i < |ts| - 1 ==> ts[i].kind != Eof
  {
    EofLast(input, 1);
  }

  predicate IsBlank(c: char) { c == ' ' || c == '\t' || c == '\r' || c == '\n' }

  /** Spaces, tabs, carriage returns and line breaks produce no token; each
      line break adds one to the line. */
  lemma {:induction false} BlankInput(s: seq<char>, line: int)
    requires forall i :: 0 <= i < |s| ==> IsBlank(s[i])
    ensures ParseTokens(s, line) == Ok([Token(Eof, "EOF", line + Newlines(s))])
  {
    if s != [] {
      var line' := if s[0] == '\n' then line + 1 else line;
      ParseTokenDispatch(s, line);
      assert SingleCharKind(s[0]) == None;
      assert ParseToken(s, line) == Ok(Step(None, s[1..], line'));
      BlankInput(s[1..], line');
      assert Newlines(s) == (if s[0] == '\n' then 1 else 0) + Newlines(s[1..]);
      assert OptionToSeq<Token>(None) == [];
      var ts := [Token(Eof, "EOF", line' + Newlines(s[1..]))];
      assert ParseTokens(s[1..], line') == Ok(ts);
      assert ParseTokens(s, line) == Ok([] + ts);
      assert [] + ts == ts;
      assert line' + Newlines(s[1..]) == line + Newlines(s);
    } else {
      assert Newlines(s) == 0;
    }
  }

  /** Input without a backtick yields no template token. */
  lemma {:induction false} NoTemplateWithoutBacktick(s: seq<char>, line: int)
    requires '`' !in s && ParseTokens(s, line).Ok?
    ensures forall t | t in ParseTokens(s, line).value :: t.kind != TemplateLiteral
  {
    if s != [] {
      ParseTokenMoves(s, line);
      var st := ParseToken(s, line).value;
      assert st.rest == s[|s| - |st.rest|..];
      assert '`' !in st.rest;
      NoTemplateWithoutBacktick(st.rest, st.line);
    }
  }

  // ---------------------------------------------------------------------
  // Dispatch on the first character

  lemma ParseTokenDispatch(s: seq<char>, line: int)
    requires |s| > 0
    ensures ParseToken(s, line) == Dispatch(s[0], s[1..], line)
  {
  }

  lemma DispatchOperator(c: char, rest: seq<char>, line: int)
    requires IsOperatorChar(c)
    ensures Dispatch(c, rest, line) == OperatorToken(c, rest, line)
  {
    assert SingleCharKind(c) == None;
  }

  lemma DispatchQuote(c: char, rest: seq<char>, line: int)
    requires IsQuote(c)
    ensures Dispatch(c, rest, line) == StringLiteralToken(c, rest, line)
  {
    assert !IsOperatorChar(c);
    assert SingleCharKind(c) == None;
  }

  lemma DispatchDigit(c: char, rest: seq<char>, line: int)
    requires IsDigit(c)
    ensures Dispatch(c, rest, line) == NumberLiteralToken(c, rest, line)
  {
    assert !IsOperatorChar(c) && !IsQuote(c);
    assert SingleCharKind(c) == None;
  }

  lemma DispatchIdentStart(c: char, rest: seq<char>, line: int)
    requires IsIdentStart(c)
    ensures Dispatch(c, rest, line) == Ok(IdentifierToken(c, rest, line))
  {
    assert !IsOperatorChar(c) && !IsQuote(c) && !IsDigit(c);
    assert SingleCharKind(c) == None;
  }

  lemma DispatchBacktick(rest: seq<char>, line: int)
    ensures Dispatch('`', rest, line) == TemplateLiteralToken(rest, line)
  {
    assert !IsOperatorChar('`') && !IsQuote('`');
    assert SingleCharKind('`') == None;
  }

  lemma DispatchSlash(rest: seq<char>, line: int)
    ensures Dispatch('/', rest, line) == SlashToken(rest, line)
  {
    assert IsOperatorChar('/');
    assert SingleCharKind('/') == None;
    assert OperatorToken('/', rest, line) == SlashToken(rest, line);
  }

  // ---------------------------------------------------------------------
  // Operators

  /** The operator table, one- and two-character operators alike. */
  function OperatorKind(op: string): Option<TokenKind>
  {
    if op == "==" then Some(Equal)
    else if op == "!=" then Some(NotEqual)
    else if op == "<=" then Some(LessOrEqual)
    else if op == ">=" then Some(GreaterOrEqual)
    else if op == "++" then Some(Increment)
    else if op == "+=" then Some(PlusEqual)
    else if op == "--" then Some(Decrement)
    else if op == "-=" then Some(MinusEqual)
    else if op == "*=" then Some(StarEqual)
    else if op == "/=" then Some(SlashEqual)
    else if op == "%=" then Some(ModuloEqual)
    else if op == "&&" then Some(And)
    else if op == "||" then Some(Or)
    else if op == "=" then Some(Assignment)
    else if op == "!" then Some(Bang)
    else if op == "<" then Some(LessThen)
    else if op == ">" then Some(GreaterThen)
    else if op == "+" then Some(Plus)
    else if op == "-" then Some(Minus)
    else if op == "*" then Some(Star)
    else if op == "/" then Some(Slash)
    else if op == "%" then Some(Modulo)
    else None
  }

  /** Maximal munch: an operator character followed by a character that
      completes a two-character operator yields that operator; otherwise the
      one-character operator; a lone '&' or '|' is an error. Slash-slash and
      slash-star begin comments instead. */
  lemma OperatorMunch(s: seq<char>, line: int)
    requires |s| > 0 && IsOperatorChar(s[0])
    requires !(|s| > 1 && s[0] == '/' && (s[1] == '/' || s[1] == '*'))
    ensures ParseToken(s, line) ==
      if |s| > 1 && OperatorKind(s[..2]).Some? then
        Ok(Step(Some(Token(OperatorKind(s[..2]).value, s[..2], line)), s[2..], line))
      else if OperatorKind(s[..1]).Some? then
        Ok(Step(Some(Token(OperatorKind(s[..1]).value, s[..1], line)), s[1..], line))
      else
        Err(LexError("Unexpected single '" + s[..1] + "' token", line))
  {
    ParseTokenDispatch(s, line);
    DispatchOperator(s[0], s[1..], line);
    assert s[..1] == [s[0]];
    if |s| == 1 {
      assert s[1..] == [];
      MunchSingle(s[0], line);
    } else {
      assert s[1..][0] == s[1];
      assert s[1..][1..] == s[2..];
      assert s[..2] == [s[0], s[1]];
      var c, d := s[0], s[1];
      assert s[1..] == [d] + s[2..];
      if c == '!' || c == '*' || c == '%' || c == '=' || c == '<' || c == '>' || c == '/' {
        MunchWithEqual(c, d, s[2..], line);
      } else if c == '+' || c == '-' {
        MunchPlusMinus(c, d, s[2..], line);
      } else {
        MunchAndOr(c, d, s[2..], line);
      }
    }
  }

  lemma MunchWithEqual(c: char, d: char, after: seq<char>, line: int)
    requires c == '!' || c == '*' || c == '%' || c == '=' || c == '<' || c == '>' || c == '/'
    requires !(c == '/' && (d == '/' || d == '*'))
    ensures OperatorToken(c, [d] + after, line) ==
      if OperatorKind([c, d]).Some? then Ok(Step(Some(Token(OperatorKind([c, d]).value, [c, d], line)), after, line))
      else Ok(Step(Some(Token(OperatorKind([c]).value, [c], line)), [d] + after, line))
  {
    assert ([d] + after)[1..] == after;
    if d == '=' {
      assert OperatorKind([c, d]).Some?;
    } else {
      assert OperatorKind([c, d]).None?;
    }
  }

  lemma MunchPlusMinus(c: char, d: char, after: seq<char>, line: int)
    requires c == '+' || c == '-'
    ensures OperatorToken(c, [d] + after, line) ==
      if OperatorKind([c, d]).Some? then Ok(Step(Some(Token(OperatorKind([c, d]).value, [c, d], line)), after, line))
      else Ok(Step(Some(Token(OperatorKind([c]).value, [c], line)), [d] + after, line))
  {
    assert ([d] + after)[1..] == after;
    if d == '=' || d == c {
      assert OperatorKind([c, d]).Some?;
    } else {
      assert OperatorKind([c, d]).None?;
    }
  }

  lemma MunchAndOr(c: char, d: char, after: seq<char>, line: int)
    requires c == '&' || c == '|'
    ensures OperatorToken(c, [d] + after, line) ==
      if OperatorKind([c, d]).Some? then Ok(Step(Some(Token(OperatorKind([c, d]).value, [c, d], line)), after, line))
      else Err(LexError("Unexpected single '" + [c] + "' token", line))
  {
    assert ([d] + after)[1..] == after;
    if d == c {
      assert OperatorKind([c, d]).Some?;
    } else {
      assert OperatorKind([c, d]).None?;
    }
    assert OperatorKind([c]).None?;
    LoneMessage(c);
  }

  lemma LoneMessage(c: char)
    requires c == '&' || c == '|'
    ensures OperatorToken(c, [], 0).Err?
    ensures "Unexpected single '" + [c] + "' token" ==
      if c == '&' then "Unexpected single '&' token" else "Unexpected single '|' token"
  {
  }

  lemma MunchSingle(c: char, line: int)
    requires IsOperatorChar(c)
    ensures OperatorToken(c, [], line) ==
      if OperatorKind([c]).Some? then Ok(Step(Some(Token(OperatorKind([c]).value, [c], line)), [], line))
      else Err(LexError("Unexpected single '" + [c] + "' token", line))
  {
    if c == '&' || c == '|' {
      LoneMessage(c);
    }
  }

  // ---------------------------------------------------------------------
  // String literals

  lemma {:induction false} ScanPlain(body: seq<char>, delim: char, after: seq<char>, acc: string, line: int)
    requires delim !in body && '\\' !in body && '\n' !in body
    requires !EndsWith(acc, '\\')
    ensures ScanString(body + [delim] + after, delim, acc, line) == Ok((acc + body, [delim] + after))
  {
    if body == [] {
      assert body + [delim] + after == [delim] + after;
      assert acc + body == acc;
    } else {
      assert (body + [delim] + after)[1..] == body[1..] + [delim] + after;
      ScanPlain(body[1..], delim, after, acc + [body[0]], line);
      assert acc + [body[0]] + body[1..] == acc + body;
    }
  }

  /** A quoted string without backslashes or line breaks is one string
      token holding exactly the text between the delimiters. */
  lemma PlainString(delim: char, body: seq<char>, after: seq<char>, line: int)
    requires IsQuote(delim)
    requires delim !in body && '\\' !in body && '\n' !in body
    ensures ParseToken([delim] + body + [delim] + after, line) ==
      Ok(Step(Some(Token(StringLiteral, body, line)), after, line))
  {
    var s := [delim] + body + [delim] + after;
    ParseTokenDispatch(s, line);
    assert s[0] == delim;
    assert s[1..] == body + [delim] + after;
    DispatchQuote(delim, s[1..], line);
    ScanPlain(body, delim, after, [], line);
    assert [] + body == body;
    assert ([delim] + after)[1..] == after;
  }

  /** Every string token is the text between the opening delimiter and a
      closing one: s is the delimiter, the token's text, the delimiter and
      the rest. The text has no raw line break, and the delimiter ending it
      does not follow a backslash. */
  lemma StringTokenShape(s: seq<char>, line: int)
    requires |s| > 0 && IsQuote(s[0]) && ParseToken(s, line).Ok?
    ensures var st := ParseToken(s, line).value;
      st.token.Some? && st.token.value.kind == StringLiteral && st.line == line &&
      s == [s[0]] + st.token.value.text + [s[0]] + st.rest &&
      '\n' !in st.token.value.text && !EndsWith(st.token.value.text, '\\')
  {
    ParseTokenDispatch(s, line);
    DispatchQuote(s[0], s[1..], line);
    StringLiteralShape(s[0], s[1..], line);
    assert s == [s[0]] + s[1..];
  }

  /** The same, for the text after the opening delimiter. */
  lemma StringLiteralShape(delim: char, rest: seq<char>, line: int)
    requires StringLiteralToken(delim, rest, line).Ok?
    ensures var st := StringLiteralToken(delim, rest, line).value;
      st.token.Some? && st.token.value.kind == StringLiteral && st.line == line &&
      rest == st.token.value.text + [delim] + st.rest &&
      '\n' !in st.token.value.text && !EndsWith(st.token.value.text, '\\')
  {
    var p := ScanString(rest, delim, [], line).value;
    StringTokenOfScan(delim, rest, line);
    ScanSplits(rest, delim, line);
    SplitAround(rest, p.0, p.1);
  }

  /** The string token is the scanned text; the scan stopped at the
      delimiter. */
  lemma StringTokenOfScan(delim: char, rest: seq<char>, line: int)
    requires StringLiteralToken(delim, rest, line).Ok?
    ensures ScanString(rest, delim, [], line).Ok?
    ensures var p := ScanString(rest, delim, [], line).value;
      p.1 != [] && p.1[0] == delim && !EndsWith(p.0, '\\') &&
      StringLiteralToken(delim, rest, line) == Ok(Step(Some(Token(StringLiteral, p.0, line)), p.1[1..], line))
  {
  }

  lemma SplitAround(s: seq<char>, front: seq<char>, back: seq<char>)
    requires s == front + back && back != []
    ensures s == front + [back[0]] + back[1..]
  {
    assert back == [back[0]] + back[1..];
  }

  /** A string scan from an empty text splits its input into the text and
      what follows it, and stops at any line break. */
  lemma ScanSplits(rest: seq<char>, delim: char, line: int)
    requires ScanString(rest, delim, [], line).Ok?
    ensures var p := ScanString(rest, delim, [], line).value;
      rest == p.0 + p.1 && '\n' !in p.0
  {
    var p := ScanString(rest, delim, [], line).value;
    ScanStringMoves(rest, delim, [], line);
    var k := |rest| - |p.1|;
    assert p.1 == rest[k..] && p.0 == [] + rest[..k];
    assert rest == rest[..k] + rest[k..];
  }

  /** A delimiter that follows a backslash does not end the string. */
  lemma EscapedDelimiter(delim: char, after: seq<char>, line: int)
    requires IsQuote(delim)
    ensures ParseToken([delim, '\\', delim, delim] + after, line) ==
      Ok(Step(Some(Token(StringLiteral, ['\\', delim], line)), after, line))
  {
    var s := [delim, '\\', delim, delim] + after;
    ParseTokenDispatch(s, line);
    DispatchQuote(delim, s[1..], line);
    assert s[1..] == ['\\', delim, delim] + after;
    assert s[1..][1..] == [delim, delim] + after;
    assert s[1..][1..][1..] == [delim] + after;
    assert ScanString([delim] + after, delim, ['\\', delim], line) == Ok((['\\', delim], [delim] + after));
    assert ([delim, delim] + after)[1..] == [delim] + after;
    assert ['\\'] + [delim] == ['\\', delim];
    assert ScanString(s[1..][1..], delim, ['\\'], line) == Ok((['\\', delim], [delim] + after));
    assert [] + ['\\'] == ['\\'];
    assert ScanString(s[1..], delim, [], line) == Ok((['\\', delim], [delim] + after));
    assert ([delim] + after)[1..] == after;
  }

  /** A raw line break inside a string is an error. */
  lemma StringWithLineBreak(delim: char, body: seq<char>, after: seq<char>, line: int)
    requires IsQuote(delim)
    requires delim !in body && '\\' !in body && '\n' !in body
    ensures ParseToken([delim] + body + ['\n'] + after, line) ==
      Err(LexError("Unterminated string literal", line))
  {
    var s := [delim] + body + ['\n'] + after;
    ParseTokenDispatch(s, line);
    DispatchQuote(delim, s[1..], line);
    assert s[1..] == body + ['\n'] + after;
    StringBreakScan(body, delim, after, [], line);
  }

  lemma {:induction false} StringBreakScan(body: seq<char>, delim: char, after: seq<char>, acc: string, line: int)
    requires IsQuote(delim) && delim !in body && '\\' !in body && '\n' !in body
    requires !EndsWith(acc, '\\')
    ensures ScanString(body + ['\n'] + after, delim, acc, line) == Err(LexError("Unterminated string literal", line))
  {
    if body != [] {
      assert (body + ['\n'] + after)[1..] == body[1..] + ['\n'] + after;
      StringBreakScan(body[1..], delim, after, acc + [body[0]], line);
    }
  }

  /** End of input before the closing delimiter is an error. */
  lemma UnclosedString(delim: char, body: seq<char>, line: int)
    requires IsQuote(delim)
    requires delim !in body && '\\' !in body && '\n' !in body
    ensures ParseToken([delim] + body, line) == Err(LexError("Unterminated string literal", line))
  {
    ParseTokenDispatch([delim] + body, line);
    assert ([delim] + body)[1..] == body;
    DispatchQuote(delim, body, line);
    UnclosedScan(body, delim, [], line);
  }

  lemma {:induction false} UnclosedScan(body: seq<char>, delim: char, acc: string, line: int)
    requires IsQuote(delim) && delim !in body && '\\' !in body && '\n' !in body
    requires !EndsWith(acc, '\\') && !(body == [] && EndsWith(acc, delim))
    ensures ScanString(body, delim, acc, line) == Ok((acc + body, []))
  {
    if body != [] {
      UnclosedScan(body[1..], delim, acc + [body[0]], line);
      assert acc + [body[0]] + body[1..] == acc + body;
    } else {
      assert acc + body == acc;
    }
  }

  // ---------------------------------------------------------------------
  // Numbers, identifiers, other characters

  /** A number token is the maximal run of digits and dots starting at a
      digit, kept verbatim; it is an error exactly when the run holds more
      than one dot. */
  lemma NumberLexeme(s: seq<char>, line: int)
    requires |s| > 0 && IsDigit(s[0])
    ensures var k := 1 + NumberRun(s[1..]);
      k <= |s| && (forall i :: 0 <= i < k ==> IsNumberChar(s[i])) &&
      (k == |s| || !IsNumberChar(s[k])) &&
      ParseToken(s, line) ==
        if Occurrences(s[..k], '.') > 1 then Err(LexError("Invalid number literal: '" + s[..k] + "'", line))
        else Ok(Step(Some(Token(NumberLiteral, s[..k], line)), s[k..], line))
  {
    ParseTokenDispatch(s, line);
    DispatchDigit(s[0], s[1..], line);
    var k := 1 + NumberRun(s[1..]);
    assert s[..k] == [s[0]] + s[1..][..k - 1];
    assert s[1..][k - 1..] == s[k..];
    forall i | 0 <= i < k ensures IsNumberChar(s[i]) {
      if i > 0 { assert s[i] == s[1..][i - 1]; }
    }
  }

  /** An identifier is a letter or '_' followed by the maximal run of
      letters, digits and '_'. Keywords are identifiers too. */
  lemma IdentifierLexeme(s: seq<char>, line: int)
    requires |s| > 0 && IsIdentStart(s[0])
    ensures var k := 1 + IdentRun(s[1..]);
      k <= |s| && (forall i :: 0 <= i < k ==> IsIdentChar(s[i])) &&
      (k == |s| || !IsIdentChar(s[k])) &&
      ParseToken(s, line) == Ok(Step(Some(Token(Identifier, s[..k], line)), s[k..], line))
  {
    ParseTokenDispatch(s, line);
    DispatchIdentStart(s[0], s[1..], line);
    var k := 1 + IdentRun(s[1..]);
    assert s[..k] == [s[0]] + s[1..][..k - 1];
    assert s[1..][k - 1..] == s[k..];
    forall i | 0 <= i < k ensures IsIdentChar(s[i]) {
      if i > 0 { assert s[i] == s[1..][i - 1]; }
    }
  }

  /** The characters that begin some lexeme. */
  predicate Recognised(c: char)
  {
    IsBlank(c) || SingleCharKind(c).Some? || IsOperatorChar(c) || IsQuote(c) ||
    c == '`' || IsDigit(c) || IsIdentStart(c)
  }

  /** Any other character is an error naming it. */
  lemma UnexpectedCharacter(s: seq<char>, line: int)
    requires |s| > 0 && !Recognised(s[0])
    ensures ParseToken(s, line) == Err(LexError("Unexpected token '" + [s[0]] + "'", line))
  {
  }

  // ---------------------------------------------------------------------
  // Templates and comments

  lemma {:induction false} ScanTemplateClosed(body: seq<char>, after: seq<char>, acc: string, line: int)
    requires '`' !in body
    ensures ScanTemplate(body + ['`'] + after, acc, line) == (acc + body, ['`'] + after, line + Newlines(body))
  {
    if body == [] {
      assert body + ['`'] + after == ['`'] + after;
      assert acc + body == acc && Newlines(body) == 0;
    } else {
      assert (body + ['`'] + after)[1..] == body[1..] + ['`'] + after;
      ScanTemplateClosed(body[1..], after, acc + [body[0]], if body[0] == '\n' then line + 1 else line);
      assert acc + [body[0]] + body[1..] == acc + body;
      assert body == [body[0]] + body[1..];
      OccurrencesAppend([body[0]], body[1..], '\n');
    }
  }

  /** A backtick template is one template token holding the raw text up to
      the next backtick, `${...}` included; its line is the line reached at
      the closing backtick. */
  lemma Template(body: seq<char>, after: seq<char>, line: int)
    requires '`' !in body
    ensures ParseToken(['`'] + body + ['`'] + after, line) ==
      Ok(Step(Some(Token(TemplateLiteral, body, line + Newlines(body))), after, line + Newlines(body)))
  {
    ParseTokenDispatch(['`'] + body + ['`'] + after, line);
    assert (['`'] + body + ['`'] + after)[1..] == body + ['`'] + after;
    DispatchBacktick(body + ['`'] + after, line);
    TemplateClosed(body, after, line);
  }

  lemma TemplateClosed(body: seq<char>, after: seq<char>, line: int)
    requires '`' !in body
    ensures TemplateLiteralToken(body + ['`'] + after, line) ==
      Ok(Step(Some(Token(TemplateLiteral, body, line + Newlines(body))), after, line + Newlines(body)))
  {
    ScanTemplateClosed(body, after, [], line);
    assert [] + body == body;
    assert (['`'] + after)[1..] == after;
  }

  lemma {:induction false} ScanTemplateOpen(body: seq<char>, acc: string, line: int)
    requires '`' !in body
    ensures ScanTemplate(body, acc, line) == (acc + body, [], line + Newlines(body))
  {
    if body != [] {
      ScanTemplateOpen(body[1..], acc + [body[0]], if body[0] == '\n' then line + 1 else line);
      assert acc + [body[0]] + body[1..] == acc + body;
      assert Newlines(body) == (if body[0] == '\n' then 1 else 0) + Newlines(body[1..]);
    } else {
      assert acc + body == acc && Newlines(body) == 0;
    }
  }

  /** A template without its closing backtick is an error. */
  lemma UnclosedTemplate(body: seq<char>, line: int)
    requires '`' !in body
    ensures ParseToken(['`'] + body, line) == Err(LexError("Unterminated template literal", line + Newlines(body)))
  {
    ParseTokenDispatch(['`'] + body, line);
    assert (['`'] + body)[1..] == body;
    DispatchBacktick(body, line);
    ScanTemplateOpen(body, [], line);
  }

  lemma {:induction false} SkipToLineEndAt(text: seq<char>, after: seq<char>)
    requires '\n' !in text
    ensures SkipToLineEnd(text + after) == (if after == [] || after[0] == '\n' then after else SkipToLineEnd(after))
    decreases |text|
  {
    if text != [] {
      assert (text + after)[1..] == text[1..] + after;
      SkipToLineEndAt(text[1..], after);
    } else {
      assert text + after == after;
    }
  }

  /** A line comment produces no token and ends after its line break; one
      that reaches the end of input is an 'Unexpected EOF' error. */
  lemma LineComment(text: seq<char>, after: seq<char>, line: int)
    requires '\n' !in text
    ensures ParseToken(['/', '/'] + text + ['\n'] + after, line) == Ok(Step(None, after, line + 1))
    ensures ParseToken(['/', '/'] + text, line) == Err(LexError("Unexpected EOF", line))
  {
    var s := ['/', '/'] + text + ['\n'] + after;
    ParseTokenDispatch(s, line);
    DispatchSlash(s[1..], line);
    assert s[1..][1..] == text + (['\n'] + after);
    SkipToLineEndAt(text, ['\n'] + after);
    assert (['\n'] + after)[1..] == after;
    var t := ['/', '/'] + text;
    ParseTokenDispatch(t, line);
    DispatchSlash(t[1..], line);
    assert t[1..][1..] == text + [];
    SkipToLineEndAt(text, []);
  }

  /** s contains the closing star-slash of a block comment. */
  predicate HasCloser(s: seq<char>)
  {
    |s| > 1 && ((s[0] == '*' && s[1] == '/') || HasCloser(s[1..]))
  }

  lemma {:induction false} SkipBlockBodyAt(text: seq<char>, after: seq<char>, line: int)
    requires !HasCloser(text)
    requires after == [] || (|after| > 1 && after[0] == '*' && after[1] == '/')
    ensures SkipBlockBody(text + after, line) == (after, line + Newlines(text))
    decreases |text|
  {
    if text == [] {
      assert text + after == after;
    } else {
      var s := text + after;
      assert s[0] == text[0];
      if |text| > 1 {
        assert !(text[0] == '*' && text[1] == '/');
        assert s[1] == text[1];
      } else if after != [] {
        assert s[1] == after[0];
      }
      assert s[1..] == text[1..] + after;
      SkipBlockBodyAt(text[1..], after, if text[0] == '\n' then line + 1 else line);
      assert text == [text[0]] + text[1..];
      OccurrencesAppend([text[0]], text[1..], '\n');
    }
  }

  /** A block comment produces no token, counts the line breaks inside it and
      ends after the first closing star-slash; one that is not closed is an
      'Unexpected EOF' error. */
  lemma BlockComment(text: seq<char>, after: seq<char>, line: int)
    requires !HasCloser(text)
    ensures ParseToken(['/', '*'] + text + ['*', '/'] + after, line) ==
      Ok(Step(None, after, line + Newlines(text)))
  {
    var s := ['/', '*'] + text + ['*', '/'] + after;
    ParseTokenDispatch(s, line);
    DispatchSlash(s[1..], line);
    assert s[1..] == ['*'] + (text + (['*', '/'] + after));
    BlockClosed(text, after, line);
  }

  lemma BlockClosed(text: seq<char>, after: seq<char>, line: int)
    requires !HasCloser(text)
    ensures SlashToken(['*'] + (text + (['*', '/'] + after)), line) == Ok(Step(None, after, line + Newlines(text)))
  {
    var rest := ['*'] + (text + (['*', '/'] + after));
    assert rest[1..] == text + (['*', '/'] + after);
    SkipBlockBodyAt(text, ['*', '/'] + after, line);
    assert (['*', '/'] + after)[2..] == after;
  }

  lemma UnclosedBlockComment(text: seq<char>, line: int)
    requires !HasCloser(text)
    ensures ParseToken(['/', '*'] + text, line) == Err(LexError("Unexpected EOF", line + Newlines(text)))
  {
    var s := ['/', '*'] + text;
    ParseTokenDispatch(s, line);
    DispatchSlash(s[1..], line);
    assert s[1..][1..] == text + [];
    SkipBlockBodyAt(text, [], line);
  }

  // ---------------------------------------------------------------------
  // How much input a template token stands for

  /** A template token stands for its text and the two backticks around it:
      exactly that many characters are consumed. */
  lemma TemplateTokenLength(s: seq<char>, line: int)
    requires |s| > 0 && ParseToken(s, line).Ok?
    requires ParseToken(s, line).value.token.Some?
    requires ParseToken(s, line).value.token.value.kind == TemplateLiteral
    ensures var st := ParseToken(s, line).value;
      |st.token.value.text| + 2 + |st.rest| == |s|
  {
    ParseTokenMoves(s, line);
    ParseTokenDispatch(s, line);
    DispatchBacktick(s[1..], line);
    ScanTemplateMoves(s[1..], [], line);
    var (str, r, line') := ScanTemplate(s[1..], [], line);
    assert [] + Consumed(s[1..], r) == Consumed(s[1..], r);
  }
}
