// The parser as functions on the tokens not yet read. Each function of the
// recursive-descent parser takes the remaining tokens and returns the node it
// built together with the tokens it left, or the error it raised. The loops
// of the source become the recursive *Loop/*Items functions.
module ParserSpec {
  import opened Wrappers
  import opened Tokens
  import opened Ast
  import opened Strings
  import LexerSpec
  import LexerProps

  /** A parser failure: the message and the token it was raised at (None
      where the source passes a node instead of a token), or the failure of
      re-lexing a template interpolation. */
  datatype ParseError =
    | ParserError(message: string, at: Option<Token>)
    | LexFailure(error: LexerSpec.LexError)

  /** A node (or a token, or a list) and the tokens that follow it. */
  datatype Parsed<T> = Parsed(node: T, rest: seq<Token>)

  // ---------------------------------------------------------------------
  // Termination: a template token stands for a text that is lexed and parsed
  // again, so the measure counts the text of every template token.

  /** The number of characters the template tokens of ts stand for. */
  function Weight(ts: seq<Token>): nat
  {
    if ts == [] then 0
    else (if ts[0].kind == TemplateLiteral then |ts[0].text| + 2 else 0) + Weight(ts[1..])
  }

  /** rest holds fewer tokens than ts and no more template text. */
  predicate Below(rest: seq<Token>, ts: seq<Token>)
  {
    |rest| < |ts| && Weight(rest) <= Weight(ts)
  }

  /** rest is below ts, or both are empty: the progress of a rung that may
      end on the EOF that peek shows for an exhausted list. */
  predicate BelowOrDone(rest: seq<Token>, ts: seq<Token>)
  {
    Below(rest, ts) || (ts == [] && rest == [])
  }

  /** rest holds no more tokens than ts and no more template text. */
  predicate NoLonger(rest: seq<Token>, ts: seq<Token>)
  {
    |rest| <= |ts| && Weight(rest) <= Weight(ts)
  }

  /** Dropping the first token drops its template text, if any. */
  lemma WeightTail(ts: seq<Token>)
    requires ts != []
    ensures Weight(ts[1..]) <= Weight(ts)
  {
  }

  lemma BelowBelow(a: seq<Token>, b: seq<Token>, c: seq<Token>)
    requires Below(a, b) && Below(b, c)
    ensures Below(a, c)
  {
  }

  lemma NoLongerBelow(a: seq<Token>, b: seq<Token>, c: seq<Token>)
    requires NoLonger(a, b) && Below(b, c)
    ensures NoLonger(a, c)
  {
  }

  lemma {:induction false} WeightAppend(a: seq<Token>, b: seq<Token>)
    ensures Weight(a + b) == Weight(a) + Weight(b)
  {
    if a == [] {
      assert a + b == b;
    } else {
      assert (a + b)[1..] == a[1..] + b;
      WeightAppend(a[1..], b);
    }
  }

  /** The tokens lexed from s stand for no more template text than s has
      characters. */
  lemma {:induction false} ParseTokensWeight(s: seq<char>, line: int)
    requires LexerSpec.ParseTokens(s, line).Ok?
    ensures Weight(LexerSpec.ParseTokens(s, line).value) <= |s|
    decreases |s|
  {
    if s != [] {
      LexerSpec.ParseTokenMoves(s, line);
      var st := LexerSpec.ParseToken(s, line).value;
      ParseTokensWeight(st.rest, st.line);
      var ts := LexerSpec.ParseTokens(st.rest, st.line).value;
      assert LexerSpec.ParseTokens(s, line).value == LexerSpec.OptionToSeq(st.token) + ts;
      WeightAppend(LexerSpec.OptionToSeq(st.token), ts);
      if st.token.Some? {
        var t := st.token.value;
        assert LexerSpec.OptionToSeq(st.token) == [t];
        assert [t][1..] == [];
        if t.kind == TemplateLiteral {
          LexerProps.TemplateTokenLength(s, line);
        }
      }
    }
  }

  lemma TokenizeWeight(s: seq<char>)
    requires LexerSpec.Tokenize(s).Ok?
    ensures Weight(LexerSpec.Tokenize(s).value) <= |s|
  {
    ParseTokensWeight(s, 1);
  }

  // ---------------------------------------------------------------------
  // Looking at and taking tokens

  /** The token at index, or past the end an EOF token with empty text
      carrying the line of the last token (0 when there is none). */
  function Peek(ts: seq<Token>, index: nat): Token
  {
    if |ts| <= index then Token(Eof, "", if |ts| > 0 then ts[|ts| - 1].line else 0)
    else ts[index]
  }

  /** The source's `optional(kind)` succeeds: the next token has that kind.
      On an empty list the shift yields nothing, which counts as failure. */
  predicate Accepts(ts: seq<Token>, k: TokenKind)
  {
    |ts| > 0 && ts[0].kind == k
  }

  /** The tokens after `optional(kind)`. */
  function AfterOptional(ts: seq<Token>, k: TokenKind): (r: seq<Token>)
    ensures NoLonger(r, ts)
  {
    if Accepts(ts, k) then WeightTail(ts); ts[1..] else ts
  }

  /** The default message of a failed `consume`, with the stray closing brace
      the source's message template ends in. */
  function ExpectedMessage(k: TokenKind, got: TokenKind): string
  {
    "Expected " + KindName(k) + " but got " + KindName(got) + "}"
  }

  /** `consume(kind, message)`: takes the next token when peek shows that
      kind, and otherwise fails at the token peek shows, with message or,
      when it is empty, the default message. On an exhausted list peek shows
      EOF, so consuming EOF there succeeds and leaves the list empty; the
      source's shift then yields no token and its one caller drops it, so
      the model hands back the EOF that peek shows. */
  function ConsumeOr(ts: seq<Token>, k: TokenKind, message: string): (r: Result<Parsed<Token>, ParseError>)
    ensures r.Ok? <==> Peek(ts, 0).kind == k
    ensures r.Ok? ==> r.value.node.kind == k && BelowOrDone(r.value.rest, ts)
    ensures r.Ok? && ts != [] ==> r.value.node == ts[0] && r.value.rest == ts[1..]
    ensures r.Ok? && k != Eof ==> Below(r.value.rest, ts)
    ensures r.Err? ==> r.error == ParserError(if message != "" then message else ExpectedMessage(k, Peek(ts, 0).kind), Some(Peek(ts, 0)))
  {
    var got := Peek(ts, 0);
    if got.kind != k then Err(ParserError(if message != "" then message else ExpectedMessage(k, got.kind), Some(got)))
    else if ts == [] then Ok(Parsed(got, ts))
    else WeightTail(ts); Ok(Parsed(ts[0], ts[1..]))
  }

  function Consume(ts: seq<Token>, k: TokenKind): (r: Result<Parsed<Token>, ParseError>)
    ensures r.Ok? <==> Peek(ts, 0).kind == k
    ensures r.Ok? ==> r.value.node.kind == k && BelowOrDone(r.value.rest, ts)
    ensures r.Ok? && k != Eof ==> Below(r.value.rest, ts)
  {
    ConsumeOr(ts, k, "")
  }

  // ---------------------------------------------------------------------
  // Number literals

  predicate AllNumberChars(s: string)
  {
    forall i :: 0 <= i < |s| ==> LexerSpec.IsNumberChar(s[i])
  }

  /** The value of a run of decimal digits. */
  function DigitsValue(s: string): nat
  {
    if s == [] then 0
    else
      var d := s[|s| - 1] as int - '0' as int;
      DigitsValue(s[..|s| - 1]) * 10 + (if 0 <= d then d else 0)
  }

  function Pow10(n: nat): (r: nat)
    ensures r > 0
  {
    if n == 0 then 1 else 10 * Pow10(n - 1)
  }

  /** The host's `Number(text)` on text made of digits and dots: the decimal
      value when the text has at most one dot and some digit, 0 for the empty
      text, and NaN (None) otherwise. */
  function DecimalValue(text: string): Option<real>
  {
    if text == "" then Some(0.0)
    else if !AllNumberChars(text) || LexerSpec.Occurrences(text, '.') > 1 || text == "." then None
    else
      var k := IndexOf(text, ".");
      if k < 0 then Some(DigitsValue(text) as real)
      else
        var whole, fraction := text[..k], text[k + 1..];
        Some(DigitsValue(whole) as real + DigitsValue(fraction) as real / Pow10(|fraction|) as real)
  }

  // ---------------------------------------------------------------------
  // Templates

  /** A template part, i.e. the text after one "${", whose trimmed form has
      its first '}' at a positive index: the interpolated source before that
      brace and the literal text after it, both taken from the trimmed
      part. */
  function SplitAtBrace(part: string): (r: (string, string))
    requires IndexOf(TrimStart(part), "}") > 0
  {
    var t := TrimStart(part);
    var end := IndexOf(t, "}");
    (t[..end], t[end + 1..])
  }

  /** The source's split: the index is found in the trimmed part but both
      slices are taken from the untrimmed one. */
  function SplitAtBraceAsWritten(part: string): (r: (string, string))
    requires IndexOf(TrimStart(part), "}") > 0
  {
    var end := IndexOf(TrimStart(part), "}");
    (part[..end], part[end + 1..])
  }

  /** The nodes of a template other than EmptyExpr, in order. */
  function DropEmpty(es: seq<Expr>): (r: seq<Expr>)
  {
    if es == [] then []
    else (if es[0] == EmptyExpr then [] else [es[0]]) + DropEmpty(es[1..])
  }

  /** Every part "${" splits a text into is no longer than the text. */
  lemma SplitBounded(text: string)
    ensures forall k :: 0 <= k < |Split(text, "${")| ==> |Split(text, "${")[k]| <= |text|
  {
    forall k | 0 <= k < |Split(text, "${")| ensures |Split(text, "${")[k]| <= |text| {
      SplitPartsShorter(text, "${", k);
    }
  }

  // ---------------------------------------------------------------------
  // The parser proper

  /** `parse`: expressions until no token is left. */
  function ParseAll(ts: seq<Token>): (r: Result<seq<Expr>, ParseError>)
    decreases Weight(ts), |ts|, 22, 0
  {
    if ts == [] then Ok([])
    else
      match ParseExpr(ts)
      case Err(e) => Err(e)
      case Ok(p) =>
        match ParseAll(p.rest)
        case Err(e) => Err(e)
        case Ok(es) => Ok([p.node] + es)
  }

  /** An expression followed by at most one ';'. */
  function ParseExpr(ts: seq<Token>): (r: Result<Parsed<Expr>, ParseError>)
    ensures r.Ok? ==> BelowOrDone(r.value.rest, ts)
    decreases Weight(ts), |ts|, 20, 0
  {
    match ParseAssignment(ts)
    case Err(e) => Err(e)
    case Ok(p) => Ok(Parsed(p.node, AfterOptional(p.rest, Semicolon)))
  }

  function ParseAssignment(ts: seq<Token>): (r: Result<Parsed<Expr>, ParseError>)
    ensures r.Ok? ==> BelowOrDone(r.value.rest, ts)
    decreases Weight(ts), |ts|, 19, 0
  {
    match ParseTernary(ts)
    case Err(e) => Err(e)
    case Ok(p) =>
      if !Accepts(p.rest, Assignment) then Ok(p)
      else
        match ParseTernary(p.rest[1..])
        case Err(e) => Err(e)
        case Ok(q) =>
          if p.node.IdentifierExpr? then Ok(Parsed(AssignmentExpr(p.node.name, q.node), q.rest))
          else Err(ParserError("Invalid assignment target", None))
  }

  function ParseTernary(ts: seq<Token>): (r: Result<Parsed<Expr>, ParseError>)
    ensures r.Ok? ==> BelowOrDone(r.value.rest, ts)
    decreases Weight(ts), |ts|, 18, 0
  {
    match ParseLogical(ts)
    case Err(e) => Err(e)
    case Ok(p) =>
      if !Accepts(p.rest, QuestionMark) then Ok(p)
      else TernaryBranches(p.node, p.rest[1..])
  }

  /** The two branches after '?': expression ':' expression. */
  function TernaryBranches(condition: Expr, ts: seq<Token>): (r: Result<Parsed<Expr>, ParseError>)
    ensures r.Ok? ==> Below(r.value.rest, ts)
    decreases Weight(ts), |ts|, 21, 0
  {
    match ParseExpr(ts)
    case Err(e) => Err(e)
    case Ok(a) =>
      match Consume(a.rest, Colon)
      case Err(e) => Err(e)
      case Ok(c) => TernaryElse(condition, a.node, c.rest)
  }

  /** The branch after ':'. */
  function TernaryElse(condition: Expr, thenBranch: Expr, ts: seq<Token>): (r: Result<Parsed<Expr>, ParseError>)
    ensures r.Ok? ==> BelowOrDone(r.value.rest, ts)
    decreases Weight(ts), |ts|, 21, 0
  {
    match ParseExpr(ts)
    case Err(e) => Err(e)
    case Ok(b) => Ok(Parsed(TernaryExpr(condition, thenBranch, b.node), b.rest))
  }

  predicate IsLogicalOp(k: TokenKind) { k == And || k == Or }

  predicate IsComparisonOp(k: TokenKind)
  {
    k == Equal || k == GreaterThen || k == GreaterOrEqual || k == LessThen || k == LessOrEqual
  }

  predicate IsAdditionOp(k: TokenKind) { k == Plus || k == Minus }

  predicate IsMultiplicationOp(k: TokenKind) { k == Star || k == Slash || k == Modulo }

  predicate IsPostfixOp(k: TokenKind) { k == Increment || k == Decrement }

  function ParseLogical(ts: seq<Token>): (r: Result<Parsed<Expr>, ParseError>)
    ensures r.Ok? ==> BelowOrDone(r.value.rest, ts)
    decreases Weight(ts), |ts|, 17, 0
  {
    match ParseComparison(ts)
    case Err(e) => Err(e)
    case Ok(p) => LogicalLoop(p.node, p.rest)
  }

  /** The loop of parseLogical: while an '&&' or '||' follows, fold the next
      comparison into the left operand. */
  function LogicalLoop(left: Expr, ts: seq<Token>): (r: Result<Parsed<Expr>, ParseError>)
    ensures r.Ok? ==> NoLonger(r.value.rest, ts)
    decreases Weight(ts), |ts|, 16, 0
  {
    if !IsLogicalOp(Peek(ts, 0).kind) then Ok(Parsed(left, ts))
    else
      match ParseComparison(ts[1..])
      case Err(e) => Err(e)
      case Ok(q) => LogicalLoop(BinaryExpr(left, ts[0], q.node), q.rest)
  }

  function ParseComparison(ts: seq<Token>): (r: Result<Parsed<Expr>, ParseError>)
    ensures r.Ok? ==> BelowOrDone(r.value.rest, ts)
    decreases Weight(ts), |ts|, 15, 0
  {
    match ParseAddition(ts)
    case Err(e) => Err(e)
    case Ok(p) => ComparisonLoop(p.node, p.rest)
  }

  function ComparisonLoop(left: Expr, ts: seq<Token>): (r: Result<Parsed<Expr>, ParseError>)
    ensures r.Ok? ==> NoLonger(r.value.rest, ts)
    decreases Weight(ts), |ts|, 14, 0
  {
    if !IsComparisonOp(Peek(ts, 0).kind) then Ok(Parsed(left, ts))
    else
      match ParseAddition(ts[1..])
      case Err(e) => Err(e)
      case Ok(q) => ComparisonLoop(BinaryExpr(left, ts[0], q.node), q.rest)
  }

  function ParseAddition(ts: seq<Token>): (r: Result<Parsed<Expr>, ParseError>)
    ensures r.Ok? ==> BelowOrDone(r.value.rest, ts)
    decreases Weight(ts), |ts|, 13, 0
  {
    match ParseMultiplication(ts)
    case Err(e) => Err(e)
    case Ok(p) => AdditionLoop(p.node, p.rest)
  }

  function AdditionLoop(left: Expr, ts: seq<Token>): (r: Result<Parsed<Expr>, ParseError>)
    ensures r.Ok? ==> NoLonger(r.value.rest, ts)
    decreases Weight(ts), |ts|, 12, 0
  {
    if !IsAdditionOp(Peek(ts, 0).kind) then Ok(Parsed(left, ts))
    else
      match ParseMultiplication(ts[1..])
      case Err(e) => Err(e)
      case Ok(q) => AdditionLoop(BinaryExpr(left, ts[0], q.node), q.rest)
  }

  function ParseMultiplication(ts: seq<Token>): (r: Result<Parsed<Expr>, ParseError>)
    ensures r.Ok? ==> BelowOrDone(r.value.rest, ts)
    decreases Weight(ts), |ts|, 11, 0
  {
    match ParseUnary(ts)
    case Err(e) => Err(e)
    case Ok(p) => MultiplicationLoop(p.node, p.rest)
  }

  function MultiplicationLoop(left: Expr, ts: seq<Token>): (r: Result<Parsed<Expr>, ParseError>)
    ensures r.Ok? ==> NoLonger(r.value.rest, ts)
    decreases Weight(ts), |ts|, 10, 0
  {
    if !IsMultiplicationOp(Peek(ts, 0).kind) then Ok(Parsed(left, ts))
    else
      match ParseUnary(ts[1..])
      case Err(e) => Err(e)
      case Ok(q) => MultiplicationLoop(BinaryExpr(left, ts[0], q.node), q.rest)
  }

  /** A primary expression, then at most one postfix '++' or '--'. */
  function ParseUnary(ts: seq<Token>): (r: Result<Parsed<Expr>, ParseError>)
    ensures r.Ok? ==> BelowOrDone(r.value.rest, ts)
    decreases Weight(ts), |ts|, 9, 0
  {
    match ParsePrimary(ts)
    case Err(e) => Err(e)
    case Ok(p) =>
      if IsPostfixOp(Peek(p.rest, 0).kind) then Ok(Parsed(UnaryExpr(p.rest[0], p.node), p.rest[1..]))
      else Ok(p)
  }

  function ParsePrimary(ts: seq<Token>): (r: Result<Parsed<Expr>, ParseError>)
    ensures r.Ok? ==> BelowOrDone(r.value.rest, ts)
    decreases Weight(ts), |ts|, 8, 0
  {
    var t := Peek(ts, 0);
    if t.kind == NumberLiteral then Ok(Parsed(NumberLiteralExpr(DecimalValue(t.text)), ts[1..]))
    else if t.kind == StringLiteral then Ok(Parsed(StringLiteralExpr(t.text), ts[1..]))
    else if t.kind == TemplateLiteral then ParseTemplate(ts)
    else if t.kind == OpenParen then ParseGrouping(ts)
    else if t.kind == OpenCurly then ParseBlock(ts)
    else if t.kind == Eof then
      match Consume(ts, Eof)
      case Err(e) => Err(e)
      case Ok(c) => Ok(Parsed(EmptyExpr, c.rest))
    else if t.kind == Identifier then ParseWord(ts)
    else Err(ParserError("Expected a primary expression but got " + KindName(t.kind), Some(t)))
  }

  /** A primary expression that starts with an identifier: keywords are
      recognised by their exact text, then a call when '(' follows, and
      otherwise a variable reference. */
  function ParseWord(ts: seq<Token>): (r: Result<Parsed<Expr>, ParseError>)
    requires Accepts(ts, Identifier)
    ensures r.Ok? ==> Below(r.value.rest, ts)
    decreases Weight(ts), |ts|, 7, 0
  {
    var word := ts[0].text;
    if word == "if" then ParseIf(ts)
    else if word == "var" || word == "const" then ParseVariableDeclaration(ts)
    else if word == "for" then ParseFor(ts)
    else if word == "true" || word == "false" then Ok(Parsed(BooleanLiteralExpr(word == "true"), ts[1..]))
    else if word == "null" then Ok(Parsed(NullLiteralExpr, ts[1..]))
    else if word == "return" then
      match ParseExpr(ts[1..])
      case Err(e) => Err(e)
      case Ok(p) => Ok(Parsed(ReturnStmt(p.node), p.rest))
    else if word == "continue" then Ok(Parsed(ContinueStmt, ts[1..]))
    else if word == "break" then Ok(Parsed(BreakStmt, ts[1..]))
    else if word == "func" then ParseFunctionDeclaration(ts)
    else if Peek(ts, 1).kind == OpenParen then ParseFunctionCall(ts)
    else Ok(Parsed(IdentifierExpr(word), ts[1..]))
  }

  /** A template token: text without "${" is one string part; otherwise the
      parts between the "${" separators are turned into nodes, and EmptyExpr
      nodes are dropped. */
  function ParseTemplate(ts: seq<Token>): (r: Result<Parsed<Expr>, ParseError>)
    ensures r.Ok? ==> Below(r.value.rest, ts)
    decreases Weight(ts), |ts|, 6, 0
  {
    match Consume(ts, TemplateLiteral)
    case Err(e) => Err(e)
    case Ok(c) =>
      var text := c.node.text;
      if !Contains(text, "${") then Ok(Parsed(TemplateLiteralExpr([StringLiteralExpr(text)]), c.rest))
      else
        var parts := Split(text, "${");
        SplitBounded(text);
        match TemplateParts(c.node, parts, 0)
        case Err(e) => Err(e)
        case Ok(es) => Ok(Parsed(TemplateLiteralExpr(DropEmpty(es)), c.rest))
  }

  /** No part of a template is longer than the template's text. */
  predicate PartsFit(tok: Token, parts: seq<string>)
  {
    forall k :: 0 <= k < |parts| ==> |parts[k]| <= |tok.text|
  }

  /** The nodes for parts[i..] of a template with token tok, before EmptyExpr
      nodes are dropped. An empty part contributes nothing; a blank part and
      the part before the first "${" stay literal; a part without '}' stays
      literal with its "${" restored; "${}" fails; otherwise the source before
      the brace is lexed and parsed on its own and the text after the brace
      follows as a string part. */
  function TemplateParts(tok: Token, parts: seq<string>, i: nat): (r: Result<seq<Expr>, ParseError>)
    requires i <= |parts|
    requires PartsFit(tok, parts)
    decreases |tok.text| + 2, 0, 1, |parts| - i
  {
    if i == |parts| then Ok([])
    else
      match TemplatePart(tok, parts[i], i == 0)
      case Err(e) => Err(e)
      case Ok(es) =>
        match TemplateParts(tok, parts, i + 1)
        case Err(e) => Err(e)
        case Ok(more) => Ok(es + more)
  }

  /** The nodes for one part of a template with token tok; first tells
      whether it is the part before the first "${". */
  function TemplatePart(tok: Token, part: string, first: bool): (r: Result<seq<Expr>, ParseError>)
    requires |part| <= |tok.text|
    decreases |tok.text| + 2, 0, 0, 1
  {
    if part == "" then Ok([])
    else if Trim(part) == "" || first then Ok([StringLiteralExpr(part)])
    else if IndexOf(TrimStart(part), "}") == -1 then Ok([StringLiteralExpr("${" + part)])
    else if IndexOf(TrimStart(part), "}") == 0 then Err(ParserError("Empty expression", Some(tok)))
    else Interpolation(tok, part)
  }

  /** An interpolated part: the source before the first '}' is lexed and
      parsed on its own, and the text after it follows as a string node. */
  function Interpolation(tok: Token, part: string): (r: Result<seq<Expr>, ParseError>)
    requires |part| <= |tok.text| && IndexOf(TrimStart(part), "}") > 0
    decreases |tok.text| + 2, 0, 0, 0
  {
    var (source, after) := SplitAtBrace(part);
    match LexerSpec.Tokenize(source)
    case Err(e) => Err(LexFailure(e))
    case Ok(inner) =>
      TokenizeWeight(source);
      match ParseAll(inner)
      case Err(e) => Err(e)
      case Ok(es) => Ok(es + [StringLiteralExpr(after)])
  }

  /** '(' expression ')'. */
  function ParseGrouping(ts: seq<Token>): (r: Result<Parsed<Expr>, ParseError>)
    ensures r.Ok? ==> Below(r.value.rest, ts)
    decreases Weight(ts), |ts|, 6, 0
  {
    match Consume(ts, OpenParen)
    case Err(e) => Err(e)
    case Ok(o) =>
      match ParseExpr(o.rest)
      case Err(e) => Err(e)
      case Ok(p) =>
        match Consume(p.rest, CloseParen)
        case Err(e) => Err(e)
        case Ok(c) => Ok(Parsed(p.node, c.rest))
  }

  /** '{' expressions '}'. */
  function ParseBlock(ts: seq<Token>): (r: Result<Parsed<Expr>, ParseError>)
    ensures r.Ok? ==> Below(r.value.rest, ts)
    decreases Weight(ts), |ts|, 6, 0
  {
    match Consume(ts, OpenCurly)
    case Err(e) => Err(e)
    case Ok(o) =>
      match BlockItems(o.rest)
      case Err(e) => Err(e)
      case Ok(p) =>
        match Consume(p.rest, CloseCurly)
        case Err(e) => Err(e)
        case Ok(c) => Ok(Parsed(BlockStmt(p.node), c.rest))
  }

  /** The loop of parseBlock: expressions until '}' is next, or until no
      token is left (see `ParserProps.EmptyListStalls` for the source's
      loop, which does not stop there). */
  function BlockItems(ts: seq<Token>): (r: Result<Parsed<seq<Expr>>, ParseError>)
    ensures r.Ok? ==> NoLonger(r.value.rest, ts)
    decreases Weight(ts), |ts|, 21, 0
  {
    if ts == [] || Peek(ts, 0).kind == CloseCurly then Ok(Parsed([], ts))
    else
      match ParseExpr(ts)
      case Err(e) => Err(e)
      case Ok(p) =>
        match BlockItems(p.rest)
        case Err(e) => Err(e)
        case Ok(q) => Ok(Parsed([p.node] + q.node, q.rest))
  }

  /** 'if' '(' condition ')' block, then optionally 'else' followed by
      another if or a block. */
  function ParseIf(ts: seq<Token>): (r: Result<Parsed<Expr>, ParseError>)
    ensures r.Ok? ==> Below(r.value.rest, ts)
    decreases Weight(ts), |ts|, 6, 0
  {
    match Consume(ts, Identifier)
    case Err(e) => Err(e)
    case Ok(k) =>
      match Consume(k.rest, OpenParen)
      case Err(e) => Err(e)
      case Ok(o) => IfCondition(o.rest)
  }

  /** The condition, the ')' after it, and the branches. */
  function IfCondition(ts: seq<Token>): (r: Result<Parsed<Expr>, ParseError>)
    ensures r.Ok? ==> Below(r.value.rest, ts)
    decreases Weight(ts), |ts|, 21, 0
  {
    match ParseExpr(ts)
    case Err(e) => Err(e)
    case Ok(c) =>
      match Consume(c.rest, CloseParen)
      case Err(e) => Err(e)
      case Ok(cp) => IfBranches(c.node, cp.rest)
  }

  /** The block after the condition and the optional else branch. */
  function IfBranches(condition: Expr, ts: seq<Token>): (r: Result<Parsed<Expr>, ParseError>)
    ensures r.Ok? ==> Below(r.value.rest, ts)
    decreases Weight(ts), |ts|, 7, 0
  {
    match ParseBlock(ts)
    case Err(e) => Err(e)
    case Ok(b) => IfElse(condition, b.node, b.rest)
  }

  /** The optional else branch after the block. */
  function IfElse(condition: Expr, thenBranch: Expr, ts: seq<Token>): (r: Result<Parsed<Expr>, ParseError>)
    ensures r.Ok? ==> NoLonger(r.value.rest, ts)
    decreases Weight(ts), |ts|, 7, 0
  {
    if !(Peek(ts, 0).kind == Identifier && Peek(ts, 0).text == "else") then
      Ok(Parsed(IfStmt(condition, thenBranch, None), ts))
    else
      match ElseBranch(ts[1..])
      case Err(e) => Err(e)
      case Ok(eb) => Ok(Parsed(IfStmt(condition, thenBranch, Some(eb.node)), eb.rest))
  }

  /** What follows 'else': another if, or a block. */
  function ElseBranch(ts: seq<Token>): (r: Result<Parsed<Expr>, ParseError>)
    ensures r.Ok? ==> Below(r.value.rest, ts)
    decreases Weight(ts), |ts|, 7, 0
  {
    if Peek(ts, 0).kind == Identifier && Peek(ts, 0).text == "if" then ParseIf(ts) else ParseBlock(ts)
  }

  /** ('var' | 'const') name ':' type, then ';' (only for var) or '='
      expression. */
  function ParseVariableDeclaration(ts: seq<Token>): (r: Result<Parsed<Expr>, ParseError>)
    ensures r.Ok? ==> Below(r.value.rest, ts)
    decreases Weight(ts), |ts|, 6, 0
  {
    match Consume(ts, Identifier)
    case Err(e) => Err(e)
    case Ok(kw) =>
      match Consume(kw.rest, Identifier)
      case Err(e) => Err(e)
      case Ok(name) =>
        match ConsumeOr(name.rest, Colon, "Missing type of variable")
        case Err(e) => Err(e)
        case Ok(colon) =>
          match Consume(colon.rest, Identifier)
          case Err(e) => Err(e)
          case Ok(typeOf) => VariableInitializer(kw.node, name.node.text, typeOf.node.text, typeOf.rest)
  }

  /** What follows the declared type: ';' for a var without a value, or '='
      and the initial value; keyword is the 'var' or 'const' token. */
  function VariableInitializer(keyword: Token, name: string, typeName: string, ts: seq<Token>): (r: Result<Parsed<Expr>, ParseError>)
    ensures r.Ok? ==> Below(r.value.rest, ts)
    decreases Weight(ts), |ts|, 21, 0
  {
    var isConst := keyword.text == "const";
    if Accepts(ts, Semicolon) then
      if isConst then Err(ParserError("const variables must be initialized", Some(keyword)))
      else WeightTail(ts); Ok(Parsed(VariableDeclarationExpr(name, typeName, None, false), ts[1..]))
    else
      match Consume(ts, Assignment)
      case Err(e) => Err(e)
      case Ok(eq) =>
        match ParseExpr(eq.rest)
        case Err(e) => Err(e)
        case Ok(v) =>
          Ok(Parsed(VariableDeclarationExpr(name, typeName, Some(v.node), isConst), v.rest))
  }

  /** 'for' '(' initializer [';'] condition [';'] increment ')' block. The
      loop is built without a failsafe. */
  function ParseFor(ts: seq<Token>): (r: Result<Parsed<Expr>, ParseError>)
    ensures r.Ok? ==> Below(r.value.rest, ts)
    decreases Weight(ts), |ts|, 6, 0
  {
    match Consume(ts, Identifier)
    case Err(e) => Err(e)
    case Ok(kw) =>
      match Consume(kw.rest, OpenParen)
      case Err(e) => Err(e)
      case Ok(o) => ForClauses(o.rest)
  }

  /** The initializer and the condition, each with an optional ';', then the
      rest of the loop. */
  function ForClauses(ts: seq<Token>): (r: Result<Parsed<Expr>, ParseError>)
    ensures r.Ok? ==> Below(r.value.rest, ts)
    decreases Weight(ts), |ts|, 22, 0
  {
    match ParseExpr(ts)
    case Err(e) => Err(e)
    case Ok(init) =>
      match ParseExpr(AfterOptional(init.rest, Semicolon))
      case Err(e) => Err(e)
      case Ok(cond) => ForRest(init.node, cond.node, AfterOptional(cond.rest, Semicolon))
  }

  /** The increment, ')' and the body of a for loop. */
  function ForRest(init: Expr, condition: Expr, ts: seq<Token>): (r: Result<Parsed<Expr>, ParseError>)
    ensures r.Ok? ==> Below(r.value.rest, ts)
    decreases Weight(ts), |ts|, 21, 0
  {
    match ParseExpr(ts)
    case Err(e) => Err(e)
    case Ok(incr) => ForBody(init, condition, incr.node, incr.rest)
  }

  /** ')' and the body of a for loop. */
  function ForBody(init: Expr, condition: Expr, increment: Expr, ts: seq<Token>): (r: Result<Parsed<Expr>, ParseError>)
    ensures r.Ok? ==> Below(r.value.rest, ts)
    decreases Weight(ts), |ts|, 7, 0
  {
    match Consume(ts, CloseParen)
    case Err(e) => Err(e)
    case Ok(c) =>
      match ParseBlock(c.rest)
      case Err(e) => Err(e)
      case Ok(body) => Ok(Parsed(ForStmt(Some(init), Some(condition), Some(increment), None, body.node), body.rest))
  }

  /** 'func' name '(' parameters ')' ':' type block. */
  function ParseFunctionDeclaration(ts: seq<Token>): (r: Result<Parsed<Expr>, ParseError>)
    ensures r.Ok? ==> Below(r.value.rest, ts)
    decreases Weight(ts), |ts|, 6, 0
  {
    match Consume(ts, Identifier)
    case Err(e) => Err(e)
    case Ok(kw) =>
      match Consume(kw.rest, Identifier)
      case Err(e) => Err(e)
      case Ok(name) => FunctionSignature(name.node.text, name.rest)
  }

  /** '(' parameters, then the rest of the signature and the body. */
  function FunctionSignature(name: string, ts: seq<Token>): (r: Result<Parsed<Expr>, ParseError>)
    ensures r.Ok? ==> Below(r.value.rest, ts)
    decreases Weight(ts), |ts|, 7, 0
  {
    match Consume(ts, OpenParen)
    case Err(e) => Err(e)
    case Ok(o) =>
      match ParamItems(o.rest)
      case Err(e) => Err(e)
      case Ok(ps) => FunctionSignatureRest(name, ps.node, ps.rest)
  }

  /** ')' ':' type block, after the parameters of a function declaration. */
  function FunctionSignatureRest(name: string, params: seq<Param>, ts: seq<Token>): (r: Result<Parsed<Expr>, ParseError>)
    ensures r.Ok? ==> Below(r.value.rest, ts)
    decreases Weight(ts), |ts|, 7, 0
  {
    match Consume(ts, CloseParen)
    case Err(e) => Err(e)
    case Ok(cp) =>
      match Consume(cp.rest, Colon)
      case Err(e) => Err(e)
      case Ok(colon) => FunctionTypeAndBody(name, params, colon.rest)
  }

  /** The return type and the body of a function declaration. */
  function FunctionTypeAndBody(name: string, params: seq<Param>, ts: seq<Token>): (r: Result<Parsed<Expr>, ParseError>)
    ensures r.Ok? ==> Below(r.value.rest, ts)
    decreases Weight(ts), |ts|, 7, 0
  {
    match Consume(ts, Identifier)
    case Err(e) => Err(e)
    case Ok(typeOf) =>
      match ParseBlock(typeOf.rest)
      case Err(e) => Err(e)
      case Ok(body) => Ok(Parsed(FunctionDeclarationExpr(name, params, body.node, typeOf.node.text), body.rest))
  }

  /** The parameter loop: name ':' type [','] until ')' is next. */
  function ParamItems(ts: seq<Token>): (r: Result<Parsed<seq<Param>>, ParseError>)
    ensures r.Ok? ==> NoLonger(r.value.rest, ts)
    decreases |ts|
  {
    if Peek(ts, 0).kind == CloseParen then Ok(Parsed([], ts))
    else
      match ParamItem(ts)
      case Err(e) => Err(e)
      case Ok(p) =>
        match ParamItems(p.rest)
        case Err(e) => Err(e)
        case Ok(more) =>
          NoLongerBelow(more.rest, p.rest, ts);
          Ok(Parsed([p.node] + more.node, more.rest))
  }

  /** One parameter: name ':' type, and an optional ','. */
  function ParamItem(ts: seq<Token>): (r: Result<Parsed<Param>, ParseError>)
    ensures r.Ok? ==> Below(r.value.rest, ts)
  {
    match Consume(ts, Identifier)
    case Err(e) => Err(e)
    case Ok(name) =>
      match Consume(name.rest, Colon)
      case Err(e) => Err(e)
      case Ok(colon) =>
        match Consume(colon.rest, Identifier)
        case Err(e) => Err(e)
        case Ok(typeOf) => Ok(Parsed(Param(name.node.text, typeOf.node.text), AfterOptional(typeOf.rest, Comma)))
  }

  /** name '(' arguments ')'. */
  function ParseFunctionCall(ts: seq<Token>): (r: Result<Parsed<Expr>, ParseError>)
    ensures r.Ok? ==> Below(r.value.rest, ts)
    decreases Weight(ts), |ts|, 6, 0
  {
    match Consume(ts, Identifier)
    case Err(e) => Err(e)
    case Ok(name) =>
      match Consume(name.rest, OpenParen)
      case Err(e) => Err(e)
      case Ok(o) =>
        CallArguments(name.node.text, o.rest)
  }

  /** The arguments of a call and the ')' that closes them. */
  function CallArguments(name: string, ts: seq<Token>): (r: Result<Parsed<Expr>, ParseError>)
    ensures r.Ok? ==> Below(r.value.rest, ts)
    decreases Weight(ts), |ts|, 23, 0
  {
    match ArgItems(ts)
    case Err(e) => Err(e)
    case Ok(args) =>
      match Consume(args.rest, CloseParen)
      case Err(e) => Err(e)
      case Ok(c) => Ok(Parsed(FunctionCallExpr(name, args.node), c.rest))
  }

  /** The argument loop: expression [','] until ')' is next, or until no
      token is left, like BlockItems. */
  function ArgItems(ts: seq<Token>): (r: Result<Parsed<seq<Expr>>, ParseError>)
    ensures r.Ok? ==> NoLonger(r.value.rest, ts)
    decreases Weight(ts), |ts|, 21, 0
  {
    if ts == [] || Peek(ts, 0).kind == CloseParen then Ok(Parsed([], ts))
    else
      match ParseExpr(ts)
      case Err(e) => Err(e)
      case Ok(p) =>
        match ArgItems(AfterOptional(p.rest, Comma))
        case Err(e) => Err(e)
        case Ok(q) => Ok(Parsed([p.node] + q.node, q.rest))
  }

  /** Lexing and parsing a whole program. */
  function ParseSource(input: string): Result<seq<Expr>, ParseError>
  {
    match LexerSpec.Tokenize(input)
    case Err(e) => Err(LexFailure(e))
    case Ok(ts) => ParseAll(ts)
  }
}
