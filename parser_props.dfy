// Properties of the parser functions: the shape of the trees the precedence
// ladder builds, the keyword and declaration rules, templates, and the
// error conditions.
module ParserProps {
  import opened Wrappers
  import opened Tokens
  import opened Ast
  import opened Strings
  import opened ParserSpec
  import LexerSpec
  import LexerProps

  // ---------------------------------------------------------------------
  // Looking at and taking tokens

  /** Past the end, peek shows a synthetic EOF token with empty text on the
      line of the last token; before the end it shows the token itself. */
  lemma PeekShows(ts: seq<Token>, index: nat)
    ensures index < |ts| ==> Peek(ts, index) == ts[index]
    ensures |ts| <= index ==> (Peek(ts, index).kind == Eof && Peek(ts, index).text == "" &&
      Peek(ts, index).line == (if ts == [] then 0 else ts[|ts| - 1].line))
  {
  }

  /** A failed consume reports the token peek shows, under the message given
      or, when that is empty, under the default message naming both kinds. */
  lemma ConsumeMismatch(ts: seq<Token>, k: TokenKind, message: string)
    requires Peek(ts, 0).kind != k
    ensures ConsumeOr(ts, k, message).Err?
    ensures ConsumeOr(ts, k, message).error.at == Some(Peek(ts, 0))
    ensures ConsumeOr(ts, k, message).error.message ==
      (if message == "" then "Expected " + KindName(k) + " but got " + KindName(Peek(ts, 0).kind) + "}" else message)
  {
  }

  // ---------------------------------------------------------------------
  // The precedence ladder

  /** A token that ends an expression: no operator of the ladder, no '?',
      no '=' and no postfix operator. */
  predicate Ends(t: Token)
  {
    !IsLogicalOp(t.kind) && !IsComparisonOp(t.kind) && !IsAdditionOp(t.kind) &&
    !IsMultiplicationOp(t.kind) && !IsPostfixOp(t.kind) &&
    t.kind != QuestionMark && t.kind != Assignment
  }

  function Number(t: Token): Expr
  {
    NumberLiteralExpr(DecimalValue(t.text))
  }

  /** A number token followed by what cannot continue a unary expression is a
      whole unary expression. */
  lemma NumberUnary(x: Token, rest: seq<Token>)
    requires x.kind == NumberLiteral && !IsPostfixOp(Peek(rest, 0).kind)
    ensures ParseUnary([x] + rest) == Ok(Parsed(Number(x), rest))
  {
    assert ([x] + rest)[1..] == rest;
  }

  // One lemma per rung of the ladder: how a rung continues from the result
  // of the rung above it.

  lemma MultiplicationFrom(ts: seq<Token>, u: Expr, rest: seq<Token>)
    requires ParseUnary(ts) == Ok(Parsed(u, rest))
    ensures ParseMultiplication(ts) == MultiplicationLoop(u, rest)
  {
  }

  lemma MultiplicationStep(left: Expr, op: Token, ts: seq<Token>, u: Expr, rest: seq<Token>)
    requires IsMultiplicationOp(op.kind) && ParseUnary(ts) == Ok(Parsed(u, rest))
    ensures MultiplicationLoop(left, [op] + ts) == MultiplicationLoop(BinaryExpr(left, op, u), rest)
  {
    assert ([op] + ts)[1..] == ts;
  }

  lemma MultiplicationDone(left: Expr, ts: seq<Token>)
    requires !IsMultiplicationOp(Peek(ts, 0).kind)
    ensures MultiplicationLoop(left, ts) == Ok(Parsed(left, ts))
  {
  }

  lemma AdditionFrom(ts: seq<Token>, m: Expr, rest: seq<Token>)
    requires ParseMultiplication(ts) == Ok(Parsed(m, rest))
    ensures ParseAddition(ts) == AdditionLoop(m, rest)
  {
  }

  lemma AdditionStep(left: Expr, op: Token, ts: seq<Token>, m: Expr, rest: seq<Token>)
    requires IsAdditionOp(op.kind) && ParseMultiplication(ts) == Ok(Parsed(m, rest))
    ensures AdditionLoop(left, [op] + ts) == AdditionLoop(BinaryExpr(left, op, m), rest)
  {
    assert ([op] + ts)[1..] == ts;
  }

  lemma AdditionDone(left: Expr, ts: seq<Token>)
    requires !IsAdditionOp(Peek(ts, 0).kind)
    ensures AdditionLoop(left, ts) == Ok(Parsed(left, ts))
  {
  }

  /** A sum that nothing continues is a whole expression; one ';' after it
      is taken along. */
  lemma SumIsExpression(left: Expr, rest: seq<Token>, ts: seq<Token>)
    requires Ends(Peek(rest, 0))
    requires ParseAddition(ts) == Ok(Parsed(left, rest))
    ensures ParseExpr(ts) == Ok(Parsed(left, AfterOptional(rest, Semicolon)))
  {
    assert ParseComparison(ts) == Ok(Parsed(left, rest));
    assert ParseLogical(ts) == Ok(Parsed(left, rest));
    assert ParseTernary(ts) == Ok(Parsed(left, rest));
    assert ParseAssignment(ts) == Ok(Parsed(left, rest));
  }

  /** A primary expression that nothing continues is a whole expression. */
  lemma PrimaryIsExpression(ts: seq<Token>, e: Expr, rest: seq<Token>)
    requires Ends(Peek(rest, 0)) && ParsePrimary(ts) == Ok(Parsed(e, rest))
    ensures ParseExpr(ts) == Ok(Parsed(e, AfterOptional(rest, Semicolon)))
  {
    assert ParseUnary(ts) == Ok(Parsed(e, rest));
    MultiplicationFrom(ts, e, rest);
    MultiplicationDone(e, rest);
    AdditionFrom(ts, e, rest);
    AdditionDone(e, rest);
    SumIsExpression(e, rest, ts);
  }

  /** Multiplication binds tighter than addition: x + y * z is x + (y * z). */
  lemma MultiplicationBindsTighter(x: Token, op1: Token, y: Token, op2: Token, z: Token, rest: seq<Token>)
    requires x.kind == NumberLiteral && y.kind == NumberLiteral && z.kind == NumberLiteral
    requires IsAdditionOp(op1.kind) && IsMultiplicationOp(op2.kind) && Ends(Peek(rest, 0))
    ensures ParseExpr([x, op1, y, op2, z] + rest) ==
      Ok(Parsed(BinaryExpr(Number(x), op1, BinaryExpr(Number(y), op2, Number(z))), AfterOptional(rest, Semicolon)))
  {
    var ts := [x, op1, y, op2, z] + rest;
    MultiplicationBindsTighterSum(x, op1, y, op2, z, rest);
    SumIsExpression(BinaryExpr(Number(x), op1, BinaryExpr(Number(y), op2, Number(z))), rest, ts);
  }

  /** The sum level of `MultiplicationBindsTighter`. */
  lemma MultiplicationBindsTighterSum(x: Token, op1: Token, y: Token, op2: Token, z: Token, rest: seq<Token>)
    requires x.kind == NumberLiteral && y.kind == NumberLiteral && z.kind == NumberLiteral
    requires IsAdditionOp(op1.kind) && IsMultiplicationOp(op2.kind) && Ends(Peek(rest, 0))
    ensures ParseAddition([x, op1, y, op2, z] + rest) == Ok(Parsed(BinaryExpr(Number(x), op1, BinaryExpr(Number(y), op2, Number(z))), rest))
  {
    var r4 := [z] + rest;
    var r3 := [op2] + r4;
    var r2 := [y] + r3;
    var r1 := [op1] + r2;
    var ts := [x] + r1;
    assert ts == [x, op1, y, op2, z] + rest;
    NumberUnary(x, r1);
    MultiplicationFrom(ts, Number(x), r1);
    MultiplicationDone(Number(x), r1);
    AdditionFrom(ts, Number(x), r1);
    NumberUnary(y, r3);
    NumberUnary(z, rest);
    var product := BinaryExpr(Number(y), op2, Number(z));
    MultiplicationFrom(r2, Number(y), r3);
    MultiplicationStep(Number(y), op2, r4, Number(z), rest);
    MultiplicationDone(product, rest);
    var sum := BinaryExpr(Number(x), op1, product);
    AdditionStep(Number(x), op1, r2, product, rest);
    AdditionDone(sum, rest);
  }

  /** Operators of one level associate to the left: x - y - z is
      (x - y) - z. */
  lemma AdditionAssociatesLeft(x: Token, op1: Token, y: Token, op2: Token, z: Token, rest: seq<Token>)
    requires x.kind == NumberLiteral && y.kind == NumberLiteral && z.kind == NumberLiteral
    requires IsAdditionOp(op1.kind) && IsAdditionOp(op2.kind) && Ends(Peek(rest, 0))
    ensures ParseExpr([x, op1, y, op2, z] + rest) ==
      Ok(Parsed(BinaryExpr(BinaryExpr(Number(x), op1, Number(y)), op2, Number(z)), AfterOptional(rest, Semicolon)))
  {
    var ts := [x, op1, y, op2, z] + rest;
    AdditionAssociatesLeftSum(x, op1, y, op2, z, rest);
    SumIsExpression(BinaryExpr(BinaryExpr(Number(x), op1, Number(y)), op2, Number(z)), rest, ts);
  }

  /** The sum level of `AdditionAssociatesLeft`. */
  lemma AdditionAssociatesLeftSum(x: Token, op1: Token, y: Token, op2: Token, z: Token, rest: seq<Token>)
    requires x.kind == NumberLiteral && y.kind == NumberLiteral && z.kind == NumberLiteral
    requires IsAdditionOp(op1.kind) && IsAdditionOp(op2.kind) && Ends(Peek(rest, 0))
    ensures ParseAddition([x, op1, y, op2, z] + rest) == Ok(Parsed(BinaryExpr(BinaryExpr(Number(x), op1, Number(y)), op2, Number(z)), rest))
  {
    var r4 := [z] + rest;
    var r3 := [op2] + r4;
    var r2 := [y] + r3;
    var r1 := [op1] + r2;
    var ts := [x] + r1;
    assert ts == [x, op1, y, op2, z] + rest;
    NumberUnary(x, r1);
    MultiplicationFrom(ts, Number(x), r1);
    MultiplicationDone(Number(x), r1);
    AdditionFrom(ts, Number(x), r1);
    NumberUnary(y, r3);
    MultiplicationFrom(r2, Number(y), r3);
    MultiplicationDone(Number(y), r3);
    var first := BinaryExpr(Number(x), op1, Number(y));
    AdditionStep(Number(x), op1, r2, Number(y), r3);
    NumberUnary(z, rest);
    MultiplicationFrom(r4, Number(z), rest);
    MultiplicationDone(Number(z), rest);
    var sum := BinaryExpr(first, op2, Number(z));
    AdditionStep(first, op2, r4, Number(z), rest);
    AdditionDone(sum, rest);
  }

  /** Multiplicative operators associate to the left as well: x / y * z is
      (x / y) * z. */
  lemma MultiplicationAssociatesLeft(x: Token, op1: Token, y: Token, op2: Token, z: Token, rest: seq<Token>)
    requires x.kind == NumberLiteral && y.kind == NumberLiteral && z.kind == NumberLiteral
    requires IsMultiplicationOp(op1.kind) && IsMultiplicationOp(op2.kind) && Ends(Peek(rest, 0))
    ensures ParseExpr([x, op1, y, op2, z] + rest) ==
      Ok(Parsed(BinaryExpr(BinaryExpr(Number(x), op1, Number(y)), op2, Number(z)), AfterOptional(rest, Semicolon)))
  {
    var ts := [x, op1, y, op2, z] + rest;
    MultiplicationAssociatesLeftSum(x, op1, y, op2, z, rest);
    SumIsExpression(BinaryExpr(BinaryExpr(Number(x), op1, Number(y)), op2, Number(z)), rest, ts);
  }

  /** The sum level of `MultiplicationAssociatesLeft`. */
  lemma MultiplicationAssociatesLeftSum(x: Token, op1: Token, y: Token, op2: Token, z: Token, rest: seq<Token>)
    requires x.kind == NumberLiteral && y.kind == NumberLiteral && z.kind == NumberLiteral
    requires IsMultiplicationOp(op1.kind) && IsMultiplicationOp(op2.kind) && Ends(Peek(rest, 0))
    ensures ParseAddition([x, op1, y, op2, z] + rest) == Ok(Parsed(BinaryExpr(BinaryExpr(Number(x), op1, Number(y)), op2, Number(z)), rest))
  {
    var r4 := [z] + rest;
    var r3 := [op2] + r4;
    var r2 := [y] + r3;
    var r1 := [op1] + r2;
    var ts := [x] + r1;
    assert ts == [x, op1, y, op2, z] + rest;
    NumberUnary(x, r1);
    MultiplicationFrom(ts, Number(x), r1);
    NumberUnary(y, r3);
    var first := BinaryExpr(Number(x), op1, Number(y));
    MultiplicationStep(Number(x), op1, r2, Number(y), r3);
    NumberUnary(z, rest);
    var product := BinaryExpr(first, op2, Number(z));
    MultiplicationStep(first, op2, r4, Number(z), rest);
    MultiplicationDone(product, rest);
    AdditionFrom(ts, product, rest);
    AdditionDone(product, rest);
  }

  // ---------------------------------------------------------------------
  // Assignment

  /** An assignment is accepted exactly when its target is a bare
      identifier; any other target fails with 'Invalid assignment target'. */
  lemma AssignmentTarget(ts: seq<Token>)
    requires ParseTernary(ts).Ok? && Accepts(ParseTernary(ts).value.rest, Assignment)
    requires ParseTernary(ParseTernary(ts).value.rest[1..]).Ok?
    ensures var target := ParseTernary(ts).value.node;
      var value := ParseTernary(ParseTernary(ts).value.rest[1..]).value;
      (target.IdentifierExpr? ==> ParseAssignment(ts) == Ok(Parsed(AssignmentExpr(target.name, value.node), value.rest))) &&
      (!target.IdentifierExpr? ==> ParseAssignment(ts) == Err(ParserError("Invalid assignment target", None)))
  {
  }

  // ---------------------------------------------------------------------
  // Statements and keywords

  /** An EOF token is consumed as an EmptyExpr. */
  lemma EofExpression(eof: Token)
    requires eof.kind == Eof
    ensures ParseExpr([eof]) == Ok(Parsed(EmptyExpr, []))
  {
    assert [eof][1..] == [];
    assert ParsePrimary([eof]) == Ok(Parsed(EmptyExpr, []));
    PrimaryIsExpression([eof], EmptyExpr, []);
  }

  /** The tokens of an empty program, a lone EOF, parse to one EmptyExpr. */
  lemma EofIsEmpty(eof: Token)
    requires eof.kind == Eof
    ensures ParseAll([eof]) == Ok([EmptyExpr])
  {
    EofExpression(eof);
    assert ParseAll([]) == Ok([]);
    assert [EmptyExpr] + [] == [EmptyExpr];
  }

  /** A program of blanks only is one EmptyExpr. */
  lemma BlankProgram(s: string)
    requires forall i :: 0 <= i < |s| ==> LexerProps.IsBlank(s[i])
    ensures ParseSource(s) == Ok([EmptyExpr])
  {
    LexerProps.BlankInput(s, 1);
    EofIsEmpty(Token(Eof, "EOF", 1 + LexerSpec.Newlines(s)));
  }

  /** The words the parser treats as keywords. */
  predicate IsKeyword(word: string)
  {
    word == "if" || word == "var" || word == "const" || word == "for" || word == "true" ||
    word == "false" || word == "null" || word == "return" || word == "continue" ||
    word == "break" || word == "func"
  }

  /** An identifier that is no keyword and is not followed by '(' is a
      variable reference. */
  lemma PlainIdentifier(t: Token, rest: seq<Token>)
    requires t.kind == Identifier && !IsKeyword(t.text) && Peek(rest, 0).kind != OpenParen
    ensures ParsePrimary([t] + rest) == Ok(Parsed(IdentifierExpr(t.text), rest))
  {
    var ts := [t] + rest;
    assert ts[1..] == rest;
    assert Peek(ts, 1).kind == Peek(rest, 0).kind;
    PrimaryOfWord(ts);
  }

  /** An identifier that is no keyword and is followed by '(' starts a
      call. */
  lemma CallWhenParenFollows(t: Token, rest: seq<Token>)
    requires t.kind == Identifier && !IsKeyword(t.text) && Peek(rest, 0).kind == OpenParen
    ensures ParsePrimary([t] + rest) == ParseFunctionCall([t] + rest)
  {
    var ts := [t] + rest;
    assert ts[1..] == rest;
    assert Peek(ts, 1) == Peek(rest, 0);
    PrimaryOfWord(ts);
  }

  /** `true` and `false` are boolean literals, whatever follows. */
  lemma BooleanKeyword(t: Token, rest: seq<Token>)
    requires t.kind == Identifier && (t.text == "true" || t.text == "false")
    ensures ParsePrimary([t] + rest) == Ok(Parsed(BooleanLiteralExpr(t.text == "true"), rest))
  {
    assert ([t] + rest)[1..] == rest;
  }

  function NoPrimaryAt(t: Token): ParseError
  {
    ParserError("Expected a primary expression but got " + KindName(t.kind), Some(t))
  }

  /** A failure of the primary rung is a failure of the whole ladder. */
  lemma PrimaryFailureIsSumFailure(ts: seq<Token>, e: ParseError)
    requires ParsePrimary(ts) == Err(e)
    ensures ParseAddition(ts) == Err(e)
  {
    assert ParseUnary(ts) == Err(e);
    assert ParseMultiplication(ts) == Err(e);
  }

  lemma SumFailureIsExpressionFailure(ts: seq<Token>, e: ParseError)
    requires ParseAddition(ts) == Err(e)
    ensures ParseExpr(ts) == Err(e)
  {
    assert ParseComparison(ts) == Err(e);
    assert ParseLogical(ts) == Err(e);
    assert ParseTernary(ts) == Err(e);
    assert ParseAssignment(ts) == Err(e);
  }

  /** A ';' does not begin an expression. */
  lemma SemicolonIsNoExpression(semicolon: Token, rest: seq<Token>)
    requires semicolon.kind == Semicolon
    ensures ParseExpr([semicolon] + rest) == Err(NoPrimaryAt(semicolon))
  {
    var ts := [semicolon] + rest;
    assert Peek(ts, 0) == semicolon;
    assert ParsePrimary(ts) == Err(NoPrimaryAt(semicolon));
    PrimaryFailureIsSumFailure(ts, NoPrimaryAt(semicolon));
    SumFailureIsExpressionFailure(ts, NoPrimaryAt(semicolon));
  }

  /** `return` is always followed by an expression, so `return;` fails at the
      ';'. */
  lemma BareReturnFails(ret: Token, semicolon: Token, rest: seq<Token>)
    requires ret.kind == Identifier && ret.text == "return" && semicolon.kind == Semicolon
    ensures ParsePrimary([ret, semicolon] + rest) == Err(NoPrimaryAt(semicolon))
  {
    var ts := [ret] + ([semicolon] + rest);
    assert ts == [ret, semicolon] + rest;
    SemicolonIsNoExpression(semicolon, rest);
    ReturnFailsWith(ret, [semicolon] + rest, NoPrimaryAt(semicolon));
    PrimaryOfWord(ts);
  }

  /** A primary expression that starts with an identifier is a word. */
  lemma PrimaryOfWord(ts: seq<Token>)
    requires Accepts(ts, Identifier)
    ensures ParsePrimary(ts) == ParseWord(ts)
  {
  }

  /** `return` fails where the expression after it fails. */
  lemma ReturnFailsWith(ret: Token, rest: seq<Token>, e: ParseError)
    requires ret.kind == Identifier && ret.text == "return" && ParseExpr(rest) == Err(e)
    ensures ParseWord([ret] + rest) == Err(e)
  {
    assert ([ret] + rest)[1..] == rest;
  }

  /** One ';' ends an expression; a second one is not an expression, so `x;;`
      fails at the second ';'. */
  lemma DoubledSemicolonFails(x: Token, s1: Token, s2: Token)
    requires x.kind == Identifier && !IsKeyword(x.text) && s1.kind == Semicolon && s2.kind == Semicolon
    ensures ParseAll([x, s1, s2]) == Err(NoPrimaryAt(s2))
  {
    var ts := [x, s1, s2];
    PlainIdentifier(x, [s1, s2]);
    assert [x] + [s1, s2] == ts;
    PrimaryIsExpression(ts, IdentifierExpr(x.text), [s1, s2]);
    assert [s1, s2][1..] == [s2] + [];
    SemicolonIsNoExpression(s2, []);
  }

  // ---------------------------------------------------------------------
  // Declarations

  /** `const name: type;` is refused, reported at the `const` token. */
  lemma ConstNeedsInitializer(kw: Token, name: Token, colon: Token, typeOf: Token, semicolon: Token, rest: seq<Token>)
    requires kw.kind == Identifier && kw.text == "const" && name.kind == Identifier
    requires colon.kind == Colon && typeOf.kind == Identifier && semicolon.kind == Semicolon
    ensures ParseVariableDeclaration([kw, name, colon, typeOf, semicolon] + rest) ==
      Err(ParserError("const variables must be initialized", Some(kw)))
  {
    DeclarationHead(kw, name, colon, typeOf, [semicolon] + rest);
    assert [kw, name, colon, typeOf] + ([semicolon] + rest) == [kw, name, colon, typeOf, semicolon] + rest;
  }

  /** `var name: type;` declares a variable without an initial value. */
  lemma VarWithoutInitializer(kw: Token, name: Token, colon: Token, typeOf: Token, semicolon: Token, rest: seq<Token>)
    requires kw.kind == Identifier && kw.text == "var" && name.kind == Identifier
    requires colon.kind == Colon && typeOf.kind == Identifier && semicolon.kind == Semicolon
    ensures ParseVariableDeclaration([kw, name, colon, typeOf, semicolon] + rest) ==
      Ok(Parsed(VariableDeclarationExpr(name.text, typeOf.text, None, false), rest))
  {
    DeclarationHead(kw, name, colon, typeOf, [semicolon] + rest);
    assert [kw, name, colon, typeOf] + ([semicolon] + rest) == [kw, name, colon, typeOf, semicolon] + rest;
    assert ([semicolon] + rest)[1..] == rest;
  }

  /** Keyword, name, ':' and type are read in turn; what follows them is the
      initializer. */
  lemma DeclarationHead(kw: Token, name: Token, colon: Token, typeOf: Token, rest: seq<Token>)
    requires kw.kind == Identifier && name.kind == Identifier && colon.kind == Colon && typeOf.kind == Identifier
    ensures ParseVariableDeclaration([kw, name, colon, typeOf] + rest) ==
      VariableInitializer(kw, name.text, typeOf.text, rest)
  {
    var s3 := [typeOf] + rest;
    var s2 := [colon] + s3;
    var s1 := [name] + s2;
    var ts := [kw] + s1;
    assert ts == [kw, name, colon, typeOf] + rest;
    ConsumeHead(kw, s1, Identifier, "");
    ConsumeHead(name, s2, Identifier, "");
    ConsumeHead(colon, s3, Colon, "Missing type of variable");
    ConsumeHead(typeOf, rest, Identifier, "");
  }

  /** Consuming the kind the next token has takes that token. */
  lemma ConsumeHead(t: Token, rest: seq<Token>, k: TokenKind, message: string)
    requires t.kind == k
    ensures ConsumeOr([t] + rest, k, message) == Ok(Parsed(t, rest))
    ensures Consume([t] + rest, k) == Ok(Parsed(t, rest))
  {
    assert ([t] + rest)[1..] == rest;
  }

  /** A declaration whose name is not followed by ':' fails with 'Missing
      type of variable' at the token that follows the name. */
  lemma MissingTypeOfVariable(kw: Token, name: Token, rest: seq<Token>)
    requires kw.kind == Identifier && name.kind == Identifier && !Accepts(rest, Colon)
    ensures ParseVariableDeclaration([kw, name] + rest) ==
      Err(ParserError("Missing type of variable", Some(Peek(rest, 0))))
  {
    var s1 := [name] + rest;
    assert [kw] + s1 == [kw, name] + rest;
    ConsumeHead(kw, s1, Identifier, "");
    ConsumeHead(name, rest, Identifier, "");
  }

  // ---------------------------------------------------------------------
  // Templates

  /** A template without "${" is a single string part holding its text. */
  lemma TemplateWithoutInterpolation(tok: Token, rest: seq<Token>)
    requires tok.kind == TemplateLiteral && !Contains(tok.text, "${")
    ensures ParseTemplate([tok] + rest) == Ok(Parsed(TemplateLiteralExpr([StringLiteralExpr(tok.text)]), rest))
  {
    assert ([tok] + rest)[1..] == rest;
  }

  /** The interpolated source and the text after it put back together, with
      the brace between them, give the trimmed part; the source holds no
      brace. */
  lemma SplitAtBraceRebuilds(part: string)
    requires IndexOf(TrimStart(part), "}") > 0
    ensures var (source, after) := SplitAtBrace(part);
      TrimStart(part) == source + "}" + after && !Contains(source, "}")
  {
    var t := TrimStart(part);
    var end := IndexOf(t, "}");
    IndexOfOccurs(t, "}");
    SliceThree(t, end, "}");
    NoneBeforeFirst(t, "}");
  }

  /** The source's split of " x}" keeps the blank before x as the source and
      turns the brace into the text after it, losing x. */
  lemma SplitAtBraceAsWrittenLosesText()
    ensures IndexOf(TrimStart(" x}"), "}") == 1
    ensures SplitAtBraceAsWritten(" x}") == (" ", "}")
    ensures SplitAtBrace(" x}") == ("x", "")
  {
    SampleTrims();
    SampleBraceAt();
    assert " x}"[..1] == " " && " x}"[2..] == "}";
    assert "x}"[..1] == "x" && "x}"[2..] == "";
  }

  lemma SampleTrims()
    ensures TrimStart(" x}") == "x}"
  {
    var part := " x}";
    assert part[0] == ' ' && part[1..] == "x}";
    assert !IsSpace('x');
    assert TrimStart("x}") == "x}";
  }

  lemma SampleBraceAt()
    ensures IndexOf("x}", "}") == 1
  {
    assert "x}"[..1] == "x";
    assert !HasPrefix("x}", "}");
    assert "x}"[1..] == "}";
    assert HasPrefix("}", "}");
  }

  /** An interpolation with nothing between "${" and "}" is refused. */
  lemma EmptyInterpolationFails(tok: Token, part: string)
    requires |part| <= |tok.text| && !AllSpace(part) && HasPrefix(TrimStart(part), "}")
    ensures TemplatePart(tok, part, false) == Err(ParserError("Empty expression", Some(tok)))
  {
    TrimEmpty(part);
  }

  /** A part with no '}' after the first "${" stays literal, with the "${"
      put back. */
  lemma UnclosedInterpolation(tok: Token, part: string)
    requires |part| <= |tok.text| && !AllSpace(part) && !Contains(TrimStart(part), "}")
    ensures TemplatePart(tok, part, false) == Ok([StringLiteralExpr("${" + part)])
  {
    TrimEmpty(part);
    IndexOfFound(TrimStart(part), "}");
  }

  /** The text before the first "${" stays literal whatever it holds, and so
      does any part that is only blanks. */
  lemma LeadingAndBlankPartsStayLiteral(tok: Token, part: string, first: bool)
    requires |part| <= |tok.text| && part != [] && (first || AllSpace(part))
    ensures TemplatePart(tok, part, first) == Ok([StringLiteralExpr(part)])
  {
    TrimEmpty(part);
  }

  /** Parts after the split keep their order: the nodes of a template are
      the nodes of its parts, one after another. */
  lemma TemplatePartsInOrder(tok: Token, parts: seq<string>, i: nat)
    requires i < |parts|
    requires PartsFit(tok, parts)
    requires TemplatePart(tok, parts[i], i == 0).Ok? && TemplateParts(tok, parts, i + 1).Ok?
    ensures TemplateParts(tok, parts, i) ==
      Ok(TemplatePart(tok, parts[i], i == 0).value + TemplateParts(tok, parts, i + 1).value)
  {
  }

  /** DropEmpty removes exactly the EmptyExpr nodes: what it keeps is never
      EmptyExpr, and it keeps every other node in order. */
  lemma {:induction false} DropEmptyKeeps(es: seq<Expr>)
    ensures forall i :: 0 <= i < |DropEmpty(es)| ==> DropEmpty(es)[i] != EmptyExpr
    ensures (forall i :: 0 <= i < |es| ==> es[i] != EmptyExpr) ==> DropEmpty(es) == es
  {
    if es != [] {
      DropEmptyKeeps(es[1..]);
      var head := if es[0] == EmptyExpr then [] else [es[0]];
      assert DropEmpty(es) == head + DropEmpty(es[1..]);
      if forall i :: 0 <= i < |es| ==> es[i] != EmptyExpr {
        assert forall i :: 0 <= i < |es[1..]| ==> es[1..][i] != EmptyExpr by {
          forall i | 0 <= i < |es[1..]| ensures es[1..][i] != EmptyExpr {
            assert es[1..][i] == es[i + 1];
          }
        }
        assert es == [es[0]] + es[1..];
      }
    }
  }

  /** A template literal never holds an EmptyExpr part. */
  lemma TemplateHasNoEmptyParts(ts: seq<Token>)
    requires ParseTemplate(ts).Ok?
    ensures var parts := ParseTemplate(ts).value.node.parts;
      forall i :: 0 <= i < |parts| ==> parts[i] != EmptyExpr
  {
    var c := Consume(ts, TemplateLiteral).value;
    if Contains(c.node.text, "${") {
      SplitBounded(c.node.text);
      DropEmptyKeeps(TemplateParts(c.node, Split(c.node.text, "${"), 0).value);
    }
  }

  // ---------------------------------------------------------------------
  // Number literals

  /** The text of a number token, digits with at most one dot and a digit
      first, always denotes a number; without a dot it is the value of its
      digits. */
  lemma NumberTextDenotes(text: string)
    requires |text| > 0 && LexerSpec.IsDigit(text[0]) && AllNumberChars(text)
    requires LexerSpec.Occurrences(text, '.') <= 1
    ensures DecimalValue(text).Some?
    ensures !Contains(text, ".") ==> DecimalValue(text) == Some(DigitsValue(text) as real)
  {
    IndexOfFound(text, ".");
  }

  // ---------------------------------------------------------------------
  // Finding: consume at the end of the token list

  /** As written, consuming EOF from an exhausted list succeeds without
      taking anything, so an expression there is an EmptyExpr that leaves
      the list empty, while peek keeps showing EOF rather than '}' or ')':
      the source's block and argument loops, which stop only at those,
      would parse that same EmptyExpr forever. */
  lemma EmptyListStalls()
    ensures ConsumeOr([], Eof, "") == Ok(Parsed(Peek([], 0), []))
    ensures ParseExpr([]) == Ok(Parsed(EmptyExpr, []))
    ensures Peek([], 0).kind != CloseCurly && Peek([], 0).kind != CloseParen
  {
    assert ParsePrimary([]) == Ok(Parsed(EmptyExpr, []));
    PrimaryIsExpression([], EmptyExpr, []);
  }

  /** With the loops stopping once no token is left, an unclosed block
      reports the missing '}' at the EOF that peek shows. */
  lemma UnclosedBlockFails(open: Token, eof: Token)
    requires open.kind == OpenCurly && eof.kind == Eof
    ensures ParseBlock([open, eof]) == Err(ParserError(ExpectedMessage(CloseCurly, Eof), Some(Token(Eof, "", 0))))
  {
    var ts := [open, eof];
    assert ts[1..] == [eof];
    assert ParseExpr([eof]) == Ok(Parsed(EmptyExpr, [])) by { EofExpression(eof); }
    assert BlockItems([]) == Ok(Parsed([], []));
    assert Peek([eof], 0) == eof && [EmptyExpr] + [] == [EmptyExpr];
    assert BlockItems([eof]) == Ok(Parsed([EmptyExpr], []));
    assert Consume([], CloseCurly) == Err(ParserError(ExpectedMessage(CloseCurly, Eof), Some(Token(Eof, "", 0))));
  }

  /** Likewise an unclosed argument list reports the missing ')'. */
  lemma UnclosedCallFails(name: Token, open: Token, eof: Token)
    requires name.kind == Identifier && open.kind == OpenParen && eof.kind == Eof
    ensures ParseFunctionCall([name, open, eof]) == Err(ParserError(ExpectedMessage(CloseParen, Eof), Some(Token(Eof, "", 0))))
  {
    var ts := [name, open, eof];
    assert ts[1..][1..] == [eof];
    assert ParseExpr([eof]) == Ok(Parsed(EmptyExpr, [])) by { EofExpression(eof); }
    assert AfterOptional([], Comma) == [];
    assert ArgItems([]) == Ok(Parsed([], []));
    assert Peek([eof], 0) == eof && [EmptyExpr] + [] == [EmptyExpr];
    assert ArgItems([eof]) == Ok(Parsed([EmptyExpr], []));
    assert Consume([], CloseParen) == Err(ParserError(ExpectedMessage(CloseParen, Eof), Some(Token(Eof, "", 0))));
    assert CallArguments(name.text, [eof]).Err?;
  }

  /** A for loop cut off after its initializer, `for (x;`, reports the
      missing ')' at the EOF that peek shows: the condition is the EmptyExpr
      of the lexer's EOF token and the increment that of the exhausted
      list. */
  lemma TruncatedForFails(x: Token, semicolon: Token, eof: Token)
    requires x.kind == Identifier && x.text == "x" && semicolon.kind == Semicolon && eof.kind == Eof
    ensures ForClauses([x, semicolon, eof]) == Err(ParserError(ExpectedMessage(CloseParen, Eof), Some(Token(Eof, "", 0))))
  {
    var ts := [x, semicolon, eof];
    assert ts[1..] == [semicolon, eof] && ts[1..][1..] == [eof];
    PlainIdentifier(x, [semicolon, eof]);
    PrimaryIsExpression(ts, IdentifierExpr("x"), [semicolon, eof]);
    assert AfterOptional([semicolon, eof], Semicolon) == [eof];
    assert ParseExpr(ts) == Ok(Parsed(IdentifierExpr("x"), [eof]));
    EofExpression(eof);
    assert AfterOptional([eof], Semicolon) == [eof];
    EmptyListStalls();
    assert ForRest(IdentifierExpr("x"), EmptyExpr, []) == Err(ParserError(ExpectedMessage(CloseParen, Eof), Some(Token(Eof, "", 0))));
  }
}
