// The parser as the source runs it: one object holding the tokens not yet
// read, taken from the front by `consume` and `optional`. Every method is
// proved to return the node, and to leave the tokens, that the function of
// the same name in ParserSpec gives for the tokens it started with; after a
// failure only the error is fixed.
module Parsing {
  import opened Wrappers
  import opened Tokens
  import opened Ast
  import opened Strings
  import opened ParserSpec
  import Lexing

  /** The source's result list after the items pre were pushed. */
  function PrependSeq<T>(pre: seq<T>, r: Result<seq<T>, ParseError>): Result<seq<T>, ParseError>
  {
    match r
    case Err(e) => Err(e)
    case Ok(es) => Ok(pre + es)
  }

  /** A loop's parsed list after the items pre were pushed. */
  function PrependList<T>(pre: seq<T>, r: Result<Parsed<seq<T>>, ParseError>): Result<Parsed<seq<T>>, ParseError>
  {
    match r
    case Err(e) => Err(e)
    case Ok(p) => Ok(Parsed(pre + p.node, p.rest))
  }

  lemma PrependSeqTwice<T>(a: seq<T>, b: seq<T>, r: Result<seq<T>, ParseError>)
    ensures PrependSeq(a, PrependSeq(b, r)) == PrependSeq(a + b, r)
  {
    if r.Ok? {
      assert a + (b + r.value) == a + b + r.value;
    }
  }

  /** The parts from i on, after the nodes pre: the nodes of part i follow
      pre, ahead of those of the rest, or part i fails. */
  lemma TemplatePartsStep(tok: Token, parts: seq<string>, i: nat, pre: seq<Expr>, here: Result<seq<Expr>, ParseError>)
    requires i < |parts|
    requires PartsFit(tok, parts)
    requires here == TemplatePart(tok, parts[i], i == 0)
    ensures PrependSeq(pre, TemplateParts(tok, parts, i))
      == if here.Err? then Err(here.error) else PrependSeq(pre + here.value, TemplateParts(tok, parts, i + 1))
  {
    if here.Ok? {
      PrependSeqTwice(pre, here.value, TemplateParts(tok, parts, i + 1));
    }
  }

  lemma PrependListTwice<T>(a: seq<T>, b: seq<T>, r: Result<Parsed<seq<T>>, ParseError>)
    ensures PrependList(a, PrependList(b, r)) == PrependList(a + b, r)
  {
    if r.Ok? {
      assert a + (b + r.value.node) == a + b + r.value.node;
    }
  }

  lemma PrependSeqEmpty<T>(r: Result<seq<T>, ParseError>)
    ensures PrependSeq([], r) == r
  {
    if r.Ok? {
      assert [] + r.value == r.value;
    }
  }

  lemma PrependListEmpty<T>(r: Result<Parsed<seq<T>>, ParseError>)
    ensures PrependList([], r) == r
  {
    if r.Ok? {
      assert [] + r.value.node == r.value.node;
    }
  }

  /** One turn of the argument loop: the expression, then the loop after
      the optional ','. */
  lemma ArgItemsStep(ts: seq<Token>, e: Expr, rest: seq<Token>)
    requires ts != [] && Peek(ts, 0).kind != CloseParen
    requires ParserSpec.ParseExpr(ts) == Ok(Parsed(e, rest))
    ensures ArgItems(ts) == PrependList([e], ArgItems(AfterOptional(rest, Comma)))
  {
  }

  class Parser {
    /** The tokens not yet read. */
    var tokens: seq<Token>

    constructor ()
      ensures tokens == []
    {
      tokens := [];
    }

    /** The method's result and the parser's new state are those the
        function `spec` gives; after a failure only the error is fixed. */
    ghost predicate Agrees<T>(r: Result<T, ParseError>, spec: Result<Parsed<T>, ParseError>)
      reads this
    {
      match spec
      case Err(e) => r == Err(e)
      case Ok(p) => r == Ok(p.node) && tokens == p.rest
    }

    /** `optional(kind)`: takes the next token when it has that kind. */
    method Optional(k: TokenKind) returns (t: Option<Token>)
      modifies this
      ensures tokens == AfterOptional(old(tokens), k)
      ensures t.Some? <==> Accepts(old(tokens), k)
      ensures t.Some? ==> t.value == old(tokens)[0]
    {
      if Peek(tokens, 0).kind == k && |tokens| > 0 {
        t := Some(tokens[0]);
        tokens := tokens[1..];
      } else {
        t := None;
      }
    }

    /** `consume(kind, message)`: on an exhausted list the EOF that peek
        shows is consumed without shifting anything. */
    method Consume(k: TokenKind, message: string) returns (r: Result<Token, ParseError>)
      modifies this
      ensures Agrees(r, ConsumeOr(old(tokens), k, message))
    {
      var got := Peek(tokens, 0);
      if got.kind != k {
        r := Err(ParserError(if message != "" then message else ExpectedMessage(k, got.kind), Some(got)));
      } else if |tokens| > 0 {
        r := Ok(tokens[0]);
        tokens := tokens[1..];
      } else {
        r := Ok(got);
      }
    }

    /** `parse(tokens)`: the statements of a whole token list. */
    method Parse(ts: seq<Token>) returns (r: Result<seq<Expr>, ParseError>)
      modifies this
      ensures r == ParserSpec.ParseAll(ts)
    {
      tokens := ts;
      r := ParseAll();
    }

    /** Expressions until no token is left. */
    method ParseAll() returns (r: Result<seq<Expr>, ParseError>)
      modifies this
      ensures r == ParserSpec.ParseAll(old(tokens))
      decreases Weight(tokens), |tokens|, 22, 0
    {
      var stmts: seq<Expr> := [];
      PrependSeqEmpty(ParserSpec.ParseAll(tokens));
      while |tokens| > 0
        invariant ParserSpec.ParseAll(old(tokens)) == PrependSeq(stmts, ParserSpec.ParseAll(tokens))
        invariant NoLonger(tokens, old(tokens))
        decreases |tokens|
      {
        ghost var before := tokens;
        var e := ParseExpr();
        if e.Err? {
          return Err(e.error);
        }
        assert ParserSpec.ParseAll(before) == PrependSeq([e.value], ParserSpec.ParseAll(tokens));
        PrependSeqTwice(stmts, [e.value], ParserSpec.ParseAll(tokens));
        stmts := stmts + [e.value];
      }
      assert stmts + [] == stmts;
      r := Ok(stmts);
    }

    method ParseExpr() returns (r: Result<Expr, ParseError>)
      modifies this
      ensures Agrees(r, ParserSpec.ParseExpr(old(tokens)))
      decreases Weight(tokens), |tokens|, 20, 0
    {
      r := ParseAssignment();
      if r.Err? {
        return;
      }
      var _ := Optional(Semicolon);
    }

    method ParseAssignment() returns (r: Result<Expr, ParseError>)
      modifies this
      ensures Agrees(r, ParserSpec.ParseAssignment(old(tokens)))
      decreases Weight(tokens), |tokens|, 19, 0
    {
      var expr := ParseTernary();
      if expr.Err? {
        return expr;
      }
      var eq := Optional(Assignment);
      if eq.Some? {
        var value := ParseTernary();
        if value.Err? {
          return value;
        }
        if expr.value.IdentifierExpr? {
          return Ok(AssignmentExpr(expr.value.name, value.value));
        }
        return Err(ParserError("Invalid assignment target", None));
      }
      return expr;
    }

    method ParseTernary() returns (r: Result<Expr, ParseError>)
      modifies this
      ensures Agrees(r, ParserSpec.ParseTernary(old(tokens)))
      decreases Weight(tokens), |tokens|, 18, 0
    {
      var expr := ParseLogical();
      if expr.Err? {
        return expr;
      }
      var question := Optional(QuestionMark);
      if question.Some? {
        r := TernaryBranches(expr.value);
        return;
      }
      return expr;
    }

    /** The two branches after '?': expression ':' expression. */
    method TernaryBranches(condition: Expr) returns (r: Result<Expr, ParseError>)
      modifies this
      ensures Agrees(r, ParserSpec.TernaryBranches(condition, old(tokens)))
      decreases Weight(tokens), |tokens|, 21, 0
    {
      var thenBranch := ParseExpr();
      if thenBranch.Err? {
        return thenBranch;
      }
      var colon := Consume(Colon, "");
      if colon.Err? {
        return Err(colon.error);
      }
      r := TernaryElse(condition, thenBranch.value);
    }

    /** The branch after ':'. */
    method TernaryElse(condition: Expr, thenBranch: Expr) returns (r: Result<Expr, ParseError>)
      modifies this
      ensures Agrees(r, ParserSpec.TernaryElse(condition, thenBranch, old(tokens)))
      decreases Weight(tokens), |tokens|, 21, 0
    {
      var elseBranch := ParseExpr();
      if elseBranch.Err? {
        return elseBranch;
      }
      return Ok(TernaryExpr(condition, thenBranch, elseBranch.value));
    }

    method ParseLogical() returns (r: Result<Expr, ParseError>)
      modifies this
      ensures Agrees(r, ParserSpec.ParseLogical(old(tokens)))
      decreases Weight(tokens), |tokens|, 17, 0
    {
      var first := ParseComparison();
      if first.Err? {
        return first;
      }
      var expr := first.value;
      while IsLogicalOp(Peek(tokens, 0).kind)
        invariant ParserSpec.ParseLogical(old(tokens)) == LogicalLoop(expr, tokens)
        invariant BelowOrDone(tokens, old(tokens))
        decreases |tokens|
      {
        var op := Consume(Peek(tokens, 0).kind, "");
        var right := ParseComparison();
        if right.Err? {
          return right;
        }
        expr := BinaryExpr(expr, op.value, right.value);
      }
      return Ok(expr);
    }

    method ParseComparison() returns (r: Result<Expr, ParseError>)
      modifies this
      ensures Agrees(r, ParserSpec.ParseComparison(old(tokens)))
      decreases Weight(tokens), |tokens|, 15, 0
    {
      var first := ParseAddition();
      if first.Err? {
        return first;
      }
      var expr := first.value;
      while IsComparisonOp(Peek(tokens, 0).kind)
        invariant ParserSpec.ParseComparison(old(tokens)) == ComparisonLoop(expr, tokens)
        invariant BelowOrDone(tokens, old(tokens))
        decreases |tokens|
      {
        var op := Consume(Peek(tokens, 0).kind, "");
        var right := ParseAddition();
        if right.Err? {
          return right;
        }
        expr := BinaryExpr(expr, op.value, right.value);
      }
      return Ok(expr);
    }

    method ParseAddition() returns (r: Result<Expr, ParseError>)
      modifies this
      ensures Agrees(r, ParserSpec.ParseAddition(old(tokens)))
      decreases Weight(tokens), |tokens|, 13, 0
    {
      var first := ParseMultiplication();
      if first.Err? {
        return first;
      }
      var expr := first.value;
      while IsAdditionOp(Peek(tokens, 0).kind)
        invariant ParserSpec.ParseAddition(old(tokens)) == AdditionLoop(expr, tokens)
        invariant BelowOrDone(tokens, old(tokens))
        decreases |tokens|
      {
        var op := Consume(Peek(tokens, 0).kind, "");
        var right := ParseMultiplication();
        if right.Err? {
          return right;
        }
        expr := BinaryExpr(expr, op.value, right.value);
      }
      return Ok(expr);
    }

    method ParseMultiplication() returns (r: Result<Expr, ParseError>)
      modifies this
      ensures Agrees(r, ParserSpec.ParseMultiplication(old(tokens)))
      decreases Weight(tokens), |tokens|, 11, 0
    {
      var first := ParseUnary();
      if first.Err? {
        return first;
      }
      var expr := first.value;
      while IsMultiplicationOp(Peek(tokens, 0).kind)
        invariant ParserSpec.ParseMultiplication(old(tokens)) == MultiplicationLoop(expr, tokens)
        invariant BelowOrDone(tokens, old(tokens))
        decreases |tokens|
      {
        var op := Consume(Peek(tokens, 0).kind, "");
        var right := ParseUnary();
        if right.Err? {
          return right;
        }
        expr := BinaryExpr(expr, op.value, right.value);
      }
      return Ok(expr);
    }

    method ParseUnary() returns (r: Result<Expr, ParseError>)
      modifies this
      ensures Agrees(r, ParserSpec.ParseUnary(old(tokens)))
      decreases Weight(tokens), |tokens|, 9, 0
    {
      var expr := ParsePrimary();
      if expr.Err? {
        return expr;
      }
      if IsPostfixOp(Peek(tokens, 0).kind) {
        var op := Consume(Peek(tokens, 0).kind, "");
        return Ok(UnaryExpr(op.value, expr.value));
      }
      return expr;
    }

    method ParsePrimary() returns (r: Result<Expr, ParseError>)
      modifies this
      ensures Agrees(r, ParserSpec.ParsePrimary(old(tokens)))
      decreases Weight(tokens), |tokens|, 8, 0
    {
      var expr := Peek(tokens, 0);
      if expr.kind == NumberLiteral {
        var t := Consume(NumberLiteral, "");
        return Ok(NumberLiteralExpr(DecimalValue(t.value.text)));
      }
      if expr.kind == StringLiteral {
        var t := Consume(StringLiteral, "");
        return Ok(StringLiteralExpr(t.value.text));
      }
      if expr.kind == TemplateLiteral {
        r := ParseTemplateLiteral();
        return;
      }
      if expr.kind == OpenParen {
        r := ParseGrouping();
        return;
      }
      if expr.kind == OpenCurly {
        r := ParseBlock();
        return;
      }
      if expr.kind == Eof {
        var _ := Consume(Eof, "");
        return Ok(EmptyExpr);
      }
      if expr.kind == Identifier {
        r := ParseWord();
        return;
      }
      return Err(ParserError("Expected a primary expression but got " + KindName(expr.kind), Some(expr)));
    }

    /** The identifier branch of `parsePrimary`: keywords by their exact
        text, a call when '(' follows, and otherwise a variable reference. */
    method ParseWord() returns (r: Result<Expr, ParseError>)
      requires Accepts(tokens, Identifier)
      modifies this
      ensures Agrees(r, ParserSpec.ParseWord(old(tokens)))
      decreases Weight(tokens), |tokens|, 7, 0
    {
      var name := Peek(tokens, 0);
      if name.text == "if" {
        r := ParseIf();
        return;
      }
      if name.text == "var" || name.text == "const" {
        r := ParseVariableDeclaration();
        return;
      }
      if name.text == "for" {
        r := ParseFor();
        return;
      }
      if name.text == "true" || name.text == "false" {
        var t := Consume(Identifier, "");
        return Ok(BooleanLiteralExpr(t.value.text == "true"));
      }
      if name.text == "null" {
        var _ := Consume(Identifier, "");
        return Ok(NullLiteralExpr);
      }
      if name.text == "return" {
        var _ := Consume(Identifier, "");
        var value := ParseExpr();
        if value.Err? {
          return value;
        }
        return Ok(ReturnStmt(value.value));
      }
      if name.text == "continue" {
        var _ := Consume(Identifier, "");
        return Ok(ContinueStmt);
      }
      if name.text == "break" {
        var _ := Consume(Identifier, "");
        return Ok(BreakStmt);
      }
      if name.text == "func" {
        r := ParseFunctionDeclaration();
        return;
      }
      if Peek(tokens, 1).kind == OpenParen {
        r := ParseFunctionCall();
        return;
      }
      var t := Consume(Identifier, "");
      return Ok(IdentifierExpr(t.value.text));
    }

    /** A template token. Each interpolation is lexed on its own and parsed
        with the tokens swapped out, then the tokens are put back. */
    method ParseTemplateLiteral() returns (r: Result<Expr, ParseError>)
      modifies this
      ensures Agrees(r, ParseTemplate(old(tokens)))
      decreases Weight(tokens), |tokens|, 6, 0
    {
      var c := Consume(TemplateLiteral, "");
      if c.Err? {
        return Err(c.error);
      }
      var expr := c.value;
      var value := expr.text;
      if !Contains(value, "${") {
        return Ok(TemplateLiteralExpr([StringLiteralExpr(value)]));
      }
      var parts := Split(value, "${");
      SplitBounded(value);
      var exprs := ParseTemplateParts(expr, parts);
      if exprs.Err? {
        return Err(exprs.error);
      }
      return Ok(TemplateLiteralExpr(DropEmpty(exprs.value)));
    }

    /** The part loop of `parseTemplateLiteral` for a template with token
        tok: the nodes of every part, before EmptyExpr nodes are dropped. */
    method ParseTemplateParts(tok: Token, parts: seq<string>) returns (r: Result<seq<Expr>, ParseError>)
      requires PartsFit(tok, parts)
      modifies this
      ensures r == TemplateParts(tok, parts, 0)
      ensures r.Ok? ==> tokens == old(tokens)
      decreases |tok.text| + 2, 0, 2, 0
    {
      ghost var all := TemplateParts(tok, parts, 0);
      var exprs: seq<Expr> := [];
      PrependSeqEmpty(all);
      for i := 0 to |parts|
        invariant tokens == old(tokens)
        invariant all == PrependSeq(exprs, TemplateParts(tok, parts, i))
      {
        var next := ParseTemplateTurn(tok, parts, i, exprs);
        if next.Err? {
          return Err(next.error);
        }
        exprs := next.value;
      }
      assert exprs + [] == exprs;
      return Ok(exprs);
    }

    /** Turn i of the part loop: the nodes pushed so far, pre, followed by
        those of part i, or the failure of part i. */
    method ParseTemplateTurn(tok: Token, parts: seq<string>, i: nat, pre: seq<Expr>) returns (r: Result<seq<Expr>, ParseError>)
      requires i < |parts| && PartsFit(tok, parts)
      modifies this
      ensures r.Err? ==> PrependSeq(pre, TemplateParts(tok, parts, i)) == Err(r.error)
      ensures r.Ok? ==> PrependSeq(pre, TemplateParts(tok, parts, i)) == PrependSeq(r.value, TemplateParts(tok, parts, i + 1))
      ensures r.Ok? ==> tokens == old(tokens)
      decreases |tok.text| + 2, 0, 1, 0
    {
      var here := ParseTemplatePart(tok, parts[i], i == 0);
      TemplatePartsStep(tok, parts, i, pre, here);
      if here.Err? {
        return Err(here.error);
      }
      return Ok(pre + here.value);
    }

    /** One turn of the part loop of `parseTemplateLiteral`, for the part
        before the first "${" when first holds: the nodes it pushes, with
        the tokens put back after an interpolation is parsed. */
    method ParseTemplatePart(tok: Token, part: string, first: bool) returns (r: Result<seq<Expr>, ParseError>)
      requires |part| <= |tok.text|
      modifies this
      ensures r == TemplatePart(tok, part, first)
      ensures r.Ok? ==> tokens == old(tokens)
      decreases |tok.text| + 2, 0, 0, 1
    {
      if part == "" {
        return Ok([]);
      }
      if Trim(part) == "" || first {
        return Ok([StringLiteralExpr(part)]);
      }
      var trimmed := TrimStart(part);
      var end := IndexOf(trimmed, "}");
      if end == -1 {
        return Ok([StringLiteralExpr("${" + part)]);
      }
      if end == 0 {
        return Err(ParserError("Empty expression", Some(tok)));
      }
      r := ParseInterpolation(tok, part);
    }

    /** An interpolated part: the source before the first '}' is lexed and
        parsed on its own, and the tokens are put back afterwards. */
    method ParseInterpolation(tok: Token, part: string) returns (r: Result<seq<Expr>, ParseError>)
      requires |part| <= |tok.text| && IndexOf(TrimStart(part), "}") > 0
      modifies this
      ensures r == Interpolation(tok, part)
      ensures r.Ok? ==> tokens == old(tokens)
      decreases |tok.text| + 2, 0, 0, 0
    {
      var trimmed := TrimStart(part);
      var end := IndexOf(trimmed, "}");
      var source := trimmed[..end];
      var lexer := new Lexing.Lexer();
      var lexed := lexer.Tokenize(source);
      if lexed.Err? {
        return Err(LexFailure(lexed.error));
      }
      TokenizeWeight(source);
      var currentTokens := tokens;
      tokens := lexed.value;
      var inner := ParseAll();
      tokens := currentTokens;
      if inner.Err? {
        return Err(inner.error);
      }
      return Ok(inner.value + [StringLiteralExpr(trimmed[end + 1..])]);
    }

    /** The parameter loop of `parseFunctionDeclaration`: name ':' type
        [','] until ')' is next. */
    method ParseParameters() returns (r: Result<seq<Param>, ParseError>)
      modifies this
      ensures Agrees(r, ParamItems(old(tokens)))
    {
      var params: seq<Param> := [];
      PrependListEmpty(ParamItems(tokens));
      while Peek(tokens, 0).kind != CloseParen
        invariant ParamItems(old(tokens)) == PrependList(params, ParamItems(tokens))
        decreases |tokens|
      {
        ghost var before := tokens;
        var param := ParseParameter();
        if param.Err? {
          return Err(param.error);
        }
        PrependListTwice(params, [param.value], ParamItems(tokens));
        params := params + [param.value];
      }
      assert params + [] == params;
      return Ok(params);
    }

    /** One turn of the parameter loop: name ':' type, and an optional ','. */
    method ParseParameter() returns (r: Result<Param, ParseError>)
      modifies this
      ensures Agrees(r, ParamItem(old(tokens)))
    {
      var paramName := Consume(Identifier, "");
      if paramName.Err? {
        return Err(paramName.error);
      }
      var colon := Consume(Colon, "");
      if colon.Err? {
        return Err(colon.error);
      }
      var paramType := Consume(Identifier, "");
      if paramType.Err? {
        return Err(paramType.error);
      }
      var _ := Optional(Comma);
      return Ok(Param(paramName.value.text, paramType.value.text));
    }

    /** 'func' name '(' parameters ')' ':' type block. */
    method ParseFunctionDeclaration() returns (r: Result<Expr, ParseError>)
      modifies this
      ensures Agrees(r, ParserSpec.ParseFunctionDeclaration(old(tokens)))
      decreases Weight(tokens), |tokens|, 6, 0
    {
      var kw := Consume(Identifier, "");
      if kw.Err? {
        return Err(kw.error);
      }
      var name := Consume(Identifier, "");
      if name.Err? {
        return Err(name.error);
      }
      r := ParseFunctionSignature(name.value.text);
    }

    /** '(' parameters, then the rest of the signature and the body. */
    method ParseFunctionSignature(name: string) returns (r: Result<Expr, ParseError>)
      modifies this
      ensures Agrees(r, FunctionSignature(name, old(tokens)))
      decreases Weight(tokens), |tokens|, 7, 0
    {
      var open := Consume(OpenParen, "");
      if open.Err? {
        return Err(open.error);
      }
      var params := ParseParameters();
      if params.Err? {
        return Err(params.error);
      }
      r := ParseFunctionSignatureRest(name, params.value);
    }

    /** ')' ':' type block, after the parameters of a function declaration. */
    method ParseFunctionSignatureRest(name: string, params: seq<Param>) returns (r: Result<Expr, ParseError>)
      modifies this
      ensures Agrees(r, FunctionSignatureRest(name, params, old(tokens)))
      decreases Weight(tokens), |tokens|, 7, 0
    {
      var close := Consume(CloseParen, "");
      if close.Err? {
        return Err(close.error);
      }
      var colon := Consume(Colon, "");
      if colon.Err? {
        return Err(colon.error);
      }
      r := ParseFunctionTypeAndBody(name, params);
    }

    /** The return type and the body of a function declaration. */
    method ParseFunctionTypeAndBody(name: string, params: seq<Param>) returns (r: Result<Expr, ParseError>)
      modifies this
      ensures Agrees(r, FunctionTypeAndBody(name, params, old(tokens)))
      decreases Weight(tokens), |tokens|, 7, 0
    {
      var typeOf := Consume(Identifier, "");
      if typeOf.Err? {
        return Err(typeOf.error);
      }
      var body := ParseBlock();
      if body.Err? {
        return body;
      }
      return Ok(FunctionDeclarationExpr(name, params, body.value, typeOf.value.text));
    }

    /** name '(' arguments ')'. */
    method ParseFunctionCall() returns (r: Result<Expr, ParseError>)
      modifies this
      ensures Agrees(r, ParserSpec.ParseFunctionCall(old(tokens)))
      decreases Weight(tokens), |tokens|, 6, 0
    {
      var name := Consume(Identifier, "");
      if name.Err? {
        return Err(name.error);
      }
      var open := Consume(OpenParen, "");
      if open.Err? {
        return Err(open.error);
      }
      r := ParseCallArguments(name.value.text);
    }

    /** The argument loop of `parseFunctionCall`, expression [','] until ')'
        is next or no token is left, and the ')' that closes it. */
    method ParseCallArguments(name: string) returns (r: Result<Expr, ParseError>)
      modifies this
      ensures Agrees(r, CallArguments(name, old(tokens)))
      decreases Weight(tokens), |tokens|, 23, 0
    {
      ghost var start := tokens;
      var args: seq<Expr> := [];
      PrependListEmpty(ArgItems(tokens));
      while |tokens| > 0 && Peek(tokens, 0).kind != CloseParen
        invariant ArgItems(start) == PrependList(args, ArgItems(tokens))
        invariant NoLonger(tokens, start)
        decreases |tokens|
      {
        ghost var before := tokens;
        var arg := ParseExpr();
        if arg.Err? {
          return Err(arg.error);
        }
        ghost var after := tokens;
        var _ := Optional(Comma);
        ArgItemsStep(before, arg.value, after);
        PrependListTwice(args, [arg.value], ArgItems(tokens));
        args := args + [arg.value];
      }
      assert ArgItems(start) == Ok(Parsed(args, tokens)) by {
        assert args + [] == args;
      }
      var close := Consume(CloseParen, "");
      if close.Err? {
        return Err(close.error);
      }
      return Ok(FunctionCallExpr(name, args));
    }

    /** 'for' '(' initializer [';'] condition [';'] increment ')' block. */
    method ParseFor() returns (r: Result<Expr, ParseError>)
      modifies this
      ensures Agrees(r, ParserSpec.ParseFor(old(tokens)))
      decreases Weight(tokens), |tokens|, 6, 0
    {
      var kw := Consume(Identifier, "");
      if kw.Err? {
        return Err(kw.error);
      }
      var open := Consume(OpenParen, "");
      if open.Err? {
        return Err(open.error);
      }
      r := ForClauses();
    }

    /** The initializer and the condition, each with an optional ';', then
        the rest of the loop. */
    method ForClauses() returns (r: Result<Expr, ParseError>)
      modifies this
      ensures Agrees(r, ParserSpec.ForClauses(old(tokens)))
      decreases Weight(tokens), |tokens|, 22, 0
    {
      var initializer := ParseExpr();
      if initializer.Err? {
        return initializer;
      }
      var _ := Optional(Semicolon);
      var condition := ParseExpr();
      if condition.Err? {
        return condition;
      }
      var _ := Optional(Semicolon);
      r := ForRest(initializer.value, condition.value);
    }

    /** The increment, ')' and the body of a for loop. */
    method ForRest(init: Expr, condition: Expr) returns (r: Result<Expr, ParseError>)
      modifies this
      ensures Agrees(r, ParserSpec.ForRest(init, condition, old(tokens)))
      decreases Weight(tokens), |tokens|, 21, 0
    {
      var increment := ParseExpr();
      if increment.Err? {
        return increment;
      }
      r := ForBody(init, condition, increment.value);
    }

    /** ')' and the body of a for loop. */
    method ForBody(init: Expr, condition: Expr, increment: Expr) returns (r: Result<Expr, ParseError>)
      modifies this
      ensures Agrees(r, ParserSpec.ForBody(init, condition, increment, old(tokens)))
      decreases Weight(tokens), |tokens|, 7, 0
    {
      var close := Consume(CloseParen, "");
      if close.Err? {
        return Err(close.error);
      }
      var body := ParseBlock();
      if body.Err? {
        return body;
      }
      return Ok(ForStmt(Some(init), Some(condition), Some(increment), None, body.value));
    }

    /** ('var' | 'const') name ':' type, then ';' or '=' expression. */
    method ParseVariableDeclaration() returns (r: Result<Expr, ParseError>)
      modifies this
      ensures Agrees(r, ParserSpec.ParseVariableDeclaration(old(tokens)))
      decreases Weight(tokens), |tokens|, 6, 0
    {
      var keyword := Consume(Identifier, "");
      if keyword.Err? {
        return Err(keyword.error);
      }
      var name := Consume(Identifier, "");
      if name.Err? {
        return Err(name.error);
      }
      var colon := Consume(Colon, "Missing type of variable");
      if colon.Err? {
        return Err(colon.error);
      }
      var typeOf := Consume(Identifier, "");
      if typeOf.Err? {
        return Err(typeOf.error);
      }
      var semicolon := Optional(Semicolon);
      if semicolon.Some? {
        if keyword.value.text == "const" {
          return Err(ParserError("const variables must be initialized", Some(keyword.value)));
        }
        return Ok(VariableDeclarationExpr(name.value.text, typeOf.value.text, None, false));
      }
      var eq := Consume(Assignment, "");
      if eq.Err? {
        return Err(eq.error);
      }
      var value := ParseExpr();
      if value.Err? {
        return value;
      }
      return Ok(VariableDeclarationExpr(name.value.text, typeOf.value.text, Some(value.value), keyword.value.text == "const"));
    }

    /** 'if' '(' condition ')' block, then optionally 'else' and another if
        or a block. */
    method ParseIf() returns (r: Result<Expr, ParseError>)
      modifies this
      ensures Agrees(r, ParserSpec.ParseIf(old(tokens)))
      decreases Weight(tokens), |tokens|, 6, 0
    {
      var kw := Consume(Identifier, "");
      if kw.Err? {
        return Err(kw.error);
      }
      var open := Consume(OpenParen, "");
      if open.Err? {
        return Err(open.error);
      }
      r := IfCondition();
    }

    /** The condition, the ')' after it, and the branches. */
    method IfCondition() returns (r: Result<Expr, ParseError>)
      modifies this
      ensures Agrees(r, ParserSpec.IfCondition(old(tokens)))
      decreases Weight(tokens), |tokens|, 21, 0
    {
      var condition := ParseExpr();
      if condition.Err? {
        return condition;
      }
      var close := Consume(CloseParen, "");
      if close.Err? {
        return Err(close.error);
      }
      r := IfBranches(condition.value);
    }

    /** The block after the condition and the optional else branch. */
    method IfBranches(condition: Expr) returns (r: Result<Expr, ParseError>)
      modifies this
      ensures Agrees(r, ParserSpec.IfBranches(condition, old(tokens)))
      decreases Weight(tokens), |tokens|, 7, 0
    {
      var thenBranch := ParseBlock();
      if thenBranch.Err? {
        return thenBranch;
      }
      r := IfElse(condition, thenBranch.value);
    }

    /** The optional else branch after the block. */
    method IfElse(condition: Expr, thenBranch: Expr) returns (r: Result<Expr, ParseError>)
      modifies this
      ensures Agrees(r, ParserSpec.IfElse(condition, thenBranch, old(tokens)))
      decreases Weight(tokens), |tokens|, 7, 0
    {
      if !(Peek(tokens, 0).kind == Identifier && Peek(tokens, 0).text == "else") {
        return Ok(IfStmt(condition, thenBranch, None));
      }
      var _ := Consume(Identifier, "");
      var elseBranch := ElseBranch();
      if elseBranch.Err? {
        return elseBranch;
      }
      return Ok(IfStmt(condition, thenBranch, Some(elseBranch.value)));
    }

    /** What follows 'else': another if, or a block. */
    method ElseBranch() returns (r: Result<Expr, ParseError>)
      modifies this
      ensures Agrees(r, ParserSpec.ElseBranch(old(tokens)))
      decreases Weight(tokens), |tokens|, 7, 0
    {
      if Peek(tokens, 0).kind == Identifier && Peek(tokens, 0).text == "if" {
        r := ParseIf();
      } else {
        r := ParseBlock();
      }
    }

    /** '{' expressions until '}' or until no token is left, then '}'. */
    method ParseBlock() returns (r: Result<Expr, ParseError>)
      modifies this
      ensures Agrees(r, ParserSpec.ParseBlock(old(tokens)))
      decreases Weight(tokens), |tokens|, 6, 0
    {
      var open := Consume(OpenCurly, "");
      if open.Err? {
        return Err(open.error);
      }
      ghost var start := tokens;
      var stmts: seq<Expr> := [];
      PrependListEmpty(BlockItems(tokens));
      while |tokens| > 0 && Peek(tokens, 0).kind != CloseCurly
        invariant BlockItems(start) == PrependList(stmts, BlockItems(tokens))
        invariant NoLonger(tokens, start)
        decreases |tokens|
      {
        ghost var before := tokens;
        var stmt := ParseExpr();
        if stmt.Err? {
          return Err(stmt.error);
        }
        assert BlockItems(before) == PrependList([stmt.value], BlockItems(tokens));
        PrependListTwice(stmts, [stmt.value], BlockItems(tokens));
        stmts := stmts + [stmt.value];
      }
      assert BlockItems(start) == Ok(Parsed(stmts, tokens)) by {
        assert stmts + [] == stmts;
      }
      var close := Consume(CloseCurly, "");
      if close.Err? {
        return Err(close.error);
      }
      return Ok(BlockStmt(stmts));
    }

    /** '(' expression ')'. */
    method ParseGrouping() returns (r: Result<Expr, ParseError>)
      modifies this
      ensures Agrees(r, ParserSpec.ParseGrouping(old(tokens)))
      decreases Weight(tokens), |tokens|, 6, 0
    {
      var open := Consume(OpenParen, "");
      if open.Err? {
        return Err(open.error);
      }
      var expr := ParseExpr();
      if expr.Err? {
        return expr;
      }
      var close := Consume(CloseParen, "");
      if close.Err? {
        return Err(close.error);
      }
      return expr;
    }
  }
}
