# BPL interpreter core in Dafny

BPL is a small, dynamically checked, typed scripting language. Its
interpreter lexes source text into tokens, parses the tokens with a
recursive-descent parser into a syntax tree, and evaluates the tree against
a chain of scopes. This project models that pipeline in Dafny and proves
what each stage promises:

- **Lexer** (`Tokens`, `LexerSpec`, `Lexing`, `LexerProps`). The helpers of
  `Lexer.ts` are functions on the characters still to read and the current
  line. Maximal munch of two-character operators, quoted strings with
  escaped delimiters, raw backtick templates, comments and line counting
  are all modelled. The class `Lexing.Lexer` holds the remaining characters
  and the line, and consumes them from the front the way the source does.
  Each of its methods is proved to reach the state and result that the
  matching `LexerSpec` function gives.
- **Parser** (`Ast`, `ParserSpec`, `Parsing`, `ParserProps`). The
  precedence ladder is mutually recursive functions over the remaining
  tokens, with a token-weight measure for termination. The re-entry into
  `${...}` template segments is modelled, and so are the keyword and
  declaration rules. The class `Parsing.Parser` takes tokens from the
  front with `consume` and `optional`. Its methods are proved against the
  `ParserSpec` functions.
- **Scopes** (`EnvironmentSpec`, `Environment`, `EnvironmentProps`, `Stl`).
  Every `Environment` object is one level of a store. A level holds its
  parent's index, and new levels are always appended, so lookups climb to
  smaller indices and terminate. The class `Environment.Scopes` holds that
  store, and its methods are the `define*` and `setVariable` methods. `Stl`
  seeds a root level with the standard library entries of
  `stl.service.ts`.
- **Values and structural types** (`Values`, `TypeChecks`,
  `TypeCheckProps`). These cover the runtime values, the escape decoding of
  the `StringValue` constructor, and `verifyObject`, `verifyArray` and
  `verifyTuple`.
- **Evaluation** (`Operators`, `Nodes`, `EvalSpec`, `Interpreting`, and the
  `*Props` modules). The source throws Break, Continue and Return as
  exceptions. Here they are the `Outcome` values `BreakSig`, `ContinueSig`
  and `ReturnSig` beside `Normal(v)` and `Failure(e)`. Each construct
  absorbs or passes them as the source's `catch` blocks do. `EvalSpec.Eval`
  gives, for a node, a store and an environment, the outcome and the new
  store. The class `Interpreting.Interpreter` evaluates the nodes that
  update the store step by step: blocks, the loops, call arguments,
  templates, object literals, writes and declarations. Each of its methods
  is proved to end in the outcome and store that `Eval` gives.

Modelling decisions:

- Node semantics follow the per-node `evaluate` methods of `src/Expr/*.ts`.
  `Interpreter.ts` is followed only for the constructor, the statement-list
  driver and the unknown-node error. Its own `evaluateExpr` chain predates
  several node classes. So a node whose class has its own rule runs that
  rule. A node class without one, such as `GroupingExpr` or
  `TypeLiteralExpr`, is `Ast.Unevaluated(className)`. Through the driver it
  fails with "Invalid expression: " and the class name. Called directly
  with `node.evaluate(...)`, it yields the VOID of the base `Expr.evaluate`.
- Loops and calls need not terminate, so every evaluation carries fuel.
  When the fuel runs out the result is `Failure(OutOfFuel)`.
- NUMBER is `real`. `+`, `-` and `*` are exact. `/` is exact division, and
  `%` is the remainder of a quotient truncated toward zero. Both keep the
  source's zero-divisor checks.
- The host services the model cannot see are parameters (`Nodes.Host`):
  the text of a number inside a template, `Number(text)` on a failsafe
  string, and the bodies of the native functions.
- The lexer's `OPEN_CURLY`/`CLOSE_CURLY` and the parser's `OPEN_CURRLY`
  name one token kind.
- The parser builds `ForStmt` without a failsafe.
- A type definition is a kind plus an optional member map (`TypeDef`).
  This is what the verifiers read; how the source's `defineType` fills
  the fields of its `TypeValue` is under "Left out".
- `defineType` accepts only a root level, as written. A call whose argument
  is a TYPE value therefore fails to bind it in the call's scope.
- `ValueType` has no `CUSTOM` member, so the `value.type ===
  ValueType.CUSTOM` branches of the Environment methods can never fire.
  They are not modelled.
- `ValueType` also has no `TUPLE` member, so a tuple's kind, and the
  `value` of a tuple type, are `undefined` in the source. The model names
  the tuple kind "TUPLE" (the `KindIsNamed` line under "Left out" lists
  what that changes).
- `src/Interpreter/PrimitiveTypes.ts` is not part of this model. The names
  no variable or function may take are assumed to be the six types the
  standard library registers: STRING, NUMBER, BOOL, NULL, VOID and ANY
  (`Values.PrimitiveTypes`).

## Model

| member | source | states |
|---|---|---|
| `LexerSpec.IdentRun` | src/Lexer/Lexer.ts:91-98 | the identifier loop takes the longest run of `[a-zA-Z0-9_]` characters: every character taken is one, and the next one left is not |
| `LexerSpec.NumberRun` | src/Lexer/Lexer.ts:100-104 | the number loop takes the longest run of digits and dots: every character taken is one, and the next one left is not |
| `LexerSpec.SkipToLineEnd` | src/Lexer/Lexer.ts:161-163 | the line-comment loop stops at the first line break or at the end of the input, never beyond |
| `LexerSpec.SkipBlockBody` | src/Lexer/Lexer.ts:171-175 | the block-comment loop stops exactly in front of `*/` or at the end of the input |
| `LexerSpec.ScanString` | src/Lexer/Lexer.ts:112-122 | the string loop stops at the end of the input or at a delimiter that does not follow a backslash; its only error is "Unterminated string literal" on the current line |
| `LexerSpec.ScanTemplate` | src/Lexer/Lexer.ts:74-83 | the template loop stops at the end of the input or in front of the next backtick |
| `LexerSpec.WithOptionalEqualMoves` | src/Lexer/Lexer.ts:127-138 | an operator that may take a following `=` (`<`, `>`, `=`, `%`, `*`, `!`) consumes only that `=`, if any, and counts no line |
| `LexerSpec.DoubledMoves` | src/Lexer/Lexer.ts:139-150 | `&&` and the doubled vertical bar consume exactly the second character and count no line |
| `LexerSpec.OperatorMoves` | src/Lexer/Lexer.ts:51-61 | every operator helper consumes a prefix of the input, counts exactly the line breaks in it, gives its token the current line, and never yields EOF or a template token |
| `LexerSpec.SkipToLineEndMoves` | src/Lexer/Lexer.ts:161-163 | what a line comment skips is a prefix of the input without any line break |
| `LexerSpec.SkipBlockBodyMoves` | src/Lexer/Lexer.ts:171-175 | the block-comment loop adds to the line exactly the line breaks it skips |
| `LexerSpec.SlashMoves` | src/Lexer/Lexer.ts:157-184 | `/`, `/=`, a line comment and a block comment each consume a prefix of the input and count exactly its line breaks |
| `LexerSpec.ScanStringMoves` | src/Lexer/Lexer.ts:112-119 | the text a string collects is exactly the characters consumed, and none of them is a line break |
| `LexerSpec.StringMoves` | src/Lexer/Lexer.ts:111-125 | a string token consumes a prefix of the input without line breaks and is a STRING_LITERAL token on the current line |
| `LexerSpec.ScanTemplateMoves` | src/Lexer/Lexer.ts:74-83 | the text a template collects is exactly the characters consumed, holds no backtick, and the line grows by its line breaks |
| `LexerSpec.TemplateMoves` | src/Lexer/Lexer.ts:73-89 | a template token consumes a prefix of the input, counts its line breaks and carries text without a backtick |
| `LexerSpec.IdentifierMoves` | src/Lexer/Lexer.ts:91-98 | an identifier consumes a prefix of the input without line breaks and carries the current line |
| `LexerSpec.NumberMoves` | src/Lexer/Lexer.ts:100-110 | a number literal consumes a prefix of the input without line breaks and is a NUMBER_LITERAL token |
| `LexerSpec.DispatchMoves` | src/Lexer/Lexer.ts:36-68 | every branch of the character dispatch consumes a prefix and counts exactly its line breaks; only a backtick yields a template token, and its text holds no backtick |
| `LexerSpec.ParseTokenMoves` | src/Lexer/Lexer.ts:30-71 | one `parseToken` call consumes at least one character, counts exactly the line breaks consumed, and any token it yields carries the line reached |
| `Lexing.Lexer.constructor` | src/Lexer/Lexer.ts:6-7 | a lexer starts with no characters on line 1 |
| `Lexing.Lexer.Seek` | src/Lexer/Lexer.ts:222-224 | `seek(i)` is the i-th remaining character, or nothing past the end |
| `Lexing.Lexer.Consume` | src/Lexer/Lexer.ts:225-228 | `consume` removes and returns the first character, and fails with "Unexpected EOF" on an empty input |
| `Lexing.Lexer.Shift` | src/Lexer/Lexer.ts:227 | the shift of a non-empty character list removes and returns its first character |
| `Lexing.Lexer.Tokenize` | src/Lexer/Lexer.ts:9-14 | `tokenize` starts on line 1 and yields exactly the token list (or the error) `LexerSpec.Tokenize` gives |
| `Lexing.Lexer.ParseTokens` | src/Lexer/Lexer.ts:16-29 | the loop keeps every token `parseToken` yields, in order, and ends with one EOF token; the first error stops it |
| `Lexing.Lexer.ParseToken` | src/Lexer/Lexer.ts:30-71 | one call after the first character has been taken: the token, the remaining input and the line agree with the `LexerSpec` step |
| `Lexing.Lexer.ParseOperator` | src/Lexer/Lexer.ts:51-61 | the operator dispatch agrees with the `LexerSpec` step |
| `Lexing.Lexer.ParseOptionalEqual` | src/Lexer/Lexer.ts:127-138 | `<`, `>`, `=`, `%`, `*` and `!` take a following `=` into a two-character token, otherwise give the one-character token |
| `Lexing.Lexer.ParseDoubledOrEqual` | src/Lexer/Lexer.ts:197-220 | `+` and `-` prefer the doubled token, then the `=` form, then the single token |
| `Lexing.Lexer.ParseDoubledOnly` | src/Lexer/Lexer.ts:139-150 | `&` and the vertical bar must be doubled, otherwise "Unexpected single '&' token" (or the vertical bar) |
| `Lexing.Lexer.ParseSlashToken` | src/Lexer/Lexer.ts:157-184 | a line comment, a block comment, `/=` or `/`, with the line counting and the EOF errors of the source |
| `Lexing.Lexer.ParseStringLiteralToken` | src/Lexer/Lexer.ts:111-125 | the string loop and its unterminated-string errors agree with the `LexerSpec` step |
| `Lexing.Lexer.ParseTemplateLiteralToken` | src/Lexer/Lexer.ts:73-89 | the template loop, its line counting and its unterminated-template error agree with the `LexerSpec` step |
| `Lexing.Lexer.ParseIdentifierToken` | src/Lexer/Lexer.ts:91-98 | the identifier loop agrees with the `LexerSpec` step |
| `Lexing.Lexer.ParseNumberLiteralToken` | src/Lexer/Lexer.ts:100-110 | the number loop and its invalid-number error agree with the `LexerSpec` step |
| `Lexing.ParseTokensStep` | src/Lexer/Lexer.ts:19-25 | one turn of the tokens loop: an error of `parseToken` is the result, otherwise its token (if any) comes first and the loop goes on from the rest |
| `LexerProps.EofLast` | src/Lexer/Lexer.ts:27-28 | a successful token list ends with exactly one EOF token, with text "EOF" and the line reached after every line break of the input; no earlier token is EOF |
| `LexerProps.TokenizeEndsWithEof` | src/Lexer/Lexer.ts:9-28 | `tokenize` ends with one EOF token on line 1 plus the number of line breaks in the input |
| `LexerProps.BlankInput` | src/Lexer/Lexer.ts:32-36 | spaces, tabs, carriage returns and line breaks produce no token; the EOF token's line counts the line breaks |
| `LexerProps.NoTemplateWithoutBacktick` | src/Lexer/Lexer.ts:64 | an input without a backtick produces no template token |
| `LexerProps.ParseTokenDispatch` | src/Lexer/Lexer.ts:30-31 | `parseToken` consumes the first character and dispatches on it |
| `LexerProps.DispatchOperator` | src/Lexer/Lexer.ts:51-61 | an operator character goes to its operator helper |
| `LexerProps.DispatchQuote` | src/Lexer/Lexer.ts:63 | a single or double quote starts a string literal |
| `LexerProps.DispatchDigit` | src/Lexer/Lexer.ts:66 | a digit starts a number literal |
| `LexerProps.DispatchIdentStart` | src/Lexer/Lexer.ts:68 | a letter or underscore starts an identifier |
| `LexerProps.DispatchBacktick` | src/Lexer/Lexer.ts:64 | a backtick starts a template literal |
| `LexerProps.DispatchSlash` | src/Lexer/Lexer.ts:55 | a slash goes to the comment-or-division helper |
| `LexerProps.OperatorMunch` | src/Lexer/Lexer.ts:127-220 | maximal munch: an operator takes two characters whenever those two form an operator, otherwise one; a lone `&` or the vertical bar is an error |
| `LexerProps.MunchWithEqual` | src/Lexer/Lexer.ts:127-138 | for `! * % = < > /` the two-character form wins when it exists, else the single character is the token and the next character stays |
| `LexerProps.MunchPlusMinus` | src/Lexer/Lexer.ts:197-220 | for `+` and `-` the two-character form (`++`, `+=`, `--`, `-=`) wins when it exists, else the single character |
| `LexerProps.MunchAndOr` | src/Lexer/Lexer.ts:139-150 | `&&` and the doubled vertical bar are tokens; `&` or the vertical bar followed by anything else is an error |
| `LexerProps.LoneMessage` | src/Lexer/Lexer.ts:143 | the lone `&` or the vertical bar error message names that character |
| `LexerProps.MunchSingle` | src/Lexer/Lexer.ts:127-220 | an operator character at the very end of the input is its one-character token, or the lone `&` or vertical-bar error |
| `LexerProps.ScanPlain` | src/Lexer/Lexer.ts:113-119 | a body without delimiter, backslash or line break is collected whole, stopping at the delimiter |
| `LexerProps.PlainString` | src/Lexer/Lexer.ts:111-125 | a quoted body without delimiter, backslash or line break is one STRING_LITERAL token with that body |
| `LexerProps.StringTokenShape` | src/Lexer/Lexer.ts:111-125 | every successful string token is the text between two equal quotes of the input, holds no line break and does not end in a backslash |
| `LexerProps.StringLiteralShape` | src/Lexer/Lexer.ts:111-125 | a successful string helper splits the input into body, closing delimiter and rest |
| `LexerProps.StringTokenOfScan` | src/Lexer/Lexer.ts:121-124 | a successful string ends at a delimiter the loop stopped at, which it consumes |
| `LexerProps.ScanSplits` | src/Lexer/Lexer.ts:113-119 | the string loop splits the input into the collected text and the rest, and the text has no line break |
| `LexerProps.EscapedDelimiter` | src/Lexer/Lexer.ts:115 | a delimiter after a backslash does not end the string: `"\""` keeps the backslash and the quote as its text |
| `LexerProps.StringWithLineBreak` | src/Lexer/Lexer.ts:117 | a line break inside a string is "Unterminated string literal" |
| `LexerProps.StringBreakScan` | src/Lexer/Lexer.ts:117 | the string loop fails at the first line break |
| `LexerProps.UnclosedString` | src/Lexer/Lexer.ts:121-122 | a string the input ends inside is "Unterminated string literal" |
| `LexerProps.UnclosedScan` | src/Lexer/Lexer.ts:113-119 | the string loop takes the whole rest of an unclosed string |
| `LexerProps.NumberLexeme` | src/Lexer/Lexer.ts:100-110 | a number literal is the longest run of digits and dots after its first digit; with more than one dot it is "Invalid number literal" |
| `LexerProps.IdentifierLexeme` | src/Lexer/Lexer.ts:91-98 | an identifier is the longest run of `[a-zA-Z0-9_]` after its first letter or underscore |
| `LexerProps.UnexpectedCharacter` | src/Lexer/Lexer.ts:70 | any other character is "Unexpected token" naming it |
| `LexerProps.ScanTemplateClosed` | src/Lexer/Lexer.ts:74-83 | the template loop collects the whole body up to the next backtick and counts its line breaks |
| `LexerProps.Template` | src/Lexer/Lexer.ts:73-89 | a backtick-delimited body is one template token with that raw body, on the line reached at its end |
| `LexerProps.TemplateClosed` | src/Lexer/Lexer.ts:85-88 | the template helper consumes the closing backtick |
| `LexerProps.ScanTemplateOpen` | src/Lexer/Lexer.ts:74-83 | without a closing backtick the loop takes the whole input |
| `LexerProps.UnclosedTemplate` | src/Lexer/Lexer.ts:85 | an unclosed template is "Unterminated template literal" on the line reached |
| `LexerProps.SkipToLineEndAt` | src/Lexer/Lexer.ts:161-163 | the line-comment loop skips text without line breaks whole |
| `LexerProps.LineComment` | src/Lexer/Lexer.ts:159-166 | a line comment produces no token, consumes its line break and adds one line; at the end of the input it fails with "Unexpected EOF" |
| `LexerProps.SkipBlockBodyAt` | src/Lexer/Lexer.ts:171-175 | the block-comment loop skips text without `*/` whole and counts its line breaks |
| `LexerProps.BlockComment` | src/Lexer/Lexer.ts:169-178 | a block comment produces no token, consumes its `*/` and counts its line breaks |
| `LexerProps.BlockClosed` | src/Lexer/Lexer.ts:169-178 | the slash helper skips a closed block comment |
| `LexerProps.UnclosedBlockComment` | src/Lexer/Lexer.ts:176 | an unclosed block comment fails with "Unexpected EOF" |
| `LexerProps.TemplateTokenLength` | src/Lexer/Lexer.ts:73-89 | a template token consumed exactly its text and two backticks |
| `LexerSpec.Tokenize` | src/Lexer/Lexer.ts:9-28 | the character loop from line 1: each step yields a token or skips text, and an EOF token carrying the final line closes the list; the first lexer error ends it (see `LexerProps.TokenizeEndsWithEof`, `LexerProps.EofLast`) |
| `ParserSpec.ParseTokensWeight` | src/Parser/Parser.ts:277 | the template text inside the tokens of a lexed string is never longer than that string, so re-lexing an interpolation works on less text than the template it came from |
| `ParserSpec.TokenizeWeight` | src/Parser/Parser.ts:277 | the same bound for `Lexer.tokenize` as the parser calls it on an interpolation |
| `ParserSpec.AfterOptional` | src/Parser/Parser.ts:424-429 | `optional` never lengthens the token list |
| `ParserSpec.ConsumeOr` | src/Parser/Parser.ts:431-437 | `consume(type, message)` succeeds exactly when peek shows that type: it then takes and returns the next token, or, on an exhausted list expecting EOF, takes nothing; otherwise it fails at the token peek shows with the message, or the default one when the message is empty |
| `ParserSpec.Consume` | src/Parser/Parser.ts:431-437 | `consume(type)` without a message: the same, and any type other than EOF is taken from a non-empty list |
| `ParserSpec.SplitBounded` | src/Parser/Parser.ts:254 | every part of `split("${")` is no longer than the template text |
| `ParserSpec.ParseExpr` | src/Parser/Parser.ts:42-48 | a successful `parseExpr` consumes at least one token (and adds no template text) unless the token list is already empty, where the EOF that peek shows yields an EmptyExpr and nothing is consumed |
| `ParserSpec.ParseAssignment` | src/Parser/Parser.ts:50-70 | a successful assignment rung consumes at least one token unless the token list is already empty, where the EOF that peek shows yields an EmptyExpr and nothing is consumed |
| `ParserSpec.ParseTernary` | src/Parser/Parser.ts:72-84 | a successful ternary rung consumes at least one token unless the token list is already empty, where the EOF that peek shows yields an EmptyExpr and nothing is consumed |
| `ParserSpec.TernaryBranches` | src/Parser/Parser.ts:75-80 | the branches after `?` consume at least one token |
| `ParserSpec.TernaryElse` | src/Parser/Parser.ts:77-80 | the else branch after `:` consumes at least one token unless the token list is already empty, where the EOF that peek shows yields an EmptyExpr and nothing is consumed |
| `ParserSpec.ParseLogical` | src/Parser/Parser.ts:86-99 | a successful logical rung consumes at least one token unless the token list is already empty, where the EOF that peek shows yields an EmptyExpr and nothing is consumed |
| `ParserSpec.LogicalLoop` | src/Parser/Parser.ts:89-96 | the `&&` loop never lengthens the token list |
| `ParserSpec.ParseComparison` | src/Parser/Parser.ts:101-117 | a successful comparison rung consumes at least one token unless the token list is already empty, where the EOF that peek shows yields an EmptyExpr and nothing is consumed |
| `ParserSpec.ComparisonLoop` | src/Parser/Parser.ts:104-114 | the comparison loop never lengthens the token list |
| `ParserSpec.ParseAddition` | src/Parser/Parser.ts:119-132 | a successful additive rung consumes at least one token unless the token list is already empty, where the EOF that peek shows yields an EmptyExpr and nothing is consumed |
| `ParserSpec.AdditionLoop` | src/Parser/Parser.ts:122-129 | the `+`/`-` loop never lengthens the token list |
| `ParserSpec.ParseMultiplication` | src/Parser/Parser.ts:134-148 | a successful multiplicative rung consumes at least one token unless the token list is already empty, where the EOF that peek shows yields an EmptyExpr and nothing is consumed |
| `ParserSpec.MultiplicationLoop` | src/Parser/Parser.ts:137-145 | the `*`, `/`, `%` loop never lengthens the token list |
| `ParserSpec.ParseUnary` | src/Parser/Parser.ts:150-162 | a successful postfix rung consumes at least one token unless the token list is already empty, where the EOF that peek shows yields an EmptyExpr and nothing is consumed |
| `ParserSpec.ParsePrimary` | src/Parser/Parser.ts:164-245 | a successful primary consumes at least one token unless the token list is already empty, where the EOF that peek shows yields an EmptyExpr and nothing is consumed |
| `ParserSpec.ParseWord` | src/Parser/Parser.ts:195-239 | a primary that starts with an identifier consumes at least one token |
| `ParserSpec.ParseTemplate` | src/Parser/Parser.ts:247-296 | a template literal consumes its token |
| `ParserSpec.ParseGrouping` | src/Parser/Parser.ts:407-412 | a parenthesised expression consumes at least its parentheses |
| `ParserSpec.ParseBlock` | src/Parser/Parser.ts:395-405 | a block consumes at least its braces |
| `ParserSpec.BlockItems` | src/Parser/Parser.ts:399-401 | the statement loop of a block stops at `}`, or (corrected) once no token is left, and never lengthens the token list |
| `ParserSpec.ParseIf` | src/Parser/Parser.ts:372-393 | an `if` statement consumes at least its keyword |
| `ParserSpec.IfCondition` | src/Parser/Parser.ts:374-376 | the parenthesised condition consumes at least one token |
| `ParserSpec.IfBranches` | src/Parser/Parser.ts:377-392 | the then block and an optional else consume at least one token |
| `ParserSpec.IfElse` | src/Parser/Parser.ts:380-390 | the optional else part never lengthens the token list |
| `ParserSpec.ElseBranch` | src/Parser/Parser.ts:385-389 | the branch after `else` (an `if` or a block) consumes at least one token |
| `ParserSpec.ParseVariableDeclaration` | src/Parser/Parser.ts:349-370 | a declaration consumes at least its keyword |
| `ParserSpec.VariableInitializer` | src/Parser/Parser.ts:355-369 | the `;` or `= value` after a declaration's type consumes at least one token |
| `ParserSpec.ParseFor` | src/Parser/Parser.ts:335-347 | a `for` statement consumes at least its keyword |
| `ParserSpec.ForClauses` | src/Parser/Parser.ts:337-342 | the clauses, `)` and the body consume at least one token, even when a clause is the EmptyExpr of an exhausted list |
| `ParserSpec.ForRest` | src/Parser/Parser.ts:341-346 | the increment, `)` and body consume at least one token |
| `ParserSpec.ForBody` | src/Parser/Parser.ts:343-346 | `)` and the body consume at least one token |
| `ParserSpec.ParseFunctionDeclaration` | src/Parser/Parser.ts:298-318 | a function declaration consumes at least its keyword |
| `ParserSpec.FunctionSignature` | src/Parser/Parser.ts:300-317 | the name onward consumes at least one token |
| `ParserSpec.FunctionSignatureRest` | src/Parser/Parser.ts:311-317 | `)`, `:`, the type and the body consume at least one token |
| `ParserSpec.FunctionTypeAndBody` | src/Parser/Parser.ts:312-317 | `:`, the type and the body consume at least one token |
| `ParserSpec.ParamItems` | src/Parser/Parser.ts:303-309 | the parameter loop never lengthens the token list |
| `ParserSpec.ParamItem` | src/Parser/Parser.ts:304-308 | one parameter `name: type` consumes at least one token |
| `ParserSpec.ParseFunctionCall` | src/Parser/Parser.ts:320-333 | a call consumes at least its name |
| `ParserSpec.CallArguments` | src/Parser/Parser.ts:322-332 | `(`, the arguments and `)` consume at least one token |
| `ParserSpec.ArgItems` | src/Parser/Parser.ts:325-328 | the argument loop stops at `)`, or (corrected) once no token is left, and never lengthens the token list |
| `Parsing.TemplatePartsStep` | src/Parser/Parser.ts:255-289 | one turn of the parts loop: an error ends it, otherwise that part's nodes come before those of the later parts |
| `Parsing.Parser.constructor` | src/Parser/Parser.ts:30 | a parser starts with no tokens |
| `Parsing.Parser.Optional` | src/Parser/Parser.ts:424-429 | `optional(type)` takes and returns the next token exactly when it has that type, and otherwise leaves the list alone |
| `Parsing.Parser.Consume` | src/Parser/Parser.ts:431-437 | `consume` takes the expected token (nothing, on an exhausted list expecting EOF) or fails with the message, or "Expected ... but got ...}", at the token peek shows |
| `Parsing.Parser.Parse` | src/Parser/Parser.ts:32-40 | `parse` yields exactly the statement list (or the first error) `ParserSpec.ParseAll` gives |
| `Parsing.Parser.ParseAll` | src/Parser/Parser.ts:36-38 | the statement loop runs until no token is left |
| `Parsing.Parser.ParseExpr` | src/Parser/Parser.ts:42-48 | an assignment followed by an optional `;` |
| `Parsing.Parser.ParseAssignment` | src/Parser/Parser.ts:50-70 | `target = value` where the target must be an identifier, else "Invalid assignment target" |
| `Parsing.Parser.ParseTernary` | src/Parser/Parser.ts:72-84 | a logical expression, optionally followed by `? then : else` |
| `Parsing.Parser.TernaryBranches` | src/Parser/Parser.ts:76-80 | the then branch, then the else part |
| `Parsing.Parser.TernaryElse` | src/Parser/Parser.ts:77-80 | `:` and the else branch build the ternary node |
| `Parsing.Parser.ParseLogical` | src/Parser/Parser.ts:86-99 | a left-leaning chain of `&&` and the OR operator over comparisons |
| `Parsing.Parser.ParseComparison` | src/Parser/Parser.ts:101-117 | a left-leaning chain of `==`, `>`, `>=`, `<`, `<=` over sums |
| `Parsing.Parser.ParseAddition` | src/Parser/Parser.ts:119-132 | a left-leaning chain of `+` and `-` over products |
| `Parsing.Parser.ParseMultiplication` | src/Parser/Parser.ts:134-148 | a left-leaning chain of `*`, `/`, `%` over postfix expressions |
| `Parsing.Parser.ParseUnary` | src/Parser/Parser.ts:150-162 | a primary, optionally followed by `++` or `--` |
| `Parsing.Parser.ParsePrimary` | src/Parser/Parser.ts:164-245 | numbers, strings, templates, groups, blocks, EOF, words, or "Expected a primary expression" |
| `Parsing.Parser.ParseWord` | src/Parser/Parser.ts:195-239 | the keyword dispatch, then a call when `(` follows, else a variable reference |
| `Parsing.Parser.ParseTemplateLiteral` | src/Parser/Parser.ts:247-296 | a template without "${" is one string part; otherwise its parts are parsed and EmptyExpr nodes dropped |
| `Parsing.Parser.ParseTemplateParts` | src/Parser/Parser.ts:255-289 | the loop over the split parts yields the node list `ParserSpec` gives and restores the token list |
| `Parsing.Parser.ParseTemplateTurn` | src/Parser/Parser.ts:256-289 | one part of the loop, kept in order before the later parts |
| `Parsing.Parser.ParseTemplatePart` | src/Parser/Parser.ts:256-288 | one part: skipped when empty, literal when blank or first, literal with "${" put back when no `}` follows, "Empty expression" when `}` comes first |
| `Parsing.Parser.ParseInterpolation` | src/Parser/Parser.ts:275-288 | the text before `}` is lexed and parsed on a token list of its own; the outer list is restored and the text after `}` follows as a string |
| `Parsing.Parser.ParseParameters` | src/Parser/Parser.ts:303-309 | the parameter loop up to `)` |
| `Parsing.Parser.ParseParameter` | src/Parser/Parser.ts:304-308 | one `name: type` and an optional comma |
| `Parsing.Parser.ParseFunctionDeclaration` | src/Parser/Parser.ts:298-318 | `func name(params): type { body }` |
| `Parsing.Parser.ParseFunctionSignature` | src/Parser/Parser.ts:300-317 | the name, `(` and the parameters, then the rest |
| `Parsing.Parser.ParseFunctionSignatureRest` | src/Parser/Parser.ts:311-317 | `)` and the return type with the body |
| `Parsing.Parser.ParseFunctionTypeAndBody` | src/Parser/Parser.ts:312-317 | `:`, the type name and the body block |
| `Parsing.Parser.ParseFunctionCall` | src/Parser/Parser.ts:320-333 | `name(args)` |
| `Parsing.Parser.ParseCallArguments` | src/Parser/Parser.ts:322-332 | `(`, expressions separated by optional commas until `)` or (corrected) until no token is left, then `)` |
| `Parsing.Parser.ParseFor` | src/Parser/Parser.ts:335-347 | `for (init; condition; increment) { body }` with optional semicolons |
| `Parsing.Parser.ForClauses` | src/Parser/Parser.ts:337-342 | `(` and the three clauses |
| `Parsing.Parser.ForRest` | src/Parser/Parser.ts:341-346 | the increment clause and the rest |
| `Parsing.Parser.ForBody` | src/Parser/Parser.ts:343-346 | `)` and the body block |
| `Parsing.Parser.ParseVariableDeclaration` | src/Parser/Parser.ts:349-370 | `var`/`const name: type` then `;` (not for const) or `= value` |
| `Parsing.Parser.ParseIf` | src/Parser/Parser.ts:372-393 | `if (condition) { then }` with an optional else |
| `Parsing.Parser.IfCondition` | src/Parser/Parser.ts:374-376 | `(condition)` |
| `Parsing.Parser.IfBranches` | src/Parser/Parser.ts:377-392 | the then block and the else part |
| `Parsing.Parser.IfElse` | src/Parser/Parser.ts:380-390 | `else` is taken only when the next token is the identifier "else" |
| `Parsing.Parser.ElseBranch` | src/Parser/Parser.ts:385-389 | after `else`: a nested `if`, or a block |
| `Parsing.Parser.ParseBlock` | src/Parser/Parser.ts:395-405 | `{`, statements until `}` or (corrected) until no token is left, then `}` |
| `Parsing.Parser.ParseGrouping` | src/Parser/Parser.ts:407-412 | `(expression)` is that expression |
| `ParserProps.PeekShows` | src/Parser/Parser.ts:414-422 | `peek(i)` is the i-th token, or past the end an EOF token with empty text on the last token's line (0 for an empty list) |
| `ParserProps.ConsumeMismatch` | src/Parser/Parser.ts:432-436 | a failed `consume` reports at the token seen, with the given message or "Expected X but got Y}" as the source spells it |
| `ParserProps.NumberUnary` | src/Parser/Parser.ts:150-170 | a number not followed by `++`/`--` is a number literal node |
| `ParserProps.MultiplicationFrom` | src/Parser/Parser.ts:134-136 | the multiplicative rung starts its loop from the first postfix expression |
| `ParserProps.MultiplicationStep` | src/Parser/Parser.ts:141-144 | one turn of the multiplicative loop wraps the left side as the left operand |
| `ParserProps.MultiplicationDone` | src/Parser/Parser.ts:137-147 | the multiplicative loop stops at any other token |
| `ParserProps.AdditionFrom` | src/Parser/Parser.ts:119-121 | the additive rung starts its loop from the first product |
| `ParserProps.AdditionStep` | src/Parser/Parser.ts:126-128 | one turn of the additive loop wraps the left side as the left operand |
| `ParserProps.AdditionDone` | src/Parser/Parser.ts:122-131 | the additive loop stops at any other token |
| `ParserProps.SumIsExpression` | src/Parser/Parser.ts:42-117 | a sum followed by a token that no upper rung takes is the whole expression, and a following `;` is consumed |
| `ParserProps.PrimaryIsExpression` | src/Parser/Parser.ts:42-162 | likewise for a primary followed by such a token |
| `ParserProps.MultiplicationBindsTighter` | src/Parser/Parser.ts:119-148 | `x + y * z` parses as `x + (y * z)` |
| `ParserProps.AdditionAssociatesLeft` | src/Parser/Parser.ts:119-132 | `x - y + z` parses as `(x - y) + z` |
| `ParserProps.MultiplicationAssociatesLeft` | src/Parser/Parser.ts:134-148 | `x / y * z` parses as `(x / y) * z` |
| `ParserProps.AssignmentTarget` | src/Parser/Parser.ts:53-66 | `target = value` is an assignment exactly when the target is an identifier; any other target is "Invalid assignment target" |
| `ParserProps.EofExpression` | src/Parser/Parser.ts:190-193 | an EOF token is consumed as an EmptyExpr |
| `ParserProps.EofIsEmpty` | src/Parser/Parser.ts:32-40 | the token list of an empty program is one EmptyExpr statement |
| `ParserProps.BlankProgram` | src/index.ts:14-28 | lexing and parsing a blank program gives one EmptyExpr statement |
| `ParserProps.PlainIdentifier` | src/Parser/Parser.ts:235-238 | an identifier that is no keyword and not followed by `(` is a variable reference |
| `ParserProps.CallWhenParenFollows` | src/Parser/Parser.ts:235-236 | an identifier that is no keyword and is followed by `(` starts a call |
| `ParserProps.BooleanKeyword` | src/Parser/Parser.ts:206-210 | `true` and `false` are boolean literals |
| `ParserProps.PrimaryFailureIsSumFailure` | src/Parser/Parser.ts:119-162 | an error of the primary rung is the error of the additive rung |
| `ParserProps.SumFailureIsExpressionFailure` | src/Parser/Parser.ts:42-117 | an error of the additive rung is the error of the whole expression |
| `ParserProps.SemicolonIsNoExpression` | src/Parser/Parser.ts:241-244 | a `;` where an expression starts is "Expected a primary expression but got SEMICOLON_TOKEN" |
| `ParserProps.BareReturnFails` | src/Parser/Parser.ts:216-219 | `return;` fails: the parser wants an expression after `return` |
| `ParserProps.PrimaryOfWord` | src/Parser/Parser.ts:195 | a primary that starts with an identifier goes to the word dispatch |
| `ParserProps.ReturnFailsWith` | src/Parser/Parser.ts:216-219 | `return` fails with the error of the expression after it |
| `ParserProps.DoubledSemicolonFails` | src/Parser/Parser.ts:36-48 | `x;;` fails at the second `;`: an optional `;` ends a statement, a second one is no statement |
| `ParserProps.ConstNeedsInitializer` | src/Parser/Parser.ts:355-357 | `const name: type;` fails with "const variables must be initialized" at the `const` token |
| `ParserProps.VarWithoutInitializer` | src/Parser/Parser.ts:355-358 | `var name: type;` declares a variable without a value |
| `ParserProps.DeclarationHead` | src/Parser/Parser.ts:350-353 | keyword, name, `:` and type are consumed in turn before the initializer |
| `ParserProps.ConsumeHead` | src/Parser/Parser.ts:432 | consuming the kind the next token has takes that token |
| `ParserProps.MissingTypeOfVariable` | src/Parser/Parser.ts:352 | a declaration name not followed by `:` fails with "Missing type of variable" at the next token |
| `ParserProps.TemplateWithoutInterpolation` | src/Parser/Parser.ts:295 | a template without "${" is one string part holding its whole text |
| `ParserProps.SplitAtBraceRebuilds` | src/Parser/Parser.ts:266-288 | corrected split: the interpolated source, `}` and the text after it rebuild the trimmed part, and the source holds no `}` |
| `ParserProps.SplitAtBraceAsWrittenLosesText` | src/Parser/Parser.ts:275 | as written, for the part " x}" the index is taken in the trimmed text but the slice in the untrimmed one, so the source becomes " " and x is lost |
| `ParserProps.EmptyInterpolationFails` | src/Parser/Parser.ts:271-273 | "${" followed (after blanks) directly by `}` is "Empty expression" at the template token |
| `ParserProps.UnclosedInterpolation` | src/Parser/Parser.ts:267-270 | a part after "${" without `}` stays literal text with "${" put back |
| `ParserProps.LeadingAndBlankPartsStayLiteral` | src/Parser/Parser.ts:258-265 | a blank part, or the text before the first "${", stays literal text |
| `ParserProps.TemplatePartsInOrder` | src/Parser/Parser.ts:255-289 | a template's nodes are its parts' nodes, one part after another |
| `ParserProps.DropEmptyKeeps` | src/Parser/Parser.ts:290-292 | the filter drops exactly the EmptyExpr nodes and keeps every other node in order |
| `ParserProps.TemplateHasNoEmptyParts` | src/Parser/Parser.ts:290-293 | a template literal node never holds an EmptyExpr part |
| `ParserProps.NumberTextDenotes` | src/Parser/Parser.ts:166-170 | the text of a number token always denotes a number; without a dot it is the value of its digits |
| `ParserProps.EmptyListStalls` | src/Parser/Parser.ts:190-193 | as written, an expression on an exhausted list is an EmptyExpr that consumes nothing, and peek then shows neither `}` nor `)`, so the source's block and argument loops cannot end |
| `ParserProps.UnclosedBlockFails` | src/Parser/Parser.ts:395-405 | corrected: with the block loop stopping once no token is left, the unclosed block `{` fails with "Expected CLOSE_CURRLY_TOKEN but got EOF_TOKEN}" at the EOF peek shows |
| `ParserProps.UnclosedCallFails` | src/Parser/Parser.ts:320-333 | corrected: likewise the unclosed call `f(` fails with "Expected CLOSE_PAREM_TOKEN but got EOF_TOKEN}" |
| `ParserProps.TruncatedForFails` | src/Parser/Parser.ts:335-346 | `for (x;` parses the condition and the increment as EmptyExpr and then fails with "Expected CLOSE_PAREM_TOKEN but got EOF_TOKEN}" |
| `ParserSpec.ParseAll` | src/Parser/Parser.ts:32-40 | `parse`: expressions are parsed one after another until no token is left, and the first parse error ends it (see `ParserProps.EofIsEmpty`, `ParserProps.DoubledSemicolonFails`) |
| `ParserSpec.SplitAtBrace` | src/Parser/Parser.ts:266-288 | the corrected split of an interpolated part: the source before the first `}` of the trimmed part and the text after it, both sliced from the trimmed part (see `ParserProps.SplitAtBraceRebuilds`) |
| `ParserSpec.SplitAtBraceAsWritten` | src/Parser/Parser.ts:266-288 | the split as written: the index comes from the trimmed part but both slices are taken from the untrimmed part (see `ParserProps.SplitAtBraceAsWrittenLosesText`) |
| `ParserSpec.Interpolation` | src/Parser/Parser.ts:275-288 | the interpolated source before the `}` is lexed and parsed on its own, and the text after it follows as a string node; it uses the corrected `SplitAtBrace` |
| `EnvironmentSpec.Up` | src/Environment/Environment.ts:8 | the parent a lookup climbs to comes before the level itself, so every search up the chain ends |
| `EnvironmentSpec.Owner` | src/Environment/Environment.ts:69-83 | the level a lookup stops at is on the chain at or above the starting level and holds the name |
| `Environment.Scopes.constructor` | src/Environment/Environment.ts:7-21 | a store of environments starts with no level |
| `Environment.Scopes.AddLevel` | src/Environment/Environment.ts:8-21 | `new Environment(parent)` adds one empty level with that parent and names it by a fresh index |
| `Environment.Scopes.DefineVariable` | src/Environment/Environment.ts:23-41 | `defineVariable` fails exactly when `EnvironmentSpec.DefineVariable` does, leaving the store alone; otherwise the store becomes the new store that function gives |
| `Environment.Scopes.DefineType` | src/Environment/Environment.ts:43-49 | `defineType`, likewise |
| `Environment.Scopes.DefineFunction` | src/Environment/Environment.ts:60-67 | `defineFunction` (and `defineNativeFunction`, whose body is the same), likewise |
| `Environment.Scopes.SetVariable` | src/Environment/Environment.ts:105-128 | `setVariable` runs its checks level by level and rewrites the level that owns the binding, likewise |
| `EnvironmentProps.OwnerIsDefined` | src/Environment/Environment.ts:69-83 | `isDefined*` holds exactly when some level up the chain holds the name |
| `EnvironmentProps.GetVariableSearch` | src/Environment/Environment.ts:85-88 | `getVariable` returns the local binding if there is one, else asks the parent; it fails with "Variable X is not defined!" exactly when no level up the chain has it |
| `EnvironmentProps.GetTypeAndFunctionSearch` | src/Environment/Environment.ts:90-98 | `getType` and `getFunction` return the nearest binding, and succeed exactly when the name is defined up the chain |
| `EnvironmentProps.OwnerLocal` | src/Environment/Environment.ts:69-83 | a lookup from a level only reads that level and its ancestors |
| `EnvironmentProps.ShapeKeepsOwners` | src/Environment/Environment.ts:123-125 | rewriting a binding's value keeps every name where it was, so later lookups stop at the same levels |
| `EnvironmentProps.DefineVariableRule` | src/Environment/Environment.ts:23-41 | definition is unique per level: `defineVariable` succeeds exactly for a name unused at this level, no type up the chain and no primitive type name; it then binds value, kind and const flag here and changes no other level |
| `EnvironmentProps.DefineTypeRule` | src/Environment/Environment.ts:43-49 | `defineType` succeeds exactly at the global level for a name defined nowhere up the chain; the type is then found there and no other level changes |
| `EnvironmentProps.DefineFunctionRule` | src/Environment/Environment.ts:60-67 | `defineFunction` succeeds exactly for a name unused at this level that is no primitive type; the function is then found there and no other level changes |
| `EnvironmentProps.DefineLeavesLowerLevels` | src/Environment/Environment.ts:38-40 | a definition in a child level changes no lookup made from its ancestors |
| `EnvironmentProps.SetVariableRewritesOwner` | src/Environment/Environment.ts:123-127 | a successful `setVariable` rewrites exactly the nearest level that binds the name, and never creates a binding |
| `EnvironmentProps.SetVariableThenGet` | src/Environment/Environment.ts:105-128 | after `setVariable` every name is defined where it was, the variable reads back as the new value, and every other variable reads as before |
| `EnvironmentProps.SetVariableRule` | src/Environment/Environment.ts:105-128 | `setVariable` succeeds exactly when the name is a variable up the chain, is no function, type or primitive type, and is not const at the level owning it |
| `EnvironmentProps.SetConstRejected` | src/Environment/Environment.ts:109 | assigning a const fails with "Variable X is a const!" |
| `EnvironmentProps.SetVariableErrors` | src/Environment/Environment.ts:106-108 | an unbound name, a function and a type are each refused with their own message, in that order |
| `EnvironmentProps.ConstsBoundByDefines` | src/Environment/Environment.ts:23-67 | every definition keeps each level's const names among its variables and its variables among its names |
| `EnvironmentProps.ConstsBoundBySet` | src/Environment/Environment.ts:105-128 | so does every assignment |
| `EnvironmentSpec.GetVariable` | src/Environment/Environment.ts:85-88 | `getVariable`: the binding at the nearest level up the parent chain that holds the name, or "Variable N is not defined!" (see `EnvironmentProps.GetVariableSearch`) |
| `EnvironmentSpec.DefineVariable` | src/Environment/Environment.ts:23-41 | `defineVariable`: binds the name at this level with the value's kind as its type, refusing a name taken at this level or a type anywhere up the chain, and a primitive type name (see `EnvironmentProps.DefineVariableRule`) |
| `EnvironmentSpec.DefineType` | src/Environment/Environment.ts:43-49 | `defineType`: only a level without a parent takes types, and only under a name not taken anywhere up the chain (see `EnvironmentProps.DefineTypeRule`) |
| `EnvironmentSpec.SetVariable` | src/Environment/Environment.ts:105-128 | `setVariable`: after the checks at this level, rewrites the local binding keeping its const flag, or moves to the parent (see `EnvironmentProps.SetVariableRule`, `EnvironmentProps.SetVariableThenGet`) |
| `EnvironmentSpec.GetType` | src/Environment/Environment.ts:90-93 | `getType`: the definition at the nearest level up the chain that holds the type, or "Type X is not defined!" (see `EnvironmentProps.GetTypeAndFunctionSearch`) |
| `EnvironmentSpec.GetFunction` | src/Environment/Environment.ts:95-98 | `getFunction`: the function at the nearest level up the chain that holds it, or "Function X is not defined!" (see `EnvironmentProps.GetTypeAndFunctionSearch`) |
| `EnvironmentSpec.DefineFunction` | src/Environment/Environment.ts:60-67 | `defineFunction` and `defineNativeFunction`: binds the function at this level under a name unused there that is no primitive type, with the two errors otherwise (see `EnvironmentProps.DefineFunctionRule`) |
| `Stl.RootSearch` | src/Environment/Environment.ts:69-83 | in a level without a parent, a lookup sees only that level |
| `Stl.VariablesSeeded` | src/services/stl.service.ts:66-69 | a fresh global level receives the const variables PI and version |
| `Stl.FirstTypesSeeded` | src/services/stl.service.ts:57-60 | the first type definitions succeed in order on the seeded level |
| `Stl.LastTypesSeeded` | src/services/stl.service.ts:61-64 | the remaining type definitions succeed in order |
| `Stl.FunctionsSeeded` | src/services/stl.service.ts:15-55 | the native functions print, input and time are bound without error |
| `Stl.SeedBuildsRoot` | src/Environment/Environment.ts:8-14 | a root environment is seeded with the variables, then the types, then the functions, and every step succeeds |
| `Stl.ChildIsEmpty` | src/Environment/Environment.ts:8-14 | an environment with a parent starts empty |
| `Stl.RootVariables` | src/services/stl.service.ts:66-69 | in the root, PI is a const NUMBER and version is the const STRING "0.0.1" |
| `Stl.RootTypes` | src/services/stl.service.ts:57-64 | in the root, each primitive type name is a type of that kind |
| `Stl.RootFunctions` | src/services/stl.service.ts:15-55 | in the root, print and input take one ANY parameter and time none, with return types VOID, STRING and NUMBER |
| `Stl.ConstantsAreConst` | src/services/stl.service.ts:67-68 | assigning PI or version in the root fails with "is a const!" |
| `Stl.RootConstsBound` | src/Environment/Environment.ts:8-14 | the seeded root keeps const names among its variables |
| `Stl.PopulateWithSTLVariablesOn` | src/services/stl.service.ts:66-69 | `populateWithSTLVariables` on the store object: it fails or updates exactly as the `EnvironmentSpec` functions do |
| `Stl.PopulateWithSTLTypesOn` | src/services/stl.service.ts:57-64 | `populateWithSTLTypes`, likewise |
| `Stl.PopulateWithSTLFunctionsOn` | src/services/stl.service.ts:15-55 | `populateWithSTLFunctions`, likewise |
| `Stl.NewEnvironment` | src/Environment/Environment.ts:8-14 | `new Environment(parent)`: one new level, seeded when it has no parent |
| `Values.Keys` | src/Interpreter/Values.ts:153-154 | the key list of a record has exactly one key per entry |
| `Values.LookupPut` | src/Expr/ObjectLiteralExpr.ts:19-23 | after `map.set(k, v)` the key k reads v and every other key reads what it read before |
| `Values.KeysPut` | src/Expr/ObjectLiteralExpr.ts:19-23 | `map.set` of a present key keeps the key order; of a new key appends it last |
| `Values.LookupKeys` | src/Interpreter/Values.ts:153-156 | a key is found in a record exactly when it is among the record's keys |
| `Values.ObjectKind` | src/Interpreter/Values.ts:144-147 | a value is an `ObjectValue` exactly when its kind is OBJECT |
| `Values.NoBackslashNoPair` | src/Interpreter/Values.ts:26-31 | a text without a backslash contains none of the escape pairs the constructor replaces |
| `Values.UnescapePlain` | src/Interpreter/Values.ts:23-33 | a text without a backslash is stored unchanged by the `StringValue` constructor |
| `Values.ReplaceShortens` | src/Interpreter/Values.ts:26-31 | a global replacement by something no longer than the pattern never lengthens the text |
| `Values.UnescapeShortens` | src/Interpreter/Values.ts:26-31 | the stored text is never longer than the text given to the constructor |
| `Values.UnescapeNewline` | src/Interpreter/Values.ts:26 | backslash n becomes a newline character |
| `Values.UnescapeQuote` | src/Interpreter/Values.ts:30 | backslash and a double quote become a double quote |
| `Values.UnescapeBackslash` | src/Interpreter/Values.ts:31 | a doubled backslash becomes one backslash |
| `Values.NewStringValue` | src/Interpreter/Values.ts:23-33 | the constructor, replacing one escape pair after another, stores the text the six replacements in order give; without a backslash the text is kept |
| `Values.Unescape` | src/Interpreter/Values.ts:23-33 | the `StringValue` constructor's six replacements, in the constructor's order (see `Values.UnescapePlain`, `Values.UnescapeShortens`) |
| `TypeChecks.VerifyNested` | src/Interpreter/Values.ts:89-100 | a nested object, array or tuple is sent to its own check, and a value it accepts keeps its kind |
| `TypeChecks.VerifyObject` | src/Interpreter/Values.ts:149-183 | an accepted object is an object tagged with the type name and with as many fields as before |
| `TypeChecks.VerifyFields` | src/Interpreter/Values.ts:163-180 | the field walk from position i returns one checked field per remaining field |
| `TypeChecks.VerifyArray` | src/Interpreter/Values.ts:84-105 | an accepted array keeps its tag and its length |
| `TypeChecks.VerifyElements` | src/Interpreter/Values.ts:88-104 | the element walk from position i returns one checked element per remaining element |
| `TypeChecks.VerifyTuple` | src/Interpreter/Values.ts:112-141 | an accepted tuple keeps its member types and its length |
| `TypeChecks.VerifyMembers` | src/Interpreter/Values.ts:121-140 | the member walk from position i returns one checked member per remaining member |
| `TypeCheckProps.MissingMembers` | src/Interpreter/Values.ts:155-156 | a key is reported missing exactly when it is in the first key list and not in the second |
| `TypeCheckProps.MissingEmpty` | src/Interpreter/Values.ts:155-160 | nothing is missing exactly when every key of the first list is in the second |
| `TypeCheckProps.KindIsNamed` | src/Interpreter/Values.ts:108-111 | no value's kind reads "undefined", and exactly the tuples report TUPLE; TUPLE is the model's own name, since the source's `ValueType.TUPLE` is undefined (see `KindIsNamed` under "Left out") |
| `TypeCheckProps.UnknownTypeRejected` | src/Expr/VariableDeclarationExpr.ts:39-41 | against an undefined type name the declaration check fails with "Type X is not defined!", and so do the object, array and tuple checks through `getType` |
| `TypeCheckProps.ObjectKeysExact` | src/Interpreter/Values.ts:149-162 | an accepted object has exactly the keys of its type definition |
| `TypeCheckProps.ObjectMissingReported` | src/Interpreter/Values.ts:155-158 | an object lacking a key of its type fails with "Object is missing keys: ..." listing the missing keys |
| `TypeCheckProps.ObjectExtraReported` | src/Interpreter/Values.ts:156-161 | an object with every key of its type and one more fails with "Object has extra keys: ..." listing the extra keys |
| `TypeCheckProps.FieldsAgreeAt` | src/Interpreter/Values.ts:163-180 | field agreement over a record holds at every position |
| `TypeCheckProps.FieldStep` | src/Interpreter/Values.ts:163-180 | one turn of the field walk checks the field at i and goes on from i + 1 |
| `TypeCheckProps.FieldsChecked` | src/Interpreter/Values.ts:163-180 | every field the walk accepts keeps its key and, when not composite, has the kind its definition names |
| `TypeCheckProps.ObjectFieldsMatch` | src/Interpreter/Values.ts:163-180 | in an accepted object every plain field has exactly the kind its type definition gives for its key |
| `TypeCheckProps.EmptyArrayAccepted` | src/Interpreter/Values.ts:84-86 | an empty array passes against any defined type and is returned unchanged |
| `TypeCheckProps.ElementsAgreeAt` | src/Interpreter/Values.ts:88-104 | element agreement over a list holds at every position |
| `TypeCheckProps.ElementStep` | src/Interpreter/Values.ts:88-104 | one turn of the element walk checks the element at i and goes on from i + 1 |
| `TypeCheckProps.ElementsChecked` | src/Interpreter/Values.ts:88-104 | every element the walk accepts keeps its kind and, when not composite, matches the `$type` entry of the type definition |
| `TypeCheckProps.ArrayElementsMatch` | src/Interpreter/Values.ts:84-104 | in an accepted non-empty array every plain element has the kind the type's `$type` entry names |
| `TypeCheckProps.MemberStep` | src/Interpreter/Values.ts:121-140 | one turn of the member walk checks the member at i against entry i of the definition and goes on from i + 1 |
| `TypeCheckProps.MembersAgreeAt` | src/Interpreter/Values.ts:121-140 | member agreement over a list holds at every position, offset by the start index |
| `TypeCheckProps.MembersChecked` | src/Interpreter/Values.ts:121-140 | every member the walk accepts keeps its kind and, when not composite, has the kind its position's entry names |
| `TypeCheckProps.TupleMembersMatch` | src/Interpreter/Values.ts:112-140 | an accepted tuple has as many members as its definition has entries, and each plain member has the kind of the entry at its index |
| `TypeCheckProps.TupleLengthRejected` | src/Interpreter/Values.ts:114-119 | a tuple of the wrong length fails with "Invalid tuple length: N expected M" |
| `TypeCheckProps.VerifyTypeRule` | src/Expr/VariableDeclarationExpr.ts:39-59 | against a defined type a plain value passes exactly when its kind is the declared one and is then unchanged; objects and arrays come back tagged with the type name, tuples keep their member types |
| `TypeChecks.VerifyType` | src/Expr/VariableDeclarationExpr.ts:39-59 | `verifyType`: the type must be defined; objects and arrays are verified and tagged with the type name, tuples are verified, and any other value must have the declared kind (see `TypeCheckProps.VerifyTypeRule`) |
| `OperatorProps.StringLessIrreflexive` | src/Expr/BinaryExpr.ts:73-80 | no string is below itself under the host's string `<` |
| `OperatorProps.StringLessTotal` | src/Expr/BinaryExpr.ts:73-80 | of two different strings exactly one is below the other, and never both |
| `OperatorProps.StringLessTransitive` | src/Expr/BinaryExpr.ts:73-80 | the string order is transitive |
| `OperatorProps.ScaledBound` | src/Expr/BinaryExpr.ts:104-106 | a number times a fraction strictly between -1 and 1 stays strictly inside the number's magnitude |
| `OperatorProps.TruncateBound` | src/Expr/BinaryExpr.ts:104-106 | rounding toward zero leaves a part of magnitude below 1 with the sign of the number |
| `OperatorProps.RemainderRule` | src/Expr/BinaryExpr.ts:104-106 | the host `%`: the dividend is the divisor times the truncated quotient plus the remainder, which is smaller in magnitude than the divisor and has the dividend's sign |
| `OperatorProps.NumberOpDomain` | src/Expr/BinaryExpr.ts:94-123 | two numbers are accepted exactly by the eleven number operators, `/` and `%` only with a non-zero divisor; the error for each rejection |
| `OperatorProps.NumberDivision` | src/Expr/BinaryExpr.ts:101-106 | with a non-zero divisor the quotient times the divisor gives the dividend back, and the remainder is below the divisor in magnitude and leaves an integer quotient |
| `OperatorProps.NumberComparisons` | src/Expr/BinaryExpr.ts:109-120 | the number comparisons are one order: `<` is `>` flipped, `<=` is `>=` flipped, `!=` negates `==`, `>=` is `>` or `==` |
| `OperatorProps.StringOpDomain` | src/Expr/BinaryExpr.ts:66-83 | two strings are accepted exactly by `+` and the six comparisons; any other operator fails with "Invalid binary string expression: " and the token type |
| `OperatorProps.StringComparisons` | src/Expr/BinaryExpr.ts:69-80 | the string comparisons are one total order: exactly one of below, equal and above holds and the other operators follow |
| `OperatorProps.ConcatPlain` | src/Expr/BinaryExpr.ts:67-68 | `+` on backslash-free strings is their concatenation |
| `OperatorProps.ConcatDecodesAgain` | src/Expr/BinaryExpr.ts:67-68 | since the sum is a new STRING value, a backslash and an `n` concatenated become a line break |
| `OperatorProps.BoolOpDomain` | src/Expr/BinaryExpr.ts:44-55 | two booleans are accepted exactly by equality, inequality, and, or; any other operator fails with "Invalid binary boolean expression: " and the token type |
| `OperatorProps.BinaryKinds` | src/Expr/BinaryExpr.ts:19-35 | a binary expression succeeds only on two operands of one kind among NUMBER, STRING and BOOL, with a result of that kind for arithmetic and BOOL otherwise; operands of different kinds fail naming both kinds and the operator |
| `OperatorProps.UnaryInvolution` | src/Expr/UnaryExpr.ts:56-65 | `-` takes exactly numbers and `!` exactly booleans, each undoes itself, and a wrong kind fails with "Invalid unary expression: " naming operator and kind |
| `Operators.Binary` | src/Expr/BinaryExpr.ts:19-35 | two values of one kind use that kind's operator table; any other pair fails with "Invalid binary expression between: K op K" (see `OperatorProps.BinaryKinds`) |
| `Operators.NumberOp` | src/Expr/BinaryExpr.ts:87-123 | the number table: five arithmetic operators with the two zero-divisor errors, six comparisons, and an error for any other operator (see `OperatorProps.NumberOpDomain`) |
| `Operators.Unary` | src/Expr/UnaryExpr.ts:56-68 | `-` negates a NUMBER and `!` inverts a BOOL; a wrong operand kind or any other operator fails with "Invalid unary expression" (see `OperatorProps.UnaryInvolution`) |
| `Operators.StringOp` | src/Expr/BinaryExpr.ts:59-85 | the string table: `+` concatenates into a new STRING, decoded again, the six comparisons use the host's string order, and any other operator fails with "Invalid binary string expression" (see `OperatorProps.StringOpDomain`, `OperatorProps.StringComparisons`, `OperatorProps.ConcatPlain`, `OperatorProps.ConcatDecodesAgain`) |
| `Operators.BoolOp` | src/Expr/BinaryExpr.ts:42-57 | the boolean table: equality, inequality, and, or; any other operator fails with "Invalid binary boolean expression" (see `OperatorProps.BoolOpDomain`) |
| `NodeProps.OccurrencesOfMember` | src/Expr/FunctionDeclarationExpr.ts:28 | the name of any parameter is counted at least once by the duplicate filter |
| `NodeProps.OccurrencesOfRepeated` | src/Expr/FunctionDeclarationExpr.ts:28 | a name two parameters carry is counted at least twice |
| `NodeProps.OccurrencesOfUnique` | src/Expr/FunctionDeclarationExpr.ts:28 | a name only one parameter carries is counted exactly once |
| `NodeProps.OccurrencesAbsent` | src/Expr/FunctionDeclarationExpr.ts:28 | a name no parameter carries is counted zero times |
| `NodeProps.ParamErrorRule` | src/Expr/FunctionDeclarationExpr.ts:26-36 | a parameter passes exactly when no other parameter shares its name, its type is not VOID, ANY or NULL, and `getType` finds its type |
| `NodeProps.ParamsErrorNone` | src/Expr/FunctionDeclarationExpr.ts:26-36 | the parameter loop passes exactly when every parameter passes |
| `NodeProps.ParamsErrorFirst` | src/Expr/FunctionDeclarationExpr.ts:26-36 | the loop reports the error of the first failing parameter |
| `NodeProps.DeclareFunctionRule` | src/Expr/FunctionDeclarationExpr.ts:25-52 | a declaration succeeds exactly when all parameters pass, the return type is not ANY or NULL and the name is free and not primitive here; it yields the function closed over this environment, which `getFunction` then finds; a failure leaves the store as it was |
| `NodeProps.DuplicateParameterRejected` | src/Expr/FunctionDeclarationExpr.ts:28-30 | two parameters of one name make the declaration fail and change nothing |
| `NodeProps.ArgumentRule` | src/Expr/FunctionCallExpr.ts:44-61 | a native parameter typed ANY takes any argument and any other parameter exactly the kind it names; a user function's OBJECT parameter takes an object with another tag exactly when it verifies structurally against OBJECT, and binds it retagged OBJECT; a kind mismatch fails with "Invalid argument type: K expected T" |
| `NodeProps.ArgumentAsWrittenFails` | src/Expr/FunctionCallExpr.ts:53-55 | as written, an object with another tag given to a user function's OBJECT parameter calls a method the interpreter does not have and fails in the host with "interpreter.verifyObject is not a function"; the corrected check is the structural verification |
| `NodeProps.ArgumentVersionsAgree` | src/Expr/FunctionCallExpr.ts:44-61 | on every other argument the check as written and the corrected one give the same error or none, and bind the argument unchanged |
| `NodeProps.ReturnCheckRule` | src/Expr/FunctionCallExpr.ts:85-98 | a returned value is accepted exactly when the function is not VOID and the value has the declared kind or, for an object, carries the declared tag or verifies structurally against the declared type; an accepted object comes back tagged with the declared type, any other value unchanged |
| `NodeProps.ReturnedObjectHasDeclaredKeys` | src/Expr/FunctionCallExpr.ts:90-98 | an object accepted under another tag has exactly the keys of the declared type (with `ObjectValue.verifyObject`, src/Interpreter/Values.ts:149-183) |
| `NodeProps.ReturnCheckAsWrittenFails` | src/Expr/FunctionCallExpr.ts:88-93 | as written, returning an object under another tag than the declared type calls a method the interpreter does not have and fails in the host, whether or not it fits; the corrected check is the structural verification |
| `NodeProps.ReturnCheckVersionsAgree` | src/Expr/FunctionCallExpr.ts:86-98 | on every other returned value the check as written and the corrected one agree |
| `NodeProps.ConcludeRule` | src/Expr/FunctionCallExpr.ts:84-106 | no signal leaves a call: a completed body yields VOID, a return the result of the return check, a VOID function's return, a break and a continue their errors, and an error passes through |
| `NodeProps.TemplateTextAppend` | src/Expr/TemplateLiteralExpr.ts:18-23 | the text of a template is the texts of its parts concatenated in order |
| `NodeProps.TemplatePartTexts` | src/Expr/TemplateLiteralExpr.ts:20-22 | NULL and VOID parts add nothing, a string part adds its text |
| `NodeProps.ArrayLiteralRule` | src/Expr/ArrayLiteralExpr.ts:17-26 | an array literal is accepted exactly when all elements share one kind, which tags the array (ANY for none); the elements are kept |
| `NodeProps.ArrayLiteralMixedRejected` | src/Expr/ArrayLiteralExpr.ts:22-24 | two elements of different kinds give "All values in array must be of same type" |
| `NodeProps.EmptyArrayLiteralAsWrittenFails` | src/Expr/ArrayLiteralExpr.ts:25 | as written, the empty literal reads the type of a missing element and fails in the host; with the intended ANY fallback it is an empty ANY array |
| `NodeProps.ArrayLiteralVersionsAgree` | src/Expr/ArrayLiteralExpr.ts:17-26 | on every non-empty literal the code as written and the corrected rule agree |
| `NodeProps.KindsOfAt` | src/Expr/TupleLiteralExpr.ts:27 | the member types list holds at each position the kind of the member there |
| `NodeProps.TupleLiteralRule` | src/Expr/TupleLiteralExpr.ts:17-29 | a tuple literal is accepted exactly with two or more members, which it keeps, and records their kinds position by position |
| `NodeProps.BuildRecordLookup` | src/Expr/ObjectLiteralExpr.ts:19-23 | in an object literal's map a key holds the value of its last occurrence |
| `NodeProps.BuildRecordAbsent` | src/Expr/ObjectLiteralExpr.ts:19-23 | a key the literal does not name is not in its map |
| `NodeProps.PropertyRule` | src/Expr/ObjectAccessExpr.ts:18-25 | reading a property of an object succeeds exactly for its keys, and otherwise fails with "Invalid property access: P"; on VOID, NULL, functions and tuple types (whose `value` is the undefined `ValueType.TUPLE`), which have no `value`, the host fails reading `has` of undefined, and on any other value with "object.value.has is not a function" |
| `NodeProps.LiteralThenProperty` | src/Expr/ObjectAccessExpr.ts:18-25 | reading a key of an object literal yields the value last written under it |
| `NodeProps.ElementAtRule` | src/Expr/ArrayAccessExpr.ts:18-36 | an element read succeeds exactly on a NUMBER index that is a whole position of a variable recorded as ARRAY or TUPLE, and yields the element there; a non-number index fails with "Array index must be a number" |
| `NodeProps.ElementAtPosition` | src/Expr/ArrayAccessExpr.ts:30-35 | every position of an array or tuple variable can be read and yields its element |
| `NodeProps.ElementAtFraction` | src/Expr/ArrayAccessExpr.ts:30-33 | a fractional or negative index gives "Array index out of bounds" |
| `NodeProps.ObjectTypeMembersOk` | src/Expr/TypeDeclarationStmt.ts:23-29 | an object type's members are accepted exactly when no member type is ANY, NULL or VOID and `getType` finds each |
| `NodeProps.ObjectTypeMembersLookup` | src/Expr/TypeDeclarationStmt.ts:27 | each member name maps to the type of its last occurrence |
| `NodeProps.TupleTypeMembersAt` | src/Expr/TupleTypeDeclarationStmt.ts:21-25 | key i of a tuple type's definition is the text of i and holds the i-th member type |
| `NodeProps.FailsafeBound` | src/Expr/ForStmt.ts:28-44 | with a failsafe of n the counter after k bodies is n - k and stops the loop exactly once k exceeds n; without one it never stops it |
| `Nodes.ArgumentCheck` | src/Expr/FunctionCallExpr.ts:44-61 | the corrected argument check: the value to bind, or the mismatch error; an object given to a user function's OBJECT parameter under another tag goes through the structural check in the caller's environment (see `NodeProps.ArgumentRule`) |
| `Nodes.ArgumentErrorAsWritten` | src/Expr/FunctionCallExpr.ts:44-61 | the argument check as written, where the structural check is a call of a missing interpreter method (see `NodeProps.ArgumentAsWrittenFails`, `NodeProps.ArgumentVersionsAgree`) |
| `Nodes.ReturnCheck` | src/Expr/FunctionCallExpr.ts:86-98 | the corrected return check: VOID functions return nothing, a non-object must have the declared kind, an object under another tag is verified structurally and retagged (see `NodeProps.ReturnCheckRule`, `NodeProps.ReturnedObjectHasDeclaredKeys`) |
| `Nodes.ReturnCheckAsWritten` | src/Expr/FunctionCallExpr.ts:86-98 | the return check as written, where the structural check is a call of a missing interpreter method (see `NodeProps.ReturnCheckAsWrittenFails`, `NodeProps.ReturnCheckVersionsAgree`) |
| `Nodes.Conclude` | src/Expr/FunctionCallExpr.ts:84-106 | the call's `catch`: a completed body yields VOID, a return goes through `ReturnCheck`, break and continue become errors, errors pass (see `NodeProps.ConcludeRule`) |
| `Nodes.ArrayLiteralValueAsWritten` | src/Expr/ArrayLiteralExpr.ts:22-25 | the array literal as written: mixed kinds are refused, the empty literal fails in the host, otherwise the first element's kind tags the array (see `NodeProps.EmptyArrayLiteralAsWrittenFails`) |
| `Nodes.ArrayLiteralValue` | src/Expr/ArrayLiteralExpr.ts:22-25 | the corrected array literal, where the empty literal takes the ANY fallback (see `NodeProps.ArrayLiteralRule`, `NodeProps.ArrayLiteralVersionsAgree`) |
| `Nodes.PropertyOf` | src/Expr/ObjectAccessExpr.ts:18-25 | a property read: the value under the key of an object, "Invalid property access: P" for a missing key, and the host's errors on values that are not objects, the missing-`value` one for VOID, NULL, functions and tuple types (see `NodeProps.PropertyRule`, `NodeProps.LiteralThenProperty`) |
| `Nodes.ResolveIdentifier` | src/Expr/IdentifierExpr.ts:29-99 | an identifier's value: the copy of the nearest variable binding, else the nearest function, else the nearest type as a TYPE value, else "Variable X is not defined!" (see `EvalProps.IdentifierRules`) |
| `Nodes.CopyOfBinding` | src/Expr/IdentifierExpr.ts:46-91 | the value a variable reads as: primitives as stored with strings decoded again, an object over the same fields tagged with the recorded type, a function without its closure, a type as it is, and any other value (an array, a tuple, VOID) wrapped under the TYPE tag when its recorded type is defined and refused with "Invalid value type: T" otherwise (see `EvalProps.CopyRules`) |
| `Nodes.DeclareFunction` | src/Expr/FunctionDeclarationExpr.ts:25-52 | a function declaration: the first failing parameter check (duplicate name, VOID/ANY/NULL type, undefined type), else "Invalid function return type" for ANY or NULL, else the function closed over this level is bound by name there and is the result (see `NodeProps.DeclareFunctionRule`, `NodeProps.DuplicateParameterRejected`) |
| `Nodes.TupleLiteralValue` | src/Expr/TupleLiteralExpr.ts:17-29 | a tuple literal's value: fewer than two members fail with "Tuple must have at least 2 values", otherwise a tuple of the members recording each member's kind (see `NodeProps.TupleLiteralRule`) |
| `Nodes.ElementAt` | src/Expr/ArrayAccessExpr.ts:22-35 | an element read: a non-number index, a variable recorded as neither ARRAY nor TUPLE, and an index that is not a whole number inside the elements each fail with their own message; otherwise the element at that position (see `NodeProps.ElementAtRule`, `NodeProps.ElementAtPosition`, `NodeProps.ElementAtFraction`) |
| `Nodes.DeclareObjectType` | src/Expr/TypeDeclarationStmt.ts:19-33 | an object type declaration: each member type in order must not be ANY, NULL or VOID and must be defined, a repeated member takes the later type, and the member map is defined as a TYPE at the global level; VOID results (see `NodeProps.ObjectTypeMembersOk`, `NodeProps.ObjectTypeMembersLookup`, `EnvironmentProps.DefineTypeRule`) |
| `Nodes.DeclareTupleType` | src/Expr/TupleTypeDeclarationStmt.ts:17-28 | a tuple type declaration: the member map whose key i holds the i-th member type, defined as a tuple type with no further check; VOID results (see `NodeProps.TupleTypeMembersAt`, `EnvironmentProps.DefineTypeRule`) |
| `Nodes.DeclareArrayType` | src/Expr/ArrayTyprDeclarationStmt.ts:17-24 | an array type declaration: the single `$type` entry naming the element type, defined as an ARRAY type with no check of that name; VOID results (see `EnvironmentProps.DefineTypeRule`) |
| `Nodes.FailsafeCap` | src/Expr/ForStmt.ts:29 | `Number(failsafe.value)`, with zero meaning undefined: a non-zero number is the cap, true is 1, a string is capped by the number it reads as unless that is zero or none, and every other value means no cap (see `NodeProps.FailsafeBound`) |
| `EvalProps.LiteralRules` | src/Expr/NumberLiteralExpr.ts:16-22 | the empty expression yields VOID, a string literal its decoded text, a number literal its number (or fails when the text is not a number), a boolean literal its flag, null NULL; none changes the store |
| `EvalProps.SignalRules` | src/Interpreter/Interpreter.ts:113-116 | break and continue raise their signals and change nothing; a node class without evaluation fails with "Invalid expression: " and the class name, and yields VOID when evaluated directly |
| `EvalProps.PlainStringLiteral` | src/Expr/StringLiteralExpr.ts:15-17 | a string literal without a backslash denotes its own text |
| `EvalProps.IdentifierRules` | src/Expr/IdentifierExpr.ts:29-99 | an identifier is read as a variable first, then a function, then a type, each found up the chain; it is unbound, with "Variable X is not defined!", exactly when it is none; reading never changes the store |
| `EvalProps.CopyRules` | src/Expr/IdentifierExpr.ts:46-91 | a variable reads as a copy of its kind: primitives as stored (strings decoded again), an object over the same fields tagged with the recorded type, a function without its closure; other kinds wrap as an object when the recorded type is defined and fail with "Invalid value type" otherwise |
| `EvalProps.IncrementRule` | src/Expr/UnaryExpr.ts:24-55 | `x++` and `x--` on an assignable NUMBER variable yield the value read and store it moved by one, recorded as a non-const NUMBER |
| `EvalProps.IncrementConstRejected` | src/Expr/UnaryExpr.ts:33-37 | on a const variable the write fails with "Variable X is a const!" and the store is kept |
| `EvalProps.IncrementNeedsVariable` | src/Expr/UnaryExpr.ts:28-32 | `++` and `--` on a number that is not a variable fail with "Invalid unary expression: " naming operator and kind |
| `EvalProps.AssignmentRule` | src/Expr/AssignmentExpr.ts:19-35 | the value is evaluated first and its signal or error passes; an unbound target then fails with "Variable X is not defined!"; a successful assignment yields the value, which the target then reads with its kind recorded |
| `EvalProps.AssignmentTypeChecks` | src/Expr/AssignmentExpr.ts:25-31 | the value is checked against the type named by its own kind, which must be defined ("Type K is not defined!"), and a primitive value must match the target's recorded type ("Invalid variable type: K expected T") |
| `EvalProps.VariableDeclarationRule` | src/Expr/VariableDeclarationExpr.ts:19-33 | a declaration typed ANY, VOID or NULL fails before evaluating anything; without an initializer the NULL value fails the kind check; a successful one binds the checked value here with its kind and the const flag |
| `EvalSpec.Eval` | src/Interpreter/Interpreter.ts:66-117 | one node's evaluation: the rule of its node class on the store and the current environment, one unit of fuel spent, `OutOfFuel` when none is left (see `Interpreting.Interpreter.EvaluateExpr` and the rules in `EvalProps` and `ControlProps`) |
| `EvalSpec.EvalCall` | src/Expr/FunctionCallExpr.ts:30-107 | a call: look the function up, open a level under its closure or the caller's level, check the argument count, bind the arguments in order, run a native function on the arguments evaluated again or a user body, and conclude (see `ControlProps.CallErrors`, `ControlProps.CallIsClean`, `ControlProps.NullaryCallRule`) |
| `EvalSpec.ForLoop` | src/Expr/ForStmt.ts:35-57 | the turns of a for loop: test (absent means true), body, increment; break and an exhausted failsafe end it, continue skips the increment, return passes, other errors are swallowed (see `ControlProps.ForTurnRule`, `ControlProps.ForCounts`, `ControlProps.ForSwallows`) |
| `EvalSpec.WhileLoop` | src/Expr/WhileUntilStmt.ts:29-57 | the turns of a while or until loop: the condition in the outer environment, the body in the loop's own; break and an exhausted failsafe end it, continue goes to the next test, errors pass (see `ControlProps.WhileTurnRule`, `ControlProps.WhileFailsafeTurns`) |
| `EvalSpec.DoLoop` | src/Expr/DoWhileUntilStmt.ts:28-56 | the turns of a do loop: the body first, then the condition in the loop's own environment (see `ControlProps.DoTurnRule`, `ControlProps.DoRunsOnce`) |
| `EvalSpec.EvalArrayLiteral` | src/Expr/ArrayLiteralExpr.ts:17-26 | the elements in order, the first signal or error stopping them, then the corrected array rule `Nodes.ArrayLiteralValue` |
| `EvalProps.BinaryRule` | src/Expr/BinaryExpr.ts:19-35 | a binary expression runs its left operand and then its right one, each by its own `evaluate` and the right in the store the left left; the first that does not complete is the outcome, and otherwise the operator table decides in the right operand's store |
| `EvalProps.BinaryRuleLessOperand` | src/Expr/BinaryExpr.ts:20-21 | an operand whose node class has no rule of its own is VOID to a binary expression rather than an error, so beside a number literal it fails with "Invalid binary expression between: VOID op NUMBER" |
| `EvalSpec.EvalNode` | src/Expr/Expr.ts:13-15 | a node's own `evaluate` called directly: a node class without a rule yields VOID and changes nothing, any other node is evaluated by its rule (see `EvalProps.SignalRules`) |
| `EvalSpec.EvalList` | src/Expr/BlockStmt.ts:19-21 | a list of expressions in order, each in the store the previous one left, by the dispatch or by each node's own `evaluate`; the first that does not complete stops the list and its outcome is kept (see `ControlProps.ListStopsAtFirst`, `ControlProps.ListNextStatement`) |
| `EvalSpec.EvalBinary` | src/Expr/BinaryExpr.ts:19-35 | `BinaryExpr.evaluate`: the left and then the right operand, each by its own `evaluate`, a signal or error of either passing unchanged, then `Operators.Binary` on the two values (see `EvalProps.BinaryRule`, `EvalProps.BinaryRuleLessOperand`, `OperatorProps.BinaryKinds`) |
| `EvalSpec.EvalUnary` | src/Expr/UnaryExpr.ts:21-69 | `UnaryExpr.evaluate`: the operand through the dispatch, its signal or error passing, then the operator (see `EvalProps.IncrementRule`, `EvalProps.IncrementConstRejected`, `EvalProps.IncrementNeedsVariable`, `OperatorProps.UnaryInvolution`) |
| `EvalSpec.ApplyUnary` | src/Expr/UnaryExpr.ts:23-68 | the operator on the operand's value: `++` and `--` need a NUMBER named by a bare identifier and fail with "Invalid unary expression: op K" otherwise; `-` and `!` go to `Operators.Unary` and leave the store as it was |
| `EvalSpec.IncrementVariable` | src/Expr/UnaryExpr.ts:24-55 | the write of `++` and `--`: the variable is read, set through `setVariable` to its number moved by one, the read value is the result; a value that is not a number fails in the host, and a failed read or write leaves the store as it was (see `EvalProps.IncrementRule`, `EvalProps.IncrementConstRejected`) |
| `EvalSpec.EvalAssignment` | src/Expr/AssignmentExpr.ts:19-35 | `AssignmentExpr.evaluate`: the value first, then the target's binding, the type check of the value against its own kind and the recorded type, and the write; each failure keeps the store the value left (see `EvalProps.AssignmentRule`, `EvalProps.AssignmentTypeChecks`) |
| `EvalSpec.EvalVariableDeclaration` | src/Expr/VariableDeclarationExpr.ts:19-33 | `VariableDeclarationExpr.evaluate`: ANY, VOID and NULL are refused before anything runs; the initializer, or NULL when there is none, is checked against the declared type and bound at this level, const or not (see `EvalProps.VariableDeclarationRule`) |
| `EvalSpec.BindArguments` | src/Expr/FunctionCallExpr.ts:44-74 | the arguments from a position on: each is evaluated in the caller's environment, checked against its parameter and bound in the call's level, in order; the first signal, argument error or binding error stops the rest (see `Interpreting.Interpreter.BindAll`, `NodeProps.ArgumentRule`) |
| `EvalSpec.EvalBlock` | src/Expr/BlockStmt.ts:17-23 | `BlockStmt.evaluate`: one new level under the current one, the statements in order in it, the first signal or error ending the block with that outcome, VOID otherwise (see `ControlProps.BlockRule`, `ControlProps.BlockStopsAtSignal`) |
| `EvalSpec.EvalIf` | src/Expr/IfStmt.ts:19-34 | `IfStmt.evaluate`: the condition must be a BOOL ("Invalid if condition type: K"); true runs the then branch by its own `evaluate`, false runs an else branch only when it is an if or a block, and otherwise yields VOID (see `ControlProps.IfRule`, `ControlProps.IfSkipsOtherElse`) |
| `EvalSpec.EvalTernary` | src/Expr/TernaryExpr.ts:18-24 | `TernaryExpr.evaluate`: the condition must be a BOOL ("Invalid ternary condition type: K"), and exactly the chosen branch is evaluated (see `ControlProps.TernaryRule`, `ControlProps.TernaryChooses`) |
| `EvalSpec.EvalFailsafe` | src/Expr/ForStmt.ts:29 | a loop's failsafe expression, through the dispatch or (for a do loop) by its own `evaluate`, and NULL when there is none (see `ControlProps.ForEntry`, `ControlProps.DoEntry`) |
| `EvalSpec.EvalFor` | src/Expr/ForStmt.ts:26-59 | `ForStmt.evaluate`: one new level for the whole loop, the failsafe and then the initializer once in it, each of their errors ending the loop, then the turns of `ForLoop` with the failsafe's cap (see `ControlProps.ForEntry`) |
| `EvalSpec.EvalWhile` | src/Expr/WhileUntilStmt.ts:24-59 | `WhileUntilStmt.evaluate`: one new level for the body, the failsafe in it, then the turns of `WhileLoop` with the condition read in the enclosing environment (see `ControlProps.WhileEntry`) |
| `EvalSpec.EvalDoWhile` | src/Expr/DoWhileUntilStmt.ts:23-58 | `DoWhileUntilStmt.evaluate`: one new level for the loop, the failsafe by its own `evaluate` in it, then the turns of `DoLoop` with the condition read in that level (see `ControlProps.DoEntry`, `ControlProps.DoRunsOnce`) |
| `EvalSpec.EvalReturn` | src/Expr/ReturnStmt.ts:17-21 | `ReturnStmt.evaluate`: the value is carried out by a Return signal, and a signal or error of the value passes instead (see `ControlProps.ReturnRule`) |
| `EvalSpec.EvalTemplate` | src/Expr/TemplateLiteralExpr.ts:15-26 | `TemplateLiteralExpr.evaluate`: the parts in order, the first signal or error stopping them, then the parts' texts concatenated as a new STRING, decoded again (see `NodeProps.TemplatePartTexts`, `NodeProps.TemplateTextAppend`) |
| `EvalSpec.EvalTupleLiteral` | src/Expr/TupleLiteralExpr.ts:17-29 | `TupleLiteralExpr.evaluate`: the members in order, the first signal or error stopping them, then `Nodes.TupleLiteralValue` (see `NodeProps.TupleLiteralRule`) |
| `EvalSpec.EvalObjectLiteral` | src/Expr/ObjectLiteralExpr.ts:18-25 | `ObjectLiteralExpr.evaluate`: the member values in order by their own `evaluate`, the first signal or error stopping them, then an OBJECT whose keys are set in order, a later duplicate overwriting an earlier one (see `ControlProps.ObjectLiteralRule`, `NodeProps.LiteralThenProperty`) |
| `EvalSpec.EvalObjectAccess` | src/Expr/ObjectAccessExpr.ts:18-25 | `ObjectAccessExpr.evaluate`: the object by its own `evaluate`, its signal or error passing, then `Nodes.PropertyOf` in the store it left (see `NodeProps.PropertyRule`) |
| `EvalSpec.EvalArrayAccess` | src/Expr/ArrayAccessExpr.ts:18-36 | `ArrayAccessExpr.evaluate`: the variable is read first (an unbound name fails before the index runs), then the index by its own `evaluate`, then `Nodes.ElementAt` on the binding (see `NodeProps.ElementAtRule`) |
| `ControlProps.ListStopsAtFirst` | src/Expr/BlockStmt.ts:19-21 | a statement list either runs to the end with one value per statement, or stops at the first statement that does not complete with fewer values and that statement's outcome |
| `ControlProps.ListNextStatement` | src/Expr/BlockStmt.ts:19-21 | a list runs its next statement on the current store and goes on from the store it leaves when it completes, and stops there otherwise |
| `ControlProps.ObjectLiteralRule` | src/Expr/ObjectLiteralExpr.ts:18-25 | an object literal evaluates its field expressions in order and, when all complete, yields an OBJECT-tagged object whose map is the keys set in order to those values; otherwise the first outcome that does not complete passes |
| `ControlProps.BlockRule` | src/Expr/BlockStmt.ts:17-23 | a block runs its statements in one fresh child level of the current level; it yields VOID when they all complete and the first signal or error otherwise |
| `ControlProps.BlockStopsAtSignal` | src/Expr/BlockStmt.ts:19-21 | a first statement that does not complete ends the block with its own outcome and store |
| `ControlProps.IfPassesFailure` | src/Expr/IfStmt.ts:20 | a condition that does not complete ends the if with its outcome |
| `ControlProps.IfRejectsNonBool` | src/Expr/IfStmt.ts:21-23 | a condition that is not BOOL fails with "Invalid if condition type: " and its kind |
| `ControlProps.IfTakesThen` | src/Expr/IfStmt.ts:24-25 | a true condition evaluates only the then-branch, directly, on the store the condition left |
| `ControlProps.IfSkipsOtherElse` | src/Expr/IfStmt.ts:26-33 | a false condition with no else, or an else that is neither an if nor a block, yields VOID |
| `ControlProps.IfRule` | src/Expr/IfStmt.ts:19-34 | the if statement's four cases together: condition outcome passes, non-BOOL fails, true runs the then-branch, false without a usable else yields VOID |
| `ControlProps.TernaryRejectsNonBool` | src/Expr/TernaryExpr.ts:19-22 | a condition that is not BOOL fails with "Invalid ternary condition type: " and its kind |
| `ControlProps.TernaryChooses` | src/Expr/TernaryExpr.ts:23 | a BOOL condition evaluates exactly the chosen branch, in the current level, on the store the condition left |
| `ControlProps.TernaryRule` | src/Expr/TernaryExpr.ts:18-24 | the ternary's cases together: non-BOOL fails, true yields the first branch, false the second |
| `ControlProps.ReturnRule` | src/Expr/ReturnStmt.ts:17-21 | a return never completes normally; a value that completes becomes a Return signal carrying it |
| `ControlProps.CallErrors` | src/Expr/FunctionCallExpr.ts:31-42 | a callee that is not a function fails with the lookup's error and changes nothing; a wrong argument count fails with "Invalid number of arguments: N expected M" |
| `ControlProps.CallIsClean` | src/Expr/FunctionCallExpr.ts:84-106 | a call never lets a break, continue or return signal out: it completes or fails |
| `ControlProps.NullaryCallRule` | src/Expr/FunctionCallExpr.ts:31-106 | a call without arguments runs the body in a fresh level under the closure (or the caller's level) and concludes its outcome through the return check (a returned object under another tag is verified structurally against the declared type): VOID for a completed body, errors for a VOID function's return and for a break |
| `ControlProps.ForEndsOnTest` | src/Expr/ForStmt.ts:35-41 | a for test that does not complete passes its outcome; a test that is not exactly true ends the loop with VOID |
| `ControlProps.ForSignals` | src/Expr/ForStmt.ts:42-53 | after a true test, a break from the body ends the loop with VOID and a return passes out |
| `ControlProps.ForContinues` | src/Expr/ForStmt.ts:48-49 | a continue from the body goes back to the test, skipping the increment |
| `ControlProps.ForCounts` | src/Expr/ForStmt.ts:43-56 | a completed body is followed by the failsafe test, which ends the loop with VOID when exhausted; otherwise the increment runs and the loop goes on with the counter decremented |
| `ControlProps.ForSwallows` | src/Expr/ForStmt.ts:42-56 | an error from the body is swallowed: the increment runs and the loop goes on with the counter unchanged |
| `ControlProps.ForTurnRule` | src/Expr/ForStmt.ts:35-57 | one turn of the for loop, all cases together: test, break, return, continue, failsafe, swallowed error and increment |
| `ControlProps.WhileEndsOnTest` | src/Expr/WhileUntilStmt.ts:30-44 | a while condition that is not exactly true (an until condition not exactly false), evaluated in the enclosing level, ends the loop with VOID |
| `ControlProps.WhileSignals` | src/Expr/WhileUntilStmt.ts:34-41 | a break from the body ends the loop with VOID; a return or an error passes out |
| `ControlProps.WhileContinues` | src/Expr/WhileUntilStmt.ts:37-38 | a continue from the body goes to the next condition check |
| `ControlProps.WhileCounts` | src/Expr/WhileUntilStmt.ts:32-33 | a completed body is followed by the failsafe test, which ends the loop with VOID when exhausted and otherwise decrements the counter |
| `ControlProps.WhileTurnRule` | src/Expr/WhileUntilStmt.ts:29-57 | one turn of the while or until loop, all cases together |
| `ControlProps.WhileFailsafeTurns` | src/Expr/WhileUntilStmt.ts:26-33 | `while (true)` with an empty body and failsafe n stops after exactly n + 2 bodies, given enough fuel |
| `ControlProps.ForEntry` | src/Expr/ForStmt.ts:26-33 | a for loop makes one child level, evaluates the failsafe once and then the initializer in it, and runs its turns there with the resulting counter |
| `ControlProps.WhileEntry` | src/Expr/WhileUntilStmt.ts:24-27 | a while loop makes one child level, evaluates the failsafe once in it, and runs its turns with the condition in the enclosing level and the body in the child |
| `ControlProps.DoEntry` | src/Expr/DoWhileUntilStmt.ts:23-26 | a do loop makes one child level, evaluates the failsafe directly in it once, and runs its turns there |
| `ControlProps.DoSignals` | src/Expr/DoWhileUntilStmt.ts:33-40 | a break from the body ends the loop with VOID; a return or an error passes out |
| `ControlProps.DoExhausts` | src/Expr/DoWhileUntilStmt.ts:31-32 | a completed body with an exhausted counter ends the loop with VOID |
| `ControlProps.DoEndsOnTest` | src/Expr/DoWhileUntilStmt.ts:41-55 | after a continue or a completed body, a condition (evaluated directly in the child level) that is not exactly true for do-while, false for do-until, ends the loop with VOID |
| `ControlProps.DoGoesOn` | src/Expr/DoWhileUntilStmt.ts:41-55 | after a continue or a completed body, a condition that holds starts the next turn, with the counter decremented only after a completed body |
| `ControlProps.DoTurnRule` | src/Expr/DoWhileUntilStmt.ts:28-56 | one turn of the do loop, all cases together |
| `ControlProps.DoRunsOnce` | src/Expr/DoWhileUntilStmt.ts:28-41 | `do ... while (false)` runs its body once, while `while (false)` runs it zero times |
| `Interpreting.Interpreter.constructor` | src/Interpreter/Interpreter.ts:51-53 | an interpreter given an environment uses it and changes nothing; one given none creates a fresh root level seeded with the standard library |
| `Interpreting.Interpreter.Evaluate` | src/Interpreter/Interpreter.ts:54-64 | the statement list runs in order in this environment, one result per statement, exactly as the list semantics says; it ends early only at a statement that does not complete |
| `Interpreting.Interpreter.EvaluateExpr` | src/Interpreter/Interpreter.ts:66-117 | evaluating one node leaves the outcome and the store the evaluation semantics gives, for every node class, the unknown-class error included |
| `Interpreting.Interpreter.EvaluateWrite` | src/Interpreter/Interpreter.ts:89-104 | the nodes that write a binding or declare a name leave the outcome and store of the evaluation semantics |
| `Interpreting.Interpreter.EvaluateCompound` | src/Interpreter/Interpreter.ts:79-110 | the nodes that run statements, loops, calls or build values part by part leave the outcome and store of the evaluation semantics |
| `Interpreting.Interpreter.EvaluateNode` | src/Expr/Expr.ts:13-15 | calling a node's `evaluate` directly: a class without its own rule yields VOID, any other runs its rule |
| `Interpreting.Interpreter.EvaluateAssignment` | src/Expr/AssignmentExpr.ts:19-35 | the assignment leaves the outcome and store the assignment rule gives (see `EvalProps.AssignmentRule`) |
| `Interpreting.Interpreter.EvaluateUnary` | src/Expr/UnaryExpr.ts:21-69 | a unary expression evaluates its operand and then applies the operator rule, as the unary semantics says |
| `Interpreting.Interpreter.ApplyUnaryIn` | src/Expr/UnaryExpr.ts:23-68 | the operator applied to the operand's value: `++`/`--` need a NUMBER identifier, `-` and `!` follow the operator table |
| `Interpreting.Interpreter.IncrementVariableIn` | src/Expr/UnaryExpr.ts:33-38 | the variable is read, written back moved by one through `setVariable`, and the value read is the result |
| `Interpreting.Interpreter.EvaluateVariableDeclaration` | src/Expr/VariableDeclarationExpr.ts:19-33 | the declaration leaves the outcome and store of the declaration rule (see `EvalProps.VariableDeclarationRule`) |
| `Interpreting.Interpreter.EvaluateFunctionDeclaration` | src/Expr/FunctionDeclarationExpr.ts:25-52 | the declaration leaves the outcome and store of the declaration rule (see `NodeProps.DeclareFunctionRule`) |
| `Interpreting.Interpreter.BindFunction` | src/Expr/FunctionDeclarationExpr.ts:38-51 | after the parameter checks: the ANY and NULL return types are refused, otherwise the closure is built and bound by name here |
| `Interpreting.Interpreter.CheckParameters` | src/Expr/FunctionDeclarationExpr.ts:26-36 | the parameter loop returns exactly the first failing parameter's error, or none when all pass |
| `Interpreting.Interpreter.EvaluateTypeDeclaration` | src/Expr/TypeDeclarationStmt.ts:19-33 | the member loop builds the member map and the name is defined with it, as the type declaration rule says |
| `Interpreting.Interpreter.EvaluateTupleTypeDeclaration` | src/Expr/TupleTypeDeclarationStmt.ts:17-28 | the name is defined as a TUPLE type keyed by member position |
| `Interpreting.Interpreter.EvaluateArrayTypeDeclaration` | src/Expr/ArrayTyprDeclarationStmt.ts:17-24 | the name is defined as an ARRAY type whose `$type` is the element type |
| `Interpreting.Interpreter.EvaluateCall` | src/Expr/FunctionCallExpr.ts:30-107 | a call leaves the outcome and store of the call semantics, where arguments and the returned value pass the structural object check (see `ControlProps.CallErrors`, `ControlProps.CallIsClean`, `NodeProps.ArgumentRule`, `NodeProps.ReturnCheckRule`) |
| `Interpreting.Interpreter.BindAll` | src/Expr/FunctionCallExpr.ts:44-75 | the argument loop evaluates, checks and binds each argument in order in the call's scope, stopping at the first failure; an object given to an OBJECT parameter under another tag is verified structurally and bound retagged |
| `Interpreting.Interpreter.Bind` | src/Expr/FunctionCallExpr.ts:62-74 | one argument is bound as a function, a type or a non-const variable according to its kind, or the definition's error is returned with the store unchanged |
| `Interpreting.Interpreter.EvaluateBlock` | src/Expr/BlockStmt.ts:17-23 | the block leaves the outcome and store of the block rule (see `ControlProps.BlockRule`) |
| `Interpreting.Interpreter.EvaluateFailsafe` | src/Expr/ForStmt.ts:28-29 | the failsafe expression, when present, is evaluated once in this environment |
| `Interpreting.Interpreter.EvaluateFor` | src/Expr/ForStmt.ts:26-59 | the for loop leaves the outcome and store of the for semantics (see `ControlProps.ForEntry`) |
| `Interpreting.Interpreter.ForTurns` | src/Expr/ForStmt.ts:35-57 | the `while (true)` loop of the for statement, turn after turn, ends where the for-loop semantics ends |
| `Interpreting.Interpreter.ForTurn` | src/Expr/ForStmt.ts:36-56 | one turn either ends the loop with the semantics' result or leaves a store and counter from which the rest of the loop gives the same result (see `ControlProps.ForTurnRule`) |
| `Interpreting.Interpreter.EvaluateWhile` | src/Expr/WhileUntilStmt.ts:24-59 | the while or until loop leaves the outcome and store of its semantics (see `ControlProps.WhileEntry`) |
| `Interpreting.Interpreter.WhileTurns` | src/Expr/WhileUntilStmt.ts:29-57 | the loop, turn after turn, with the condition in the enclosing level and the body in the child, ends where the semantics ends |
| `Interpreting.Interpreter.WhileTurn` | src/Expr/WhileUntilStmt.ts:30-41 | one turn either ends the loop with the semantics' result or leaves a store and counter from which the rest gives the same result (see `ControlProps.WhileTurnRule`) |
| `Interpreting.Interpreter.EvaluateDoWhile` | src/Expr/DoWhileUntilStmt.ts:23-58 | the do loop leaves the outcome and store of its semantics (see `ControlProps.DoEntry`) |
| `Interpreting.Interpreter.DoTurns` | src/Expr/DoWhileUntilStmt.ts:28-56 | the do loop, turn after turn, ends where the semantics ends |
| `Interpreting.Interpreter.DoTurn` | src/Expr/DoWhileUntilStmt.ts:29-41 | one turn either ends the loop with the semantics' result or leaves a store and counter from which the rest gives the same result (see `ControlProps.DoTurnRule`) |
| `Interpreting.Interpreter.EvaluateTemplate` | src/Expr/TemplateLiteralExpr.ts:15-26 | the parts are evaluated in order, their texts appended, and the result built as a STRING value, as the template semantics says |
| `Interpreting.Interpreter.EvaluateObjectLiteral` | src/Expr/ObjectLiteralExpr.ts:18-25 | the object literal leaves the outcome and store of its semantics (see `ControlProps.ObjectLiteralRule`) |
| `Interpreting.Interpreter.EvaluateFields` | src/Expr/ObjectLiteralExpr.ts:20-23 | the field expressions are evaluated directly, in order, stopping at the first that does not complete |
| `Interpreting.SetFields` | src/Expr/ObjectLiteralExpr.ts:19-23 | the loop of `map.set` calls builds exactly the record of the keys set in order to the values |
| `Interpreting.ObjectTypeMembersStops` | src/Expr/TypeDeclarationStmt.ts:23-29 | a member that fails makes the whole type declaration fail with that member's error |
| `Interpreting.ObjectTypeMembersPrefix` | src/Expr/TypeDeclarationStmt.ts:23-29 | once a prefix of the members fails, the later members change nothing: the error is the first one |
| `Strings.IndexOf` | src/Parser/Parser.ts:266 | `indexOf` answers -1 or a position where the pattern fits inside the text |
| `Strings.IndexOfOccurs` | src/Parser/Parser.ts:266 | at the position `indexOf` answers, the pattern occurs |
| `Strings.IndexOfFound` | src/Parser/Parser.ts:266 | `indexOf` finds a position exactly when the text contains the pattern |
| `Strings.IndexOfFirst` | src/Parser/Parser.ts:266 | no occurrence starts before the position `indexOf` answers |
| `Strings.NoneBeforeFirst` | src/Parser/Parser.ts:266 | the text before the first occurrence does not contain the pattern |
| `Strings.Split` | src/Parser/Parser.ts:254 | `split` always returns at least one part |
| `Strings.SplitPartsShorter` | src/Parser/Parser.ts:254 | every part is no longer than the text, and a part after the first leaves room for the separator before it |
| `Strings.SliceThree` | src/Parser/Parser.ts:254 | a text is what comes before an occurrence of the separator, the separator, and what follows |
| `Strings.JoinCons` | src/Parser/Parser.ts:254 | joining a part before a non-empty list puts the separator between it and the rest joined |
| `Strings.SplitJoin` | src/Parser/Parser.ts:254 | joining the parts of `split` with the same separator gives the text back |
| `Strings.SplitWithout` | src/Parser/Parser.ts:254 | a text without the separator splits into itself alone |
| `Strings.TrimStart` | src/Parser/Parser.ts:266 | `trimStart` returns a suffix of the text that is empty or starts with a non-space |
| `Strings.TrimEnd` | src/Parser/Parser.ts:258 | trimming the end returns a prefix of the text that is empty or ends with a non-space |
| `Strings.TrimStartAllSpace` | src/Parser/Parser.ts:258 | `trimStart` empties a text exactly when it is all white space |
| `Strings.TrimEmpty` | src/Parser/Parser.ts:258 | `trim()` is empty exactly when the text is all white space |
| `Strings.TrimEndKeepsFirst` | src/Parser/Parser.ts:258 | a text starting with a non-space keeps something when its end is trimmed |
| `Strings.ReplaceAbsent` | src/Interpreter/Values.ts:26-31 | a global replacement of a pattern the text does not contain changes nothing |

## Left out

- Exponentiation `**`: `TokenType.ts` declares no `EXPONENT_TOKEN`, so the lexer reads `**` as two `*` tokens and the parser then fails on the second `*`. The `EXPONENT_TOKEN` case of the number operator table (`BinaryExpr.ts:107-108`) compares against an undefined enum member and can never be taken, so the model leaves it out.
- Floating-point rounding, NaN and the infinities: NUMBER is an exact `real`. Results that depend on IEEE-754 rounding, such as `0.1 + 0.2` or the text of a very large number, are not captured.
- Host failures: where the source would crash in JavaScript, the model yields `Failure(HostError(message))` with the host's message. Examples are reading a property of `undefined` and calling a value that is not a function. The crash itself is not modelled.
- Non-termination: evaluation is bounded by fuel, and an exhausted budget gives `Failure(OutOfFuel)`. A program that would loop forever in the source is therefore not distinguished from one that needs more fuel.
- Number text, `Number(text)` and the native bodies of `print`, `input` and `time` are parameters of `Nodes.Host`. These include console output, reading a line and the clock. `src/services/print.service.ts` and `src/services/input.service.ts` are not part of this model.
- The command line, file reading and the REPL (`src/cli.ts`, `src/file.ts`, `src/index.ts`) are not part of this model.
- Object key order: an object's fields are an ordered list (`Values.Record`), and writing an existing key keeps its first position, as a JavaScript `Map` does. A type's member map is a plain JavaScript object there, whose `Object.keys` list integer-like keys first; the model keeps declaration order for member maps too, which differs only in the order of the keys named in the missing-key and extra-key messages.
- Aliasing of runtime values: values are immutable here. Two variables holding one JavaScript object do not see each other's property updates.
- `typeOf` retagging: the source assigns the element kind to the shared array value in place. The model returns a new value with that kind.
- The `ValueType.CUSTOM` branches of the Environment methods are not modelled, because no value of that kind exists.
- `src/Interpreter/PrimitiveTypes.ts` is not part of this model. Its name set is assumed to be the six primitive kinds.
- Object literals: each member value is evaluated left to right before the next key is taken. The map is then built by setting the keys in the same order, where the source sets each key right after its value. A later duplicate key still overwrites an earlier one, and a failing member still means no object. Only the interleaving is not reproduced.
- `consume`: the default message keeps the source's stray closing brace, as in "Expected X but got Y}".
- Several operations in `Interpreting.Interpreter`, `Parsing.Parser` and `Lexing.Lexer` are split into a per-turn or per-stage method beside the loop that calls it. This keeps each proof small, and it matches one pass of the source's loop body.
- The `evaluate*` methods of `Interpreter.ts` that the per-node `evaluate` methods replaced are not modelled separately. Only the node rules run.
- Interpolation: the main model splits an interpolated template part with the corrected `SplitAtBrace`, which slices the trimmed part. The source takes the `}` index from the trimmed part but slices the untrimmed one, so for `${ x}` it parses a blank source and prints `}`. The as-written split is `ParserSpec.SplitAtBraceAsWritten` (see Findings).
- ParseTemplate: its template parts come from the corrected split, as for `Interpolation`. A part with leading blanks gives the parts of the trimmed text.
- ParseTemplateLiteral: proved equal to `ParseTemplate`, so it has the same corrected split.
- ParseTemplateParts: proved equal to the corrected node list, so it has the same corrected split.
- ParseInterpolation: slices the trimmed part, where the source slices the untrimmed part with the trimmed part's index.
- Parse: proved equal to `ParserSpec.ParseAll`, so it inherits the corrected template split and the corrected stop of `BlockItems` and `ArgItems`.
- BlockItems, ArgItems, ParseBlock and ParseCallArguments: the item loops stop once the token list is exhausted, and the closing `consume` then reports "Expected CLOSE_CURRLY_TOKEN but got EOF_TOKEN}" (or the `)` form). In the source, `peek` keeps showing a synthetic EOF, each `parseExpr` yields an EmptyExpr without removing a token, and the loop never ends (see Findings).
- ConsumeOr: on an exhausted list a matching `consume(EOF)` hands back the EOF token that `peek` shows and removes nothing. The source's `shift()` returns `undefined` there; its only caller, the EOF branch of `parsePrimary`, drops the result, so nothing observable differs.
- EvalArrayLiteral: uses the corrected `Nodes.ArrayLiteralValue`, so `[]` evaluates to an empty ANY array. The source reads `.type` of a missing first element and fails in the host (see Findings).
- EvaluateCompound: agrees with `EvalSpec.Eval` and so with the corrected empty array literal of `EvalArrayLiteral`.
- VerifyNested (with `VerifyElements` and `VerifyMembers`): a nested object, array or tuple is checked against the `$type` entry of an array type or the entry at its index of a tuple type. `Values.ts:90-98` and `:123-131` pass `typeValue.typeOf` instead, which `defineType` fills with the member map rather than a type name.
- TypeDef: `Environment.ts:47` calls `new TypeValue(value, extraProperties)`, while the constructor takes `(value, typeOf, valueDefinition)` (`Values.ts:186-189`). As written, the member map lands in `typeOf` and `valueDefinition` stays undefined. The model reads the member map as the definition, which is what `verifyObject`, `verifyArray` and `verifyTuple` read.
- DefineType: only a root level takes types, as written (`Environment.ts:44`). So every TYPE value passed as an argument fails to bind in the call's own level with "Types can be defined only in global scope!" (`FunctionCallExpr.ts:66-71`). This is the reading the model keeps.
- Strings are sequences of characters, not of UTF-16 code units. `split`, `indexOf`, `trim` and the string comparisons agree with the source only where no character lies outside the Basic Multilingual Plane.
- KindIsNamed: the model's tuple kind is the name TUPLE, where the source's `ValueType.TUPLE` is undefined (`Values.ts:110`). Every message that prints a tuple's kind therefore reads TUPLE where the source prints "undefined": "Invalid binary expression between: …", "Invalid unary expression: …", "Invalid if condition type: …", "Invalid ternary condition type: …", "Invalid argument type: …", "Invalid return type: …", "Invalid object property type: …", "Invalid array element type: …", "Invalid tuple element type: …", "Invalid variable type: …" and "Type TUPLE is not defined!". A type the program itself named TUPLE would also match a tuple's kind, where `undefined` matches no type name.

## Findings

| source | as written | input that shows it | evidently intended | confidence | as-written member | corrected member |
|---|---|---|---|---|---|---|
| src/Parser/Parser.ts:395-405 | `peek` shows a synthetic EOF once the list is empty (lines 414-422), `consume(EOF)` then succeeds without removing a token (431-437), and the EOF branch of `parsePrimary` (190-193) returns an EmptyExpr. The block loop waits for `}` and so never ends; the argument loop of `parseFunctionCall` (320-333) likewise waits for `)`. | the program `{`: tokens `{`, EOF | an unclosed block or argument list is a parse error naming the missing token | not executed | `ParserProps.EmptyListStalls` (over `ParserSpec.ConsumeOr`) | `ParserProps.UnclosedBlockFails` and `ParserProps.UnclosedCallFails` (over `ParserSpec.BlockItems` and `ParserSpec.ArgItems`) |
| src/Parser/Parser.ts:266-288 | the `}` index is found in `part.trimStart()`, but both slices are taken from the untrimmed `part` | the template segment `${ x}`. The part is " x}", which gives source " " and text "}" instead of "x" and "". | both slices are taken from the trimmed part | not executed | `ParserProps.SplitAtBraceAsWrittenLosesText` (over `ParserSpec.SplitAtBraceAsWritten`) | `ParserProps.SplitAtBraceRebuilds` (over `ParserSpec.SplitAtBrace`) |
| src/Expr/ArrayLiteralExpr.ts:25 | `values[0].type ?? ValueType.ANY` reads `.type` of `undefined` when the literal is empty | `[]` throws a host TypeError | an empty literal is an empty array of kind ANY, which the `?? ValueType.ANY` fallback aims at | not executed | `NodeProps.EmptyArrayLiteralAsWrittenFails` (over `Nodes.ArrayLiteralValueAsWritten`) | `NodeProps.ArrayLiteralRule` (over `Nodes.ArrayLiteralValue`) |
| src/Expr/FunctionCallExpr.ts:88-93 | the return check calls `interpreter.verifyObject`, which the `Interpreter` class does not have; the argument check at lines 53-55 does the same | `type Point = { x: NUMBER }` and `func f(): Point { return { x: 1 }; }`: calling `f()` fails in the host, since the literal is tagged OBJECT | the structural check `ObjectValue.verifyObject` (`src/Interpreter/Values.ts:149-183`) in the caller's environment, which accepts the object and tags it Point | not executed | `NodeProps.ReturnCheckAsWrittenFails` (over `Nodes.ReturnCheckAsWritten`) and `NodeProps.ArgumentAsWrittenFails` (over `Nodes.ArgumentErrorAsWritten`) | `NodeProps.ReturnCheckRule` (over `Nodes.ReturnCheck`) and `NodeProps.ArgumentRule` (over `Nodes.ArgumentCheck`) |
