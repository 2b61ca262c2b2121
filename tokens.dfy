// Token kinds and tokens, as produced by the lexer and read by the parser.
module Tokens {

  /** One constructor per token kind. The lexer's OPEN_CURLY/CLOSE_CURLY and
      the parser's OPEN_CURRLY/CLOSE_CURRLY are the same two kinds here, and
      the template-literal kind the lexer emits is included although the
      enumeration of kinds does not list it. */
  datatype TokenKind =
    | NumberLiteral | StringLiteral | Identifier
    | Star | Slash | Plus | Minus | Bang | Equal | Assignment
    | OpenParen | CloseParen | OpenBracket | CloseBracket | OpenCurly | CloseCurly
    | Comma | Dot | And | Or
    | LessThen | GreaterThen | LessOrEqual | GreaterOrEqual
    | Backtick | Semicolon | Colon | At | Eof | QuestionMark
    | Increment | Decrement | PlusEqual | MinusEqual | StarEqual
    | Modulo | ModuloEqual | SlashEqual | NotEqual
    | TemplateLiteral

  /** A token: its kind, its text and the line it was read on. */
  datatype Token = Token(kind: TokenKind, text: string, line: int)

  /** The printed name of a kind, as it appears in parser error messages. */
  function KindName(k: TokenKind): string
  {
    match k
    case NumberLiteral => "NUMBER_LITERAL_TOKEN"
    case StringLiteral => "STRING_LITERAL_TOKEN"
    case Identifier => "IDENTIFIER_TOKEN"
    case Star => "STAR_TOKEN"
    case Slash => "SLASH_TOKEN"
    case Plus => "PLUS_TOKEN"
    case Minus => "MINUS_TOKEN"
    case Bang => "BANG_TOKEN"
    case Equal => "EQUAL_TOKEN"
    case Assignment => "ASSIGNMENT_TOKEN"
    case OpenParen => "OPEN_PAREN_TOKEN"
    case CloseParen => "CLOSE_PAREM_TOKEN"
    case OpenBracket => "OPEN_BRACKET_TOKEN"
    case CloseBracket => "CLOSE_BRACKET_TOKEN"
    case OpenCurly => "OPEN_CURRLY_TOKEN"
    case CloseCurly => "CLOSE_CURRLY_TOKEN"
    case Comma => "COMMA_TOKEN"
    case Dot => "DOT_TOKEN"
    case And => "AND_TOKEN"
    case Or => "OR_TOKEN"
    case LessThen => "LESS_THEN_TOKEN"
    case GreaterThen => "GREATER_THEN_TOKEN"
    case LessOrEqual => "LESS_OR_EQUAL_TOKEN"
    case GreaterOrEqual => "GREATER_OR_EQUAL_TOKEN"
    case Backtick => "BACKTICK_TOKEN"
    case Semicolon => "SEMICOLON_TOKEN"
    case Colon => "COLON_TOKEN"
    case At => "AT_TOKEN"
    case Eof => "EOF_TOKEN"
    case QuestionMark => "QUESTION_MARK_TOKEN"
    case Increment => "INCREMENT_TOKEN"
    case Decrement => "DECREMENT_TOKEN"
    case PlusEqual => "PLUS_EQUAL_TOKEN"
    case MinusEqual => "MINUS_EQUAL_TOKEN"
    case StarEqual => "STAR_EQUAL_TOKEN"
    case Modulo => "MODULO_TOKEN"
    case ModuloEqual => "MODULO_EQUAL_TOKEN"
    case SlashEqual => "SLASH_EQUAL_TOKEN"
    case NotEqual => "NOT_EQUAL_TOKEN"
    case TemplateLiteral => "TEMPLATE_LITERAL_TOKEN"
  }
}
