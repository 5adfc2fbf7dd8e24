/** The token model: the closed set of token kinds, the token record, and the
    keyword table the lexer consults. */
module Tokens {
  import opened Wrappers

  /** Every kind a token can have. */
  datatype TokenKind =
    | Illegal | Eof
    | Ident | Int
    | Assign | Plus | Minus | Slash | Asterisk
    | LessThan | GreaterThan | LessThanEq | GreaterThanEq | Eq | NotEq
    | Bang | Comma | Semicolon | LeftParen | RightParen | LBrace | RBrace
    | Quote | LBracket | RBracket | Colon
    | Index | Function | Let | True | False | If | Else | Return | Null | While

  /** A token: its kind and, for identifiers and integers, the text it was read from. */
  datatype Token = Token(kind: TokenKind, value: Option<string>)

  const EofToken: Token := Token(Eof, None)

  /** The seven keyword kinds the keyword table can produce. */
  predicate IsKeywordKind(k: TokenKind) {
    k in {Function, Let, True, False, If, Else, Return}
  }

  /** The word that spells a keyword kind. */
  function KeywordSpelling(k: TokenKind): string
    requires IsKeywordKind(k)
  {
    match k
    case Function => "fn"
    case Let => "let"
    case True => "true"
    case False => "false"
    case If => "if"
    case Else => "else"
    case Return => "return"
  }

  /** The keyword table: a word maps to a keyword kind, or to nothing. It holds
      exactly the seven keywords, each under the word that spells it. */
  function KeywordKind(word: string): (r: Option<TokenKind>)
    ensures r.Some? ==> IsKeywordKind(r.value) && KeywordSpelling(r.value) == word
    ensures r.None? ==> forall k :: IsKeywordKind(k) ==> KeywordSpelling(k) != word
  {
    if word == "fn" then Some(Function)
    else if word == "let" then Some(Let)
    else if word == "true" then Some(True)
    else if word == "false" then Some(False)
    else if word == "if" then Some(If)
    else if word == "else" then Some(Else)
    else if word == "return" then Some(Return)
    else None
  }

  /** The table's string value for each kind, as it appears in parser messages. */
  function KindName(k: TokenKind): string {
    match k
    case Illegal => "ILLEGAL"
    case Eof => "EOF"
    case Ident => "IDENT"
    case Int => "INT"
    case Assign => "="
    case Plus => "+"
    case Minus => "-"
    case Slash => "/"
    case Asterisk => "*"
    case LessThan => "<"
    case GreaterThan => ">"
    case LessThanEq => "<="
    case GreaterThanEq => ">="
    case Eq => "=="
    case NotEq => "!="
    case Bang => "!"
    case Comma => ","
    case Semicolon => ";"
    case LeftParen => "("
    case RightParen => ")"
    case LBrace => "{"
    case RBrace => "}"
    case Quote => "\""
    case LBracket => "["
    case RBracket => "]"
    case Colon => ":"
    case Index => "INDEX"
    case Function => "FUNCTION"
    case Let => "LET"
    case True => "TRUE"
    case False => "FALSE"
    case If => "IF"
    case Else => "ELSE"
    case Return => "RETURN"
    case Null => "NULL"
    case While => "WHILE"
  }
}
