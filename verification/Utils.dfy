/** Character classes, the operator tables and the token predicates shared by
    the lexer and the parser. */
module Utils {
  import opened Wrappers
  import opened Tokens

  /** `[a-zA-Z]` or `_`. */
  predicate IsLetter(c: char) {
    ('a' <= c <= 'z') || ('A' <= c <= 'Z') || c == '_'
  }

  /** `\d`, which without the unicode flag is the ten ASCII digits. */
  predicate IsDigit(c: char) {
    '0' <= c <= '9'
  }

  /** `\s`, ECMAScript's WhiteSpace and LineTerminator characters: tab, line
      feed, vertical tab, form feed, carriage return, space, no-break space,
      the Unicode space separators, the line and paragraph separators and
      the byte order mark. */
  predicate IsWhitespace(c: char) {
    || c == ' ' || 9 <= c as int <= 13
    || 0x2000 <= c as int <= 0x200A
    || c as int in {0xA0, 0x1680, 0x2028, 0x2029, 0x202F, 0x205F, 0x3000, 0xFEFF}
  }

  /** The digits and the whitespace characters, each against a listing of
      its members; no character is in two of the three classes. */
  lemma CharClasses(c: char)
    ensures IsDigit(c) <==> c in "0123456789"
    ensures IsWhitespace(c) <==>
              c in "\t\n\U{000B}\U{000C}\r \U{00A0}\U{1680}\U{2000}\U{2001}\U{2002}\U{2003}\U{2004}\U{2005}\U{2006}\U{2007}\U{2008}\U{2009}\U{200A}\U{2028}\U{2029}\U{202F}\U{205F}\U{3000}\U{FEFF}"
    ensures !(IsLetter(c) && IsDigit(c)) && !(IsLetter(c) && IsWhitespace(c)) && !(IsDigit(c) && IsWhitespace(c))
  {
  }

  /** A character that may continue an identifier. */
  predicate IsIdentChar(c: char) {
    IsLetter(c) || IsDigit(c)
  }

  /** The token kinds whose table string is one of the ten binary operator
      strings `+ - * / < > == != <= >=`. */
  predicate IsBinaryKind(k: TokenKind) {
    k in {Plus, Minus, Asterisk, Slash, LessThan, GreaterThan, Eq, NotEq, LessThanEq, GreaterThanEq}
  }

  /** `isBinaryOperator`: false for a missing token, otherwise whether the
      token's kind string is among the ten operator strings. */
  function IsBinaryOperator(t: Option<Token>): (r: bool)
    ensures r <==> t.Some? && IsBinaryKind(t.value.kind)
  {
    t.Some? && KindName(t.value.kind) in ["+", "-", "*", "/", "<", ">", "==", "!=", "<=", ">="]
  }

  /** The parser's PRECEDENCES table: an entry for seven kinds only. */
  function Precedences(k: TokenKind): Option<nat> {
    match k
    case Plus => Some(1)
    case Minus => Some(1)
    case Asterisk => Some(2)
    case Slash => Some(2)
    case LeftParen => Some(3)
    case LessThan => Some(4)
    case GreaterThan => Some(4)
    case _ => None
  }

  /** `getPrecedence`: the table entry for the token's kind, 0 for every kind
      without one. */
  function GetPrecedence(t: Token): (r: nat)
    ensures r == 1 <==> t.kind in {Plus, Minus}
    ensures r == 2 <==> t.kind in {Asterisk, Slash}
    ensures r == 3 <==> t.kind == LeftParen
    ensures r == 4 <==> t.kind in {LessThan, GreaterThan}
    ensures r == 0 <==> Precedences(t.kind).None?
  {
    match Precedences(t.kind)
    case Some(p) => p
    case None => 0
  }

  /** `isLVal`: a present token of kind IDENT or INDEX. */
  function IsLVal(t: Option<Token>): (r: bool)
    ensures r ==> t.Some?
    ensures t.Some? ==> (r <==> t.value.kind == Ident || t.value.kind == Index)
  {
    match t
    case Some(tok) => tok.kind in {Ident, Index}
    case None => false
  }

  /** The decimal numeral of `n`, as the lexer would read it. */
  function ShowNat(n: nat): (s: string)
    ensures |s| > 0 && forall i :: 0 <= i < |s| ==> IsDigit(s[i])
  {
    var d := ['0' + (n % 10) as char];
    if n < 10 then d else ShowNat(n / 10) + d
  }
}
