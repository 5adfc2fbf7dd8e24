/** Small programs whose run through all three stages is worked out in
    full: their source texts, the tokens the lexer reads from them and the
    trees the parser builds. */
module ExampleTexts {
  import opened Wrappers
  import opened Tokens
  import opened Ast

  function IntToken(digits: string): Token {
    Token(Int, Some(digits))
  }

  function Op(k: TokenKind): Token {
    Token(k, None)
  }

  function Lit(digits: string): Option<Expr> {
    Some(Literal(IntToken(digits)))
  }

  /** `*` binds tighter than `+`: `1 + 2 * 3`. */
  const PrecedenceSource: string := "1 + 2 * 3"
  const PrecedenceTokens: seq<Token> := [IntToken("1"), Op(Plus), IntToken("2"), Op(Asterisk), IntToken("3"), EofToken]
  const Product: Expr := BinaryExpression(Op(Asterisk), Lit("2"), Lit("3"))
  const Sum: Expr := BinaryExpression(Op(Plus), Lit("1"), Some(Product))

  /** Parentheses override precedence: `(1 + 2) * 3`. */
  const ParenSource: string := "(1 + 2) * 3"
  const ParenTokens: seq<Token> := [Op(LeftParen), IntToken("1"), Op(Plus), IntToken("2"), Op(RightParen), Op(Asterisk), IntToken("3"), EofToken]
  const ParenSum: Expr := BinaryExpression(Op(Plus), Lit("1"), Lit("2"))
  const ParenProduct: Expr := BinaryExpression(Op(Asterisk), Some(ParenSum), Lit("3"))

  /** A leading minus on the first operand: `-1 + 2`. */
  const NegSource: string := "-1 + 2"
  const NegTokens: seq<Token> := [Op(Minus), IntToken("1"), Op(Plus), IntToken("2"), EofToken]
  const NegSum: Expr := BinaryExpression(Op(Plus), Some(UnaryExpression(Op(Minus), Lit("1"))), Lit("2"))

  /** A minus right after a binary operator: `1 - -2`. */
  const DoubleMinusSource: string := "1 - -2"
  const DoubleMinusTokens: seq<Token> := [IntToken("1"), Op(Minus), Op(Minus), IntToken("2"), EofToken]
  const Difference: Expr := BinaryExpression(Op(Minus), Lit("1"), Some(UnaryExpression(Op(Minus), Lit("2"))))

  /** A leading minus before a comparison: `-1 < 2`, read as `-(1 < 2)`. */
  const NegLessSource: string := "-1 < 2"
  const NegLessTokens: seq<Token> := [Op(Minus), IntToken("1"), Op(LessThan), IntToken("2"), EofToken]
  const NegLess: Expr := UnaryExpression(Op(Minus), Some(BinaryExpression(Op(LessThan), Lit("1"), Lit("2"))))

  /** An equality as a statement: `1 == 1`. */
  const ComparisonSource: string := "1 == 1"
  const ComparisonTokens: seq<Token> := [IntToken("1"), Op(Eq), IntToken("1"), EofToken]
}
