/** The parser on the example token sequences: the tree each one parses to,
    first as an expression and then as a program of one statement. */
module ParseExamples {
  import opened Wrappers
  import opened Tokens
  import opened Utils
  import opened Ast
  import opened Parser
  import opened ParserSpec
  import opened ExampleTexts

  lemma {:induction false} ParsePrecedence(fuel: nat)
    requires fuel >= 6
    ensures ParseExpression(PState(PrecedenceTokens, 0, []), 0, fuel) == Parsed(Some(Sum), PState(PrecedenceTokens, 5, []))
  {
    Grouping(PState(PrecedenceTokens, 0, []), fuel);
  }

  lemma {:induction false} ProgramPrecedence(fuel: nat)
    requires fuel >= 8
    ensures ParseProgram(PrecedenceTokens, fuel) == Parsed([ExpressionStatement(Sum)], PState(PrecedenceTokens, 5, []))
  {
    ParsePrecedence(fuel - 2);
    SingleExpressionProgram(PrecedenceTokens, Sum, fuel);
  }

  lemma {:induction false} ParseParen(fuel: nat)
    requires fuel >= 8
    ensures ParseExpression(PState(ParenTokens, 0, []), 0, fuel) == Parsed(Some(ParenProduct), PState(ParenTokens, 7, []))
  {
    var st := PState(ParenTokens, 0, []);
    assert Binds(Op(Plus)) && Binds(Op(Asterisk)) && GetPrecedence(EofToken) == 0;
    ParenthesizedGrouping(st, fuel);
    assert At(st, 7) == PState(ParenTokens, 7, []);
  }

  lemma {:induction false} ProgramParen(fuel: nat)
    requires fuel >= 10
    ensures ParseProgram(ParenTokens, fuel) == Parsed([ExpressionStatement(ParenProduct)], PState(ParenTokens, 7, []))
  {
    ParseParen(fuel - 2);
    SingleExpressionProgram(ParenTokens, ParenProduct, fuel);
  }

  lemma {:induction false} ParseNeg(fuel: nat)
    requires fuel >= 7
    ensures ParseExpression(PState(NegTokens, 0, []), 0, fuel) == Parsed(Some(NegSum), PState(NegTokens, 4, []))
  {
    var st := PState(NegTokens, 0, []);
    assert Binds(Op(Plus)) && GetPrecedence(EofToken) == 0;
    assert SignedOperands(st);
    PrefixGrouping(st, fuel);
    assert PrefixGrouped(Op(Minus), IntToken("1"), Op(Plus), IntToken("2")) == NegSum;
    assert At(st, 4) == PState(NegTokens, 4, []);
  }

  lemma {:induction false} ProgramNeg(fuel: nat)
    requires fuel >= 9
    ensures ParseProgram(NegTokens, fuel) == Parsed([ExpressionStatement(NegSum)], PState(NegTokens, 4, []))
  {
    ParseNeg(fuel - 2);
    SingleExpressionProgram(NegTokens, NegSum, fuel);
  }

  lemma {:induction false} ParseDoubleMinus(fuel: nat)
    requires fuel >= 7
    ensures ParseExpression(PState(DoubleMinusTokens, 0, []), 0, fuel) == Parsed(Some(Difference), PState(DoubleMinusTokens, 4, []))
  {
    var st := PState(DoubleMinusTokens, 0, []);
    assert Binds(Op(Minus)) && GetPrecedence(EofToken) == 0;
    SignedRightOperand(st, fuel);
    assert At(st, 4) == PState(DoubleMinusTokens, 4, []);
  }

  lemma {:induction false} ProgramDoubleMinus(fuel: nat)
    requires fuel >= 9
    ensures ParseProgram(DoubleMinusTokens, fuel) == Parsed([ExpressionStatement(Difference)], PState(DoubleMinusTokens, 4, []))
  {
    ParseDoubleMinus(fuel - 2);
    SingleExpressionProgram(DoubleMinusTokens, Difference, fuel);
  }

  lemma {:induction false} ParseNegLess(fuel: nat)
    requires fuel >= 7
    ensures ParseExpression(PState(NegLessTokens, 0, []), 0, fuel) == Parsed(Some(NegLess), PState(NegLessTokens, 4, []))
  {
    var st := PState(NegLessTokens, 0, []);
    assert Binds(Op(LessThan)) && GetPrecedence(EofToken) == 0;
    assert SignedOperands(st);
    PrefixGrouping(st, fuel);
    assert PrefixGrouped(Op(Minus), IntToken("1"), Op(LessThan), IntToken("2")) == NegLess;
    assert At(st, 4) == PState(NegLessTokens, 4, []);
  }

  lemma {:induction false} ProgramNegLess(fuel: nat)
    requires fuel >= 9
    ensures ParseProgram(NegLessTokens, fuel) == Parsed([ExpressionStatement(NegLess)], PState(NegLessTokens, 4, []))
  {
    ParseNegLess(fuel - 2);
    SingleExpressionProgram(NegLessTokens, NegLess, fuel);
  }

  /** `1 == 1` as a statement: the parser never finishes, whatever the fuel. */
  lemma {:induction false} ProgramComparison(fuel: nat)
    ensures ParseProgram(ComparisonTokens, fuel) == OutOfFuel
  {
    ComparisonDiverges(IntToken("1"), Op(Eq), IntToken("1"), fuel);
  }
}
