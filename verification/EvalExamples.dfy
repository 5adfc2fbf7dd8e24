/** The evaluator on the example trees. */
module EvalExamples {
  import opened Wrappers
  import opened Tokens
  import opened Ast
  import opened Evaluator
  import EvaluatorSpec
  import opened ExampleTexts

  lemma SmallInts()
    ensures ParseInt(Some("1")) == Real(1.0)
    ensures ParseInt(Some("2")) == Real(2.0)
    ensures ParseInt(Some("3")) == Real(3.0)
  {
    EvaluatorSpec.ParseIntDigits("1");
    assert DigitsValue("1", 10) == 1;
    EvaluatorSpec.ParseIntDigits("2");
    assert DigitsValue("2", 10) == 2;
    EvaluatorSpec.ParseIntDigits("3");
    assert DigitsValue("3", 10) == 3;
  }

  lemma {:induction false} EvalLit(digits: string, divide: Divide)
    ensures EvalOpt(Lit(digits), divide) == Success(Num(ParseInt(Some(digits))))
  {
  }

  /** A binary node evaluates both operands, then applies the operator. */
  lemma {:induction false} EvalBinary(t: Token, l: Option<Expr>, r: Option<Expr>, lv: Value, rv: Value, divide: Divide)
    requires EvalOpt(l, divide) == Success(lv) && EvalOpt(r, divide) == Success(rv)
    ensures EvalOpt(Some(BinaryExpression(t, l, r)), divide) == Success(BinaryOp(t.kind, lv, rv, divide))
  {
  }

  /** `+`, `-` and `*` applied to two real numbers. */
  lemma {:induction false} NumericArith(k: TokenKind, x: real, y: real, divide: Divide)
    requires k in {Plus, Minus, Asterisk}
    ensures BinaryOp(k, Num(Real(x)), Num(Real(y)), divide) ==
            Num(Real(if k == Plus then x + y else if k == Minus then x - y else x * y))
  {
    assert IsNumericKind(k);
    if k == Plus {
      assert Numeric(k, Real(x), Real(y), divide) == Num(Real(x + y));
    } else if k == Minus {
      assert Numeric(k, Real(x), Real(y), divide) == Num(Real(x - y));
    } else {
      assert Numeric(k, Real(x), Real(y), divide) == Num(Real(x * y));
    }
  }

  /** `+`, `-` and `*` on two numbers evaluate to the arithmetic result. */
  lemma {:induction false} EvalArithmetic(k: TokenKind, l: Option<Expr>, r: Option<Expr>, x: real, y: real, divide: Divide)
    requires k in {Plus, Minus, Asterisk}
    requires EvalOpt(l, divide) == Success(Num(Real(x))) && EvalOpt(r, divide) == Success(Num(Real(y)))
    ensures EvalOpt(Some(BinaryExpression(Op(k), l, r)), divide) ==
            Success(Num(Real(if k == Plus then x + y else if k == Minus then x - y else x * y)))
  {
    NumericArith(k, x, y, divide);
    EvalBinary(Op(k), l, r, Num(Real(x)), Num(Real(y)), divide);
  }

  /** Unary `-` on a number evaluates to its negation. */
  lemma {:induction false} EvalNegation(o: Option<Expr>, x: real, divide: Divide)
    requires EvalOpt(o, divide) == Success(Num(Real(x)))
    ensures EvalOpt(Some(UnaryExpression(Op(Minus), o)), divide) == Success(Num(Real(-x)))
  {
  }

  /** A program of one expression statement has that expression's value. */
  lemma {:induction false} EvalSingleStatement(e: Expr, v: Value, divide: Divide)
    requires EvalExpr(e, divide) == Success(v) && !v.Ret?
    ensures EvalProgram([ExpressionStatement(e)], divide) == Success(v)
  {
    EvaluatorSpec.ProgramValueIsLast([], e, [], NullValue, divide);
    assert [] + [ExpressionStatement(e)] + [] == [ExpressionStatement(e)];
  }

  lemma {:induction false} EvalPrecedence(divide: Divide)
    ensures EvalProgram([ExpressionStatement(Sum)], divide) == Success(Num(Real(7.0)))
  {
    SmallInts();
    EvalLit("1", divide);
    EvalLit("2", divide);
    EvalLit("3", divide);
    EvalArithmetic(Asterisk, Lit("2"), Lit("3"), 2.0, 3.0, divide);
    EvalArithmetic(Plus, Lit("1"), Some(Product), 1.0, 6.0, divide);
    EvalSingleStatement(Sum, Num(Real(7.0)), divide);
  }

  lemma {:induction false} EvalParen(divide: Divide)
    ensures EvalProgram([ExpressionStatement(ParenProduct)], divide) == Success(Num(Real(9.0)))
  {
    SmallInts();
    EvalLit("1", divide);
    EvalLit("2", divide);
    EvalLit("3", divide);
    EvalArithmetic(Plus, Lit("1"), Lit("2"), 1.0, 2.0, divide);
    EvalArithmetic(Asterisk, Some(ParenSum), Lit("3"), 3.0, 3.0, divide);
    EvalSingleStatement(ParenProduct, Num(Real(9.0)), divide);
  }

  lemma {:induction false} EvalNeg(divide: Divide)
    ensures EvalProgram([ExpressionStatement(NegSum)], divide) == Success(Num(Real(1.0)))
  {
    SmallInts();
    EvalLit("1", divide);
    EvalLit("2", divide);
    EvalNegation(Lit("1"), 1.0, divide);
    EvalArithmetic(Plus, Some(UnaryExpression(Op(Minus), Lit("1"))), Lit("2"), -1.0, 2.0, divide);
    EvalSingleStatement(NegSum, Num(Real(1.0)), divide);
  }

  lemma {:induction false} EvalDoubleMinus(divide: Divide)
    ensures EvalProgram([ExpressionStatement(Difference)], divide) == Success(Num(Real(3.0)))
  {
    SmallInts();
    EvalLit("1", divide);
    EvalLit("2", divide);
    EvalNegation(Lit("2"), 2.0, divide);
    EvalArithmetic(Minus, Lit("1"), Some(UnaryExpression(Op(Minus), Lit("2"))), 1.0, -2.0, divide);
    EvalSingleStatement(Difference, Num(Real(3.0)), divide);
  }

  /** `1 < 2` is true, and negating a boolean gives null. */
  lemma {:induction false} EvalNegLess(divide: Divide)
    ensures EvalProgram([ExpressionStatement(NegLess)], divide) == Success(NullValue)
  {
    SmallInts();
    EvalLit("1", divide);
    EvalLit("2", divide);
    EvalBinary(Op(LessThan), Lit("1"), Lit("2"), Num(Real(1.0)), Num(Real(2.0)), divide);
    assert EvalOpt(Some(BinaryExpression(Op(LessThan), Lit("1"), Lit("2"))), divide) == Success(Bool(true));
    EvalSingleStatement(NegLess, NullValue, divide);
  }
}
