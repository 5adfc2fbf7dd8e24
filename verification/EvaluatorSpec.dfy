/** Properties of the early evaluator that relate several calls: how
    statement lists run, where they stop, and what `let` contributes. */
module EvaluatorSpec {
  import opened Wrappers
  import opened Tokens
  import opened Utils
  import opened Ast
  import opened Evaluator

  lemma {:induction false} ShowNatValue(n: nat)
    ensures DigitsValue(ShowNat(n), 10) == n
  {
    var s := ShowNat(n);
    if n >= 10 {
      assert s[..|s| - 1] == ShowNat(n / 10);
      ShowNatValue(n / 10);
    }
  }

  predicate AllDigits(s: string) {
    forall i :: 0 <= i < |s| ==> IsDigit(s[i])
  }

  lemma {:induction false} DigitPrefixOfDigits(s: string)
    requires AllDigits(s)
    ensures RadixPrefix(s, 10) == |s|
  {
  }

  /** A string of decimal digits is read back whole by `parseInt`. */
  lemma {:induction false} ParseIntDigits(d: string)
    requires |d| > 0 && AllDigits(d)
    ensures ParseInt(Some(d)) == Real(DigitsValue(d, 10) as real)
  {
    CharClasses(d[0]);
    assert SpacePrefix(d) == 0;
    assert d[0] !in "+-";
    assert |d| >= 2 ==> d[1] !in "xX";
    DigitPrefixOfDigits(d);
    assert d[..|d|] == d;
  }

  /** An INT literal evaluates to the integer its decimal digits denote. */
  lemma {:induction false} ParseIntShowNat(n: nat)
    ensures ParseInt(Some(ShowNat(n))) == Real(n as real)
  {
    ParseIntDigits(ShowNat(n));
    ShowNatValue(n);
  }

  function Zeros(k: nat): (z: string)
    ensures |z| == k && AllDigits(z)
  {
    if k == 0 then "" else Zeros(k - 1) + "0"
  }

  lemma {:induction false} ZerosValue(k: nat)
    ensures DigitsValue(Zeros(k), 10) == 0
  {
    if k > 0 {
      assert Zeros(k)[..k - 1] == Zeros(k - 1);
      ZerosValue(k - 1);
    }
  }

  /** Leading zeros add nothing to a numeral's value. */
  lemma {:induction false} ZerosPrefixValue(k: nat, d: string)
    requires AllDigits(d)
    ensures AllDigits(Zeros(k) + d) && DigitsValue(Zeros(k) + d, 10) == DigitsValue(d, 10)
    decreases |d|
  {
    var s := Zeros(k) + d;
    if |d| == 0 {
      assert s == Zeros(k);
      ZerosValue(k);
    } else {
      assert s[..|s| - 1] == Zeros(k) + d[..|d| - 1];
      assert s[|s| - 1] == d[|d| - 1];
      ZerosPrefixValue(k, d[..|d| - 1]);
    }
  }

  /** An INT literal with leading zeros denotes the same integer: `parseInt`
      reads them in radix 10, never as an octal or hex prefix. */
  lemma {:induction false} ParseIntZeroPadded(k: nat, n: nat)
    ensures ParseInt(Some(Zeros(k) + ShowNat(n))) == Real(n as real)
  {
    ZerosPrefixValue(k, ShowNat(n));
    ParseIntDigits(Zeros(k) + ShowNat(n));
    ShowNatValue(n);
  }

  /** Leading white space is skipped. */
  lemma {:induction false} ParseIntSkipsSpace(c: char, s: string)
    requires IsWhitespace(c)
    ensures ParseInt(Some([c] + s)) == ParseInt(Some(s))
  {
    assert ([c] + s)[1..] == s;
  }

  /** Where no white space or sign starts the text, `parseInt` goes
      straight to the digits, unsigned. */
  lemma {:induction false} ParseIntUnsigned(s: string)
    requires |s| == 0 || (!IsWhitespace(s[0]) && s[0] !in "+-")
    ensures ParseInt(Some(s)) == ParseUnsigned(s, false)
  {
    assert SpacePrefix(s) == 0;
  }

  lemma {:induction false} UnsignedNegated(s: string)
    ensures ParseUnsigned(s, true) == Negate(ParseUnsigned(s, false))
  {
  }

  /** One `-` after the white space negates what follows, provided no white
      space or second sign follows it. */
  lemma {:induction false} ParseIntMinus(s: string)
    requires |s| == 0 || (!IsWhitespace(s[0]) && s[0] !in "+-")
    ensures ParseInt(Some("-" + s)) == Negate(ParseInt(Some(s)))
  {
    var t := "-" + s;
    assert t[0] == '-' && t[1..] == s && !IsWhitespace('-');
    assert SpacePrefix(t) == 0;
    assert ParseInt(Some(t)) == ParseUnsigned(s, true);
    ParseIntUnsigned(s);
    UnsignedNegated(s);
  }

  /** One `+` after the white space leaves what follows alone, on the same
      condition. */
  lemma {:induction false} ParseIntPlus(s: string)
    requires |s| == 0 || (!IsWhitespace(s[0]) && s[0] !in "+-")
    ensures ParseInt(Some("+" + s)) == ParseInt(Some(s))
  {
    var t := "+" + s;
    assert t[0] == '+' && t[1..] == s && !IsWhitespace('+');
    assert SpacePrefix(t) == 0;
    assert ParseInt(Some(t)) == ParseUnsigned(s, false);
    ParseIntUnsigned(s);
  }

  /** `0x` or `0X` and a run of hex digits is read in radix 16. */
  lemma {:induction false} ParseIntHex(x: char, h: string)
    requires x in "xX" && |h| > 0 && forall i :: 0 <= i < |h| ==> IsRadixDigit(h[i], 16)
    ensures ParseInt(Some(['0', x] + h)) == Real(DigitsValue(h, 16) as real)
  {
    var s := ['0', x] + h;
    assert !IsWhitespace('0');
    assert SpacePrefix(s) == 0 && s[0] == '0' && s[1] == x && s[2..] == h;
    assert RadixPrefix(h, 16) == |h| && h[..|h|] == h;
  }

  lemma {:induction false} RadixPrefixAppend(d: string, rest: string, radix: nat)
    requires forall i :: 0 <= i < |d| ==> IsRadixDigit(d[i], radix)
    requires |rest| == 0 || !IsRadixDigit(rest[0], radix)
    ensures RadixPrefix(d + rest, radix) == |d|
    decreases |d|
  {
    if |d| > 0 {
      assert (d + rest)[1..] == d[1..] + rest;
      RadixPrefixAppend(d[1..], rest, radix);
    } else {
      assert d + rest == rest;
    }
  }

  /** Reading stops at the first character that is not a digit: what comes
      after it does not matter. */
  lemma {:induction false} ParseIntStops(d: string, rest: string)
    requires |d| > 0 && AllDigits(d) && (|rest| == 0 || !IsDigit(rest[0]))
    requires !(d == "0" && |rest| > 0 && rest[0] in "xX")
    ensures ParseInt(Some(d + rest)) == ParseInt(Some(d))
  {
    var s := d + rest;
    CharClasses(d[0]);
    assert s[0] == d[0] && SpacePrefix(s) == 0;
    assert s[0] !in "+-";
    if |d| >= 2 {
      assert s[1] == d[1];
    } else if |rest| > 0 {
      assert s[1] == rest[0];
    }
    RadixPrefixAppend(d, rest, 10);
    assert s[..|d|] == d;
    ParseIntDigits(d);
  }

  /** `parseInt` on texts the lexer never produces for an INT, as
      JavaScript reads them: white space and a sign before the digits. */
  lemma ParseIntSignExamples()
    ensures ParseInt(Some(" 7")) == Real(7.0)
    ensures ParseInt(Some("-7")) == Real(-7.0)
    ensures ParseInt(Some("+7")) == Real(7.0)
  {
    ParseIntDigits("7");
    assert DigitsValue("7", 10) == 7;
    ParseIntSkipsSpace(' ', "7");
    assert [' '] + "7" == " 7";
    ParseIntMinus("7");
    ParseIntPlus("7");
  }

  /** A hex prefix. */
  lemma ParseIntHexExample()
    ensures ParseInt(Some("0x1F")) == Real(31.0)
  {
    ParseIntHex('x', "1F");
    assert DigitsValue("1F", 16) == 31 by {
      assert "1F"[..1] == "1";
    }
  }

  /** Trailing characters that are not digits. */
  lemma ParseIntJunkExample()
    ensures ParseInt(Some("12ab")) == Real(12.0)
  {
    ParseIntStops("12", "ab");
    assert "12" + "ab" == "12ab";
    ParseIntDigits("12");
    assert DigitsValue("12", 10) == 12 by {
      assert "12"[..1] == "1";
    }
  }

  /** Leading zeros. */
  lemma ParseIntZerosExample()
    ensures ParseInt(Some("007")) == Real(7.0)
  {
    ParseIntZeroPadded(2, 7);
    assert Zeros(2) + ShowNat(7) == "007";
  }

  /** No digits where they are expected: NaN. */
  lemma ParseIntNaNExamples()
    ensures ParseInt(Some("ab")) == NaN && ParseInt(Some("")) == NaN && ParseInt(Some("-")) == NaN
    ensures ParseInt(Some("0x")) == NaN && ParseInt(None) == NaN
  {
    assert SpacePrefix("ab") == 0 && SpacePrefix("-") == 0 && SpacePrefix("0x") == 0;
  }

  /** `!=` is always the negation of `==`, on values of any kinds. */
  lemma {:induction false} NotEqNegatesEq(a: Value, b: Value, divide: Divide)
    ensures BinaryOp(NotEq, a, b, divide) == Bool(!BinaryOp(Eq, a, b, divide).b)
    ensures BinaryOp(Eq, a, b, divide) == BinaryOp(Eq, b, a, divide)
  {
  }

  /** `<` and `>` mirror each other on any two numbers, and on two real
      numbers at most one of them holds, neither exactly when they are
      equal; NaN makes both false. */
  lemma {:induction false} ComparisonMirror(x: Number, y: Number, divide: Divide)
    ensures BinaryOp(LessThan, Num(x), Num(y), divide) == BinaryOp(GreaterThan, Num(y), Num(x), divide)
    ensures x.Real? && y.Real? ==>
              && !(BinaryOp(LessThan, Num(x), Num(y), divide).b && BinaryOp(GreaterThan, Num(x), Num(y), divide).b)
              && (!BinaryOp(LessThan, Num(x), Num(y), divide).b && !BinaryOp(GreaterThan, Num(x), Num(y), divide).b <==> x == y)
    ensures x.NaN? || y.NaN? ==> BinaryOp(LessThan, Num(x), Num(y), divide) == Bool(false) == BinaryOp(GreaterThan, Num(x), Num(y), divide)
  {
    assert IsNumericKind(LessThan) && IsNumericKind(GreaterThan);
  }

  /** if/else runs the consequence exactly when the condition is the boolean
      true; numbers, null and everything else run the alternative. */
  lemma {:induction false} IfChoosesOnTrue(t: Token, c: Expr, consequence: seq<Stmt>, alternative: seq<Stmt>, v: Value, divide: Divide)
    requires EvalExpr(c, divide) == Success(v)
    ensures EvalExpr(IfElseExpression(t, Some(c), consequence, alternative), divide) ==
            (if v == Bool(true) then EvalBlock(consequence, divide) else EvalBlock(alternative, divide))
  {
  }

  /** Two prefix `-` give back the number and two `!` the boolean: each
      operator is its own inverse on the values it applies to. */
  lemma {:induction false} DoubleNegation(t1: Token, t2: Token, e: Expr, v: Value, divide: Divide)
    requires EvalExpr(e, divide) == Success(v)
    requires (t1.kind == Minus && t2.kind == Minus && v.Num?) || (t1.kind == Bang && t2.kind == Bang && v.Bool?)
    ensures EvalExpr(UnaryExpression(t1, Some(UnaryExpression(t2, Some(e)))), divide) == Success(v)
  {
    var inner := UnaryExpression(t2, Some(e));
    assert EvalExpr(inner, divide) == Success(UnaryOp(t2.kind, v));
    assert EvalExpr(UnaryExpression(t1, Some(inner)), divide) == Success(UnaryOp(t1.kind, UnaryOp(t2.kind, v)));
    if v.Num? {
      assert UnaryOp(Minus, UnaryOp(Minus, v)) == Num(Negate(Negate(v.n)));
    }
  }

  /** Negating a boolean condition and swapping the branches changes
      nothing. */
  lemma {:induction false} IfSwap(t: Token, bang: Token, c: Expr, consequence: seq<Stmt>, alternative: seq<Stmt>, b: bool, divide: Divide)
    requires bang.kind == Bang && EvalExpr(c, divide) == Success(Bool(b))
    ensures EvalExpr(IfElseExpression(t, Some(c), consequence, alternative), divide) ==
            EvalExpr(IfElseExpression(t, Some(UnaryExpression(bang, Some(c))), alternative, consequence), divide)
  {
    assert EvalExpr(UnaryExpression(bang, Some(c)), divide) == Success(Bool(!b));
  }

  /** A statement the loops pass over: a `let`, or an expression that
      evaluates without failing to something other than a return value. */
  predicate RunsThrough(s: Stmt, divide: Divide) {
    || s.LetStatement?
    || (s.ExpressionStatement? && EvalExpr(s.expr, divide).Success? && !EvalExpr(s.expr, divide).value.Ret?)
  }

  predicate AllRunThrough(ss: seq<Stmt>, divide: Divide) {
    forall i :: 0 <= i < |ss| ==> RunsThrough(ss[i], divide)
  }

  lemma {:induction false} SplitFirst(pre: seq<Stmt>, s: Stmt, post: seq<Stmt>)
    ensures |pre| == 0 ==> (pre + [s] + post)[0] == s && (pre + [s] + post)[1..] == post
    ensures |pre| > 0 ==> (pre + [s] + post)[0] == pre[0] && (pre + [s] + post)[1..] == pre[1..] + [s] + post
  {
    if |pre| > 0 {
      assert (pre + [s] + post)[1..] == pre[1..] + [s] + post;
    }
  }

  /** In a block, `return` stops the block: the result is a return value
      wrapping its expression unevaluated, and nothing after it runs. */
  lemma {:induction false} BlockStopsAtReturn(pre: seq<Stmt>, x: Option<Expr>, post: seq<Stmt>, result: Value, divide: Divide)
    requires !result.Ret? && AllRunThrough(pre, divide)
    ensures EvalBlockFrom(pre + [ReturnStatement(x)] + post, result, divide) == Success(Ret(x))
    decreases |pre|
  {
    SplitFirst(pre, ReturnStatement(x), post);
    if |pre| > 0 {
      assert RunsThrough(pre[0], divide);
      var next := if pre[0].LetStatement? then result else EvalExpr(pre[0].expr, divide).value;
      BlockStopsAtReturn(pre[1..], x, post, next, divide);
    }
  }

  /** At top level, `return` evaluates its expression and ends the program. */
  lemma {:induction false} ProgramStopsAtReturn(pre: seq<Stmt>, x: Option<Expr>, post: seq<Stmt>, result: Value, divide: Divide)
    requires AllRunThrough(pre, divide)
    ensures EvalStatementsFrom(pre + [ReturnStatement(x)] + post, result, divide) == EvalOpt(x, divide)
    decreases |pre|
  {
    SplitFirst(pre, ReturnStatement(x), post);
    if |pre| > 0 {
      assert RunsThrough(pre[0], divide);
      var next := if pre[0].LetStatement? then result else EvalExpr(pre[0].expr, divide).value;
      ProgramStopsAtReturn(pre[1..], x, post, next, divide);
    }
  }

  /** A return value coming out of a nested construct is evaluated and is
      the block's value at once; the rest of the block does not run. */
  lemma {:induction false} NestedReturnUnwrapped(e: Expr, x: Option<Expr>, rest: seq<Stmt>, result: Value, divide: Divide)
    requires !result.Ret? && EvalExpr(e, divide) == Success(Ret(x))
    ensures EvalBlockFrom([ExpressionStatement(e)] + rest, result, divide) == EvalOpt(x, divide)
    ensures EvalStatementsFrom([ExpressionStatement(e)] + rest, result, divide) == EvalOpt(x, divide)
  {
    assert ([ExpressionStatement(e)] + rest)[0] == ExpressionStatement(e);
  }

  /** The statements with every `let` removed. */
  function DropLets(ss: seq<Stmt>): (r: seq<Stmt>)
    ensures forall i :: 0 <= i < |r| ==> !r[i].LetStatement?
    ensures |r| <= |ss|
  {
    if |ss| == 0 then []
    else if ss[0].LetStatement? then DropLets(ss[1..])
    else [ss[0]] + DropLets(ss[1..])
  }

  /** `let` is ignored: removing every let leaves the program's result
      unchanged. */
  lemma {:induction false} ProgramIgnoresLets(ss: seq<Stmt>, result: Value, divide: Divide)
    ensures EvalStatementsFrom(ss, result, divide) == EvalStatementsFrom(DropLets(ss), result, divide)
    decreases |ss|
  {
    if |ss| > 0 {
      if ss[0].LetStatement? {
        ProgramIgnoresLets(ss[1..], result, divide);
      } else {
        var d := DropLets(ss);
        assert d[0] == ss[0] && d[1..] == DropLets(ss[1..]);
        if ss[0].ExpressionStatement? && EvalExpr(ss[0].expr, divide).Success? {
          ProgramIgnoresLets(ss[1..], EvalExpr(ss[0].expr, divide).value, divide);
        }
      }
    }
  }

  /** The same inside a block. */
  lemma {:induction false} BlockIgnoresLets(ss: seq<Stmt>, result: Value, divide: Divide)
    requires !result.Ret?
    ensures EvalBlockFrom(ss, result, divide) == EvalBlockFrom(DropLets(ss), result, divide)
    decreases |ss|
  {
    if |ss| > 0 {
      if ss[0].LetStatement? {
        BlockIgnoresLets(ss[1..], result, divide);
      } else {
        var d := DropLets(ss);
        assert d[0] == ss[0] && d[1..] == DropLets(ss[1..]);
        if ss[0].ExpressionStatement? && EvalExpr(ss[0].expr, divide).Success? && !EvalExpr(ss[0].expr, divide).value.Ret? {
          BlockIgnoresLets(ss[1..], EvalExpr(ss[0].expr, divide).value, divide);
        }
      }
    }
  }

  predicate AllLets(ss: seq<Stmt>) {
    forall i :: 0 <= i < |ss| ==> ss[i].LetStatement?
  }

  lemma {:induction false} LetsKeepResult(lets: seq<Stmt>, result: Value, divide: Divide)
    requires AllLets(lets)
    ensures EvalStatementsFrom(lets, result, divide) == Success(result)
    decreases |lets|
  {
    if |lets| > 0 {
      LetsKeepResult(lets[1..], result, divide);
    }
  }

  /** Without a return, the program's result is the value of the last
      expression statement; only lets may follow it. */
  lemma {:induction false} ProgramValueIsLast(pre: seq<Stmt>, e: Expr, lets: seq<Stmt>, result: Value, divide: Divide)
    requires AllRunThrough(pre, divide) && RunsThrough(ExpressionStatement(e), divide) && AllLets(lets)
    ensures EvalStatementsFrom(pre + [ExpressionStatement(e)] + lets, result, divide) == EvalExpr(e, divide)
    decreases |pre|
  {
    SplitFirst(pre, ExpressionStatement(e), lets);
    if |pre| > 0 {
      assert RunsThrough(pre[0], divide);
      var next := if pre[0].LetStatement? then result else EvalExpr(pre[0].expr, divide).value;
      ProgramValueIsLast(pre[1..], e, lets, next, divide);
    } else {
      LetsKeepResult(lets, EvalExpr(e, divide).value, divide);
    }
  }
}
