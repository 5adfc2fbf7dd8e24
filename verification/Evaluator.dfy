/** The early evaluator: integer and boolean arithmetic, comparisons,
    if/else and deferred `return`, over the parser's tree. It reports no
    type errors: an operator applied to the wrong kind of value gives null.
    The only failure is reading the token of a missing expression. */
module Evaluator {
  import opened Wrappers
  import opened Tokens
  import opened Utils
  import opened Ast

  /** A JavaScript number, up to rounding: a real value or NaN. */
  datatype Number = Real(r: real) | NaN

  /** What an expression evaluates to. `Ret` is the `ReturnValue` a block
      hands out: it wraps the return's expression, not yet evaluated. */
  datatype Value =
    | Num(n: Number)
    | Bool(b: bool)
    | NullValue
    | UndefinedValue
    | Ret(expr: Option<Expr>)

  /** Division of two numbers; IEEE division is not modelled. */
  type Divide = (Number, Number) -> Number

  /** The TypeError of evaluating a null expression. */
  datatype EvalError = NullExpression

  /** The value of a character as a digit of some radix: `0`-`9` count 0
      to 9 and letters of either case count from 10 up to 35; anything else
      is a digit of no radix (36). */
  function DigitValue(c: char): (v: nat)
    ensures v <= 36
    ensures IsDigit(c) <==> v < 10
    ensures IsDigit(c) ==> v == c as int - '0' as int
  {
    if '0' <= c <= '9' then c as int - '0' as int
    else if 'a' <= c <= 'z' then c as int - 'a' as int + 10
    else if 'A' <= c <= 'Z' then c as int - 'A' as int + 10
    else 36
  }

  predicate IsRadixDigit(c: char, radix: nat) {
    DigitValue(c) < radix
  }

  /** The length of the longest run of `radix` digits at the start of `s`. */
  function RadixPrefix(s: string, radix: nat): (n: nat)
    ensures n <= |s|
    ensures forall i :: 0 <= i < n ==> IsRadixDigit(s[i], radix)
    ensures n == |s| || !IsRadixDigit(s[n], radix)
  {
    if |s| == 0 || !IsRadixDigit(s[0], radix) then 0 else 1 + RadixPrefix(s[1..], radix)
  }

  /** The number a string of `radix` digits denotes, most significant first. */
  function DigitsValue(d: string, radix: nat): nat
    requires forall i :: 0 <= i < |d| ==> IsRadixDigit(d[i], radix)
  {
    if |d| == 0 then 0
    else
      assert IsRadixDigit(d[|d| - 1], radix);
      var high := DigitsValue(d[..|d| - 1], radix);
      ProductIsNat(high, radix);
      high * radix + DigitValue(d[|d| - 1])
  }

  lemma ProductIsNat(a: nat, b: nat)
    ensures a * b >= 0
  {
  }

  /** The length of the white space (the characters of `\s`) at the start
      of `s`. */
  function SpacePrefix(s: string): (n: nat)
    ensures n <= |s|
    ensures forall i :: 0 <= i < n ==> IsWhitespace(s[i])
    ensures n == |s| || !IsWhitespace(s[n])
  {
    if |s| == 0 || !IsWhitespace(s[0]) then 0 else 1 + SpacePrefix(s[1..])
  }

  /** `parseInt` with no radix, on a token's text (section 19.2.5 of
      ECMA-262): leading white space is skipped, then one optional sign,
      then an optional `0x` or `0X` selecting radix 16; the value is that of
      the longest run of digits of the radix that follows, NaN if the run
      is empty or the text is missing. */
  function ParseInt(text: Option<string>): (r: Number)
    ensures text.None? ==> r == NaN
    ensures r.Real? ==> r.r.Floor as real == r.r
  {
    if text.None? then NaN
    else
      var s := text.value[SpacePrefix(text.value)..];
      if |s| > 0 && s[0] in "+-" then ParseUnsigned(s[1..], s[0] == '-') else ParseUnsigned(s, false)
  }

  /** The rest of `parseInt` once white space and sign are consumed. */
  function ParseUnsigned(s: string, negative: bool): (r: Number)
    ensures r.Real? ==> r.r.Floor as real == r.r
  {
    var hex := |s| >= 2 && s[0] == '0' && s[1] in "xX";
    var radix := if hex then 16 else 10;
    var digits := if hex then s[2..] else s;
    var n := RadixPrefix(digits, radix);
    if n == 0 then NaN
    else
      var m := DigitsValue(digits[..n], radix);
      var v: int := if negative then -(m as int) else m;
      Real(v as real)
  }

  /** `===`: numbers and booleans by value, null and undefined each equal
      to themselves; NaN equals nothing, and two return values are two
      different objects. */
  function StrictEquals(a: Value, b: Value): (r: bool)
    ensures r <==> a == b && !a.Ret? && a != Num(NaN)
  {
    match (a, b)
    case (Num(Real(x)), Num(Real(y))) => x == y
    case (Bool(x), Bool(y)) => x == y
    case (NullValue, NullValue) => true
    case (UndefinedValue, UndefinedValue) => true
    case _ => false
  }

  /** The operators that need two numbers. */
  predicate IsNumericKind(k: TokenKind) {
    k in {Plus, Minus, Asterisk, Slash, LessThan, GreaterThan}
  }

  /** An operator the evaluator knows applied to two numbers; any NaN makes
      arithmetic NaN and comparisons false. */
  function Numeric(k: TokenKind, x: Number, y: Number, divide: Divide): (v: Value)
    requires IsNumericKind(k)
    ensures k in {LessThan, GreaterThan} ==> v.Bool? && ((x.NaN? || y.NaN?) ==> !v.b)
    ensures k in {Plus, Minus, Asterisk} ==> v.Num? && (v.n.NaN? <==> x.NaN? || y.NaN?)
    ensures k == Slash ==> v == Num(divide(x, y))
    ensures x.Real? && y.Real? ==>
              && (k == Plus ==> v == Num(Real(x.r + y.r)))
              && (k == Minus ==> v == Num(Real(x.r - y.r)))
              && (k == Asterisk ==> v == Num(Real(x.r * y.r)))
              && (k == LessThan ==> v == Bool(x.r < y.r))
              && (k == GreaterThan ==> v == Bool(x.r > y.r))
  {
    if k == Slash then Num(divide(x, y))
    else if x.NaN? || y.NaN? then (if k in {LessThan, GreaterThan} then Bool(false) else Num(NaN))
    else
      match k
      case Plus => Num(Real(x.r + y.r))
      case Minus => Num(Real(x.r - y.r))
      case Asterisk => Num(Real(x.r * y.r))
      case LessThan => Bool(x.r < y.r)
      case GreaterThan => Bool(x.r > y.r)
  }

  /** `evaluateBinaryExpression` once both operands are evaluated. */
  function BinaryOp(k: TokenKind, left: Value, right: Value, divide: Divide): (v: Value)
    ensures !v.Ret?
    ensures IsNumericKind(k) && !(left.Num? && right.Num?) ==> v == NullValue
    ensures IsNumericKind(k) && left.Num? && right.Num? ==> v == Numeric(k, left.n, right.n, divide)
    ensures k == Eq ==> v == Bool(StrictEquals(left, right))
    ensures k == NotEq ==> v == Bool(!StrictEquals(left, right))
    ensures !IsNumericKind(k) && k !in {Eq, NotEq} ==> v == NullValue
  {
    if IsNumericKind(k) then
      if left.Num? && right.Num? then Numeric(k, left.n, right.n, divide) else NullValue
    else if k == Eq then Bool(StrictEquals(left, right))
    else if k == NotEq then Bool(!StrictEquals(left, right))
    else NullValue
  }

  /** Unary minus on a number: NaN stays NaN. */
  function Negate(n: Number): (r: Number)
    ensures r.NaN? <==> n.NaN?
    ensures n.Real? ==> r.r + n.r == 0.0
  {
    match n
    case NaN => NaN
    case Real(x) => Real(-x)
  }

  /** `evaluateUnaryExpression` once the operand is evaluated: `-` on a
      number and `!` on a boolean; everything else, including `+`, is null. */
  function UnaryOp(k: TokenKind, operand: Value): (v: Value)
    ensures !v.Ret?
    ensures v != NullValue <==> (k == Minus && operand.Num?) || (k == Bang && operand.Bool?)
    ensures k == Bang && operand.Bool? ==> v == Bool(!operand.b)
    ensures k == Minus && operand.Num? ==> v.Num? && (v.n.NaN? <==> operand.n.NaN?)
  {
    if k == Minus && operand.Num? then Num(Negate(operand.n))
    else if k == Bang && operand.Bool? then Bool(!operand.b)
    else NullValue
  }

  /** `isTruthy` is `=== true`, not JavaScript's truthiness: a boolean is
      truthy when it is true, and no number, null, undefined or return
      value is truthy, not even 1. */
  function IsTruthy(v: Value): (r: bool)
    ensures v.Bool? ==> (r <==> v.b)
    ensures !v.Bool? ==> !r
  {
    v == Bool(true)
  }

  /** The value of a node no other case handles, chosen by its token's kind. */
  function LiteralValue(t: Token): (v: Value)
    ensures t.kind == Int ==> v == Num(ParseInt(t.value))
    ensures t.kind == True ==> v == Bool(true)
    ensures t.kind == False ==> v == Bool(false)
    ensures t.kind !in {Int, True, False} ==> v == UndefinedValue
  {
    match t.kind
    case Int => Num(ParseInt(t.value))
    case True => Bool(true)
    case False => Bool(false)
    case _ => UndefinedValue
  }

  /** `evaluateExpression`. A return value can only come out of a nested
      block, and it wraps a smaller expression than the one evaluated. */
  function EvalExpr(e: Expr, divide: Divide): (r: Result<Value, EvalError>)
    ensures r.Success? && r.value.Ret? ==> e.IfElseExpression? && OptSize(r.value.expr) < ExprSize(e)
    ensures !(e.BinaryExpression? || e.UnaryExpression? || e.IfElseExpression?) ==> r == Success(LiteralValue(Node(e)))
    decreases ExprSize(e), 1
  {
    match e
    case BinaryExpression(t, l, rt) =>
      var lv :- EvalOpt(l, divide);
      var rv :- EvalOpt(rt, divide);
      Success(BinaryOp(t.kind, lv, rv, divide))
    case UnaryExpression(t, o) =>
      var v :- EvalOpt(o, divide);
      Success(UnaryOp(t.kind, v))
    case IfElseExpression(_, c, consequence, alternative) =>
      var cv :- EvalOpt(c, divide);
      if IsTruthy(cv) then EvalBlock(consequence, divide) else EvalBlock(alternative, divide)
    case _ => Success(LiteralValue(Node(e)))
  }

  /** A slot the parser may have left empty; evaluating an empty one fails. */
  function EvalOpt(o: Option<Expr>, divide: Divide): (r: Result<Value, EvalError>)
    ensures o.None? ==> r == Failure(NullExpression)
    ensures r.Success? && r.value.Ret? ==> OptSize(r.value.expr) < OptSize(o)
    decreases OptSize(o), 2
  {
    match o
    case None => Failure(NullExpression)
    case Some(e) => EvalExpr(e, divide)
  }

  /** `evaluateBlockStatements`. */
  function EvalBlock(ss: seq<Stmt>, divide: Divide): (r: Result<Value, EvalError>)
    ensures r.Success? && r.value.Ret? ==> OptSize(r.value.expr) < StmtsSize(ss)
    decreases StmtsSize(ss), 1
  {
    EvalBlockFrom(ss, NullValue, divide)
  }

  /** The block loop with the last statement's value so far: `let` is
      skipped, `return` stops the block with a return value, and a return
      value coming out of a statement is evaluated and handed out at once. */
  function EvalBlockFrom(ss: seq<Stmt>, result: Value, divide: Divide): (r: Result<Value, EvalError>)
    requires !result.Ret?
    ensures r.Success? && r.value.Ret? ==> OptSize(r.value.expr) < StmtsSize(ss)
    decreases StmtsSize(ss), 0
  {
    if |ss| == 0 then Success(result)
    else
      match ss[0]
      case LetStatement(_, _) =>
        assert StmtsSize(ss) == StmtSize(ss[0]) + StmtsSize(ss[1..]);
        EvalBlockFrom(ss[1..], result, divide)
      case ReturnStatement(rv) => Success(Ret(rv))
      case ExpressionStatement(e) =>
        var v :- EvalExpr(e, divide);
        if v.Ret? then EvalOpt(v.expr, divide) else EvalBlockFrom(ss[1..], v, divide)
  }

  /** `evaluateStatements`: like a block, except that `return` evaluates its
      expression and ends the program with that value. */
  function EvalProgram(ss: seq<Stmt>, divide: Divide): (r: Result<Value, EvalError>)
    ensures (forall i :: 0 <= i < |ss| ==> ss[i].LetStatement?) ==> r == Success(NullValue)
  {
    EvalStatementsFrom(ss, NullValue, divide)
  }

  /** The program loop with the last statement's value so far; `let`
      statements leave that value as it is. */
  function EvalStatementsFrom(ss: seq<Stmt>, result: Value, divide: Divide): (r: Result<Value, EvalError>)
    ensures (forall i :: 0 <= i < |ss| ==> ss[i].LetStatement?) ==> r == Success(result)
    decreases |ss|
  {
    if |ss| == 0 then Success(result)
    else
      match ss[0]
      case LetStatement(_, _) => EvalStatementsFrom(ss[1..], result, divide)
      case ReturnStatement(rv) => EvalOpt(rv, divide)
      case ExpressionStatement(e) =>
        var v :- EvalExpr(e, divide);
        if v.Ret? then EvalOpt(v.expr, divide) else EvalStatementsFrom(ss[1..], v, divide)
  }
}
