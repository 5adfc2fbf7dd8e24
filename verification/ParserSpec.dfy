/** What the parser does with particular shapes of token list: where it
    stops making progress, where it crashes, and how it groups operators. */
module ParserSpec {
  import opened Wrappers
  import opened Tokens
  import opened Utils
  import opened Ast
  import opened Parser

  /** A kind that no prefix routine accepts and that the top-level loop does
      not otherwise step over. */
  predicate StallsProgram(k: TokenKind) {
    !HasPrefix(k) && k !in {Semicolon, Let, Eof}
  }

  /** The token after the current one, which is the current token once the
      position has moved on; there is none at the last token. */
  lemma {:induction false} PeekIsNext(st: PState)
    ensures st.Peek() == st.Advance().Current()
    ensures st.Peek().Some? <==> st.pos + 1 < |st.tokens|
  {
  }

  /** Such a kind at top level: the expression records the unknown prefix
      and the statement makes no progress. */
  lemma {:induction false} StatementStalls(st: PState, fuel: nat)
    requires st.Current().Some? && StallsProgram(st.Current().value.kind)
    ensures fuel >= 2 ==> ParseStatement(st, fuel) == Parsed(None, st.AddError(UnknownPrefix(st.Current().value.kind)))
    ensures fuel < 2 ==> ParseStatement(st, fuel) == OutOfFuel
  {
  }

  /** The `parse` loop on a token no statement can start with never
      finishes, however much fuel it is given. */
  lemma {:induction false} ProgramDiverges(st: PState, acc: seq<Stmt>, fuel: nat)
    requires st.Current().Some? && StallsProgram(st.Current().value.kind)
    ensures ParseLoop(st, acc, fuel) == OutOfFuel
    decreases fuel
  {
    if fuel > 0 {
      StatementStalls(st, fuel - 1);
      if ParseStatement(st, fuel - 1) != OutOfFuel {
        var st' := st.AddError(UnknownPrefix(st.Current().value.kind));
        assert acc + OptionToSeq<Stmt>(None) == acc;
        ProgramDiverges(st', acc, fuel - 1);
      }
    }
  }

  /** A kind the block loop neither stops at nor steps over. */
  predicate StallsBlock(k: TokenKind) {
    StallsProgram(k) && k != RBrace
  }

  /** `parseBlockStatement` on such a token never finishes either. */
  lemma {:induction false} BlockDiverges(st: PState, acc: seq<Stmt>, fuel: nat)
    requires st.Current().Some? && StallsBlock(st.Current().value.kind)
    ensures ParseBlockStatement(st, acc, fuel) == OutOfFuel
    decreases fuel
  {
    if fuel > 0 {
      StatementStalls(st, fuel - 1);
      if ParseStatement(st, fuel - 1) != OutOfFuel {
        var st' := st.AddError(UnknownPrefix(st.Current().value.kind));
        assert acc + OptionToSeq<Stmt>(None) == acc;
        BlockDiverges(st', acc, fuel - 1);
      }
    }
  }

  /** A kind the argument loop neither stops at nor steps over; unlike the
      statement loops this includes `;`. */
  predicate StallsArguments(k: TokenKind) {
    !HasPrefix(k) && k !in {Comma, RightParen, Eof}
  }

  lemma {:induction false} ArgumentsDiverge(st: PState, acc: seq<Expr>, fuel: nat)
    requires st.Current().Some? && StallsArguments(st.Current().value.kind)
    ensures ParseCallArguments(st, acc, fuel) == OutOfFuel
    decreases fuel
  {
    if fuel > 0 {
      var st' := st.AddError(UnknownPrefix(st.Current().value.kind));
      if fuel - 1 > 0 {
        assert ParseExpression(st, 0, fuel - 1) == Parsed(None, st');
        assert acc + OptionToSeq<Expr>(None) == acc;
        ArgumentsDiverge(st', acc, fuel - 1);
      }
    }
  }

  /** The parser builds no return statements: a program starting with
      `return` never finishes parsing. */
  lemma {:induction false} ReturnDiverges(rest: seq<Token>, fuel: nat)
    ensures ParseProgram([Token(Return, None)] + rest, fuel) == OutOfFuel
  {
    ProgramDiverges(PState([Token(Return, None)] + rest, 0, []), [], fuel);
  }

  /** `match` runs past the end on `let` alone, and the next expression reads
      the kind of a token that is not there. */
  lemma {:induction false} BareLetCrashes(fuel: nat)
    ensures ParseProgram([Token(Let, None), EofToken], fuel) == (if fuel >= 4 then Crashed else OutOfFuel)
  {
    var st := PState([Token(Let, None), EofToken], 0, []);
    var outcome: Parsed<Option<Stmt>> := if fuel >= 4 then Crashed else OutOfFuel;
    var st3 := PState(st.tokens, 3, [Expected(Ident, Some(Eof)), Expected(Assign, None)]);
    if fuel >= 3 {
      assert ParseExpression(st3, 0, fuel - 3) == outcome.PropagateFailure();
    }
    if fuel >= 2 {
      assert ParseLetStatement(st, fuel - 2) == outcome;
    }
    if fuel >= 1 {
      assert ParseStatement(st, fuel - 1) == outcome;
    }
  }

  function LetTokens(x: Token, one: Token): seq<Token> {
    [Token(Let, None), x, Token(Assign, None), one, EofToken]
  }

  lemma {:induction false} LetStatementParses(x: Token, one: Token, fuel: nat)
    requires x.kind == Ident && one.kind == Int && fuel >= 3
    ensures ParseLetStatement(PState(LetTokens(x, one), 0, []), fuel) ==
            Parsed(Some(LetStatement(Some(x), Some(Literal(one)))), PState(LetTokens(x, one), 5, [Expected(Semicolon, Some(Eof))]))
  {
    var st := PState(LetTokens(x, one), 3, []);
    assert ParsePrefix(st, one, fuel - 2) == Parsed(Some(Literal(one)), st.(pos := 4));
    assert ParseExpression(st, 0, fuel - 1) == Parsed(Some(Literal(one)), st.(pos := 4));
  }

  /** `let x = 1` without its `;` still gives the let statement; the only
      message is the missing `;`, and `parse` returns normally. */
  lemma {:induction false} LetWithoutSemicolon(x: Token, one: Token, fuel: nat)
    requires x.kind == Ident && one.kind == Int && fuel >= 5
    ensures ParseProgram(LetTokens(x, one), fuel) ==
            Parsed([LetStatement(Some(x), Some(Literal(one)))], PState(LetTokens(x, one), 5, [Expected(Semicolon, Some(Eof))]))
    ensures Render(Expected(Semicolon, Some(Eof))) == "expected ; but got EOF"
  {
    var toks := LetTokens(x, one);
    var let := LetStatement(Some(x), Some(Literal(one)));
    var st5 := PState(toks, 5, [Expected(Semicolon, Some(Eof))]);
    assert ParseStatement(PState(toks, 0, []), fuel - 1) == Parsed(Some(let), st5) by {
      LetStatementParses(x, one, fuel - 2);
    }
    assert [] + OptionToSeq(Some(let)) == [let];
    assert ParseLoop(st5, [let], fuel - 1) == Parsed([let], st5);
  }

  /** The climbing loop stops at once at a token that does not bind tighter
      than the caller. */
  lemma {:induction false} InfixStops(left: Option<Expr>, st: PState, prec: nat, fuel: nat)
    requires fuel >= 1 && st.Current().Some? && GetPrecedence(st.Current().value) <= prec
    ensures ParseInfix(left, st, prec, fuel) == Parsed(left, st)
  {
  }

  /** One turn of the climbing loop: a token binding tighter than the caller
      becomes the operator over everything so far and its right side. */
  lemma {:induction false} InfixStep(left: Option<Expr>, st: PState, prec: nat, fuel: nat, right: Option<Expr>, st': PState)
    requires fuel >= 1 && st.Current().Some? && GetPrecedence(st.Current().value) > prec
    requires ParseExpression(st.Advance(), GetPrecedence(st.Current().value), fuel - 1) == Parsed(right, st')
    ensures ParseInfix(left, st, prec, fuel) == ParseInfix(Some(BinaryExpression(st.Current().value, left, right)), st', prec, fuel - 1)
  {
  }

  /** An INT followed by a token that does not bind tighter than `prec` is a
      whole operand. */
  lemma {:induction false} IntOperand(st: PState, prec: nat, fuel: nat)
    requires fuel >= 2 && st.CurrentKind() == Some(Int)
    requires st.Peek().Some? && GetPrecedence(st.Peek().value) <= prec
    ensures ParseExpression(st, prec, fuel) == Parsed(Some(Literal(st.Current().value)), st.Advance())
  {
    var t := st.Current().value;
    assert ParsePrefix(st, t, fuel - 1) == Parsed(Some(Literal(t)), st.Advance());
    if IsBinaryOperator(st.Advance().Current()) {
      InfixStops(Some(Literal(t)), st.Advance(), prec, fuel - 1);
    }
  }

  /** A binary operator the climbing loop can consume. */
  predicate Binds(t: Token) {
    IsBinaryKind(t.kind) && GetPrecedence(t) > 0
  }

  /** The tree the `PRECEDENCES` table and left associativity give
      `a op1 b op2 c`; in that table `<` and `>` bind at 4, tighter than
      `*` and `/` at 2. */
  function Grouped(a: Token, op1: Token, b: Token, op2: Token, c: Token): Expr {
    if GetPrecedence(op1) >= GetPrecedence(op2) then
      BinaryExpression(op2, Some(BinaryExpression(op1, Some(Literal(a)), Some(Literal(b)))), Some(Literal(c)))
    else
      BinaryExpression(op1, Some(Literal(a)), Some(BinaryExpression(op2, Some(Literal(b)), Some(Literal(c)))))
  }

  /** Three integers joined by two operators, then a token that binds at 0
      (`;`, `)`, EOF, `==`, ...). */
  predicate ThreeOperands(st: PState) {
    && st.pos + 5 < |st.tokens|
    && st.tokens[st.pos].kind == Int && st.tokens[st.pos + 2].kind == Int && st.tokens[st.pos + 4].kind == Int
    && Binds(st.tokens[st.pos + 1]) && Binds(st.tokens[st.pos + 3])
    && GetPrecedence(st.tokens[st.pos + 5]) == 0
  }

  function At(st: PState, k: nat): PState {
    st.(pos := st.pos + k)
  }

  /** A prefix routine's result followed by an operator: the climbing loop
      takes over from there. */
  lemma {:induction false} PrefixThenInfix(st: PState, prec: nat, fuel: nat, left: Option<Expr>, st': PState)
    requires fuel >= 2 && st.Current().Some? && HasPrefix(st.Current().value.kind)
    requires ParsePrefix(st, st.Current().value, fuel - 1) == Parsed(left, st')
    requires st'.Current().Some? && IsBinaryKind(st'.Current().value.kind)
    ensures ParseExpression(st, prec, fuel) == ParseInfix(left, st', prec, fuel - 1)
  {
  }

  /** An INT followed by an operator. */
  lemma {:induction false} IntThenInfix(st: PState, prec: nat, fuel: nat)
    requires fuel >= 2 && st.pos + 1 < |st.tokens|
    requires st.tokens[st.pos].kind == Int && IsBinaryKind(st.tokens[st.pos + 1].kind)
    ensures ParseExpression(st, prec, fuel) == ParseInfix(Some(Literal(st.tokens[st.pos])), At(st, 1), prec, fuel - 1)
  {
    assert ParsePrefix(st, st.tokens[st.pos], fuel - 1) == Parsed(Some(Literal(st.tokens[st.pos])), At(st, 1));
  }

  /** One turn of the climbing loop whose right side is a single INT: the
      token after the INT binds no tighter than the operator. */
  lemma {:induction false} InfixInt(left: Option<Expr>, st: PState, k: nat, prec: nat, fuel: nat)
    requires fuel >= 3 && st.pos + k + 2 < |st.tokens|
    requires GetPrecedence(st.tokens[st.pos + k]) > prec && st.tokens[st.pos + k + 1].kind == Int
    requires GetPrecedence(st.tokens[st.pos + k + 2]) <= GetPrecedence(st.tokens[st.pos + k])
    ensures ParseInfix(left, At(st, k), prec, fuel) ==
            ParseInfix(Some(BinaryExpression(st.tokens[st.pos + k], left, Some(Literal(st.tokens[st.pos + k + 1])))), At(st, k + 2), prec, fuel - 1)
  {
    var here := At(st, k);
    IntOperand(here.Advance(), GetPrecedence(st.tokens[st.pos + k]), fuel - 1);
    assert here.Advance().Advance() == At(st, k + 2);
    InfixStep(left, here, prec, fuel, Some(Literal(st.tokens[st.pos + k + 1])), At(st, k + 2));
  }

  /** `a op b`, `k` tokens after `st`, followed by a token binding no
      tighter than `op`: the loop goes on with `a op b` as its left side. */
  lemma {:induction false} PairStart(st: PState, k: nat, fuel: nat)
    requires fuel >= 4 && st.pos + k + 3 < |st.tokens|
    requires st.tokens[st.pos + k].kind == Int && Binds(st.tokens[st.pos + k + 1]) && st.tokens[st.pos + k + 2].kind == Int
    requires GetPrecedence(st.tokens[st.pos + k + 3]) <= GetPrecedence(st.tokens[st.pos + k + 1])
    ensures ParseExpression(At(st, k), 0, fuel) ==
            ParseInfix(Some(BinaryExpression(st.tokens[st.pos + k + 1], Some(Literal(st.tokens[st.pos + k])), Some(Literal(st.tokens[st.pos + k + 2])))),
                       At(st, k + 3), 0, fuel - 2)
  {
    var here, next := At(st, k), At(st, k + 1);
    var lit := Some(Literal(st.tokens[st.pos + k]));
    var pair := Some(BinaryExpression(st.tokens[st.pos + k + 1], lit, Some(Literal(st.tokens[st.pos + k + 2]))));
    assert ParseExpression(here, 0, fuel) == ParseInfix(lit, next, 0, fuel - 1) by {
      assert here.pos + 1 < |here.tokens| && here.tokens[here.pos].kind == Int && IsBinaryKind(here.tokens[here.pos + 1].kind);
      assert here.tokens[here.pos] == st.tokens[st.pos + k] && At(here, 1) == next;
      IntThenInfix(here, 0, fuel);
    }
    assert ParseInfix(lit, next, 0, fuel - 1) == ParseInfix(pair, At(st, k + 3), 0, fuel - 2) by {
      assert next.pos + 0 + 2 < |next.tokens| && GetPrecedence(next.tokens[next.pos + 0]) > 0;
      assert next.tokens[next.pos + 0 + 1].kind == Int;
      assert GetPrecedence(next.tokens[next.pos + 0 + 2]) <= GetPrecedence(next.tokens[next.pos + 0]);
      assert next.tokens[next.pos + 0] == st.tokens[st.pos + k + 1] && next.tokens[next.pos + 0 + 1] == st.tokens[st.pos + k + 2];
      assert At(next, 0) == next && At(next, 0 + 2) == At(st, k + 3);
      InfixInt(lit, next, 0, 0, fuel - 1);
    }
  }

  /** The climbing loop ends at a token binding no tighter than `prec`. */
  lemma {:induction false} InfixEnds(left: Option<Expr>, st: PState, k: nat, prec: nat, fuel: nat)
    requires fuel >= 1 && st.pos + k < |st.tokens| && GetPrecedence(st.tokens[st.pos + k]) <= prec
    ensures ParseInfix(left, At(st, k), prec, fuel) == Parsed(left, At(st, k))
  {
    InfixStops(left, At(st, k), prec, fuel);
  }

  lemma {:induction false} LeftGrouping(st: PState, fuel: nat)
    requires fuel >= 6 && ThreeOperands(st)
    requires GetPrecedence(st.tokens[st.pos + 1]) >= GetPrecedence(st.tokens[st.pos + 3])
    ensures ParseExpression(st, 0, fuel) ==
            Parsed(Some(Grouped(st.tokens[st.pos], st.tokens[st.pos + 1], st.tokens[st.pos + 2], st.tokens[st.pos + 3], st.tokens[st.pos + 4])), At(st, 5))
  {
    var left := Some(BinaryExpression(st.tokens[st.pos + 1], Some(Literal(st.tokens[st.pos])), Some(Literal(st.tokens[st.pos + 2]))));
    var whole := Some(BinaryExpression(st.tokens[st.pos + 3], left, Some(Literal(st.tokens[st.pos + 4]))));
    assert ParseExpression(st, 0, fuel) == ParseInfix(left, At(st, 3), 0, fuel - 2) by {
      assert st.pos + 0 + 3 < |st.tokens| && GetPrecedence(st.tokens[st.pos + 0 + 3]) <= GetPrecedence(st.tokens[st.pos + 0 + 1]);
      PairStart(st, 0, fuel);
      assert At(st, 0) == st && At(st, 0 + 3) == At(st, 3);
    }
    assert ParseInfix(left, At(st, 3), 0, fuel - 2) == ParseInfix(whole, At(st, 5), 0, fuel - 3) by {
      assert st.pos + 3 + 2 < |st.tokens| && GetPrecedence(st.tokens[st.pos + 3]) > 0 && st.tokens[st.pos + 3 + 1].kind == Int;
      assert GetPrecedence(st.tokens[st.pos + 3 + 2]) <= GetPrecedence(st.tokens[st.pos + 3]);
      InfixInt(left, st, 3, 0, fuel - 2);
    }
    assert ParseInfix(whole, At(st, 5), 0, fuel - 3) == Parsed(whole, At(st, 5)) by {
      assert st.pos + 5 < |st.tokens| && GetPrecedence(st.tokens[st.pos + 5]) <= 0;
      InfixEnds(whole, st, 5, 0, fuel - 3);
    }
  }

  /** The right side of `a op1 b op2 c` when `op2` binds tighter: `b op2 c`,
      parsed at `op1`'s precedence. */
  lemma {:induction false} TighterRight(st: PState, fuel: nat)
    requires fuel >= 4 && ThreeOperands(st)
    requires GetPrecedence(st.tokens[st.pos + 1]) < GetPrecedence(st.tokens[st.pos + 3])
    ensures ParseExpression(At(st, 2), GetPrecedence(st.tokens[st.pos + 1]), fuel) ==
            Parsed(Some(BinaryExpression(st.tokens[st.pos + 3], Some(Literal(st.tokens[st.pos + 2])), Some(Literal(st.tokens[st.pos + 4])))), At(st, 5))
  {
    var p1 := GetPrecedence(st.tokens[st.pos + 1]);
    var b := Some(Literal(st.tokens[st.pos + 2]));
    var right := Some(BinaryExpression(st.tokens[st.pos + 3], b, Some(Literal(st.tokens[st.pos + 4]))));
    assert ParseExpression(At(st, 2), p1, fuel) == ParseInfix(b, At(st, 3), p1, fuel - 1) by {
      assert At(st, 2).tokens[At(st, 2).pos] == st.tokens[st.pos + 2] && At(At(st, 2), 1) == At(st, 3);
      IntThenInfix(At(st, 2), p1, fuel);
    }
    assert ParseInfix(b, At(st, 3), p1, fuel - 1) == ParseInfix(right, At(st, 5), p1, fuel - 2) by {
      assert st.pos + 3 + 2 < |st.tokens| && GetPrecedence(st.tokens[st.pos + 3]) > p1 && st.tokens[st.pos + 3 + 1].kind == Int;
      assert GetPrecedence(st.tokens[st.pos + 3 + 2]) <= GetPrecedence(st.tokens[st.pos + 3]);
      InfixInt(b, st, 3, p1, fuel - 1);
    }
    assert ParseInfix(right, At(st, 5), p1, fuel - 2) == Parsed(right, At(st, 5)) by {
      assert st.pos + 5 < |st.tokens| && GetPrecedence(st.tokens[st.pos + 5]) <= p1;
      InfixEnds(right, st, 5, p1, fuel - 2);
    }
  }

  lemma {:induction false} RightGrouping(st: PState, fuel: nat)
    requires fuel >= 6 && ThreeOperands(st)
    requires GetPrecedence(st.tokens[st.pos + 1]) < GetPrecedence(st.tokens[st.pos + 3])
    ensures ParseExpression(st, 0, fuel) ==
            Parsed(Some(Grouped(st.tokens[st.pos], st.tokens[st.pos + 1], st.tokens[st.pos + 2], st.tokens[st.pos + 3], st.tokens[st.pos + 4])), At(st, 5))
  {
    var A := Some(Literal(st.tokens[st.pos]));
    var right := Some(BinaryExpression(st.tokens[st.pos + 3], Some(Literal(st.tokens[st.pos + 2])), Some(Literal(st.tokens[st.pos + 4]))));
    var whole := Some(BinaryExpression(st.tokens[st.pos + 1], A, right));
    assert ParseExpression(st, 0, fuel) == ParseInfix(A, At(st, 1), 0, fuel - 1) by {
      IntThenInfix(st, 0, fuel);
    }
    assert ParseInfix(A, At(st, 1), 0, fuel - 1) == ParseInfix(whole, At(st, 5), 0, fuel - 2) by {
      TighterRight(st, fuel - 2);
      assert At(st, 1).Advance() == At(st, 2) && At(st, 1).Current().value == st.tokens[st.pos + 1];
      InfixStep(A, At(st, 1), 0, fuel - 1, right, At(st, 5));
    }
    assert ParseInfix(whole, At(st, 5), 0, fuel - 2) == Parsed(whole, At(st, 5)) by {
      assert st.pos + 5 < |st.tokens| && GetPrecedence(st.tokens[st.pos + 5]) <= 0;
      InfixEnds(whole, st, 5, 0, fuel - 2);
    }
  }

  /** `a op1 b op2 c` groups to the left unless `op2` binds tighter in the
      `PRECEDENCES` table (`<` and `>` over `*` and `/` over `+` and `-`);
      equal precedences associate left. */
  lemma {:induction false} Grouping(st: PState, fuel: nat)
    requires fuel >= 6 && ThreeOperands(st)
    ensures ParseExpression(st, 0, fuel) ==
            Parsed(Some(Grouped(st.tokens[st.pos], st.tokens[st.pos + 1], st.tokens[st.pos + 2], st.tokens[st.pos + 3], st.tokens[st.pos + 4])), At(st, 5))
  {
    if GetPrecedence(st.tokens[st.pos + 1]) >= GetPrecedence(st.tokens[st.pos + 3]) {
      LeftGrouping(st, fuel);
    } else {
      RightGrouping(st, fuel);
    }
  }

  /** `==`, `!=`, `<=` and `>=` count as binary operators but bind at 0. */
  predicate IsComparison(k: TokenKind) {
    k in {Eq, NotEq, LessThanEq, GreaterThanEq}
  }

  /** One turn of the `parse` loop. */
  lemma {:induction false} LoopStep(st: PState, acc: seq<Stmt>, fuel: nat, s: Option<Stmt>, st': PState)
    requires fuel >= 1 && st.Current().Some? && st.CurrentKind() != Some(Eof)
    requires ParseStatement(st, fuel - 1) == Parsed(s, st')
    ensures ParseLoop(st, acc, fuel) == ParseLoop(st', acc + OptionToSeq(s), fuel - 1)
  {
  }

  /** An INT followed by a token that binds at 0 and is not `;` is a
      statement of its own, and the position stops at that token. */
  lemma {:induction false} LiteralStatement(st: PState, fuel: nat)
    requires fuel >= 3 && st.CurrentKind() == Some(Int)
    requires st.Peek().Some? && GetPrecedence(st.Peek().value) == 0 && st.Peek().value.kind != Semicolon
    ensures ParseStatement(st, fuel) == Parsed(Some(ExpressionStatement(Literal(st.Current().value))), st.Advance())
  {
    IntOperand(st, 0, fuel - 1);
  }

  /** Too little fuel for a statement starting with an INT to finish. */
  lemma {:induction false} LiteralStatementShort(st: PState, fuel: nat)
    requires fuel < 3 && st.CurrentKind() == Some(Int)
    ensures ParseStatement(st, fuel) == OutOfFuel
  {
    if fuel == 2 {
      assert ParsePrefix(st, st.Current().value, 0) == OutOfFuel;
    }
  }

  /** The climbing loop never takes a comparison: `a == b` at top level is
      the statement `a` followed by a token no statement can start with, so
      parsing never finishes. */
  lemma {:induction false} ComparisonDiverges(a: Token, op: Token, b: Token, fuel: nat)
    requires a.kind == Int && IsComparison(op.kind)
    ensures ParseProgram([a, op, b, EofToken], fuel) == OutOfFuel
  {
    var st := PState([a, op, b, EofToken], 0, []);
    if fuel >= 4 {
      var stmt := ExpressionStatement(Literal(a));
      assert ParseStatement(st, fuel - 1) == Parsed(Some(stmt), st.Advance()) by {
        LiteralStatement(st, fuel - 1);
      }
      assert ParseProgram([a, op, b, EofToken], fuel) == ParseLoop(st.Advance(), [] + [stmt], fuel - 1) by {
        LoopStep(st, [], fuel, Some(stmt), st.Advance());
      }
      ProgramDiverges(st.Advance(), [] + [stmt], fuel - 1);
    } else if fuel >= 1 {
      LiteralStatementShort(st, fuel - 1);
    }
  }

  /** The tree for `m a op b` with `m` a prefix `-` or `+`: the operand is
      parsed at precedence 1, so an operator binding tighter than 1 ends up
      under the prefix. */
  function PrefixGrouped(m: Token, a: Token, op: Token, b: Token): Expr {
    if GetPrecedence(op) <= 1 then
      BinaryExpression(op, Some(UnaryExpression(m, Some(Literal(a)))), Some(Literal(b)))
    else
      UnaryExpression(m, Some(BinaryExpression(op, Some(Literal(a)), Some(Literal(b)))))
  }

  predicate SignedOperands(st: PState) {
    && st.pos + 4 < |st.tokens|
    && st.tokens[st.pos].kind in {Minus, Plus}
    && st.tokens[st.pos + 1].kind == Int && st.tokens[st.pos + 3].kind == Int
    && Binds(st.tokens[st.pos + 2])
    && GetPrecedence(st.tokens[st.pos + 4]) == 0
  }

  /** A prefix `-` or `+` wraps whatever its operand parses to at precedence 1. */
  lemma {:induction false} PrefixStep(st: PState, fuel: nat, operand: Option<Expr>, st': PState)
    requires fuel >= 3 && st.Current().Some? && st.Current().value.kind in {Minus, Plus}
    requires ParseExpression(st.Advance(), 1, fuel - 3) == Parsed(operand, st')
    ensures ParsePrefix(st, st.Current().value, fuel - 1) == Parsed(Some(UnaryExpression(st.Current().value, operand)), st')
  {
  }

  /** The prefix expression as a whole, when the token after it does not
      bind. */
  lemma {:induction false} PrefixAlone(st: PState, fuel: nat, operand: Option<Expr>, st': PState)
    requires fuel >= 3 && st.Current().Some? && st.Current().value.kind in {Minus, Plus}
    requires ParseExpression(st.Advance(), 1, fuel - 3) == Parsed(operand, st')
    requires st'.Current().Some? && GetPrecedence(st'.Current().value) == 0
    ensures ParseExpression(st, 0, fuel) == Parsed(Some(UnaryExpression(st.Current().value, operand)), st')
  {
    PrefixStep(st, fuel, operand, st');
    if IsBinaryOperator(st'.Current()) {
      InfixStops(Some(UnaryExpression(st.Current().value, operand)), st', 0, fuel - 1);
    }
  }

  lemma {:induction false} PrefixGrouping(st: PState, fuel: nat)
    requires fuel >= 7 && SignedOperands(st)
    ensures ParseExpression(st, 0, fuel) ==
            Parsed(Some(PrefixGrouped(st.tokens[st.pos], st.tokens[st.pos + 1], st.tokens[st.pos + 2], st.tokens[st.pos + 3])), At(st, 4))
  {
    var tk := st.tokens[st.pos..st.pos + 5];
    var p := GetPrecedence(tk[2]);
    var A, B := Some(Literal(tk[1])), Some(Literal(tk[3]));
    if p <= 1 {
      var neg := Some(UnaryExpression(tk[0], A));
      IntOperand(At(st, 1), 1, fuel - 3);
      PrefixStep(st, fuel, A, At(st, 2));
      IntOperand(At(st, 3), p, fuel - 2);
      InfixStep(neg, At(st, 2), 0, fuel - 1, B, At(st, 4));
      InfixStops(Some(BinaryExpression(tk[2], neg, B)), At(st, 4), 0, fuel - 2);
    } else {
      var bin := Some(BinaryExpression(tk[2], A, B));
      assert ParsePrefix(At(st, 1), tk[1], fuel - 4) == Parsed(A, At(st, 2));
      IntOperand(At(st, 3), p, fuel - 5);
      InfixStep(A, At(st, 2), 1, fuel - 4, B, At(st, 4));
      InfixStops(bin, At(st, 4), 1, fuel - 5);
      assert ParseExpression(At(st, 1), 1, fuel - 3) == Parsed(bin, At(st, 4));
      PrefixAlone(st, fuel, bin, At(st, 4));
    }
  }

  /** `a op -b`: a prefix right after an operator takes just the next integer. */
  lemma {:induction false} SignedRightOperand(st: PState, fuel: nat)
    requires fuel >= 7 && st.pos + 4 < |st.tokens|
    requires st.tokens[st.pos].kind == Int && Binds(st.tokens[st.pos + 1])
    requires st.tokens[st.pos + 2].kind in {Minus, Plus} && st.tokens[st.pos + 3].kind == Int
    requires GetPrecedence(st.tokens[st.pos + 4]) == 0
    ensures ParseExpression(st, 0, fuel) ==
            Parsed(Some(BinaryExpression(st.tokens[st.pos + 1], Some(Literal(st.tokens[st.pos])),
                                         Some(UnaryExpression(st.tokens[st.pos + 2], Some(Literal(st.tokens[st.pos + 3])))))), At(st, 4))
  {
    var tk := st.tokens[st.pos..st.pos + 5];
    var p := GetPrecedence(tk[1]);
    var A, B := Some(Literal(tk[0])), Some(Literal(tk[3]));
    var neg := Some(UnaryExpression(tk[2], B));
    assert ParsePrefix(st, tk[0], fuel - 1) == Parsed(A, At(st, 1));
    IntOperand(At(st, 3), 1, fuel - 5);
    PrefixStep(At(st, 2), fuel - 2, B, At(st, 4));
    if IsBinaryOperator(At(st, 4).Current()) {
      InfixStops(neg, At(st, 4), p, fuel - 3);
    }
    assert ParseExpression(At(st, 2), p, fuel - 2) == Parsed(neg, At(st, 4));
    InfixStep(A, At(st, 1), 0, fuel - 1, neg, At(st, 4));
    InfixStops(Some(BinaryExpression(tk[1], A, neg)), At(st, 4), 0, fuel - 2);
  }

  /** `a op b` followed by a token that binds at 0, starting `k` tokens
      after `st`. */
  lemma {:induction false} PairOperands(st: PState, k: nat, fuel: nat)
    requires fuel >= 4 && st.pos + k + 3 < |st.tokens|
    requires st.tokens[st.pos + k].kind == Int && Binds(st.tokens[st.pos + k + 1]) && st.tokens[st.pos + k + 2].kind == Int
    requires GetPrecedence(st.tokens[st.pos + k + 3]) == 0
    ensures ParseExpression(At(st, k), 0, fuel) ==
            Parsed(Some(BinaryExpression(st.tokens[st.pos + k + 1], Some(Literal(st.tokens[st.pos + k])), Some(Literal(st.tokens[st.pos + k + 2])))), At(st, k + 3))
  {
    PairStart(st, k, fuel);
    InfixEnds(Some(BinaryExpression(st.tokens[st.pos + k + 1], Some(Literal(st.tokens[st.pos + k])), Some(Literal(st.tokens[st.pos + k + 2])))), st, k + 3, 0, fuel - 2);
  }

  /** `(` then an expression that stops at `)`: the group is that expression. */
  lemma {:induction false} GroupedStep(st: PState, fuel: nat, inner: Option<Expr>, st': PState)
    requires fuel >= 3 && st.CurrentKind() == Some(LeftParen)
    requires ParseExpression(st.Advance(), 0, fuel - 3) == Parsed(inner, st')
    requires st'.CurrentKind() == Some(RightParen)
    ensures ParsePrefix(st, st.Current().value, fuel - 1) == Parsed(inner, st'.Advance())
  {
  }

  /** Parentheses override precedence: `(a op1 b) op2 c` keeps `a op1 b`
      together whatever the two operators are. */
  lemma {:induction false} ParenthesizedGrouping(st: PState, fuel: nat)
    requires fuel >= 8 && st.pos + 7 < |st.tokens|
    requires st.tokens[st.pos].kind == LeftParen && st.tokens[st.pos + 4].kind == RightParen
    requires st.tokens[st.pos + 1].kind == Int && Binds(st.tokens[st.pos + 2]) && st.tokens[st.pos + 3].kind == Int
    requires Binds(st.tokens[st.pos + 5]) && st.tokens[st.pos + 6].kind == Int
    requires GetPrecedence(st.tokens[st.pos + 7]) == 0
    ensures ParseExpression(st, 0, fuel) ==
            Parsed(Some(BinaryExpression(st.tokens[st.pos + 5],
                          Some(BinaryExpression(st.tokens[st.pos + 2], Some(Literal(st.tokens[st.pos + 1])), Some(Literal(st.tokens[st.pos + 3])))),
                          Some(Literal(st.tokens[st.pos + 6])))), At(st, 7))
  {
    var inner := Some(BinaryExpression(st.tokens[st.pos + 2], Some(Literal(st.tokens[st.pos + 1])), Some(Literal(st.tokens[st.pos + 3]))));
    var whole := Some(BinaryExpression(st.tokens[st.pos + 5], inner, Some(Literal(st.tokens[st.pos + 6]))));
    assert ParsePrefix(st, st.Current().value, fuel - 1) == Parsed(inner, At(st, 5)) by {
      PairOperands(st, 1, fuel - 3);
      GroupedStep(st, fuel, inner, At(st, 4));
    }
    assert ParseExpression(st, 0, fuel) == ParseInfix(inner, At(st, 5), 0, fuel - 1) by {
      PrefixThenInfix(st, 0, fuel, inner, At(st, 5));
    }
    assert ParseInfix(inner, At(st, 5), 0, fuel - 1) == ParseInfix(whole, At(st, 7), 0, fuel - 2) by {
      InfixInt(inner, st, 5, 0, fuel - 1);
    }
    InfixEnds(whole, st, 7, 0, fuel - 2);
  }

  /** A token list holding one expression and then EOF parses to that one
      expression statement, with no messages. */
  lemma {:induction false} SingleExpressionProgram(tokens: seq<Token>, e: Expr, fuel: nat)
    requires fuel >= 3 && |tokens| > 0 && tokens[|tokens| - 1] == EofToken
    requires ParseExpression(PState(tokens, 0, []), 0, fuel - 2) == Parsed(Some(e), PState(tokens, |tokens| - 1, []))
    ensures ParseProgram(tokens, fuel) == Parsed([ExpressionStatement(e)], PState(tokens, |tokens| - 1, []))
  {
    var st := PState(tokens, 0, []);
    var last := PState(tokens, |tokens| - 1, []);
    assert ParseStatement(st, fuel - 1) == Parsed(Some(ExpressionStatement(e)), last);
    LoopStep(st, [], fuel, Some(ExpressionStatement(e)), last);
    assert [] + OptionToSeq(Some(ExpressionStatement(e))) == [ExpressionStatement(e)];
  }
}
