/** The precedence-climbing parser. Its state is the token list, a position
    and the messages collected so far. Every recursive routine takes `fuel`:
    the source can loop forever (a token no prefix routine accepts is never
    consumed), so running out of fuel is an outcome of its own, as is the
    crash of reading the kind of a token past the end of the list. */
module Parser {
  import opened Wrappers
  import opened Tokens
  import opened Utils
  import opened Ast

  /** The messages `errors` collects. */
  datatype ParseMessage =
    | Expected(want: TokenKind, got: Option<TokenKind>)
    | UnknownPrefix(kind: TokenKind)

  /** The text of a message; a missing token's kind reads as `undefined`. */
  function Render(m: ParseMessage): string {
    match m
    case Expected(want, got) =>
      "expected " + KindName(want) + " but got " + (if got.Some? then KindName(got.value) else "undefined")
    case UnknownPrefix(k) => "Unknown prefix operator " + KindName(k)
  }

  datatype PState = PState(tokens: seq<Token>, pos: nat, errors: seq<ParseMessage>) {
    /** `currentToken`: nothing once the position has run past the list. */
    function Current(): Option<Token> {
      if pos >= |tokens| then None else Some(tokens[pos])
    }

    function CurrentKind(): Option<TokenKind> {
      if pos >= |tokens| then None else Some(tokens[pos].kind)
    }

    /** `peekToken`. */
    function Peek(): Option<Token> {
      if pos + 1 >= |tokens| then None else Some(tokens[pos + 1])
    }

    function Advance(): PState {
      this.(pos := pos + 1)
    }

    function AddError(m: ParseMessage): PState {
      this.(errors := errors + [m])
    }
  }

  /** What a parsing routine comes back with. */
  datatype Parsed<+T> =
    | Parsed(value: T, st: PState)
    /** A TypeError: the kind of a missing token was read. */
    | Crashed
    /** The fuel ran out: the source would still be looping. */
    | OutOfFuel
  {
    predicate IsFailure() {
      !Parsed?
    }

    function PropagateFailure<U>(): Parsed<U>
      requires IsFailure()
    {
      if Crashed? then Crashed else OutOfFuel
    }

    function Extract(): (T, PState)
      requires Parsed?
    {
      (value, st)
    }
  }

  /** A later parser state over the same tokens: the position has not moved
      back and the messages only grew. */
  predicate Extends(st: PState, st': PState) {
    st'.tokens == st.tokens && st.pos <= st'.pos && st.errors <= st'.errors
  }

  /** Every `Parsed` outcome extends the state it started from. */
  predicate Follows<T>(st: PState, r: Parsed<T>) {
    r.Parsed? ==> Extends(st, r.st)
  }

  /** The kinds `PREFIX_FUNCTIONS` has an entry for. */
  predicate HasPrefix(k: TokenKind) {
    k in {Int, Minus, Plus, Ident, Bang, True, False, LeftParen, If, Function}
  }

  function OptionToSeq<T>(o: Option<T>): (r: seq<T>)
    ensures o.None? <==> r == []
    ensures o.Some? ==> r == [o.value]
  {
    if o.Some? then [o.value] else []
  }

  /** `match`: one step forward in every case; the current token if it has
      the wanted kind, otherwise nothing and one more message. */
  function Match(st: PState, want: TokenKind): (r: (Option<Token>, PState))
    ensures r.1.tokens == st.tokens && r.1.pos == st.pos + 1
    ensures r.0.Some? <==> st.CurrentKind() == Some(want)
    ensures r.0.Some? ==> r.0 == st.Current() && r.1.errors == st.errors
    ensures r.0.None? ==> r.1.errors == st.errors + [Expected(want, st.CurrentKind())]
  {
    if st.CurrentKind() == Some(want) then (st.Current(), st.Advance())
    else (None, st.AddError(Expected(want, st.CurrentKind())).Advance())
  }

  /** `parse`: statements until EOF or the end of the list; empty results
      are dropped. */
  function ParseProgram(tokens: seq<Token>, fuel: nat): (r: Parsed<seq<Stmt>>)
    ensures Follows(PState(tokens, 0, []), r)
  {
    ParseLoop(PState(tokens, 0, []), [], fuel)
  }

  function ParseLoop(st: PState, acc: seq<Stmt>, fuel: nat): (r: Parsed<seq<Stmt>>)
    ensures Follows(st, r)
    ensures r.Parsed? ==> acc <= r.value
    ensures r.Parsed? ==> r.st.Current().None? || r.st.CurrentKind() == Some(Eof)
    decreases fuel
  {
    if fuel == 0 then OutOfFuel
    else if st.Current().None? || st.CurrentKind() == Some(Eof) then Parsed(acc, st)
    else
      var (s, st1) :- ParseStatement(st, fuel - 1);
      ParseLoop(st1, acc + OptionToSeq(s), fuel - 1)
  }

  /** `parseStatement`: a `let`, or an expression with an optional `;`. */
  function ParseStatement(st: PState, fuel: nat): (r: Parsed<Option<Stmt>>)
    ensures Follows(st, r)
    decreases fuel
  {
    if fuel == 0 then OutOfFuel
    else if st.CurrentKind() == Some(Let) then ParseLetStatement(st, fuel - 1)
    else
      var (e, st1) :- ParseExpression(st, 0, fuel - 1);
      var st2 := if st1.CurrentKind() == Some(Semicolon) then st1.Advance() else st1;
      Parsed(if e.Some? then Some(ExpressionStatement(e.value)) else None, st2)
  }

  /** `parseLetStatement`: every part is matched in turn whether or not the
      previous one was there. */
  function ParseLetStatement(st: PState, fuel: nat): (r: Parsed<Option<Stmt>>)
    ensures Follows(st, r)
    ensures r.Parsed? ==> r.value.Some? && r.value.value.LetStatement?
    decreases fuel
  {
    if fuel == 0 then OutOfFuel
    else
      var st1 := Match(st, Let).1;
      var (lvalue, st2) := Match(st1, Ident);
      var st3 := Match(st2, Assign).1;
      var (rvalue, st4) :- ParseExpression(st3, 0, fuel - 1);
      Parsed(Some(LetStatement(lvalue, rvalue)), Match(st4, Semicolon).1)
  }

  /** `parseExpression(parentPrecedence)`. */
  function ParseExpression(st: PState, prec: nat, fuel: nat): (r: Parsed<Option<Expr>>)
    ensures Follows(st, r)
    decreases fuel
  {
    if fuel == 0 then OutOfFuel
    else
      match st.Current()
      case None => Crashed
      case Some(t) =>
        if !HasPrefix(t.kind) then Parsed(None, st.AddError(UnknownPrefix(t.kind)))
        else
          var (left, st1) :- ParsePrefix(st, t, fuel - 1);
          if IsBinaryOperator(st1.Current()) then ParseInfix(left, st1, prec, fuel - 1)
          else Parsed(left, st1)
  }

  /** The climbing loop: while the current token is not `;` and binds tighter
      than the caller, take it as an operator and parse its right side at
      its own precedence. */
  function ParseInfix(left: Option<Expr>, st: PState, prec: nat, fuel: nat): (r: Parsed<Option<Expr>>)
    ensures Follows(st, r)
    decreases fuel
  {
    if fuel == 0 then OutOfFuel
    else
      match st.Current()
      case None => Crashed
      case Some(op) =>
        if op.kind == Semicolon || GetPrecedence(op) <= prec then Parsed(left, st)
        else
          var (right, st1) :- ParseExpression(st.Advance(), GetPrecedence(op), fuel - 1);
          ParseInfix(Some(BinaryExpression(op, left, right)), st1, prec, fuel - 1)
  }

  /** The `PREFIX_FUNCTIONS` entry for the current token `t`. */
  function ParsePrefix(st: PState, t: Token, fuel: nat): (r: Parsed<Option<Expr>>)
    requires st.Current() == Some(t) && HasPrefix(t.kind)
    ensures Follows(st, r)
    decreases fuel
  {
    if fuel == 0 then OutOfFuel
    else
      match t.kind
      case Int => Parsed(Some(Literal(t)), Match(st, Int).1)
      case True => Parsed(Some(Literal(t)), Match(st, True).1)
      case False => Parsed(Some(Literal(t)), Match(st, False).1)
      case Minus => ParsePrefixExpression(st, t, fuel - 1)
      case Plus => ParsePrefixExpression(st, t, fuel - 1)
      case Bang => ParsePrefixExpression(st, t, fuel - 1)
      case Ident => ParseIdentifier(st, t, fuel - 1)
      case LeftParen => ParseGroupedExpression(st, fuel - 1)
      case If => ParseIfExpression(st, t, fuel - 1)
      case Function => ParseFunctions(st, t, fuel - 1)
  }

  /** The precedence a prefix operator parses its operand at: its
      `PRECEDENCES` entry, or the parameter's default 0 when it has none. */
  function OperandPrecedence(k: TokenKind): (p: nat)
    ensures Precedences(k).Some? ==> p == Precedences(k).value
    ensures Precedences(k).None? ==> p == 0
  {
    match Precedences(k)
    case Some(p) => p
    case None => 0
  }

  function ParsePrefixExpression(st: PState, t: Token, fuel: nat): (r: Parsed<Option<Expr>>)
    ensures Follows(st, r)
    decreases fuel
  {
    if fuel == 0 then OutOfFuel
    else
      var (operand, st1) :- ParseExpression(st.Advance(), OperandPrecedence(t.kind), fuel - 1);
      Parsed(Some(UnaryExpression(t, operand)), st1)
  }

  function ParseIdentifier(st: PState, t: Token, fuel: nat): (r: Parsed<Option<Expr>>)
    ensures Follows(st, r)
    decreases fuel
  {
    if fuel == 0 then OutOfFuel
    else if st.Peek().Some? && st.Peek().value.kind == LeftParen then ParseCallExpression(st, t, fuel - 1)
    else Parsed(Some(Literal(t)), Match(st, Ident).1)
  }

  function ParseGroupedExpression(st: PState, fuel: nat): (r: Parsed<Option<Expr>>)
    ensures Follows(st, r)
    decreases fuel
  {
    if fuel == 0 then OutOfFuel
    else
      var st1 := Match(st, LeftParen).1;
      var (e, st2) :- ParseExpression(st1, 0, fuel - 1);
      Parsed(e, Match(st2, RightParen).1)
  }

  function ParseIfExpression(st: PState, t: Token, fuel: nat): (r: Parsed<Option<Expr>>)
    ensures Follows(st, r)
    decreases fuel
  {
    if fuel == 0 then OutOfFuel
    else
      var st1 := Match(Match(st, If).1, LeftParen).1;
      var (condition, st2) :- ParseExpression(st1, 0, fuel - 1);
      var st3 := Match(Match(st2, RightParen).1, LBrace).1;
      var (consequence, st4) :- ParseBlockStatement(st3, [], fuel - 1);
      ParseElse(Match(st4, RBrace).1, t, condition, consequence, fuel - 1)
  }

  /** The rest of `parseIfExpression` once the consequence's `}` is matched:
      an `else` block if the current token is ELSE, otherwise none. */
  function ParseElse(st: PState, t: Token, condition: Option<Expr>, consequence: seq<Stmt>, fuel: nat): (r: Parsed<Option<Expr>>)
    ensures Follows(st, r)
    decreases fuel
  {
    if fuel == 0 then OutOfFuel
    else if st.CurrentKind() == Some(Else) then
      var st1 := Match(st.Advance(), LBrace).1;
      var (alternative, st2) :- ParseBlockStatement(st1, [], fuel - 1);
      Parsed(Some(IfElseExpression(t, condition, consequence, alternative)), Match(st2, RBrace).1)
    else
      Parsed(Some(IfElseExpression(t, condition, consequence, [])), st)
  }

  /** `parseBlockStatement`: statements until `}`, EOF or the end of the list. */
  function ParseBlockStatement(st: PState, acc: seq<Stmt>, fuel: nat): (r: Parsed<seq<Stmt>>)
    ensures Follows(st, r)
    ensures r.Parsed? ==> acc <= r.value
    decreases fuel
  {
    if fuel == 0 then OutOfFuel
    else if st.Current().None? || st.CurrentKind() == Some(RBrace) || st.CurrentKind() == Some(Eof) then Parsed(acc, st)
    else
      var (s, st1) :- ParseStatement(st, fuel - 1);
      ParseBlockStatement(st1, acc + OptionToSeq(s), fuel - 1)
  }

  function ParseFunctions(st: PState, t: Token, fuel: nat): (r: Parsed<Option<Expr>>)
    ensures Follows(st, r)
    decreases fuel
  {
    if fuel == 0 then OutOfFuel
    else
      var st1 := Match(Match(st, Function).1, LeftParen).1;
      var (parameters, st2) := ParseFunctionParameters(st1, []);
      var st3 := Match(Match(st2, RightParen).1, LBrace).1;
      var (body, st4) :- ParseBlockStatement(st3, [], fuel - 1);
      Parsed(Some(FunctionExpression(parameters, body, t)), Match(st4, RBrace).1)
  }

  /** `parseCallExpression`, entered on the identifier `t`, which `match`
      hands back as the call's node. */
  function ParseCallExpression(st: PState, t: Token, fuel: nat): (r: Parsed<Option<Expr>>)
    ensures Follows(st, r)
    decreases fuel
  {
    if fuel == 0 then OutOfFuel
    else
      var st1 := Match(Match(st, Ident).1, LeftParen).1;
      var (arguments, st2) :- ParseCallArguments(st1, [], fuel - 1);
      Parsed(Some(FunctionCallExpression(arguments, t)), Match(st2, RightParen).1)
  }

  /** `parseCallArguments`: expressions, each optionally followed by `,`,
      until `)`, EOF or the end of the list. */
  function ParseCallArguments(st: PState, acc: seq<Expr>, fuel: nat): (r: Parsed<seq<Expr>>)
    ensures Follows(st, r)
    ensures r.Parsed? ==> acc <= r.value
    decreases fuel
  {
    if fuel == 0 then OutOfFuel
    else if st.Current().None? || st.CurrentKind() == Some(RightParen) || st.CurrentKind() == Some(Eof) then Parsed(acc, st)
    else
      var (arg, st1) :- ParseExpression(st, 0, fuel - 1);
      var st2 := if st1.CurrentKind() == Some(Comma) then st1.Advance() else st1;
      ParseCallArguments(st2, acc + OptionToSeq(arg), fuel - 1)
  }

  /** `parseFunctionParameters`: `match(IDENT)` always moves forward, so this
      loop ends without fuel. */
  function ParseFunctionParameters(st: PState, acc: seq<Token>): (r: (seq<Token>, PState))
    ensures Extends(st, r.1)
    ensures acc <= r.0
    ensures forall i :: |acc| <= i < |r.0| ==> r.0[i].kind == Ident
    decreases |st.tokens| - st.pos
  {
    if st.Current().None? || st.CurrentKind() == Some(RightParen) || st.CurrentKind() == Some(Eof) then (acc, st)
    else
      var (p, st1) := Match(st, Ident);
      var st2 := if st1.CurrentKind() == Some(Comma) then st1.Advance() else st1;
      ParseFunctionParameters(st2, acc + OptionToSeq(p))
  }
}
