/** The three stages run one after the other on a source text, and the
    example programs worked through all of them. */
module Pipeline {
  import opened Wrappers
  import opened Tokens
  import opened Lexer
  import opened Ast
  import opened Parser
  import opened Evaluator
  import opened ExampleTexts
  import opened LexExamples
  import opened ParseExamples
  import opened EvalExamples

  /** How a run ends. Parser messages do not stop evaluation. */
  datatype Outcome =
    | LexFailed(error: LexError)
    | ParseCrashed
    | ParseDiverged
    | EvalFailed(reason: EvalError)
    | Done(value: Value, messages: seq<ParseMessage>)

  function Run(source: string, fuel: nat, divide: Divide): (r: Outcome)
    ensures Tokenize(source).Failure? <==> r.LexFailed?
  {
    match Tokenize(source)
    case Failure(e) => LexFailed(e)
    case Success(tokens) =>
      match ParseProgram(tokens, fuel)
      case Crashed => ParseCrashed
      case OutOfFuel => ParseDiverged
      case Parsed(program, st) =>
        match EvalProgram(program, divide)
        case Failure(e) => EvalFailed(e)
        case Success(v) => Done(v, st.errors)
  }

  /** The stages composed: lexing, then parsing with no messages, then
      evaluating. */
  lemma {:induction false} RunStages(source: string, tokens: seq<Token>, program: seq<Stmt>, st: PState, v: Value, fuel: nat, divide: Divide)
    requires Tokenize(source) == Success(tokens)
    requires ParseProgram(tokens, fuel) == Parsed(program, st) && st.errors == []
    requires EvalProgram(program, divide) == Success(v)
    ensures Run(source, fuel, divide) == Done(v, [])
  {
  }

  /** `*` binds tighter than `+`: `1 + 2 * 3` is 7. */
  lemma {:induction false} PrecedenceExample(fuel: nat, divide: Divide)
    requires fuel >= 8
    ensures Run(PrecedenceSource, fuel, divide) == Done(Num(Real(7.0)), [])
  {
    LexPrecedence();
    ProgramPrecedence(fuel);
    EvalPrecedence(divide);
    RunStages(PrecedenceSource, PrecedenceTokens, [ExpressionStatement(Sum)], PState(PrecedenceTokens, 5, []), Num(Real(7.0)), fuel, divide);
  }

  /** Parentheses override precedence: `(1 + 2) * 3` is 9. */
  lemma {:induction false} ParenExample(fuel: nat, divide: Divide)
    requires fuel >= 10
    ensures Run(ParenSource, fuel, divide) == Done(Num(Real(9.0)), [])
  {
    LexParen();
    ProgramParen(fuel);
    EvalParen(divide);
    RunStages(ParenSource, ParenTokens, [ExpressionStatement(ParenProduct)], PState(ParenTokens, 7, []), Num(Real(9.0)), fuel, divide);
  }

  /** A leading minus applies to the first operand only: `-1 + 2` is 1. */
  lemma {:induction false} NegExample(fuel: nat, divide: Divide)
    requires fuel >= 9
    ensures Run(NegSource, fuel, divide) == Done(Num(Real(1.0)), [])
  {
    LexNeg();
    ProgramNeg(fuel);
    EvalNeg(divide);
    RunStages(NegSource, NegTokens, [ExpressionStatement(NegSum)], PState(NegTokens, 4, []), Num(Real(1.0)), fuel, divide);
  }

  /** A minus after a binary operator negates the right operand: `1 - -2` is 3. */
  lemma {:induction false} DoubleMinusExample(fuel: nat, divide: Divide)
    requires fuel >= 9
    ensures Run(DoubleMinusSource, fuel, divide) == Done(Num(Real(3.0)), [])
  {
    LexDoubleMinus();
    ProgramDoubleMinus(fuel);
    EvalDoubleMinus(divide);
    RunStages(DoubleMinusSource, DoubleMinusTokens, [ExpressionStatement(Difference)], PState(DoubleMinusTokens, 4, []), Num(Real(3.0)), fuel, divide);
  }

  /** A leading minus takes a comparison as its operand, so `-1 < 2` is
      `-(1 < 2)`, and negating a boolean gives null. */
  lemma {:induction false} NegLessExample(fuel: nat, divide: Divide)
    requires fuel >= 9
    ensures Run(NegLessSource, fuel, divide) == Done(NullValue, [])
  {
    LexNegLess();
    ProgramNegLess(fuel);
    EvalNegLess(divide);
    RunStages(NegLessSource, NegLessTokens, [ExpressionStatement(NegLess)], PState(NegLessTokens, 4, []), NullValue, fuel, divide);
  }

  /** `1 == 1` as a statement: the parser never finishes, whatever the fuel. */
  lemma {:induction false} ComparisonExample(fuel: nat, divide: Divide)
    ensures Run(ComparisonSource, fuel, divide) == ParseDiverged
  {
    LexComparison();
    ProgramComparison(fuel);
  }
}
