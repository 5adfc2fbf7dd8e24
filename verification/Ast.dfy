/** The syntax tree the parser builds and the evaluator walks. Every slot the
    parser can leave empty (a failed sub-parse returns null) is an `Option`. */
module Ast {
  import opened Wrappers
  import opened Tokens

  datatype Expr =
    /** The plain `{ node }` objects built for INT, IDENT, TRUE and FALSE. */
    | Literal(node: Token)
    | BinaryExpression(node: Token, left: Option<Expr>, right: Option<Expr>)
    | UnaryExpression(node: Token, operand: Option<Expr>)
    | IfElseExpression(node: Token, condition: Option<Expr>, consequence: seq<Stmt>, alternative: seq<Stmt>)
    | FunctionExpression(parameters: seq<Token>, body: seq<Stmt>, node: Token)
    | FunctionCallExpression(arguments: seq<Expr>, node: Token)
    | BlockExpression(statements: seq<Stmt>)

  /** A statement is a `let`, a `return`, or an expression standing alone. */
  datatype Stmt =
    | LetStatement(lvalue: Option<Token>, rvalue: Option<Expr>)
    | ReturnStatement(returnValue: Option<Expr>)
    | ExpressionStatement(expr: Expr)

  /** The token every node carries; the classes that build their own token
      carry one of their fixed kind and no text. */
  function Node(e: Expr): Token {
    match e
    case BlockExpression(_) => Token(LBrace, None)
    case _ => e.node
  }

  function StmtNode(s: Stmt): Token {
    match s
    case LetStatement(_, _) => Token(Let, None)
    case ReturnStatement(_) => Token(Return, None)
    case ExpressionStatement(e) => Node(e)
  }

  /** Sizes, so that evaluating an expression a return carried out of a
      nested construct can be seen to terminate. */
  function ExprSize(e: Expr): nat {
    match e
    case Literal(_) => 1
    case BinaryExpression(_, l, r) => 1 + OptSize(l) + OptSize(r)
    case UnaryExpression(_, o) => 1 + OptSize(o)
    case IfElseExpression(_, c, t, f) => 1 + OptSize(c) + StmtsSize(t) + StmtsSize(f)
    case FunctionExpression(_, body, _) => 1 + StmtsSize(body)
    case FunctionCallExpression(args, _) => 1 + ExprsSize(args)
    case BlockExpression(ss) => 1 + StmtsSize(ss)
  }

  function OptSize(o: Option<Expr>): nat {
    match o
    case None => 0
    case Some(e) => 1 + ExprSize(e)
  }

  function ExprsSize(es: seq<Expr>): nat {
    if |es| == 0 then 0 else ExprSize(es[0]) + ExprsSize(es[1..])
  }

  function StmtSize(s: Stmt): nat {
    match s
    case LetStatement(_, r) => 1 + OptSize(r)
    case ReturnStatement(r) => 1 + OptSize(r)
    case ExpressionStatement(e) => 1 + ExprSize(e)
  }

  function StmtsSize(ss: seq<Stmt>): nat {
    if |ss| == 0 then 0 else StmtSize(ss[0]) + StmtsSize(ss[1..])
  }
}
