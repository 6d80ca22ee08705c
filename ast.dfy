/**
 * The abstract syntax tree the parser builds and the interpreter walks
 * (AST.h and the node classes the .cpp files construct).
 *
 * Number nodes carry the value std::stod read from their lexeme when the node
 * was built. `Missing` is the null pointer that Parser::expr returns after it
 * has swallowed a ParserException.
 */
module Ast {

  import opened Errors
  import opened Tokens

  datatype Expr =
    | BinaryExpr(op: Token, left: Expr, right: Expr)
    | Grouping(contents: Expr)
    | UnaryExpr(op: Token, operand: Expr)
    | IdentifierExpr(token: Token)
    | RealNumber(token: Token, number: real)
    | ImaginaryNumber(token: Token, number: real)
    | StringExpr(token: Token)
    | BooleanExpr(token: Token)
    | KeywordConstant(token: Token)
    | AssignExpr(name: Token, value: Expr)
    | VarDeclExpr(name: Token, value: Expr)
    | CallExpr(callee: Expr, paren: Token, arguments: seq<Expr>)
    | LambdaExpr(parameters: seq<Token>, body: seq<Stmt>)
    | Missing

  datatype Stmt =
    | ExprStmt(expr: Expr)
    | OutputStmt(expr: Expr)
    | BlockStmt(stmts: seq<Stmt>)
    | IfStmt(condition: Expr, thenBranch: Stmt, elseBranch: Option<Stmt>)
    | WhileStmt(condition: Expr, body: Stmt)

  /** No node of the expression is the null left by a swallowed syntax error. */
  predicate CompleteExpr(e: Expr)
    decreases e
  {
    match e
    case BinaryExpr(_, l, r) => CompleteExpr(l) && CompleteExpr(r)
    case Grouping(c) => CompleteExpr(c)
    case UnaryExpr(_, x) => CompleteExpr(x)
    case AssignExpr(_, v) => CompleteExpr(v)
    case VarDeclExpr(_, v) => CompleteExpr(v)
    case CallExpr(callee, _, args) => CompleteExpr(callee) && forall a <- args :: CompleteExpr(a)
    case LambdaExpr(_, body) => forall s <- body :: CompleteStmt(s)
    case Missing => false
    case _ => true
  }

  predicate CompleteStmt(s: Stmt)
    decreases s
  {
    match s
    case ExprStmt(e) => CompleteExpr(e)
    case OutputStmt(e) => CompleteExpr(e)
    case BlockStmt(stmts) => forall t <- stmts :: CompleteStmt(t)
    case IfStmt(c, t, e) => CompleteExpr(c) && CompleteStmt(t) && (e.Some? ==> CompleteStmt(e.value))
    case WhileStmt(c, b) => CompleteExpr(c) && CompleteStmt(b)
  }
}
