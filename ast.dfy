/** The syntax tree of the current interpreter, in the shape src/parser.rs
    builds it and src/interpreter.rs takes it apart: variables carry the
    depth the parser resolved, calls keep their closing parenthesis, and a
    `for` keeps its three optional parts. */
module Ast {
  import opened Wrappers
  import Tokens
  import Objects

  datatype Expr =
    | Assign(variable: Expr, value: Expr)
    | Binary(left: Expr, operator: Tokens.Token, right: Expr)
    | Call(callee: Expr, paren: Tokens.Token, args: seq<Expr>)
    | Grouping(expr: Expr)
    | Literal(obj: Objects.Object)
    | Logic(left: Expr, operator: Tokens.Token, right: Expr)
    | Unary(operator: Tokens.Token, right: Expr)
    | Variable(name: Tokens.Token, depth: Option<nat>)

  datatype Stmt =
    | Block(stmts: seq<Stmt>)
    | ExprStmt(expr: Expr)
    | For(init: Option<Stmt>, condition: Option<Expr>, inc: Option<Expr>, block: Stmt)
    | Fun(name: Tokens.Token, params: seq<Tokens.Token>, body: Stmt, depth: Option<nat>)
    | If(conditionals: seq<(Expr, Stmt)>, elseBlock: Option<Stmt>)
    | Print(expr: Expr)
    | Return(expr: Expr)
    | VarDecl(variable: Expr, value: Expr)
    | While(cond: Expr, block: Stmt)

  /** The shape the parser guarantees for every expression it builds: only
      a variable is assigned to, and no call has 255 arguments or more. */
  predicate WellFormed(e: Expr) {
    match e
    case Assign(variable, value) => variable.Variable? && WellFormed(value)
    case Binary(left, _, right) => WellFormed(left) && WellFormed(right)
    case Call(callee, _, args) => |args| < 255 && WellFormed(callee) && forall a <- args :: WellFormed(a)
    case Grouping(inner) => WellFormed(inner)
    case Literal(_) => true
    case Logic(left, _, right) => WellFormed(left) && WellFormed(right)
    case Unary(_, right) => WellFormed(right)
    case Variable(_, _) => true
  }

  /** The shape the parser guarantees for every statement it builds: well
      formed expressions, declarations only of variables, and no function
      with 255 parameters or more. */
  predicate WellFormedStmt(st: Stmt) {
    match st
    case Block(stmts) => forall x <- stmts :: WellFormedStmt(x)
    case ExprStmt(e) => WellFormed(e)
    case For(init, condition, inc, block) =>
      (init.Some? ==> WellFormedStmt(init.value)) && (condition.Some? ==> WellFormed(condition.value))
      && (inc.Some? ==> WellFormed(inc.value)) && WellFormedStmt(block)
    case Fun(_, params, body, _) => |params| < 255 && WellFormedStmt(body)
    case If(conditionals, elseBlock) =>
      (forall c <- conditionals :: WellFormed(c.0) && WellFormedStmt(c.1))
      && (elseBlock.Some? ==> WellFormedStmt(elseBlock.value))
    case Print(e) => WellFormed(e)
    case Return(e) => WellFormed(e)
    case VarDecl(variable, value) => variable.Variable? && WellFormed(value)
    case While(cond, block) => WellFormed(cond) && WellFormedStmt(block)
  }
}
