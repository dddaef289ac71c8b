/** The statements of lox-rust/src/stmt.rs. They are those of
    src/man_stmt.rs without `WhileStmt`, over the expressions of
    lox-rust/src/expr.rs, and the `Display` renderer is the same loop as
    in src/man_stmt.rs; an expression prints as `LegacyAst.ToString`. */
module LegacyStmt {
  import opened Wrappers
  import LegacyAst
  import ManStmt

  /** No `while` anywhere in the statement. */
  predicate NoWhile(s: ManStmt.Stmt<LegacyAst.Expr>) {
    match s
    case IfStmt(cs, elseBlock) =>
      (forall c <- cs :: NoWhile(c.1)) && (elseBlock.Some? ==> NoWhile(elseBlock.value))
    case BlockStmt(stmts) => forall x <- stmts :: NoWhile(x)
    case WhileStmt(_, _) => false
    case _ => true
  }

  type Stmt = s: ManStmt.Stmt<LegacyAst.Expr> | NoWhile(s) witness ManStmt.BlockStmt([])

  /** How an expression prints inside a statement. */
  function ExprText(numDebug: real -> string): LegacyAst.Expr -> string {
    e => LegacyAst.ToString(e, numDebug)
  }

  /** `Display for Stmt` */
  method Display(s: Stmt, numDebug: real -> string) returns (out: string)
    ensures out == ManStmt.Render(s, ExprText(numDebug))
  {
    out := ManStmt.Display(s, ExprText(numDebug));
  }

  /** A declaration prints its target and value as `to_string` does, with
      "var " in front; groupings in either leave no trace. */
  lemma DeclarationText(variable: LegacyAst.Expr, value: LegacyAst.Expr, numDebug: real -> string)
    ensures ManStmt.Render(ManStmt.VarDeclStmt(variable, value), ExprText(numDebug)) ==
      "var " + LegacyAst.ToString(LegacyAst.StripGroupings(variable), numDebug) + " = "
      + LegacyAst.ToString(LegacyAst.StripGroupings(value), numDebug)
  {
    LegacyAst.GroupingInvisible(variable, numDebug);
    LegacyAst.GroupingInvisible(value, numDebug);
  }
}
