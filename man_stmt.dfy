/** The statements of src/man_stmt.rs and their `Display` renderer. The
    expressions inside are of any type `E`; how one prints is the
    parameter `text`. The renderer is a loop that grows a string with
    `+=`, so it is a method, proved to produce `Render`, whose clauses
    are stated once, piece by piece, below. */
module ManStmt {
  import opened Wrappers
  import Text

  datatype Stmt<E> =
    | VarDeclStmt(variable: E, value: E)
    | AssignStmt(variable: E, value: E)
    | ExprStmt(expr: E)
    | PrintStmt(expr: E)
    | IfStmt(conditionals: seq<(E, Stmt<E>)>, elseBlock: Option<Stmt<E>>)
    | BlockStmt(stmts: seq<Stmt<E>>)
    | WhileStmt(condition: E, block: Stmt<E>)

  /** The text of a statement: what `Display` writes. */
  function Render<E>(s: Stmt<E>, text: E -> string): (r: string)
    ensures s.VarDeclStmt? ==> |r| >= 4 && r[..4] == "var "
    ensures s.WhileStmt? ==> |r| >= 6 && r[..6] == "while "
    ensures s.BlockStmt? ==> (r == "" <==> s.stmts == [])
    decreases s
  {
    match s
    case VarDeclStmt(variable, value) => "var " + text(variable) + " = " + text(value)
    case AssignStmt(variable, value) => text(variable) + " = " + text(value)
    case ExprStmt(expr) => text(expr)
    case PrintStmt(expr) => text(expr)
    case IfStmt(cs, elseBlock) =>
      Text.Concat(seq(|cs|, i requires 0 <= i < |cs| =>
        assert cs[i] in cs; "if " + text(cs[i].0) + " then " + Render(cs[i].1, text) + ",\n"))
      + (if elseBlock.Some? then "else " + Render(elseBlock.value, text) else "")
    case BlockStmt(stmts) =>
      Text.Terminated(seq(|stmts|, i requires 0 <= i < |stmts| => assert stmts[i] in stmts; Render(stmts[i], text)), ";\n")
    case WhileStmt(condition, block) => "while " + text(condition) + Render(block, text)
  }

  /** One `if c then b,\n` piece per condition, in order. */
  function Clauses<E>(cs: seq<(E, Stmt<E>)>, text: E -> string): (r: seq<string>)
    ensures |r| == |cs|
    ensures Render(IfStmt(cs, None), text) == Text.Concat(r)
  {
    seq(|cs|, i requires 0 <= i < |cs| => "if " + text(cs[i].0) + " then " + Render(cs[i].1, text) + ",\n")
  }

  /** The text of every statement of a block, in order. */
  function Lines<E>(stmts: seq<Stmt<E>>, text: E -> string): (r: seq<string>)
    ensures |r| == |stmts|
    ensures Render(BlockStmt(stmts), text) == Text.Terminated(r, ";\n")
  {
    seq(|stmts|, i requires 0 <= i < |stmts| => Render(stmts[i], text))
  }

  /** `Display for Stmt` */
  method Display<E>(s: Stmt<E>, text: E -> string) returns (out: string)
    ensures out == Render(s, text)
    decreases s, 1
  {
    match s
    case VarDeclStmt(variable, value) =>
      out := "var " + text(variable) + " = " + text(value);
    case AssignStmt(variable, value) =>
      out := text(variable) + " = " + text(value);
    case ExprStmt(expr) =>
      out := text(expr);
    case PrintStmt(expr) =>
      out := text(expr);
    case IfStmt(conditionals, elseBlock) =>
      out := DisplayIf(conditionals, elseBlock, text);
    case BlockStmt(stmts) =>
      out := DisplayBlock(stmts, text);
    case WhileStmt(condition, block) =>
      out := "while ";
      out := out + text(condition);
      var b := Display(block, text);
      out := out + b;
  }

  /** The `If` arm of `Display`: one `if c then b,\n` per condition, then
      the `else` part. */
  method DisplayIf<E>(conditionals: seq<(E, Stmt<E>)>, elseBlock: Option<Stmt<E>>, text: E -> string) returns (out: string)
    ensures out == Render(IfStmt(conditionals, elseBlock), text)
    decreases IfStmt(conditionals, elseBlock), 0
  {
    out := "";
    for i := 0 to |conditionals|
      invariant out == Text.Concat(Clauses(conditionals[..i], text))
    {
      var (c, blk) := conditionals[i];
      assert conditionals[i] in conditionals;
      var b := Display(blk, text);
      ghost var before := out;
      out := out + "if ";
      out := out + text(c);
      out := out + " then ";
      out := out + b;
      out := out + ",\n";
      assert out == before + ("if " + text(c) + " then " + b + ",\n");
      ClauseStep(conditionals, i, text);
      Text.ConcatSnoc(Clauses(conditionals[..i], text), "if " + text(c) + " then " + b + ",\n");
    }
    assert conditionals[..|conditionals|] == conditionals;
    assert out == Render(IfStmt(conditionals, None), text);
    if elseBlock.Some? {
      var b := Display(elseBlock.value, text);
      out := out + "else ";
      out := out + b;
      ElseOnlyAtEnd(conditionals, elseBlock.value, text);
    }
  }

  /** The `Block` arm of `Display`: each statement followed by ";\n". */
  method DisplayBlock<E>(stmts: seq<Stmt<E>>, text: E -> string) returns (out: string)
    ensures out == Render(BlockStmt(stmts), text)
    decreases BlockStmt(stmts), 0
  {
    out := "";
    for i := 0 to |stmts|
      invariant out == Text.Terminated(Lines(stmts[..i], text), ";\n")
    {
      assert stmts[i] in stmts;
      var line := Display(stmts[i], text);
      out := out + line;
      out := out + ";\n";
      LineStep(stmts, i, text);
      Text.TerminatedSnoc(Lines(stmts[..i], text), line, ";\n");
    }
    assert stmts[..|stmts|] == stmts;
  }

  lemma ClauseStep<E>(cs: seq<(E, Stmt<E>)>, i: nat, text: E -> string)
    requires i < |cs|
    ensures Clauses(cs[..i + 1], text) == Clauses(cs[..i], text) + ["if " + text(cs[i].0) + " then " + Render(cs[i].1, text) + ",\n"]
  {
    assert cs[..i + 1][..i] == cs[..i];
  }

  lemma LineStep<E>(stmts: seq<Stmt<E>>, i: nat, text: E -> string)
    requires i < |stmts|
    ensures Lines(stmts[..i + 1], text) == Lines(stmts[..i], text) + [Render(stmts[i], text)]
  {
    assert stmts[..i + 1][..i] == stmts[..i];
  }

  // ---------------------------------------------------------------------
  // Properties of the rendering

  /** A declaration reads as the matching assignment behind "var ". */
  lemma DeclarationIsVarAssignment<E>(variable: E, value: E, text: E -> string)
    ensures Render(VarDeclStmt(variable, value), text) == "var " + Render(AssignStmt(variable, value), text)
  {
  }

  /** A print statement and an expression statement read alike. */
  lemma PrintReadsAsExpression<E>(e: E, text: E -> string)
    ensures Render(PrintStmt(e), text) == Render(ExprStmt(e), text)
  {
  }

  /** An `else` adds "else " and its block at the end, and nothing else. */
  lemma ElseOnlyAtEnd<E>(cs: seq<(E, Stmt<E>)>, b: Stmt<E>, text: E -> string)
    ensures Render(IfStmt(cs, Some(b)), text) == Render(IfStmt(cs, None), text) + "else " + Render(b, text)
  {
  }

  /** The conditions of an `if` render one after the other: splitting the
      list splits the text. */
  lemma {:induction false} IfSplits<E>(a: seq<(E, Stmt<E>)>, b: seq<(E, Stmt<E>)>, text: E -> string)
    ensures Render(IfStmt(a + b, None), text) == Render(IfStmt(a, None), text) + Render(IfStmt(b, None), text)
  {
    ClausesAppend(a, b, text);
    Text.ConcatAppend(Clauses(a, text), Clauses(b, text));
  }

  lemma {:induction false} ClausesAppend<E>(a: seq<(E, Stmt<E>)>, b: seq<(E, Stmt<E>)>, text: E -> string)
    ensures Clauses(a + b, text) == Clauses(a, text) + Clauses(b, text)
    decreases |b|
  {
    if b == [] {
      assert a + b == a;
    } else {
      var init := b[..|b| - 1];
      assert (a + b)[..|a + b| - 1] == a + init;
      assert (a + b)[|a + b| - 1] == b[|b| - 1];
      ClausesAppend(a, init, text);
    }
  }

  /** An empty block renders as nothing. */
  lemma EmptyBlock<E>(text: E -> string)
    ensures Render(BlockStmt([]), text) == ""
  {
  }

  /** The statements of a block render one after the other, each ended by
      ";\n": splitting the block splits the text. */
  lemma {:induction false} BlockSplits<E>(a: seq<Stmt<E>>, b: seq<Stmt<E>>, text: E -> string)
    ensures Render(BlockStmt(a + b), text) == Render(BlockStmt(a), text) + Render(BlockStmt(b), text)
  {
    LinesAppend(a, b, text);
    TerminatedAppend(Lines(a, text), Lines(b, text), ";\n");
  }

  lemma {:induction false} LinesAppend<E>(a: seq<Stmt<E>>, b: seq<Stmt<E>>, text: E -> string)
    ensures Lines(a + b, text) == Lines(a, text) + Lines(b, text)
    decreases |b|
  {
    if b == [] {
      assert a + b == a;
    } else {
      var init := b[..|b| - 1];
      assert (a + b)[..|a + b| - 1] == a + init;
      assert (a + b)[|a + b| - 1] == b[|b| - 1];
      LinesAppend(a, init, text);
    }
  }

  lemma {:induction false} TerminatedAppend(a: seq<string>, b: seq<string>, sep: string)
    ensures Text.Terminated(a + b, sep) == Text.Terminated(a, sep) + Text.Terminated(b, sep)
  {
    if a == [] {
      assert a + b == b;
    } else {
      assert (a + b)[1..] == a[1..] + b;
      TerminatedAppend(a[1..], b, sep);
    }
  }

  /** A block of one statement is that statement followed by ";\n". */
  lemma SingleLine<E>(x: Stmt<E>, text: E -> string)
    ensures Render(BlockStmt([x]), text) == Render(x, text) + ";\n"
  {
    var lines := Lines([x], text);
    assert lines == [Render(x, text)];
    assert lines[1..] == [];
    assert Text.Terminated(lines, ";\n") == lines[0] + ";\n" + Text.Terminated([], ";\n");
  }
}
