/** What the grammar of src/parser.rs guarantees, across several calls:
    left associativity, error recovery, the scope stack, and the block loop
    that does not stop once the tokens run out. */
module GrammarProps {
  import opened Wrappers
  import opened Tokens
  import Objects
  import Ast
  import opened Grammar

  // ---------------------------------------------------------------------
  // Left associativity

  /** The left fold a level's loop performs over the operators and
      operands that follow its first operand. */
  function FoldLevel(l: Level, left: Ast.Expr, rest: seq<(Token, Ast.Expr)>): Ast.Expr
    decreases |rest|
  {
    if rest == [] then left else FoldLevel(l, Build(l, left, rest[0].0, rest[0].1), rest[1..])
  }

  /** The states a level's loop passes through: before each operator, and
      after the last operand. */
  predicate Steps(toks: seq<Token>, l: Level, states: seq<PState>, rest: seq<(Token, Ast.Expr)>)
  {
    |states| == |rest| + 1
    && (forall i :: 0 <= i < |states| ==> states[i].pos <= |toks|)
    && (forall i :: 0 <= i < |rest| ==>
          Check(toks, states[i], Ops(l)) && toks[states[i].pos] == rest[i].0
          && Operand(toks, Next(states[i]), l) == Parsed(Ok(rest[i].1), states[i + 1]))
    && !Check(toks, states[|rest|], Ops(l))
  }

  /** A level's loop folds to the left: each operator combines everything
      before it with the one operand after it. */
  lemma {:induction false} LevelRestFoldsLeft(toks: seq<Token>, l: Level, left: Ast.Expr, states: seq<PState>, rest: seq<(Token, Ast.Expr)>)
    requires Steps(toks, l, states, rest) && Ast.WellFormed(left)
    ensures LevelRest(toks, states[0], l, left) == Parsed(Ok(FoldLevel(l, left, rest)), states[|rest|])
    decreases |rest|
  {
    if rest != [] {
      var s := states[0];
      var p := Operand(toks, Next(s), l);
      assert p == Parsed(Ok(rest[0].1), states[1]);
      var left1 := Build(l, left, toks[s.pos], p.res.value);
      assert left1 == Build(l, left, rest[0].0, rest[0].1);
      assert Steps(toks, l, states[1..], rest[1..]) by {
        forall i | 0 <= i < |rest[1..]|
          ensures Check(toks, states[1..][i], Ops(l)) && toks[states[1..][i].pos] == rest[1..][i].0
          ensures Operand(toks, Next(states[1..][i]), l) == Parsed(Ok(rest[1..][i].1), states[1..][i + 1])
        {
          assert states[1..][i] == states[i + 1] && states[1..][i + 1] == states[i + 2];
        }
      }
      LevelRestFoldsLeft(toks, l, left1, states[1..], rest[1..]);
    }
  }

  /** `a - b - c` and its kind at every level: three operands joined by two
      operators of one level give `(a op b) op c`. */
  lemma ThreeOperands(toks: seq<Token>, l: Level, s0: PState, a: Ast.Expr, s1: PState, b: Ast.Expr, s2: PState, c: Ast.Expr, s3: PState)
    requires s0.pos <= |toks| && Operand(toks, s0, l) == Parsed(Ok(a), s1)
    requires Check(toks, s1, Ops(l)) && Operand(toks, Next(s1), l) == Parsed(Ok(b), s2)
    requires Check(toks, s2, Ops(l)) && Operand(toks, Next(s2), l) == Parsed(Ok(c), s3)
    requires !Check(toks, s3, Ops(l))
    ensures BinaryLevel(toks, s0, l) == Parsed(Ok(Build(l, Build(l, a, toks[s1.pos], b), toks[s2.pos], c)), s3)
  {
    var ab := Build(l, a, toks[s1.pos], b);
    assert LevelRest(toks, s3, l, Build(l, ab, toks[s2.pos], c)) == Parsed(Ok(Build(l, ab, toks[s2.pos], c)), s3);
    assert LevelRest(toks, s2, l, ab) == LevelRest(toks, s3, l, Build(l, ab, toks[s2.pos], c));
    assert LevelRest(toks, s1, l, a) == LevelRest(toks, s2, l, ab);
  }

  // ---------------------------------------------------------------------
  // Assignment and return

  /** Only a variable can be assigned to: any other left side followed by
      `=` fails, after the `=` is taken. */
  lemma InvalidAssignmentTarget(toks: seq<Token>, s: PState, target: Ast.Expr, s1: PState)
    requires s.pos <= |toks| && BinaryLevel(toks, s, Equality) == Parsed(Ok(target), s1)
    requires !target.Variable? && Check(toks, s1, {Equal})
    ensures Assignment(toks, s) == Parsed(Err("Invalid assignment target."), Next(s1))
  {
  }

  /** No statement at the top level of a parsed program is a `return`:
      outside every scope one fails, and a program with a failed
      declaration is not returned. */
  lemma {:induction false} NoTopLevelReturn(toks: seq<Token>, s: PState, acc: Collected)
    requires s.pos <= |toks| && s.scopes == []
    requires forall x <- acc.stmts :: Ast.WellFormedStmt(x) && !x.Return?
    ensures var r := ParseLoop(toks, s, acc);
      r.res.Ok? && !r.res.value.failed ==> forall x <- r.res.value.stmts :: !x.Return?
    decreases |toks| - s.pos
  {
    if s.pos < |toks| && toks[s.pos].ttype != Eof {
      var d := Declaration(toks, s);
      if d.res.Ok? && d.st.pos < |toks| {
        NoTopLevelReturn(toks, d.st, Collected(acc.stmts + [d.res.value], acc.failed));
      }
    }
  }

  /** The statements of a parsed program are well formed, and none of them
      is a `return`. */
  lemma ParsedProgram(toks: seq<Token>)
    ensures Parse(toks).Statements? ==>
      forall x <- Parse(toks).stmts :: Ast.WellFormedStmt(x) && !x.Return?
  {
    NoTopLevelReturn(toks, PState(0, []), Collected([], false));
  }

  /** A failed declaration fails the whole parse, although the parse goes
      on past it. */
  lemma FailedDeclarationFailsParse(toks: seq<Token>)
    requires |toks| > 0 && toks[0].ttype != Eof && Declaration(toks, PState(0, [])).res.Err?
    ensures !Parse(toks).Statements?
  {
    FailedDeclarationMarks(toks, PState(0, []), Collected([], false));
  }

  lemma FailedDeclarationMarks(toks: seq<Token>, s: PState, acc: Collected)
    requires s.pos < |toks| && toks[s.pos].ttype != Eof && Declaration(toks, s).res.Err?
    requires forall x <- acc.stmts :: Ast.WellFormedStmt(x)
    ensures ParseLoop(toks, s, acc).res.Ok? ==> ParseLoop(toks, s, acc).res.value.failed
  {
    var s1 := Synchronize(toks, Declaration(toks, s).st).st;
    if s1.pos < |toks| {
      assert ParseLoop(toks, s, acc) == ParseLoop(toks, s1, Collected(acc.stmts, true));
    }
  }

  // ---------------------------------------------------------------------
  // The scope stack

  /** `depth_for`: the depth is the distance from the innermost scope to the
      innermost scope that holds the name. */
  lemma {:induction false} DepthInnermost(scopes: Scopes, v: string, d: nat)
    ensures Depth(scopes, v) == Some(d) <==>
      d < |scopes| && v in scopes[|scopes| - 1 - d]
      && forall j :: |scopes| - 1 - d < j < |scopes| ==> v !in scopes[j]
    decreases |scopes|
  {
    if scopes != [] && v !in scopes[|scopes| - 1] {
      var inner := scopes[..|scopes| - 1];
      if d > 0 {
        DepthInnermost(inner, v, d - 1);
        assert forall j :: 0 <= j < |inner| ==> inner[j] == scopes[j];
      }
    }
  }

  /** `depth_for` finds nothing exactly when no local scope holds the name. */
  lemma {:induction false} DepthNone(scopes: Scopes, v: string)
    ensures Depth(scopes, v).None? <==> forall j :: 0 <= j < |scopes| ==> v !in scopes[j]
    decreases |scopes|
  {
    if scopes != [] {
      var inner := scopes[..|scopes| - 1];
      DepthNone(inner, v);
      assert forall j :: 0 <= j < |inner| ==> inner[j] == scopes[j];
    }
  }

  /** With no local scope, declaring, defining and assigning change
      nothing, and every name is global. */
  lemma NoScopes(s: PState, name: Token, define: bool)
    requires s.scopes == []
    ensures SetVar(s, name, define) == Parsed(Ok(()), s)
    ensures AssignVar(s, name) == Parsed(Ok(()), s)
    ensures name.ttype.Identifier? ==> DepthFor(s.scopes, name) == Ok(None)
  {
  }

  /** Declaring a name twice in one scope fails the second time. */
  lemma DeclareTwice(s: PState, name: Token)
    requires s.scopes != [] && name.ttype.Identifier?
    requires SetVar(s, name, false).res.Ok?
    ensures SetVar(SetVar(s, name, false).st, name, false).res == Err("Already a variable with this name in this scope.")
  {
  }

  /** A declared and defined name resolves to the innermost scope, where it
      is marked defined. */
  lemma DeclareThenDefine(s: PState, name: Token)
    requires s.scopes != [] && name.ttype.Identifier?
    requires SetVar(s, name, false).res.Ok?
    ensures var sc := SetVar(SetVar(s, name, false).st, name, true).st.scopes;
      |sc| == |s.scopes| && sc[|sc| - 1][name.ttype.name] == true && DepthFor(sc, name) == Ok(Some(0))
  {
  }

  /** `assign_var` marks the name defined in every scope that holds it,
      and leaves every other entry and every depth as it was. */
  lemma {:induction false} AssignKeepsDepths(scopes: Scopes, v: string, w: string)
    ensures Depth(MarkDefined(scopes, v), w) == Depth(scopes, w)
    decreases |scopes|
  {
    var m := MarkDefined(scopes, v);
    if scopes != [] {
      var inner := scopes[..|scopes| - 1];
      assert m[..|m| - 1] == MarkDefined(inner, v);
      AssignKeepsDepths(inner, v, w);
    }
  }

  /** A braced block, a `for` and a function body that succeed leave the
      scope stack as long as they found it; a single statement in place of
      a braced block that fails leaves the block's scope pushed, as does a
      `for` without its `(`. */
  lemma SkippedPop(toks: seq<Token>, s: PState)
    requires s.pos <= |toks| && !Check(toks, s, {LeftBrace})
    requires Statement(toks, s.(scopes := s.scopes + [map[]])).res.Err?
    ensures Block(toks, s).res.Err? && |Block(toks, s).st.scopes| > |s.scopes|
  {
  }

  lemma ForWithoutParen(toks: seq<Token>, s: PState)
    requires s.pos <= |toks| && !Check(toks, s, {LeftParen})
    ensures ForStatement(toks, s).res.Err? && |ForStatement(toks, s).st.scopes| == |s.scopes| + 1
  {
  }

  // ---------------------------------------------------------------------
  // The block loop once the tokens run out

  /** With no token left, a declaration fails and takes nothing. */
  lemma ExhaustedDeclaration(toks: seq<Token>, s: PState)
    requires s.pos == |toks|
    ensures Declaration(toks, s).res.Err? && Declaration(toks, s).st.pos == |toks|
  {
    assert Statement(toks, s) == ExprStatement(toks, s);
  }

  /** The loop as written never finishes once the tokens have run out. */
  lemma {:induction false} AsWrittenSpins(toks: seq<Token>, s: PState, acc: Collected, fuel: nat)
    requires s.pos == |toks|
    ensures BlockLoopAsWritten(toks, s, acc, fuel) == None
    decreases fuel
  {
    if fuel > 0 {
      var d := Declaration(toks, s);
      ExhaustedDeclaration(toks, s);
      var s1 := Synchronize(toks, d.st).st;
      AsWrittenSpins(toks, s1, Collected(acc.stmts, true), fuel - 1);
    }
  }

  /** Every routine of the expression ladder fails at the `Eof`, after
      taking it. */
  lemma {:induction false} LevelAtEof(toks: seq<Token>, s: PState, l: Level)
    requires s.pos < |toks| && toks[s.pos].ttype == Eof
    ensures BinaryLevel(toks, s, l) == Parsed(Err("Expect expression."), Next(s))
    decreases Rank(l)
  {
    match l
    case LogicOr => LevelAtEof(toks, s, LogicAnd);
    case LogicAnd =>
      LevelAtEof(toks, s, Equality);
      assert Assignment(toks, s) == Parsed(Err("Expect expression."), Next(s));
    case Equality => LevelAtEof(toks, s, Comparison);
    case Comparison => LevelAtEof(toks, s, Term);
    case Term => LevelAtEof(toks, s, Factor);
    case Factor =>
      assert Primary(toks, s) == Parsed(Err("Expect expression."), Next(s));
      assert Unary(toks, s) == Call(toks, s);
  }

  /** The program `{`: after its `{` the block loop takes the `Eof` as a
      broken expression and then repeats for ever. */
  lemma LoneBraceSpins(toks: seq<Token>, scopes: Scopes, fuel: nat)
    requires |toks| == 2 && toks[0].ttype == LeftBrace && toks[1].ttype == Eof
    ensures BlockLoopAsWritten(toks, PState(1, scopes), Collected([], false), fuel) == None
  {
    var s := PState(1, scopes);
    LevelAtEof(toks, s, LogicOr);
    assert Expression(toks, s) == Parsed(Err("Expect expression."), Next(s));
    assert Statement(toks, s) == ExprStatement(toks, s);
    assert Declaration(toks, s) == Parsed(Err("Expect expression."), Next(s));
    if fuel > 0 {
      var s1 := Synchronize(toks, Next(s)).st;
      assert s1.pos == |toks|;
      assert BlockLoopAsWritten(toks, s, Collected([], false), fuel) ==
        BlockLoopAsWritten(toks, s1, Collected([], true), fuel - 1);
      AsWrittenSpins(toks, s1, Collected([], true), fuel - 1);
    }
  }

  /** The corrected loop stops, the block failed, once the tokens run out. */
  lemma ExhaustedBlockLoopStops(toks: seq<Token>, s: PState, acc: Collected)
    requires s.pos == |toks| && forall x <- acc.stmts :: Ast.WellFormedStmt(x)
    ensures BlockLoop(toks, s, acc).res == Ok(Collected(acc.stmts, true))
    ensures BlockLoop(toks, s, acc).st.pos == |toks|
  {
    ExhaustedDeclaration(toks, s);
  }

  /** One turn of both loops. Either they stop at once, and agree, or a
      declaration that did not panic leaves the cursor at `s1` and the
      statements at `acc1`, and the two loops differ only in when they stop
      after it. */
  lemma LoopsTurn(toks: seq<Token>, s: PState, acc: Collected, fuel: nat) returns (more: bool, s1: PState, acc1: Collected)
    requires s.pos <= |toks| && forall x <- acc.stmts :: Ast.WellFormedStmt(x)
    requires BlockLoopAsWritten(toks, s, acc, fuel).Some?
    ensures !more ==> BlockLoopAsWritten(toks, s, acc, fuel).value == BlockLoop(toks, s, acc)
    ensures more ==> fuel > 0 && s1.pos <= |toks| && forall x <- acc1.stmts :: Ast.WellFormedStmt(x)
    ensures more ==>
      BlockLoopAsWritten(toks, s, acc, fuel) ==
        if Check(toks, s1, {Eof}) then Some(Parsed(Ok(acc1), s1)) else BlockLoopAsWritten(toks, s1, acc1, fuel - 1)
    ensures more ==>
      BlockLoop(toks, s, acc) ==
        if Check(toks, s1, {Eof}) || s1.pos == |toks| then Parsed(Ok(acc1), s1) else BlockLoop(toks, s1, acc1)
  {
    more, s1, acc1 := false, s, acc;
    if !Check(toks, s, {RightBrace}) {
      var d := Declaration(toks, s);
      if !d.res.Panic? {
        more := true;
        s1 := if d.res.Ok? then d.st else Synchronize(toks, d.st).st;
        acc1 := if d.res.Ok? then Collected(acc.stmts + [d.res.value], acc.failed) else Collected(acc.stmts, true);
      }
    }
  }

  /** The induction step of `CorrectionAgrees`, on the values of the two
      loops before and after one turn. */
  lemma TurnAgrees(a: Option<Parsed<Collected>>, a1: Option<Parsed<Collected>>,
                   b: Parsed<Collected>, b1: Parsed<Collected>, stop: Parsed<Collected>, eof: bool, exhausted: bool)
    requires a == (if eof then Some(stop) else a1)
    requires b == (if eof || exhausted then stop else b1)
    requires exhausted ==> a1 == None
    requires a1.Some? ==> a1.value == b1
    requires a.Some?
    ensures a.value == b
  {
  }

  /** The correction changes only the inputs on which the loop as written
      does not finish: wherever it finishes, both loops agree. */
  lemma {:induction false} CorrectionAgrees(toks: seq<Token>, s: PState, acc: Collected, fuel: nat)
    requires s.pos <= |toks| && forall x <- acc.stmts :: Ast.WellFormedStmt(x)
    requires BlockLoopAsWritten(toks, s, acc, fuel).Some?
    ensures BlockLoopAsWritten(toks, s, acc, fuel).value == BlockLoop(toks, s, acc)
    decreases fuel, 0
  {
    var more, s1, acc1 := LoopsTurn(toks, s, acc, fuel);
    if more {
      RestAgrees(toks, s1, acc1, fuel - 1);
      TurnAgrees(BlockLoopAsWritten(toks, s, acc, fuel), BlockLoopAsWritten(toks, s1, acc1, fuel - 1),
                 BlockLoop(toks, s, acc), BlockLoop(toks, s1, acc1),
                 Parsed(Ok(acc1), s1), Check(toks, s1, {Eof}), s1.pos == |toks|);
    }
  }

  /** The loops from any later cursor: the one as written spins once the
      tokens run out, and agrees with the correction wherever it finishes. */
  lemma {:induction false} RestAgrees(toks: seq<Token>, s: PState, acc: Collected, fuel: nat)
    requires s.pos <= |toks| && forall x <- acc.stmts :: Ast.WellFormedStmt(x)
    ensures s.pos == |toks| ==> BlockLoopAsWritten(toks, s, acc, fuel) == None
    ensures BlockLoopAsWritten(toks, s, acc, fuel).Some? ==> BlockLoopAsWritten(toks, s, acc, fuel).value == BlockLoop(toks, s, acc)
    decreases fuel, 1
  {
    if s.pos == |toks| {
      AsWrittenSpins(toks, s, acc, fuel);
    } else if BlockLoopAsWritten(toks, s, acc, fuel).Some? {
      CorrectionAgrees(toks, s, acc, fuel);
    }
  }
}
