/** Properties of the current interpreter (src/interpreter.rs), proved of
    the functions in Evaluation. */
module EvaluationProps {
  import opened Wrappers
  import Tokens
  import opened Objects
  import Ast
  import Envs
  import LoxErrors
  import opened Evaluation

  // ---------------------------------------------------------------------
  // Values

  /** Only `nil` and `false` are falsy. */
  lemma FalsyValues(o: Object)
    ensures !IsTruthy(o) <==> o == Nil || o == Bool(false)
  {
  }

  /** `==` holds exactly of two equal values that are not callables; so
      values of different kinds are never equal, and neither is a callable
      to itself. */
  lemma {:induction false} EqualMeansSameValue(l: Object, r: Object)
    ensures IsEqual(l, r) <==> l == r && !l.Fun?
  {
    match (l, r)
    case (Bool(b1), Bool(b2)) =>
    case (Num(n1), Num(n2)) =>
    case (Str(s1), Str(s2)) =>
    case (Nil, Nil) =>
    case _ =>
  }

  /** `!=` is exactly the negation of `==`, for all operands. */
  lemma NotEqualNegates(l: Object, r: Object, numDebug: real -> string)
    ensures BinaryOp(Tokens.EqualEqual, l, r, numDebug).Success?
    ensures BinaryOp(Tokens.BangEqual, l, r, numDebug).Success?
    ensures BinaryOp(Tokens.BangEqual, l, r, numDebug).value == Bool(!BinaryOp(Tokens.EqualEqual, l, r, numDebug).value.b)
  {
  }

  /** A zero divisor is reported even when the dividend is not a number:
      the right operand is examined first. */
  lemma DivisorFirst(l: Object)
    ensures BinaryOp(Tokens.Slash, l, Num(0.0), (x: real) => "").Failure?
    ensures BinaryOp(Tokens.Slash, l, Num(0.0), (x: real) => "").error == LoxErrors.New("Tried to divide by 0!")
  {
  }

  // ---------------------------------------------------------------------
  // Logic

  /** `and` with a falsy left operand yields that operand, and the right
      operand is not evaluated: the state is the one the left left. */
  lemma AndShortCircuits(h: Host, e: Ast.Expr, st: State)
    requires e.Logic? && e.operator.ttype == Tokens.And
    requires Eval(h, e.left, st).out.Value? && !IsTruthy(Eval(h, e.left, st).out.value)
    ensures Eval(h, e, st) == Eval(h, e.left, st)
  {
  }

  /** `or` with a truthy left operand yields that operand, and the right
      operand is not evaluated. */
  lemma OrShortCircuits(h: Host, e: Ast.Expr, st: State)
    requires e.Logic? && e.operator.ttype == Tokens.Or
    requires Eval(h, e.left, st).out.Value? && IsTruthy(Eval(h, e.left, st).out.value)
    ensures Eval(h, e, st) == Eval(h, e.left, st)
  {
  }

  /** Otherwise the result is the right operand's, evaluated after the
      left: a logical expression yields an operand, never a new boolean. */
  lemma LogicYieldsRight(h: Host, e: Ast.Expr, st: State)
    requires e.Logic? && Eval(h, e.left, st).out.Value?
    requires IsTruthy(Eval(h, e.left, st).out.value) == (e.operator.ttype == Tokens.And)
    requires Eval(h, e.right, Eval(h, e.left, st).st).out.Value?
    ensures Eval(h, e, st) == Eval(h, e.right, Eval(h, e.left, st).st)
  {
  }

  // ---------------------------------------------------------------------
  // Calls

  /** A call with the wrong number of arguments fails before any argument
      is evaluated: the state is the one the callee left. */
  lemma ArityCheckedFirst(h: Host, e: Ast.Expr, st: State, f: Callee, st1: State)
    requires e.Call? && Eval(h, e.callee, st) == Step(Value(Fun(f)), st1) && |e.args| != f.arity
    ensures Eval(h, e, st) == Step(Raised(LoxErrors.WithContext(LoxErrors.New(ArityMessage(f.arity, |e.args|)), e.paren, h.exprText(e.callee))), st1)
  {
  }

  /** Only callables can be called. */
  lemma OnlyCallablesCalled(h: Host, e: Ast.Expr, st: State, c: Object, st1: State)
    requires e.Call? && Eval(h, e.callee, st) == Step(Value(c), st1) && !c.Fun?
    ensures Eval(h, e, st) == Step(Raised(LoxErrors.WithContext(LoxErrors.New("Can only call functions and classes."), e.paren, h.exprText(e.callee))), st1)
  {
  }

  // ---------------------------------------------------------------------
  // Declarations

  /** A declaration needs a variable as its target; the value is evaluated
      first. */
  lemma DeclarationNeedsVariable(h: Host, target: Ast.Expr, value: Ast.Expr, st: State, fuel: nat)
    requires |st.locals| > 0 && !target.Variable? && Eval(h, value, st).out.Value?
    ensures Exec(h, Ast.VarDecl(target, value), st, fuel) == Step(Raised(LoxErrors.New("Invalid assignment target.")), Eval(h, value, st).st)
  {
  }

  /** A global declared with a value is then read back with that value. */
  lemma ReadAfterDeclare(h: Host, name: Tokens.Token, value: Ast.Expr, st: State, fuel: nat, reader: Tokens.Token)
    requires |st.locals| > 0 && Eval(h, value, st).out.Value? && reader.lexeme == name.lexeme
    ensures var after := Exec(h, Ast.VarDecl(Ast.Variable(name, None), value), st, fuel);
      after.out == Value(Nil) && Eval(h, Ast.Variable(reader, None), after.st).out == Value(Eval(h, value, st).out.value)
  {
    var after := Exec(h, Ast.VarDecl(Ast.Variable(name, None), value), st, fuel);
    Envs.LookupAfterDeclare(Eval(h, value, st).st.globals, [], name.lexeme, Eval(h, value, st).out.value, false);
    assert [after.st.globals] == [Eval(h, value, st).st.globals[name.lexeme := Eval(h, value, st).out.value]] + [];
  }

  // ---------------------------------------------------------------------
  // If / elif / else

  /** The first `k` conditions of an `if` evaluate, one after the other
      and starting from `sts[0]`, to falsy values. */
  predicate FalsyPrefix(h: Host, s: Ast.Stmt, k: nat, sts: seq<State>)
    requires s.If?
  {
    && k <= |s.conditionals| && |sts| == k + 1
    && (forall j :: 0 <= j < k ==>
          && Eval(h, s.conditionals[j].0, sts[j]).out.Value?
          && !IsTruthy(Eval(h, s.conditionals[j].0, sts[j]).out.value)
          && Eval(h, s.conditionals[j].0, sts[j]).st == sts[j + 1])
  }

  /** Only the first branch whose condition is truthy runs. */
  lemma {:induction false} FirstTruthyBranchRuns(h: Host, s: Ast.Stmt, k: nat, sts: seq<State>, fuel: nat)
    requires s.If? && FalsyPrefix(h, s, k, sts) && k < |s.conditionals| && |sts[0].locals| > 0
    requires Eval(h, s.conditionals[k].0, sts[k]).out.Value? && IsTruthy(Eval(h, s.conditionals[k].0, sts[k]).out.value)
    ensures |sts[k].locals| == |sts[0].locals|
    ensures ExecIf(h, s, 0, sts[0], fuel) == Exec(h, s.conditionals[k].1, Eval(h, s.conditionals[k].0, sts[k]).st, fuel)
  {
    IfFrom(h, s, 0, k, sts, fuel);
  }

  /** The same from the `i`-th condition on. */
  lemma {:induction false} IfFrom(h: Host, s: Ast.Stmt, i: nat, k: nat, sts: seq<State>, fuel: nat)
    requires s.If? && FalsyPrefix(h, s, k, sts) && i <= k < |s.conditionals| && |sts[0].locals| > 0
    requires Eval(h, s.conditionals[k].0, sts[k]).out.Value? && IsTruthy(Eval(h, s.conditionals[k].0, sts[k]).out.value)
    ensures |sts[i].locals| == |sts[0].locals| && |sts[k].locals| == |sts[0].locals|
    ensures ExecIf(h, s, i, sts[i], fuel) == Exec(h, s.conditionals[k].1, Eval(h, s.conditionals[k].0, sts[k]).st, fuel)
    decreases k - i
  {
    SameDepth(h, s, k, sts, k);
    SameDepth(h, s, k, sts, i);
    if i < k {
      IfFrom(h, s, i + 1, k, sts, fuel);
    }
  }

  /** When no condition is truthy, the `else` runs, or the result is
      `nil`. */
  lemma {:induction false} ElseRuns(h: Host, s: Ast.Stmt, sts: seq<State>, fuel: nat)
    requires s.If? && FalsyPrefix(h, s, |s.conditionals|, sts) && |sts[0].locals| > 0
    ensures |sts[|s.conditionals|].locals| == |sts[0].locals|
    ensures ExecIf(h, s, 0, sts[0], fuel) ==
      if s.elseBlock.Some? then Exec(h, s.elseBlock.value, sts[|s.conditionals|], fuel)
      else Step(Value(Nil), sts[|s.conditionals|])
  {
    ElseFrom(h, s, 0, sts, fuel);
  }

  lemma {:induction false} ElseFrom(h: Host, s: Ast.Stmt, i: nat, sts: seq<State>, fuel: nat)
    requires s.If? && FalsyPrefix(h, s, |s.conditionals|, sts) && i <= |s.conditionals| && |sts[0].locals| > 0
    ensures |sts[i].locals| == |sts[0].locals| && |sts[|s.conditionals|].locals| == |sts[0].locals|
    ensures ExecIf(h, s, i, sts[i], fuel) ==
      if s.elseBlock.Some? then Exec(h, s.elseBlock.value, sts[|s.conditionals|], fuel)
      else Step(Value(Nil), sts[|s.conditionals|])
    decreases |s.conditionals| - i
  {
    SameDepth(h, s, |s.conditionals|, sts, i);
    SameDepth(h, s, |s.conditionals|, sts, |s.conditionals|);
    if i < |s.conditionals| {
      ElseFrom(h, s, i + 1, sts, fuel);
    }
  }

  /** Conditions keep the number of local scopes. */
  lemma {:induction false} SameDepth(h: Host, s: Ast.Stmt, k: nat, sts: seq<State>, j: nat)
    requires s.If? && FalsyPrefix(h, s, k, sts) && j <= k
    ensures |sts[j].locals| == |sts[0].locals|
  {
    if j > 0 {
      SameDepth(h, s, k, sts, j - 1);
    }
  }

  // ---------------------------------------------------------------------
  // Statement sequences

  /** The statements `stmts[i..]` run one after the other from `sts[0]`:
      the `j`-th ends in `outs[j]` and state `sts[j + 1]`, and none runs
      out of fuel or returns. */
  predicate Runs(h: Host, stmts: seq<Ast.Stmt>, i: nat, sts: seq<State>, outs: seq<Out<Object>>, fuel: nat) {
    && i + |outs| == |stmts| && |sts| == |outs| + 1
    && (forall j :: 0 <= j < |sts| ==> |sts[j].locals| > 0)
    && (forall j :: 0 <= j < |outs| ==>
          && Exec(h, stmts[i + j], sts[j], fuel) == Step(outs[j], sts[j + 1])
          && !outs[j].Exhausted? && !(outs[j].Raised? && outs[j].err.Return?))
  }

  /** The value of the last statement that produced one. */
  function LastValue(outs: seq<Out<Object>>, last: Object): Object {
    if outs == [] then last
    else LastValue(outs[1..], if outs[0].Value? then outs[0].value else last)
  }

  /** The error of the last statement that failed. */
  function LastError(outs: seq<Out<Object>>, last: Option<EvalError>): (r: Option<EvalError>)
    ensures r.None? <==> last.None? && forall j :: 0 <= j < |outs| ==> !outs[j].Raised?
  {
    if outs == [] then last
    else
      var r := LastError(outs[1..], if outs[0].Raised? then Some(outs[0].err) else last);
      assert forall j :: 0 <= j < |outs[1..]| ==> outs[1..][j] == outs[j + 1];
      r
  }

  lemma {:induction false} RunsTail(h: Host, stmts: seq<Ast.Stmt>, i: nat, sts: seq<State>, outs: seq<Out<Object>>, fuel: nat)
    requires Runs(h, stmts, i, sts, outs, fuel) && outs != []
    ensures Runs(h, stmts, i + 1, sts[1..], outs[1..], fuel)
  {
    forall j | 0 <= j < |outs[1..]|
      ensures Exec(h, stmts[i + 1 + j], sts[1..][j], fuel) == Step(outs[1..][j], sts[1..][j + 1])
    {
      assert sts[1..][j] == sts[j + 1] && sts[1..][j + 1] == sts[j + 2] && outs[1..][j] == outs[j + 1];
    }
  }

  /** A block's statement loop runs every statement: an error does not
      stop it, and it ends with the last value and the last error. */
  lemma {:induction false} BlockLoopRunsAll(h: Host, s: Ast.Stmt, i: nat, lastRes: Object, lastError: Option<EvalError>, sts: seq<State>, outs: seq<Out<Object>>, fuel: nat)
    requires s.Block? && Runs(h, s.stmts, i, sts, outs, fuel)
    ensures BlockLoop(h, s, i, lastRes, lastError, sts[0], fuel) == Step(Value((LastValue(outs, lastRes), LastError(outs, lastError))), sts[|outs|])
    decreases |outs|
  {
    if outs != [] {
      RunsTail(h, s.stmts, i, sts, outs, fuel);
      var nextRes := if outs[0].Value? then outs[0].value else lastRes;
      var nextError := if outs[0].Raised? then Some(outs[0].err) else lastError;
      assert Exec(h, s.stmts[i], sts[0], fuel) == Step(outs[0], sts[1]);
      BlockLoopStep(h, s, i, lastRes, lastError, sts[0], outs[0], sts[1], fuel);
      BlockLoopRunsAll(h, s, i + 1, nextRes, nextError, sts[1..], outs[1..], fuel);
      assert sts[1..][0] == sts[1] && sts[1..][|outs[1..]|] == sts[|outs|];
      assert LastValue(outs, lastRes) == LastValue(outs[1..], nextRes);
      assert LastError(outs, lastError) == LastError(outs[1..], nextError);
    }
  }

  /** One statement of a block's loop that neither returns nor runs out of fuel. */
  lemma BlockLoopStep(h: Host, s: Ast.Stmt, i: nat, lastRes: Object, lastError: Option<EvalError>, st: State, o: Out<Object>, st1: State, fuel: nat)
    requires s.Block? && i < |s.stmts| && |st.locals| > 0 && |st1.locals| > 0
    requires Exec(h, s.stmts[i], st, fuel) == Step(o, st1) && !o.Exhausted? && !(o.Raised? && o.err.Return?)
    ensures BlockLoop(h, s, i, lastRes, lastError, st, fuel) ==
      BlockLoop(h, s, i + 1, if o.Value? then o.value else lastRes, if o.Raised? then Some(o.err) else lastError, st1, fuel)
  {
  }

  /** So a block whose statements all run fails, after its scope is
      removed, exactly when one of them failed, with the last error. */
  lemma BlockReportsLastError(h: Host, s: Ast.Stmt, st: State, sts: seq<State>, outs: seq<Out<Object>>, fuel: nat)
    requires s.Block? && |st.locals| > 0 && Runs(h, s.stmts, 0, sts, outs, fuel) && sts[0] == PushScope(st)
    requires |sts[|outs|].locals| > 1
    ensures ExecBlock(h, s, false, st, fuel).out ==
      if LastError(outs, None).Some? then Raised(LastError(outs, None).value) else Value(LastValue(outs, Nil))
  {
    BlockLoopRunsAll(h, s, 0, Nil, None, sts, outs, fuel);
  }

  /** A `return` inside a block leaves it at once, and the scope the block
      added is not removed. */
  lemma ReturnSkipsPop(h: Host, s: Ast.Stmt, st: State, v: Object, st1: State, fuel: nat)
    requires s.Block? && |s.stmts| > 0 && |st.locals| > 0
    requires Exec(h, s.stmts[0], PushScope(st), fuel) == Step(Raised(LoxErrors.Return(v)), st1)
    ensures ExecBlock(h, s, false, st, fuel) == Step(Raised(LoxErrors.Return(v)), st1)
  {
  }

  /** `interpret` runs every statement and fails exactly when one of them
      failed; otherwise it yields the last value. */
  lemma {:induction false} InterpretVerdict(h: Host, stmts: seq<Ast.Stmt>, i: nat, hitError: bool, last: Object, sts: seq<State>, outs: seq<Out<Object>>, fuel: nat)
    requires Runs(h, stmts, i, sts, outs, fuel)
    ensures InterpretLoop(h, stmts, i, hitError, last, sts[0], fuel) ==
      (Completed(if hitError || LastError(outs, None).Some? then Failure(LoxErrors.LoxError.Runtime) else Success(LastValue(outs, last))), sts[|outs|])
    decreases |outs|
  {
    if outs != [] {
      RunsTail(h, stmts, i, sts, outs, fuel);
      var nextLast := if outs[0].Value? then outs[0].value else last;
      var nextHit := hitError || outs[0].Raised?;
      assert InterpretLoop(h, stmts, i, hitError, last, sts[0], fuel) == InterpretLoop(h, stmts, i + 1, nextHit, nextLast, sts[1], fuel);
      InterpretVerdict(h, stmts, i + 1, nextHit, nextLast, sts[1..], outs[1..], fuel);
      assert LastError(outs, None).Some? <==> outs[0].Raised? || LastError(outs[1..], None).Some?;
    }
  }
}
