/** The interpreter of src/interpreter.rs as the object it is: the global
    scope, the chain of local scopes and the printed lines are fields that
    every routine reassigns in place. Each method is proved to return, and
    to leave the fields at, exactly what the function of the same name in
    Evaluation computes from the fields before the call, so the properties
    proved in EvaluationProps hold of the methods. */
module Interp {
  import opened Wrappers
  import opened Objects
  import Ast
  import Envs
  import LoxErrors
  import opened Evaluation
  import Tokens

  /** The native functions `Interpreter::new` declares, with their arities. */
  function Builtins(): (r: Envs.Scope<Object>)
    ensures r.Keys == {"clock", "input", "num", "rand_int", "str"}
    ensures forall name :: name in r ==> r[name].Fun? && r[name].f.native && r[name].f.name == name
  {
    map["clock" := Fun(Callee("clock", 0, true)),
        "input" := Fun(Callee("input", 1, true)),
        "num" := Fun(Callee("num", 1, true)),
        "rand_int" := Fun(Callee("rand_int", 2, true)),
        "str" := Fun(Callee("str", 1, true))]
  }

  class Interpreter {
    const host: Host
    var globals: Envs.Scope<Object>
    var locals: seq<Envs.Scope<Object>>
    var output: seq<string>

    /** The fields, as the value the functions of Evaluation work on. */
    function Snapshot(): Evaluation.State
      reads this
    {
      Evaluation.State(globals, locals, output)
    }

    /** There is always an innermost local scope. */
    predicate Valid()
      reads this
    {
      |locals| > 0
    }

    /** `Interpreter::new`: the builtins in the global scope and one empty
        local scope. */
    constructor (h: Host)
      ensures host == h && Valid()
      ensures globals == Builtins() && locals == [map[]] && output == []
    {
      host := h;
      globals := Builtins();
      locals := [map[]];
      output := [];
    }

    /** Replaces the fields by a state. */
    method Load(st: Evaluation.State)
      modifies this
      ensures Snapshot() == st
    {
      globals := st.globals;
      locals := st.locals;
      output := st.output;
    }

    // -------------------------------------------------------------------
    // Expressions

    /** `evaluate` */
    method Evaluate(e: Ast.Expr) returns (r: Out<Object>)
      modifies this
      ensures r == Eval(host, e, old(Snapshot())).out
      ensures Snapshot() == Eval(host, e, old(Snapshot())).st
      decreases e, 2
    {
      match e
      case Assign(_, _) => r := EvaluateAssign(e);
      case Binary(_, op, _) =>
        r := EvaluateBinary(e);
        if r.Raised? {
          r := Raised(LoxErrors.WithContext(r.err, op, host.exprText(e)));
        }
      case Call(_, _, _) => r := EvaluateCall(e);
      case Grouping(inner) => r := Evaluate(inner);
      case Literal(obj) => r := Value(obj);
      case Logic(_, op, _) =>
        r := EvaluateLogic(e);
        if r.Raised? {
          r := Raised(LoxErrors.WithContext(r.err, op, host.exprText(e)));
        }
      case Unary(op, _) =>
        r := EvaluateUnary(e);
        if r.Raised? {
          r := Raised(LoxErrors.WithContext(r.err, op, host.exprText(e)));
        }
      case Variable(name, depth) =>
        var scopes := if depth.Some? then locals else [globals];
        var found := Envs.ChainLookup(scopes, name.lexeme, false);
        r := if found.Success? then Value(found.value) else Raised(Carry(found.error));
    }

    /** The `Assign` arm of `evaluate` */
    method EvaluateAssign(e: Ast.Expr) returns (r: Out<Object>)
      requires e.Assign?
      modifies this
      ensures r == Evaluation.EvalAssign(host, e, old(Snapshot())).out
      ensures Snapshot() == Evaluation.EvalAssign(host, e, old(Snapshot())).st
      decreases e, 1
    {
      var val := Evaluate(e.value);
      if !val.Value? {
        return val;
      }
      var target := NameAndDepthFor(e.variable);
      if target.Failure? {
        return Raised(target.error);
      }
      var (name, depth) := target.value;
      if depth.Some? {
        var updated := Envs.ChainAssign(locals, name.lexeme, val.value, false);
        if updated.Failure? {
          return Raised(Carry(updated.error));
        }
        locals := updated.value;
      } else {
        var updated := Envs.ChainAssign([globals], name.lexeme, val.value, false);
        if updated.Failure? {
          return Raised(Carry(updated.error));
        }
        globals := updated.value[0];
      }
      r := val;
    }

    /** `eval_binary` */
    method EvaluateBinary(e: Ast.Expr) returns (r: Out<Object>)
      requires e.Binary?
      modifies this
      ensures r == Evaluation.EvalBinary(host, e, old(Snapshot())).out
      ensures Snapshot() == Evaluation.EvalBinary(host, e, old(Snapshot())).st
      decreases e, 1
    {
      var left := Evaluate(e.left);
      if !left.Value? {
        return left;
      }
      var right := Evaluate(e.right);
      if !right.Value? {
        return right;
      }
      var res := BinaryOp(e.operator.ttype, left.value, right.value, host.numDebug);
      r := if res.Success? then Value(res.value) else Raised(res.error);
    }

    /** `eval_unary` */
    method EvaluateUnary(e: Ast.Expr) returns (r: Out<Object>)
      requires e.Unary?
      modifies this
      ensures r == Evaluation.EvalUnary(host, e, old(Snapshot())).out
      ensures Snapshot() == Evaluation.EvalUnary(host, e, old(Snapshot())).st
      decreases e, 1
    {
      var right := Evaluate(e.right);
      if !right.Value? {
        return right;
      }
      var res := UnaryOp(e.operator.ttype, right.value, host.numDebug);
      r := if res.Success? then Value(res.value) else Raised(res.error);
    }

    /** `eval_logic` */
    method EvaluateLogic(e: Ast.Expr) returns (r: Out<Object>)
      requires e.Logic?
      modifies this
      ensures r == Evaluation.EvalLogic(host, e, old(Snapshot())).out
      ensures Snapshot() == Evaluation.EvalLogic(host, e, old(Snapshot())).st
      decreases e, 1
    {
      var left := Evaluate(e.left);
      if !left.Value? {
        return left;
      }
      if e.operator.ttype == Tokens.And {
        if !IsTruthy(left.value) {
          return left;
        }
      } else if IsTruthy(left.value) {
        return left;
      }
      r := Evaluate(e.right);
    }

    /** `eval_call`: the arity is checked before any argument is
        evaluated; the arguments are then evaluated in a loop, left to
        right, and handed to the host. */
    method EvaluateCall(e: Ast.Expr) returns (r: Out<Object>)
      requires e.Call?
      modifies this
      ensures r == Evaluation.EvalCall(host, e, old(Snapshot())).out
      ensures Snapshot() == Evaluation.EvalCall(host, e, old(Snapshot())).st
      decreases e, 1
    {
      var callee := Evaluate(e.callee);
      if !callee.Value? {
        return callee;
      }
      if !callee.value.Fun? {
        return Raised(LoxErrors.WithContext(LoxErrors.New("Can only call functions and classes."), e.paren, host.exprText(e.callee)));
      }
      var f := callee.value.f;
      if |e.args| != f.arity {
        return Raised(LoxErrors.WithContext(LoxErrors.New(ArityMessage(f.arity, |e.args|)), e.paren, host.exprText(e.callee)));
      }
      var args: seq<Object> := [];
      var i := 0;
      ghost var target := EvalArgs(host, e, 0, [], Snapshot());
      while i < |e.args|
        invariant i <= |e.args|
        invariant EvalArgs(host, e, i, args, Snapshot()) == target
        decreases |e.args| - i
      {
        assert e.args[i] in e.args;
        var arg := Evaluate(e.args[i]);
        if !arg.Value? {
          return arg;
        }
        args := args + [arg.value];
        i := i + 1;
      }
      var res := host.call(f, args);
      r := if res.Success? then Value(res.value) else Raised(res.error);
    }

    // -------------------------------------------------------------------
    // Statements

    /** `execute`, every loop in it bounded by `fuel` iterations. */
    method Execute(s: Ast.Stmt, fuel: nat) returns (r: Out<Object>)
      requires Valid()
      modifies this
      ensures Valid()
      ensures r == Exec(host, s, old(Snapshot()), fuel).out
      ensures Snapshot() == Exec(host, s, old(Snapshot()), fuel).st
      decreases fuel, s, 2
    {
      match s
      case Block(_) => r := ExecuteBlock(s, false, fuel);
      case ExprStmt(e) => r := Evaluate(e);
      case For(_, _, _, _) => r := ExecuteFor(s, fuel);
      case Fun(name, params, _, depth) =>
        var fobj := Fun(Callee(name.lexeme, |params|, false));
        Load(Declare(Snapshot(), name.lexeme, fobj, depth.Some?));
        r := Value(fobj);
      case If(_, _) => r := ExecuteIf(s, fuel);
      case Print(e) =>
        var o := Evaluate(e);
        if !o.Value? {
          return o;
        }
        output := output + [StringifyCliResult(o.value, host.numText)];
        r := Value(Nil);
      case Return(e) =>
        var o := Evaluate(e);
        if !o.Value? {
          return o;
        }
        r := Raised(LoxErrors.NewReturn(o.value));
      case VarDecl(variable, value) =>
        var val := Evaluate(value);
        if !val.Value? {
          return val;
        }
        var target := NameAndDepthFor(variable);
        if target.Failure? {
          return Raised(target.error);
        }
        Load(Declare(Snapshot(), target.value.0.lexeme, val.value, target.value.1.Some?));
        r := Value(Nil);
      case While(_, _) => r := ExecuteWhile(s, fuel);
    }

    /** The `While` arm of `execute`: the condition before every
        iteration. */
    method ExecuteWhile(s: Ast.Stmt, fuel: nat) returns (r: Out<Object>)
      requires s.While? && Valid()
      modifies this
      ensures Valid()
      ensures r == WhileLoop(host, s, old(Snapshot()), fuel).out
      ensures Snapshot() == WhileLoop(host, s, old(Snapshot()), fuel).st
      decreases fuel, s, 1
    {
      ghost var goal := WhileLoop(host, s, Snapshot(), fuel);
      var left: nat := fuel;
      while true
        invariant left <= fuel && Valid()
        invariant WhileLoop(host, s, Snapshot(), left) == goal
        decreases left
      {
        var c := Evaluate(s.cond);
        if !c.Value? {
          return c;
        }
        if !IsTruthy(c.value) {
          return Value(Nil);
        }
        if left == 0 {
          return Exhausted;
        }
        var x := Execute(s.block, left - 1);
        if !x.Value? {
          return x;
        }
        left := left - 1;
      }
    }

    /** The `For` arm of `execute`: a new scope, the initialiser, the loop
        (a missing condition is `true`), and the scope removed again. */
    method ExecuteFor(s: Ast.Stmt, fuel: nat) returns (r: Out<Object>)
      requires s.For? && Valid()
      modifies this
      ensures Valid()
      ensures r == Evaluation.ExecFor(host, s, old(Snapshot()), fuel).out
      ensures Snapshot() == Evaluation.ExecFor(host, s, old(Snapshot()), fuel).st
      decreases fuel, s, 1
    {
      locals := [map[]] + locals;
      if s.init.Some? {
        var x := Execute(s.init.value, fuel);
        if !x.Value? {
          return x;
        }
      }
      var looped := ForIterations(s, fuel);
      if !looped.Value? {
        return looped;
      }
      var popped := PopScope(Snapshot());
      if popped.Failure? {
        return Raised(popped.error);
      }
      Load(popped.value);
      r := Value(Nil);
    }

    /** The loop of the `For` arm; a missing condition is `true`. */
    method ForIterations(s: Ast.Stmt, fuel: nat) returns (r: Out<Object>)
      requires s.For? && Valid()
      modifies this
      ensures Valid()
      ensures r == ForLoop(host, s, old(Snapshot()), fuel).out
      ensures Snapshot() == ForLoop(host, s, old(Snapshot()), fuel).st
      decreases fuel, s, 0
    {
      var cond := if s.condition.Some? then s.condition.value else Ast.Literal(Bool(true));
      ghost var goal := ForLoop(host, s, Snapshot(), fuel);
      var left: nat := fuel;
      while true
        invariant left <= fuel && Valid()
        invariant ForLoop(host, s, Snapshot(), left) == goal
        decreases left
      {
        ghost var st0 := Snapshot();
        var c := Evaluate(cond);
        if !c.Value? {
          return c;
        }
        if !IsTruthy(c.value) {
          return Value(Nil);
        }
        if left == 0 {
          return Exhausted;
        }
        var x := Execute(s.block, left - 1);
        if !x.Value? {
          return x;
        }
        if s.inc.Some? {
          var y := Evaluate(s.inc.value);
          if !y.Value? {
            return y;
          }
        }
        assert ForLoop(host, s, st0, left) == ForLoop(host, s, Snapshot(), left - 1);
        left := left - 1;
      }
    }

    /** The `If` arm of `execute`: the conditions in order, the first
        truthy one's branch, otherwise the `else` branch or `Nil`. */
    method ExecuteIf(s: Ast.Stmt, fuel: nat) returns (r: Out<Object>)
      requires s.If? && Valid()
      modifies this
      ensures Valid()
      ensures r == Evaluation.ExecIf(host, s, 0, old(Snapshot()), fuel).out
      ensures Snapshot() == Evaluation.ExecIf(host, s, 0, old(Snapshot()), fuel).st
      decreases fuel, s, 1
    {
      ghost var goal := Evaluation.ExecIf(host, s, 0, Snapshot(), fuel);
      var i := 0;
      while i < |s.conditionals|
        invariant i <= |s.conditionals| && Valid()
        invariant Evaluation.ExecIf(host, s, i, Snapshot(), fuel) == goal
        decreases |s.conditionals| - i
      {
        assert s.conditionals[i] in s.conditionals;
        var c := Evaluate(s.conditionals[i].0);
        if !c.Value? {
          return c;
        }
        if IsTruthy(c.value) {
          r := Execute(s.conditionals[i].1, fuel);
          return;
        }
        i := i + 1;
      }
      if s.elseBlock.Some? {
        r := Execute(s.elseBlock.value, fuel);
      } else {
        r := Value(Nil);
      }
    }

    /** `_execute_block`: a new scope unless `useCurrentScope`, then every
        statement; a `Return` leaves at once, other errors are remembered;
        then the scope is removed and the last error or the last value is
        returned. */
    method ExecuteBlock(s: Ast.Stmt, useCurrentScope: bool, fuel: nat) returns (r: Out<Object>)
      requires s.Block? && Valid()
      modifies this
      ensures Valid()
      ensures r == Evaluation.ExecBlock(host, s, useCurrentScope, old(Snapshot()), fuel).out
      ensures Snapshot() == Evaluation.ExecBlock(host, s, useCurrentScope, old(Snapshot()), fuel).st
      decreases fuel, s, 1
    {
      var lastError: Option<EvalError> := None;
      var lastRes := Nil;
      if !useCurrentScope {
        locals := [map[]] + locals;
      }
      ghost var goal := BlockLoop(host, s, 0, lastRes, lastError, Snapshot(), fuel);
      var i := 0;
      while i < |s.stmts|
        invariant i <= |s.stmts| && Valid()
        invariant BlockLoop(host, s, i, lastRes, lastError, Snapshot(), fuel) == goal
        decreases |s.stmts| - i
      {
        assert s.stmts[i] in s.stmts;
        var x := Execute(s.stmts[i], fuel);
        if x.Exhausted? {
          return Exhausted;
        } else if x.Value? {
          lastRes := x.value;
        } else if x.err.Return? {
          return x;
        } else {
          lastError := Some(x.err);
        }
        i := i + 1;
      }
      if !useCurrentScope {
        var popped := PopScope(Snapshot());
        if popped.Failure? {
          return Raised(popped.error);
        }
        Load(popped.value);
      }
      r := if lastError.Some? then Raised(lastError.value) else Value(lastRes);
    }

    /** `interpret`: every statement runs; a failing one is reported and
        remembered, and the result is the last value unless one failed. */
    method Interpret(stmts: seq<Ast.Stmt>, fuel: nat) returns (v: Verdict)
      requires Valid()
      modifies this
      ensures Valid()
      ensures v == Evaluation.Interpret(host, stmts, old(Snapshot()), fuel).0
      ensures Snapshot() == Evaluation.Interpret(host, stmts, old(Snapshot()), fuel).1
    {
      var hitError := false;
      var last := Nil;
      ghost var goal := InterpretLoop(host, stmts, 0, hitError, last, Snapshot(), fuel);
      for i := 0 to |stmts|
        invariant Valid()
        invariant InterpretLoop(host, stmts, i, hitError, last, Snapshot(), fuel) == goal
      {
        var x := Execute(stmts[i], fuel);
        match x
        case Value(o) => last := o;
        case Raised(_) => hitError := true;
        case Exhausted => return RanOut;
      }
      v := Completed(if hitError then Failure(LoxErrors.LoxError.Runtime) else Success(last));
    }
  }

  /** A fresh interpreter running a program: the verdict and the printed
      lines are those of `Interpret` from the builtins and one empty local
      scope. */
  method Run(h: Host, stmts: seq<Ast.Stmt>, fuel: nat) returns (v: Verdict, printed: seq<string>)
    ensures (v, printed) == (var (w, st) := Evaluation.Interpret(h, stmts, Evaluation.State(Builtins(), [map[]], []), fuel); (w, st.output))
  {
    var interp := new Interpreter(h);
    v := interp.Interpret(stmts, fuel);
    printed := interp.output;
  }
}
