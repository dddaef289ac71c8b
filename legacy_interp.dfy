/** The interpreter of lox-rust/src/interpreter.rs. Expressions are
    evaluated by pure functions against the one scope the interpreter
    has; statements change that scope and the printed lines, so they are
    methods of a class whose fields are the scope and the output, proved
    to do exactly what the functions `Exec` and `Outcomes` say.

    The tree is the one the interpreter matches on: it reads a `Variable`
    expression and a `Literal` holding a value, which the tree of
    lox-rust/src/expr.rs does not declare, and it executes the four
    statement kinds it has arms for. */
module LegacyInterp {
  import opened Wrappers
  import Tokens
  import opened LegacyObjects
  import Envs
  import CErrors
  import Text

  datatype Expr =
    | Binary(left: Expr, operator: Tokens.Token, right: Expr)
    | Grouping(expression: Expr)
    | Literal(value: Object)
    | Unary(operator: Tokens.Token, right: Expr)
    | Variable(name: string)

  datatype Stmt =
    | VarDeclStmt(variable: Expr, value: Expr)
    | AssignStmt(variable: Expr, value: Expr)
    | ExprStmt(expr: Expr)
    | PrintStmt(expr: Expr)

  /** What the model does not look inside: how an expression prints
      (`to_string`), and how a number prints with `{}` and with `{:?}`. */
  datatype Host = Host(exprText: Expr -> string, numText: real -> string, numDebug: real -> string)

  type EvalError = CErrors.EvalError

  /** `{:?}` of a value, as `#[derive(Debug)]` writes it. */
  function ObjectDebug(o: Object, numDebug: real -> string): (r: string)
    ensures o.Nil? ==> r == "Nil"
    ensures o.Str? ==> r == "Str(" + Text.DebugQuote(o.s) + ")"
    ensures o.Bool? ==> r == if o.b then "Bool(true)" else "Bool(false)"
  {
    match o
    case Nil => "Nil"
    case Str(s) => "Str(" + Text.DebugQuote(s) + ")"
    case Num(n) => "Num(" + numDebug(n) + ")"
    case Bool(b) => if b then "Bool(true)" else "Bool(false)"
  }

  /** `is_truthy` */
  predicate IsTruthy(o: Object): (b: bool)
    ensures !b <==> o == Nil || o == Bool(false)
  {
    match o
    case Bool(b) => b
    case Num(_) => true
    case Str(_) => true
    case Nil => false
  }

  /** `is_equal`: values of one kind with equal contents, which is
      exactly equality of the values. */
  predicate IsEqual(l: Object, r: Object): (b: bool)
    ensures b <==> l == r
  {
    match (l, r)
    case (Nil, Nil) => true
    case (Num(n1), Num(n2)) => n1 == n2
    case (Str(s1), Str(s2)) => s1 == s2
    case (Bool(b1), Bool(b2)) => b1 == b2
    case _ => false
  }

  /** `as_num` */
  function AsNum(o: Object, numDebug: real -> string): (r: Result<real, EvalError>)
    ensures r.Success? <==> o.Num?
    ensures r.Success? ==> r.value == o.n
    ensures r.Failure? ==> r.error == CErrors.New("Expected number, got " + ObjectDebug(o, numDebug))
  {
    match o
    case Num(n) => Success(n)
    case _ => Failure(CErrors.New("Expected number, got " + ObjectDebug(o, numDebug)))
  }

  /** `as_str` */
  function AsStr(o: Object, numDebug: real -> string): (r: Result<string, EvalError>)
    ensures r.Success? <==> o.Str?
    ensures r.Success? ==> r.value == o.s
    ensures r.Failure? ==> r.error == CErrors.New("Expected String, got " + ObjectDebug(o, numDebug))
  {
    match o
    case Str(s) => Success(s)
    case _ => Failure(CErrors.New("Expected String, got " + ObjectDebug(o, numDebug)))
  }

  /** `eval_plus`: the left operand decides what the right one must be. */
  function EvalPlus(l: Object, r: Object, numDebug: real -> string): (res: Result<Object, EvalError>)
    ensures res.Success? <==> (l.Num? && r.Num?) || (l.Str? && r.Str?)
    ensures l.Num? && r.Num? ==> res == Success(Num(l.n + r.n))
    ensures l.Str? && r.Str? ==> res == Success(Str(l.s + r.s))
    ensures l.Num? && !r.Num? ==> res == Failure(CErrors.New("Expected number, got " + ObjectDebug(r, numDebug)))
    ensures l.Str? && !r.Str? ==> res == Failure(CErrors.New("Expected String, got " + ObjectDebug(r, numDebug)))
    ensures !l.Num? && !l.Str? ==>
      res == Failure(CErrors.New("eval_plus: Tried to add " + ObjectDebug(l, numDebug) + " and " + ObjectDebug(r, numDebug) + "!"))
  {
    match l
    case Num(n) => var n2 :- AsNum(r, numDebug); Success(Num(n + n2))
    case Str(s) => var s2 :- AsStr(r, numDebug); Success(Str(s + s2))
    case _ => Failure(CErrors.New("eval_plus: Tried to add " + ObjectDebug(l, numDebug) + " and " + ObjectDebug(r, numDebug) + "!"))
  }

  /** `eval_div`: the divisor's kind, then zero, then the dividend. */
  function EvalDiv(l: Object, r: Object, numDebug: real -> string): (res: Result<Object, EvalError>)
    ensures !r.Num? ==> res == Failure(CErrors.New("Expected number, got " + ObjectDebug(r, numDebug)))
    ensures r.Num? && r.n == 0.0 ==> res == Failure(CErrors.New("eval_div: Tried to divide by 0!"))
    ensures r.Num? && r.n != 0.0 && !l.Num? ==> res == Failure(CErrors.New("Expected number, got " + ObjectDebug(l, numDebug)))
    ensures r.Num? && r.n != 0.0 && l.Num? ==> res == Success(Num(l.n / r.n))
  {
    var divisor :- AsNum(r, numDebug);
    if divisor == 0.0 then Failure(CErrors.New("eval_div: Tried to divide by 0!"))
    else
      var dividend :- AsNum(l, numDebug);
      Success(Num(dividend / divisor))
  }

  /** The operator table of `eval_binary`, once both operands are known. */
  function BinaryOp(k: Tokens.TokenType, l: Object, r: Object, h: Host): (res: Result<Object, EvalError>)
    ensures k.EqualEqual? ==> res == Success(Bool(l == r))
    ensures k.BangEqual? ==> res == Success(Bool(l != r))
    ensures Tokens.NumericOperator(k) ==> (res.Success? <==> l.Num? && r.Num?)
    ensures k.Slash? ==> (res.Success? <==> l.Num? && r.Num? && r.n != 0.0)
    ensures k.Plus? ==> (res.Success? <==> (l.Num? && r.Num?) || (l.Str? && r.Str?))
    ensures !Tokens.BinaryOperator(k) ==>
      res == Failure(CErrors.New("eval_binary: Invalid operator! " + Tokens.KindDebug(k, h.numDebug)))
  {
    if k.Minus? || k.Star? || k.Greater? || k.GreaterEqual? || k.Less? || k.LessEqual? then
      var a :- AsNum(l, h.numDebug);
      var b :- AsNum(r, h.numDebug);
      Success(NumericResult(k, a, b))
    else if k.Plus? then EvalPlus(l, r, h.numDebug)
    else if k.Slash? then EvalDiv(l, r, h.numDebug)
    else if k.EqualEqual? then Success(Bool(IsEqual(l, r)))
    else if k.BangEqual? then Success(Bool(!IsEqual(l, r)))
    else Failure(CErrors.New("eval_binary: Invalid operator! " + Tokens.KindDebug(k, h.numDebug)))
  }

  /** What a comparison, `-` or `*` gives on two numbers. */
  function NumericResult(k: Tokens.TokenType, a: real, b: real): Object
    requires Tokens.NumericOperator(k)
  {
    if k.Minus? then Num(a - b)
    else if k.Star? then Num(a * b)
    else if k.Greater? then Bool(a > b)
    else if k.GreaterEqual? then Bool(a >= b)
    else if k.Less? then Bool(a < b)
    else Bool(a <= b)
  }

  /** The operator table of `eval_unary`, once the operand is known. */
  function UnaryOp(k: Tokens.TokenType, r: Object, h: Host): (res: Result<Object, EvalError>)
    ensures res.Success? <==> k.Bang? || (k.Minus? && r.Num?)
    ensures k.Bang? ==> res.value == Bool(!IsTruthy(r))
    ensures k.Minus? && r.Num? ==> res.value == Num(-r.n)
    ensures k.Minus? && !r.Num? ==> res.error == CErrors.New("Expected number, got " + ObjectDebug(r, h.numDebug))
    ensures !k.Bang? && !k.Minus? ==>
      res.error == CErrors.New("eval_unary: Invalid operator! " + Tokens.KindDebug(k, h.numDebug))
  {
    if k.Minus? then
      var a :- AsNum(r, h.numDebug);
      Success(Num(-a))
    else if k.Bang? then Success(Bool(!IsTruthy(r)))
    else Failure(CErrors.New("eval_unary: Invalid operator! " + Tokens.KindDebug(k, h.numDebug)))
  }

  /** An error leaving a binary or unary expression gets that
      expression's operator and text as its context. */
  function InContext(r: Result<Object, EvalError>, op: Tokens.Token, exprStr: string): (res: Result<Object, EvalError>)
    ensures r.Success? ==> res == r
    ensures r.Failure? ==> res == Failure(CErrors.AddContext(r.error, op, exprStr))
  {
    match r
    case Success(_) => r
    case Failure(e) => Failure(CErrors.AddContext(e, op, exprStr))
  }

  /** `evaluate`, against the interpreter's scope. */
  function Eval(h: Host, e: Expr, env: Envs.Scope<Object>): (r: Result<Object, EvalError>)
    ensures e.Literal? ==> r == Success(e.value)
    ensures e.Variable? ==> (r.Success? <==> e.name in env)
    ensures e.Variable? && e.name in env ==> r.value == env[e.name]
  {
    match e
    case Binary(left, op, right) =>
      var res := (var l :- Eval(h, left, env); var r :- Eval(h, right, env); BinaryOp(op.ttype, l, r, h));
      InContext(res, op, h.exprText(e))
    case Grouping(inner) => Eval(h, inner, env)
    case Literal(value) => Success(value)
    case Variable(name) =>
      (match Envs.ChainLookup([env], name, true)
       case Success(o) => Success(o)
       case Failure(err) => Failure(err))
    case Unary(op, right) =>
      var res := (var r :- Eval(h, right, env); UnaryOp(op.ttype, r, h));
      InContext(res, op, h.exprText(e))
  }

  /** The interpreter's scope and the lines printed so far. */
  datatype State = State(env: Envs.Scope<Object>, output: seq<string>)

  datatype Step = Step(res: Result<Object, EvalError>, st: State)

  /** `execute`: a declaration or an assignment first checks that its
      target is a variable, then evaluates the value. */
  function Exec(h: Host, s: Stmt, st: State): (r: Step)
    ensures r.res.Failure? ==> r.st == st
    ensures st.env.Keys <= r.st.env.Keys
    ensures s.ExprStmt? ==> r.st == st
    ensures !s.PrintStmt? ==> r.st.output == st.output
  {
    match s
    case VarDeclStmt(variable, value) =>
      if !variable.Variable? then Step(Failure(CErrors.New("Expect declaration to declare variable.")), st)
      else
        (match Eval(h, value, st.env)
         case Failure(err) => Step(Failure(err), st)
         case Success(val) => Step(Success(Nil), st.(env := st.env[variable.name := val])))
    case AssignStmt(variable, value) =>
      if !variable.Variable? then Step(Failure(CErrors.New("Expect assignment to assign to variable.")), st)
      else
        (match Eval(h, value, st.env)
         case Failure(err) => Step(Failure(err), st)
         case Success(val) =>
           match Envs.ChainAssign([st.env], variable.name, val, true)
           case Failure(err) => Step(Failure(err), st)
           case Success(scopes) => Step(Success(Nil), st.(env := scopes[0])))
    case ExprStmt(expr) => Step(Eval(h, expr, st.env), st)
    case PrintStmt(expr) =>
      match Eval(h, expr, st.env)
      case Failure(err) => Step(Failure(err), st)
      case Success(o) => Step(Success(Nil), st.(output := st.output + [StringifyCliResult(o, h.numText)]))
  }

  /** A failing statement changes nothing, and only `print` prints. */
  lemma ExecFrame(h: Host, s: Stmt, st: State)
    ensures Exec(h, s, st).res.Failure? ==> Exec(h, s, st).st == st
    ensures !s.PrintStmt? ==> Exec(h, s, st).st.output == st.output
    ensures s.PrintStmt? && Exec(h, s, st).res.Success? ==>
      Eval(h, s.expr, st.env).Success? &&
      Exec(h, s, st).st.output == st.output + [StringifyCliResult(Eval(h, s.expr, st.env).value, h.numText)]
  {
  }

  /** A declaration or an assignment succeeds only on a variable target,
      before its value is looked at; it then binds the value, and a
      declared name reads back as that value. */
  lemma DeclarationBinds(h: Host, s: Stmt, st: State)
    requires s.VarDeclStmt? || s.AssignStmt?
    ensures !s.variable.Variable? ==> Exec(h, s, st).res.Failure? && Exec(h, s, st).st == st
    ensures Exec(h, s, st).res.Success? ==>
      s.variable.Variable? && Eval(h, s.value, st.env).Success? && Exec(h, s, st).res.value == Nil &&
      Exec(h, s, st).st == st.(env := st.env[s.variable.name := Eval(h, s.value, st.env).value]) &&
      Eval(h, s.variable, Exec(h, s, st).st.env) == Eval(h, s.value, st.env)
  {
  }

  /** An assignment never creates a binding: it fails on an undeclared
      name and keeps the set of declared names otherwise. */
  lemma AssignNeverCreates(h: Host, s: Stmt, st: State)
    requires s.AssignStmt? && s.variable.Variable?
    ensures s.variable.name !in st.env ==>
      Exec(h, s, st).res.Failure? && Exec(h, s, st).st == st
    ensures Exec(h, s, st).st.env.Keys == st.env.Keys
  {
  }

  /** The line `interpret` prints after a failed statement. */
  const ErrorBanner := "\n\U{1B}[1;31merror\U{1B}[0m: could not interpret due to previous error"

  /** What `interpret` prints after one statement: the value in a REPL,
      the banner after an error. */
  function Report(isRepl: bool, res: Result<Object, EvalError>, output: seq<string>, numText: real -> string): (r: seq<string>)
    ensures res.Failure? ==> r == output + [ErrorBanner]
    ensures res.Success? ==> r == if isRepl then output + ["val: " + StringifyCliResult(res.value, numText)] else output
  {
    match res
    case Success(o) => if isRepl then output + ["val: " + StringifyCliResult(o, numText)] else output
    case Failure(_) => output + [ErrorBanner]
  }

  /** The result of every statement in turn, and the state after all of
      them, each statement starting from the state the one before left. */
  function Outcomes(h: Host, isRepl: bool, stmts: seq<Stmt>, st: State): (r: (seq<Result<Object, EvalError>>, State))
    ensures |r.0| == |stmts|
    ensures |stmts| > 0 ==> r.0[0] == Exec(h, stmts[0], st).res
  {
    if stmts == [] then ([], st)
    else
      var x := Exec(h, stmts[0], st);
      var next := x.st.(output := Report(isRepl, x.res, x.st.output, h.numText));
      var rest := Outcomes(h, isRepl, stmts[1..], next);
      ([x.res] + rest.0, rest.1)
  }

  /** What `interpret` returns: `Ok(())` when some statement failed and
      `Err(())` when none did, the reverse of what the names suggest. */
  function Verdict(results: seq<Result<Object, EvalError>>): (r: Result<(), ()>)
    ensures r.Success? <==> exists i :: 0 <= i < |results| && results[i].Failure?
    ensures r == Success(()) || r == Failure(())
  {
    if results == [] then Failure(())
    else if results[0].Failure? then Success(())
    else
      var r := Verdict(results[1..]);
      assert forall i :: 1 <= i < |results| ==> results[i] == results[1..][i - 1];
      r
  }

  /** One more result fails the verdict exactly when it or an earlier one
      failed. */
  lemma VerdictSnoc(results: seq<Result<Object, EvalError>>, x: Result<Object, EvalError>)
    ensures Verdict(results + [x]).Success? <==> Verdict(results).Success? || x.Failure?
  {
    var all := results + [x];
    if x.Failure? {
      assert all[|results|].Failure?;
    }
    if Verdict(all).Success? {
      var i :| 0 <= i < |all| && all[i].Failure?;
      if i < |results| {
        assert results[i].Failure?;
      }
    }
    if Verdict(results).Success? {
      var i :| 0 <= i < |results| && results[i].Failure?;
      assert all[i].Failure?;
    }
  }

  /** `Outcomes` from the `i`-th statement is that statement's step
      followed by `Outcomes` from the next one. */
  lemma OutcomesStep(h: Host, isRepl: bool, stmts: seq<Stmt>, i: nat, st: State, x: Step)
    requires i < |stmts| && x == Exec(h, stmts[i], st)
    ensures var next := x.st.(output := Report(isRepl, x.res, x.st.output, h.numText));
            Outcomes(h, isRepl, stmts[i..], st) ==
              ([x.res] + Outcomes(h, isRepl, stmts[i + 1..], next).0, Outcomes(h, isRepl, stmts[i + 1..], next).1)
  {
    assert stmts[i..][1..] == stmts[i + 1..];
  }

  lemma ResultsAssoc(a: seq<Result<Object, EvalError>>, b: seq<Result<Object, EvalError>>, c: seq<Result<Object, EvalError>>)
    ensures a + (b + c) == (a + b) + c
  {
  }

  class Interpreter {
    const isRepl: bool
    const host: Host
    var env: Envs.Scope<Object>
    var output: seq<string>

    function Snapshot(): State
      reads this
    {
      State(env, output)
    }

    /** `Interpreter::new`: one empty scope. */
    constructor (repl: bool, h: Host)
      ensures isRepl == repl && host == h && env == map[] && output == []
    {
      isRepl := repl;
      host := h;
      env := map[];
      output := [];
    }

    /** `execute` */
    method Execute(s: Stmt) returns (r: Result<Object, EvalError>)
      modifies this
      ensures r == Exec(host, s, old(Snapshot())).res
      ensures Snapshot() == Exec(host, s, old(Snapshot())).st
    {
      match s
      case VarDeclStmt(variable, value) =>
        if !variable.Variable? {
          return Failure(CErrors.New("Expect declaration to declare variable."));
        }
        var val := Eval(host, value, env);
        if val.Failure? {
          return Failure(val.error);
        }
        env := env[variable.name := val.value];
        r := Success(Nil);
      case AssignStmt(variable, value) =>
        if !variable.Variable? {
          return Failure(CErrors.New("Expect assignment to assign to variable."));
        }
        var val := Eval(host, value, env);
        if val.Failure? {
          return Failure(val.error);
        }
        if variable.name !in env {
          return Failure(CErrors.New(Envs.UndefinedMessage(true, variable.name)));
        }
        env := env[variable.name := val.value];
        r := Success(Nil);
      case ExprStmt(expr) =>
        r := Eval(host, expr, env);
      case PrintStmt(expr) =>
        var o := Eval(host, expr, env);
        if o.Failure? {
          return Failure(o.error);
        }
        output := output + [StringifyCliResult(o.value, host.numText)];
        r := Success(Nil);
    }

    /** `interpret`: every statement runs, and a flag records whether one
        failed. */
    method Interpret(stmts: seq<Stmt>) returns (r: Result<(), ()>)
      modifies this
      ensures r == Verdict(Outcomes(host, isRepl, stmts, old(Snapshot())).0)
      ensures Snapshot() == Outcomes(host, isRepl, stmts, old(Snapshot())).1
    {
      var hitError := false;
      ghost var target := Outcomes(host, isRepl, stmts, Snapshot());
      ghost var done: seq<Result<Object, EvalError>> := [];
      for i := 0 to |stmts|
        invariant |done| == i
        invariant target.0 == done + Outcomes(host, isRepl, stmts[i..], Snapshot()).0
        invariant target.1 == Outcomes(host, isRepl, stmts[i..], Snapshot()).1
        invariant hitError == Verdict(done).Success?
      {
        ghost var before := Snapshot();
        var res := Execute(stmts[i]);
        OutcomesStep(host, isRepl, stmts, i, before, Step(res, Snapshot()));
        output := Report(isRepl, res, output, host.numText);
        if res.Failure? {
          hitError := true;
        }
        ghost var rest := Outcomes(host, isRepl, stmts[i + 1..], Snapshot());
        ResultsAssoc(done, [res], rest.0);
        VerdictSnoc(done, res);
        done := done + [res];
      }
      assert stmts[|stmts|..] == [];
      assert done + [] == done;
      r := if hitError then Success(()) else Failure(());
    }
  }

  /** `Interpreter::new(is_repl).interpret(stmts)` */
  method Run(isRepl: bool, h: Host, stmts: seq<Stmt>) returns (r: Result<(), ()>, printed: seq<string>)
    ensures (r, printed) == (var (results, st) := Outcomes(h, isRepl, stmts, State(map[], [])); (Verdict(results), st.output))
  {
    var interp := new Interpreter(isRepl, h);
    r := interp.Interpret(stmts);
    printed := interp.output;
  }
}
