/** What each routine of the current interpreter (src/interpreter.rs)
    computes, as a function of the tree, the interpreter's state before
    the call, and a fuel bound on loop iterations. The class in interp.dfy
    is proved to compute exactly these.

    The state is held by value: the global scope, the chain of local
    scopes (innermost first, as src/environment.rs links them) and the
    lines printed so far. What a called function does is the host's
    `call`, applied after the arity check; how an expression and a number
    print are the host's `exprText` and `numText`, and `numDebug` is the
    `{:?}` of a number. */
module Evaluation {
  import opened Wrappers
  import Tokens
  import opened Objects
  import Ast
  import Envs
  import CErrors
  import LoxErrors
  import Text

  type EvalError = LoxErrors.EvalError

  /** The parts of the interpreter this model does not look inside. */
  datatype Host = Host(
    call: (Callee, seq<Object>) -> Result<Object, EvalError>,
    exprText: Ast.Expr -> string,
    numText: real -> string,
    numDebug: real -> string)

  /** `global_env`, `local_env` (its scopes, innermost first) and what
      `println!` has written. */
  datatype State = State(globals: Envs.Scope<Object>, locals: seq<Envs.Scope<Object>>, output: seq<string>)

  /** How a routine ends: with a value, with an `EvalError`, or, in this
      model only, with its fuel used up inside a loop. */
  datatype Out<T> = Value(value: T) | Raised(err: EvalError) | Exhausted

  /** An outcome together with the state left behind; `:-` plays the part
      of Rust's `?`. */
  datatype Step<T> = Step(out: Out<T>, st: State) {
    predicate IsFailure() { !out.Value? }

    function PropagateFailure<U>(): Step<U>
      requires IsFailure()
    {
      Step(if out.Raised? then Raised(out.err) else Exhausted, st)
    }

    function Extract(): (T, State)
      requires out.Value?
    {
      (out.value, st)
    }
  }

  // ---------------------------------------------------------------------
  // Scopes

  /** `Environment::add_scope` on `local_env` */
  function PushScope(st: State): (r: State)
    ensures r.locals == [map[]] + st.locals && r.globals == st.globals && r.output == st.output
  {
    st.(locals := [map[]] + st.locals)
  }

  /** `remove_scope` on `local_env`: the outer scope, or an error at the
      outermost one (the environment error carried over by its message). */
  function PopScope(st: State): (r: Result<State, EvalError>)
    ensures r.Success? <==> |st.locals| > 1
    ensures r.Success? ==> r.value == st.(locals := st.locals[1..])
  {
    if |st.locals| > 1 then Success(st.(locals := st.locals[1..]))
    else Failure(LoxErrors.New("Tried to remove non-existent scope from environment!"))
  }

  /** `declare` on `local_env` (when the parser resolved a depth) or on
      `global_env` (when it did not). */
  function Declare(st: State, name: string, value: Object, local: bool): (r: State)
    requires |st.locals| > 0
    ensures |r.locals| == |st.locals| && r.output == st.output
    ensures local ==> r.locals[0] == st.locals[0][name := value] && r.locals[1..] == st.locals[1..] && r.globals == st.globals
    ensures !local ==> r.globals == st.globals[name := value] && r.locals == st.locals
  {
    if local then st.(locals := [st.locals[0][name := value]] + st.locals[1..])
    else st.(globals := st.globals[name := value])
  }

  /** An environment error, as the interpreter's error with its message. */
  function Carry(e: CErrors.EvalError): (r: EvalError)
    ensures r.Runtime? && r.msg == CErrors.GetMsg(e)
    ensures CErrors.Display(e) == "Evaluation error: " + r.msg
  {
    LoxErrors.New(CErrors.GetMsg(e))
  }

  // ---------------------------------------------------------------------
  // Value helpers

  /** `is_truthy` */
  predicate IsTruthy(o: Object)
    ensures IsTruthy(o) <==> o != Nil && o != Bool(false)
  {
    match o
    case Bool(b) => b
    case Nil => false
    case _ => true
  }

  /** `is_equal`: values of one kind with equal contents; callables are
      never equal, not even to themselves. */
  predicate IsEqual(l: Object, r: Object)
    ensures IsEqual(l, r) ==> l == r && !l.Fun?
  {
    match (l, r)
    case (Bool(b1), Bool(b2)) => b1 == b2
    case (Num(n1), Num(n2)) => n1 == n2
    case (Str(s1), Str(s2)) => s1 == s2
    case (Nil, Nil) => true
    case _ => false
  }

  /** `as_num` */
  function AsNum(o: Object): (r: Result<real, EvalError>)
    ensures r.Success? <==> o.Num?
    ensures r.Success? ==> r.value == o.n
    ensures r.Failure? ==> r.error == LoxErrors.New("Operands must be numbers.")
  {
    match o
    case Num(n) => Success(n)
    case _ => Failure(LoxErrors.New("Operands must be numbers."))
  }

  /** `as_str` */
  function AsStr(o: Object): (r: Result<string, EvalError>)
    ensures r.Success? <==> o.Str?
    ensures r.Success? ==> r.value == o.s
    ensures r.Failure? ==> r.error == LoxErrors.New("Operands must be strings.")
  {
    match o
    case Str(s) => Success(s)
    case _ => Failure(LoxErrors.New("Operands must be strings."))
  }

  /** `eval_plus`: numbers add, strings concatenate, anything else fails. */
  function EvalPlus(l: Object, r: Object): (res: Result<Object, EvalError>)
    ensures res.Success? <==> (l.Num? && r.Num?) || (l.Str? && r.Str?)
    ensures l.Num? && r.Num? ==> res == Success(Num(l.n + r.n))
    ensures l.Str? && r.Str? ==> res == Success(Str(l.s + r.s))
    ensures res.Failure? ==> res.error == LoxErrors.New("Operands must be two numbers or two strings.")
  {
    var err := Failure(LoxErrors.New("Operands must be two numbers or two strings."));
    match l
    case Num(n) => (match AsNum(r) case Success(n2) => Success(Num(n + n2)) case Failure(_) => err)
    case Str(s) => (match AsStr(r) case Success(s2) => Success(Str(s + s2)) case Failure(_) => err)
    case _ => err
  }

  /** `eval_div`: the divisor is checked first, its kind and then zero,
      and only then the dividend. */
  function EvalDiv(l: Object, r: Object): (res: Result<Object, EvalError>)
    ensures !r.Num? ==> res == Failure(LoxErrors.New("Operands must be numbers."))
    ensures r.Num? && r.n == 0.0 ==> res == Failure(LoxErrors.New("Tried to divide by 0!"))
    ensures r.Num? && r.n != 0.0 ==> res == (if l.Num? then Success(Num(l.n / r.n)) else Failure(LoxErrors.New("Operands must be numbers.")))
  {
    var divisor :- AsNum(r);
    if divisor == 0.0 then Failure(LoxErrors.New("Tried to divide by 0!"))
    else
      var dividend :- AsNum(l);
      Success(Num(dividend / divisor))
  }

  /** `name_and_depth_for`: only a variable is a target. */
  function NameAndDepthFor(variable: Ast.Expr): (r: Result<(Tokens.Token, Option<nat>), EvalError>)
    ensures r.Success? <==> variable.Variable?
    ensures r.Success? ==> r.value == (variable.name, variable.depth)
    ensures r.Failure? ==> r.error == LoxErrors.New("Invalid assignment target.")
  {
    match variable
    case Variable(name, depth) => Success((name, depth))
    case _ => Failure(LoxErrors.New("Invalid assignment target."))
  }

  /** The operator table of `eval_binary`, once both operands are known;
      the left operand's kind is checked before the right one's. */
  function BinaryOp(k: Tokens.TokenType, l: Object, r: Object, numDebug: real -> string): (res: Result<Object, EvalError>)
    ensures k.BangEqual? || k.EqualEqual? ==> res.Success? && res.value.Bool?
    ensures Tokens.NumericOperator(k) ==> (res.Success? <==> l.Num? && r.Num?)
    ensures k.Slash? ==> (res.Success? <==> l.Num? && r.Num? && r.n != 0.0)
    ensures k.Plus? ==> (res.Success? <==> (l.Num? && r.Num?) || (l.Str? && r.Str?))
    ensures !Tokens.BinaryOperator(k) ==>
      res == Failure(LoxErrors.New("eval_binary: Invalid operator! " + Tokens.KindDebug(k, numDebug)))
  {
    if k.BangEqual? then Success(Bool(!IsEqual(l, r)))
    else if k.EqualEqual? then Success(Bool(IsEqual(l, r)))
    else if k.Plus? then EvalPlus(l, r)
    else if k.Slash? then EvalDiv(l, r)
    else if Tokens.NumericOperator(k) then
      var a :- AsNum(l);
      var b :- AsNum(r);
      Success(NumericResult(k, a, b))
    else Failure(LoxErrors.New("eval_binary: Invalid operator! " + Tokens.KindDebug(k, numDebug)))
  }

  /** What a comparison, `-` or `*` gives on two numbers. */
  function NumericResult(k: Tokens.TokenType, a: real, b: real): Object
    requires Tokens.NumericOperator(k)
  {
    if k.Greater? then Bool(a > b)
    else if k.GreaterEqual? then Bool(a >= b)
    else if k.Less? then Bool(a < b)
    else if k.LessEqual? then Bool(a <= b)
    else if k.Minus? then Num(a - b)
    else Num(a * b)
  }

  /** The operator table of `eval_unary`, once the operand is known. */
  function UnaryOp(k: Tokens.TokenType, r: Object, numDebug: real -> string): (res: Result<Object, EvalError>)
    ensures res.Success? <==> k.Bang? || (k.Minus? && r.Num?)
    ensures k.Bang? ==> res.value == Bool(!IsTruthy(r))
    ensures k.Minus? && r.Num? ==> res.value == Num(-r.n)
    ensures k.Minus? && !r.Num? ==> res.error == LoxErrors.New("Operand must be a number.")
    ensures !k.Bang? && !k.Minus? ==>
      res.error == LoxErrors.New("eval_unary: Invalid operator! " + Tokens.KindDebug(k, numDebug))
  {
    if k.Bang? then Success(Bool(!IsTruthy(r)))
    else if k.Minus? then
      if r.Num? then Success(Num(-r.n)) else Failure(LoxErrors.New("Operand must be a number."))
    else Failure(LoxErrors.New("eval_unary: Invalid operator! " + Tokens.KindDebug(k, numDebug)))
  }

  /** A `Result` of a helper as the outcome of a routine. */
  function Lift(r: Result<Object, EvalError>, st: State): Step<Object> {
    match r
    case Success(o) => Step(Value(o), st)
    case Failure(e) => Step(Raised(e), st)
  }

  /** An error leaving `evaluate` for a binary, logical or unary
      expression gets the operator's line and the expression's text. */
  function InContext(s: Step<Object>, op: Tokens.Token, exprStr: string): (r: Step<Object>)
    ensures r.st == s.st
    ensures s.out.Value? ==> r == s
  {
    match s.out
    case Raised(e) => Step(Raised(LoxErrors.WithContext(e, op, exprStr)), s.st)
    case _ => s
  }

  // ---------------------------------------------------------------------
  // Expressions

  /** `evaluate`. Evaluation never runs out of fuel and keeps the number
      of local scopes. */
  function Eval(h: Host, e: Ast.Expr, st: State): (r: Step<Object>)
    ensures !r.out.Exhausted? && |r.st.locals| == |st.locals|
    decreases e, 2
  {
    match e
    case Assign(_, _) => EvalAssign(h, e, st)
    case Binary(_, op, _) => InContext(EvalBinary(h, e, st), op, h.exprText(e))
    case Call(_, _, _) => EvalCall(h, e, st)
    case Grouping(inner) => Eval(h, inner, st)
    case Literal(obj) => Step(Value(obj), st)
    case Logic(_, op, _) => InContext(EvalLogic(h, e, st), op, h.exprText(e))
    case Unary(op, _) => InContext(EvalUnary(h, e, st), op, h.exprText(e))
    case Variable(name, depth) =>
      var scopes := if depth.Some? then st.locals else [st.globals];
      match Envs.ChainLookup(scopes, name.lexeme, false)
      case Success(o) => Step(Value(o), st)
      case Failure(err) => Step(Raised(Carry(err)), st)
  }

  /** The `Assign` arm: the value first, then the target, then the scope
      chain it resolved to. */
  function EvalAssign(h: Host, e: Ast.Expr, st: State): (r: Step<Object>)
    requires e.Assign?
    ensures !r.out.Exhausted? && |r.st.locals| == |st.locals|
    decreases e, 1
  {
    var (val, st1) :- Eval(h, e.value, st);
    match NameAndDepthFor(e.variable)
    case Failure(err) => Step(Raised(err), st1)
    case Success((name, depth)) =>
      if depth.Some? then
        (match Envs.ChainAssign(st1.locals, name.lexeme, val, false)
         case Success(locals) => Step(Value(val), st1.(locals := locals))
         case Failure(err) => Step(Raised(Carry(err)), st1))
      else
        match Envs.ChainAssign([st1.globals], name.lexeme, val, false)
        case Success(globals) => Step(Value(val), st1.(globals := globals[0]))
        case Failure(err) => Step(Raised(Carry(err)), st1)
  }

  /** `eval_binary`: left operand, right operand, then the operator. */
  function EvalBinary(h: Host, e: Ast.Expr, st: State): (r: Step<Object>)
    requires e.Binary?
    ensures !r.out.Exhausted? && |r.st.locals| == |st.locals|
    decreases e, 1
  {
    var (l, st1) :- Eval(h, e.left, st);
    var (r, st2) :- Eval(h, e.right, st1);
    Lift(BinaryOp(e.operator.ttype, l, r, h.numDebug), st2)
  }

  /** `eval_unary` */
  function EvalUnary(h: Host, e: Ast.Expr, st: State): (r: Step<Object>)
    requires e.Unary?
    ensures !r.out.Exhausted? && |r.st.locals| == |st.locals|
    decreases e, 1
  {
    var (o, st1) :- Eval(h, e.right, st);
    Lift(UnaryOp(e.operator.ttype, o, h.numDebug), st1)
  }

  /** `eval_logic`: the result is one of the operands, and the right one
      is evaluated only when the left one does not decide. Any operator
      other than `and` behaves as `or`. */
  function EvalLogic(h: Host, e: Ast.Expr, st: State): (r: Step<Object>)
    requires e.Logic?
    ensures !r.out.Exhausted? && |r.st.locals| == |st.locals|
    decreases e, 1
  {
    var (l, st1) :- Eval(h, e.left, st);
    if e.operator.ttype == Tokens.And then
      if !IsTruthy(l) then Step(Value(l), st1) else Eval(h, e.right, st1)
    else
      if !IsTruthy(l) then Eval(h, e.right, st1) else Step(Value(l), st1)
  }

  /** The message of a call with the wrong number of arguments. */
  function ArityMessage(arity: nat, given: nat): (r: string)
    ensures |r| == 29 + |Text.NatToString(arity)| + |Text.NatToString(given)|
    ensures r[..9] == "Expected " && r[|r| - 1] == '.'
    ensures r[9..9 + |Text.NatToString(arity)|] == Text.NatToString(arity)
    ensures r[|r| - 1 - |Text.NatToString(given)|..|r| - 1] == Text.NatToString(given)
  {
    "Expected " + Text.NatToString(arity) + " arguments but got " + Text.NatToString(given) + "."
  }

  /** `eval_call`: the callee, then the arity check, then the arguments
      from left to right, then the call itself. */
  function EvalCall(h: Host, e: Ast.Expr, st: State): (r: Step<Object>)
    requires e.Call?
    ensures !r.out.Exhausted? && |r.st.locals| == |st.locals|
    decreases e, 1
  {
    var (c, st1) :- Eval(h, e.callee, st);
    match c
    case Fun(f) =>
      if |e.args| != f.arity then
        Step(Raised(LoxErrors.WithContext(LoxErrors.New(ArityMessage(f.arity, |e.args|)), e.paren, h.exprText(e.callee))), st1)
      else
        var (objs, st2) :- EvalArgs(h, e, 0, [], st1);
        Lift(h.call(f, objs), st2)
    case _ =>
      Step(Raised(LoxErrors.WithContext(LoxErrors.New("Can only call functions and classes."), e.paren, h.exprText(e.callee))), st1)
  }

  /** The argument loop of `eval_call`: `acc` holds the values of the
      arguments before `i`. */
  function EvalArgs(h: Host, e: Ast.Expr, i: nat, acc: seq<Object>, st: State): (r: Step<seq<Object>>)
    requires e.Call? && i <= |e.args|
    ensures !r.out.Exhausted? && |r.st.locals| == |st.locals|
    ensures r.out.Value? ==> |r.out.value| == |acc| + |e.args| - i
    decreases e, 0, |e.args| - i
  {
    if i == |e.args| then Step(Value(acc), st)
    else
      assert e.args[i] in e.args;
      var (o, st1) :- Eval(h, e.args[i], st);
      EvalArgs(h, e, i + 1, acc + [o], st1)
  }

  // ---------------------------------------------------------------------
  // Statements

  /** `execute`. `fuel` bounds the iterations of every loop; running out
      is the outcome `Exhausted`. */
  function Exec(h: Host, s: Ast.Stmt, st: State, fuel: nat): (r: Step<Object>)
    requires |st.locals| > 0
    ensures |r.st.locals| > 0
    decreases fuel, s, 2
  {
    match s
    case Block(_) => ExecBlock(h, s, false, st, fuel)
    case ExprStmt(e) => Eval(h, e, st)
    case For(_, _, _, _) => ExecFor(h, s, st, fuel)
    case Fun(name, params, _, depth) =>
      var fobj := Fun(Callee(name.lexeme, |params|, false));
      Step(Value(fobj), Declare(st, name.lexeme, fobj, depth.Some?))
    case If(_, _) => ExecIf(h, s, 0, st, fuel)
    case Print(e) =>
      var (o, st1) :- Eval(h, e, st);
      Step(Value(Nil), st1.(output := st1.output + [StringifyCliResult(o, h.numText)]))
    case Return(e) =>
      var (o, st1) :- Eval(h, e, st);
      Step(Raised(LoxErrors.NewReturn(o)), st1)
    case VarDecl(variable, value) =>
      var (val, st1) :- Eval(h, value, st);
      (match NameAndDepthFor(variable)
       case Failure(err) => Step(Raised(err), st1)
       case Success((name, depth)) => Step(Value(Nil), Declare(st1, name.lexeme, val, depth.Some?)))
    case While(_, _) => WhileLoop(h, s, st, fuel)
  }

  /** The `While` arm: the condition before every iteration. */
  function WhileLoop(h: Host, s: Ast.Stmt, st: State, fuel: nat): (r: Step<Object>)
    requires s.While? && |st.locals| > 0
    ensures |r.st.locals| > 0
    decreases fuel, s, 1
  {
    var (c, st1) :- Eval(h, s.cond, st);
    if !IsTruthy(c) then Step(Value(Nil), st1)
    else if fuel == 0 then Step(Exhausted, st1)
    else
      var (_, st2) :- Exec(h, s.block, st1, fuel - 1);
      WhileLoop(h, s, st2, fuel - 1)
  }

  /** The `For` arm: a new scope, the initialiser, the loop, and the scope
      removed again, all of it only if nothing fails first. */
  function ExecFor(h: Host, s: Ast.Stmt, st: State, fuel: nat): (r: Step<Object>)
    requires s.For? && |st.locals| > 0
    ensures |r.st.locals| > 0
    decreases fuel, s, 1
  {
    var st0 := PushScope(st);
    var (_, st1) :- if s.init.Some? then Exec(h, s.init.value, st0, fuel) else Step(Value(Nil), st0);
    var (_, st2) :- ForLoop(h, s, st1, fuel);
    match PopScope(st2)
    case Success(st3) => Step(Value(Nil), st3)
    case Failure(err) => Step(Raised(err), st2)
  }

  /** The loop of the `For` arm; a missing condition is `true`. */
  function ForLoop(h: Host, s: Ast.Stmt, st: State, fuel: nat): (r: Step<Object>)
    requires s.For? && |st.locals| > 0
    ensures |r.st.locals| > 0
    decreases fuel, s, 0
  {
    var cond := if s.condition.Some? then s.condition.value else Ast.Literal(Bool(true));
    var (c, st1) :- Eval(h, cond, st);
    if !IsTruthy(c) then Step(Value(Nil), st1)
    else if fuel == 0 then Step(Exhausted, st1)
    else
      var (_, st2) :- Exec(h, s.block, st1, fuel - 1);
      var (_, st3) :- if s.inc.Some? then Eval(h, s.inc.value, st2) else Step(Value(Nil), st2);
      ForLoop(h, s, st3, fuel - 1)
  }

  /** The `If` arm from the `i`-th condition on: the first branch whose
      condition is truthy runs, and the `else` only when none is. */
  function ExecIf(h: Host, s: Ast.Stmt, i: nat, st: State, fuel: nat): (r: Step<Object>)
    requires s.If? && i <= |s.conditionals| && |st.locals| > 0
    ensures |r.st.locals| > 0
    decreases fuel, s, 1, |s.conditionals| - i
  {
    if i == |s.conditionals| then
      if s.elseBlock.Some? then Exec(h, s.elseBlock.value, st, fuel) else Step(Value(Nil), st)
    else
      assert s.conditionals[i] in s.conditionals;
      var (c, st1) :- Eval(h, s.conditionals[i].0, st);
      if IsTruthy(c) then Exec(h, s.conditionals[i].1, st1, fuel)
      else ExecIf(h, s, i + 1, st1, fuel)
  }

  /** `_execute_block` on the statements of a block: a new scope unless
      `useCurrentScope`, every statement in turn, then the scope removed
      and the last error, or else the last value, returned. */
  function ExecBlock(h: Host, s: Ast.Stmt, useCurrentScope: bool, st: State, fuel: nat): (r: Step<Object>)
    requires s.Block? && |st.locals| > 0
    ensures |r.st.locals| > 0
    decreases fuel, s, 1
  {
    var st0 := if useCurrentScope then st else PushScope(st);
    var ((lastRes, lastError), st1) :- BlockLoop(h, s, 0, Nil, None, st0, fuel);
    var st2 := if useCurrentScope then Success(st1) else PopScope(st1);
    match st2
    case Failure(err) => Step(Raised(err), st1)
    case Success(st3) =>
      if lastError.Some? then Step(Raised(lastError.value), st3) else Step(Value(lastRes), st3)
  }

  /** The statement loop of `_execute_block` from the `i`-th statement on.
      A `Return` leaves at once, without removing the block's scope; any
      other error is remembered and the loop goes on. */
  function BlockLoop(h: Host, s: Ast.Stmt, i: nat, lastRes: Object, lastError: Option<EvalError>, st: State, fuel: nat)
    : (r: Step<(Object, Option<EvalError>)>)
    requires s.Block? && i <= |s.stmts| && |st.locals| > 0
    ensures |r.st.locals| > 0
    ensures r.out.Raised? ==> r.out.err.Return?
    decreases fuel, s, 0, |s.stmts| - i
  {
    if i == |s.stmts| then Step(Value((lastRes, lastError)), st)
    else
      assert s.stmts[i] in s.stmts;
      var x := Exec(h, s.stmts[i], st, fuel);
      match x.out
      case Value(o) => BlockLoop(h, s, i + 1, o, lastError, x.st, fuel)
      case Exhausted => Step(Exhausted, x.st)
      case Raised(err) =>
        if err.Return? then Step(Raised(err), x.st)
        else BlockLoop(h, s, i + 1, lastRes, Some(err), x.st, fuel)
  }

  /** What `interpret` returns, or that the fuel ran out. */
  datatype Verdict = Completed(res: Result<Object, LoxErrors.LoxError>) | RanOut

  /** `interpret` from the `i`-th statement on: every statement runs; an
      error is reported and remembered, and the result is the last value
      unless some statement failed. */
  function InterpretLoop(h: Host, stmts: seq<Ast.Stmt>, i: nat, hitError: bool, last: Object, st: State, fuel: nat)
    : (r: (Verdict, State))
    requires i <= |stmts| && |st.locals| > 0
    ensures |r.1.locals| > 0
    decreases |stmts| - i
  {
    if i == |stmts| then
      (Completed(if hitError then Failure(LoxErrors.LoxError.Runtime) else Success(last)), st)
    else
      var x := Exec(h, stmts[i], st, fuel);
      match x.out
      case Value(o) => InterpretLoop(h, stmts, i + 1, hitError, o, x.st, fuel)
      case Raised(_) => InterpretLoop(h, stmts, i + 1, true, last, x.st, fuel)
      case Exhausted => (RanOut, x.st)
  }

  function Interpret(h: Host, stmts: seq<Ast.Stmt>, st: State, fuel: nat): (r: (Verdict, State))
    requires |st.locals| > 0
    ensures |r.1.locals| > 0
    ensures stmts == [] ==> r == (Completed(Success(Nil)), st)
  {
    InterpretLoop(h, stmts, 0, false, Nil, st, fuel)
  }
}
