/** The parser of src/parser.rs as the object it is: a cursor into the token
    list and a stack of local scopes, both updated in place by every
    routine. Each method is proved to return, and to leave the parser in,
    exactly what the function of the same name in Grammar describes, so
    every property proved there (left associativity, the scope discipline,
    well-formed trees, no top-level `return`) holds of the methods. */
module Parsing {
  import opened Wrappers
  import opened Tokens
  import Objects
  import Ast
  import opened Grammar
  import GrammarProps

  class Parser {
    /** The tokens, in the order the iterator hands them out. */
    const toks: seq<Token>
    /** How many tokens the iterator has handed out; `prev` is the token
        just before this position. */
    var pos: nat
    /** The local scopes, innermost last. */
    var scopes: Scopes

    /** The state the functions of Grammar take and return. */
    function State(): PState
      reads this
    {
      PState(pos, scopes)
    }

    predicate Valid()
      reads this
    {
      pos <= |toks|
    }

    /** `Parser::new`: nothing handed out yet and no local scope. */
    constructor (tokens: seq<Token>)
      ensures toks == tokens && State() == PState(0, []) && Valid()
    {
      toks := tokens;
      pos := 0;
      scopes := [];
    }

    // -------------------------------------------------------------------
    // The token cursor

    /** `advance` */
    method Advance() returns (r: Res<Token>)
      requires Valid()
      modifies this
      ensures Valid() && r == Grammar.Advance(toks, old(State())).res
      ensures State() == Grammar.Advance(toks, old(State())).st
    {
      if pos < |toks| {
        r := Ok(toks[pos]);
        pos := pos + 1;
      } else {
        r := Err("advance() Expected another token!");
      }
    }

    /** `match_advance`: the next token is taken when it is of one of the
        kinds. */
    method MatchAdvance(kinds: set<TokenType>) returns (b: bool)
      requires Valid()
      modifies this
      ensures Valid() && b == Check(toks, old(State()), kinds)
      ensures State() == if b then Next(old(State())) else old(State())
    {
      b := Check(toks, State(), kinds);
      if b {
        pos := pos + 1;
      }
    }

    /** `consume` */
    method Consume(t: TokenType, msg: string) returns (r: Res<()>)
      requires Valid()
      modifies this
      ensures Valid() && r == Grammar.Consume(toks, old(State()), t, msg).res
      ensures State() == Grammar.Consume(toks, old(State()), t, msg).st
    {
      if Check(toks, State(), {t}) {
        var taken := Advance();
        r := Ok(());
      } else {
        r := ErrAtPeek<()>(toks, State(), msg).res;
      }
    }

    // -------------------------------------------------------------------
    // The scope stack

    /** `set_var`, which `declare_var` calls with `define` false and
        `define_var` with `define` true. */
    method SetVar(name: Token, define: bool) returns (r: Res<()>)
      requires Valid()
      modifies this
      ensures Valid() && r == Grammar.SetVar(old(State()), name, define).res
      ensures State() == Grammar.SetVar(old(State()), name, define).st
    {
      r := Ok(());
      if scopes == [] {
        return;
      }
      if name.ttype.Identifier? {
        var top := scopes[|scopes| - 1];
        var v := name.ttype.name;
        if !define && v in top {
          r := Err("Already a variable with this name in this scope.");
          return;
        }
        scopes := scopes[..|scopes| - 1] + [top[v := define]];
      } else {
        r := Err("Expect variable.");
      }
    }

    /** `assign_var`: every scope holding the name, from the innermost out,
        marks it defined. */
    method AssignVar(name: Token) returns (r: Res<()>)
      requires Valid()
      modifies this
      ensures Valid() && r == Grammar.AssignVar(old(State()), name).res
      ensures State() == Grammar.AssignVar(old(State()), name).st
    {
      if scopes == [] {
        return Ok(());
      }
      if !name.ttype.Identifier? {
        return Err("Expect variable.");
      }
      var v := name.ttype.name;
      var i := |scopes|;
      while i > 0
        invariant 0 <= i <= |scopes| == |old(scopes)| && pos == old(pos)
        invariant forall j :: 0 <= j < i ==> scopes[j] == old(scopes)[j]
        invariant forall j :: i <= j < |scopes| ==>
          scopes[j] == if v in old(scopes)[j] then old(scopes)[j][v := true] else old(scopes)[j]
      {
        i := i - 1;
        if v in scopes[i] {
          scopes := scopes[i := scopes[i][v := true]];
        }
      }
      assert scopes == MarkDefined(old(scopes), v);
      return Ok(());
    }

    /** `depth_for`: the scopes are searched from the innermost out, and the
        first one holding the name gives the depth. */
    method DepthFor(identifier: Token) returns (r: Res<Option<nat>>)
      ensures r == Grammar.DepthFor(scopes, identifier)
    {
      if !identifier.ttype.Identifier? {
        return Err("Expect identifier.");
      }
      var v := identifier.ttype.name;
      var i := |scopes|;
      while i > 0
        invariant 0 <= i <= |scopes|
        invariant forall j :: i <= j < |scopes| ==> v !in scopes[j]
      {
        i := i - 1;
        if v in scopes[i] {
          GrammarProps.DepthInnermost(scopes, v, |scopes| - 1 - i);
          return Ok(Some(|scopes| - 1 - i));
        }
      }
      GrammarProps.DepthNone(scopes, v);
      return Ok(None);
    }

    // -------------------------------------------------------------------
    // Error recovery

    /** `synchronize` */
    method Synchronize() returns (r: Res<()>)
      requires Valid()
      modifies this
      ensures Valid() && r == Grammar.Synchronize(toks, old(State())).res
      ensures State() == Grammar.Synchronize(toks, old(State())).st
    {
      if Check(toks, State(), {Eof}) {
        return Ok(());
      }
      var a := Advance();
      if !a.Ok? {
        return a.PropagateFailure();
      }
      r := SyncLoop();
    }

    /** The outer loop of `synchronize`: after a `{` the tokens up to its
        `}` are skipped, and the loop stops after a `;` or in front of a
        token that starts a statement. */
    method SyncLoop() returns (r: Res<()>)
      requires Valid() && 1 <= pos
      modifies this
      ensures Valid() && Parsed(r, State()) == Grammar.SyncLoop(toks, old(State()))
    {
      ghost var target := Grammar.SyncLoop(toks, State());
      while true
        invariant Valid() && 1 <= pos
        invariant Grammar.SyncLoop(toks, State()) == target
        decreases |toks| - pos
      {
        if toks[pos - 1].ttype == LeftBrace {
          var skipped := SkipBraces();
          if !skipped.Ok? {
            assert target == Parsed(skipped, State());
            return skipped;
          }
        }
        if toks[pos - 1].ttype == Semicolon {
          assert target == Parsed(Ok(()), State());
          return Ok(());
        }
        if AtSyncPoint(toks, State()) {
          assert target == Parsed(Ok(()), State());
          return Ok(());
        }
        var b := Advance();
        if !b.Ok? {
          assert target == Parsed(b.PropagateFailure(), State());
          return b.PropagateFailure();
        }
      }
    }

    /** The inner loop of `synchronize`: tokens are taken up to and
        including a `}` or the `Eof`. */
    method SkipBraces() returns (r: Res<()>)
      requires Valid()
      modifies this
      ensures Valid() && Parsed(r, State()) == Grammar.SkipBraces(toks, old(State()))
    {
      ghost var target := Grammar.SkipBraces(toks, State());
      while true
        invariant Valid() && Grammar.SkipBraces(toks, State()) == target
        decreases |toks| - pos
      {
        var next := Advance();
        if !next.Ok? {
          return next.PropagateFailure();
        }
        if next.value.ttype == RightBrace || next.value.ttype == Eof {
          return Ok(());
        }
      }
    }

    // -------------------------------------------------------------------
    // Expressions

    /** `expression` */
    method Expression() returns (r: Res<Ast.Expr>)
      requires Valid()
      modifies this
      ensures Valid() && r == Grammar.Expression(toks, old(State())).res
      ensures State() == Grammar.Expression(toks, old(State())).st
      decreases |toks| - pos, 16
    {
      r := BinaryLevel(LogicOr);
    }

    /** `logic_or`, `logic_and`, `equality`, `comparison`, `term` and
        `factor`: an operand, then a loop folding every further operator and
        operand into the expression so far. */
    method BinaryLevel(l: Level) returns (r: Res<Ast.Expr>)
      requires Valid()
      modifies this
      ensures Valid() && r == Grammar.BinaryLevel(toks, old(State()), l).res
      ensures State() == Grammar.BinaryLevel(toks, old(State()), l).st
      decreases |toks| - pos, Rank(l)
    {
      var left := Operand(l);
      if !left.Ok? {
        return left;
      }
      r := OperatorLoop(l, left.value);
    }

    /** The loop of a binary level, from the first operand on. */
    method OperatorLoop(l: Level, left: Ast.Expr) returns (r: Res<Ast.Expr>)
      requires Valid() && Ast.WellFormed(left)
      modifies this
      ensures Valid() && r == LevelRest(toks, old(State()), l, left).res
      ensures State() == LevelRest(toks, old(State()), l, left).st
      decreases |toks| - pos, 0
    {
      var expr := left;
      ghost var target := LevelRest(toks, State(), l, expr);
      while Check(toks, State(), Ops(l))
        invariant Valid() && old(pos) <= pos && Ast.WellFormed(expr)
        invariant LevelRest(toks, State(), l, expr) == target
        decreases |toks| - pos
      {
        ghost var s := State();
        var op := toks[pos];
        pos := pos + 1;
        assert State() == Next(s);
        var right := Operand(l);
        if !right.Ok? {
          return right;
        }
        expr := Build(l, expr, op, right.value);
      }
      return Ok(expr);
    }

    /** The routine a level calls for its operands. */
    method Operand(l: Level) returns (r: Res<Ast.Expr>)
      requires Valid()
      modifies this
      ensures Valid() && r == Grammar.Operand(toks, old(State()), l).res
      ensures State() == Grammar.Operand(toks, old(State()), l).st
      decreases |toks| - pos, Rank(l) - 1
    {
      match l
      case LogicOr => r := BinaryLevel(LogicAnd);
      case LogicAnd => r := Assignment();
      case Equality => r := BinaryLevel(Comparison);
      case Comparison => r := BinaryLevel(Term);
      case Term => r := BinaryLevel(Factor);
      case Factor => r := Unary();
    }

    /** `assignment` */
    method Assignment() returns (r: Res<Ast.Expr>)
      requires Valid()
      modifies this
      ensures Valid() && r == Grammar.Assignment(toks, old(State())).res
      ensures State() == Grammar.Assignment(toks, old(State())).st
      decreases |toks| - pos, 11
    {
      var e := BinaryLevel(Equality);
      if !e.Ok? {
        return e;
      }
      var expr := e.value;
      var equal := MatchAdvance({Equal});
      if equal {
        if !expr.Variable? {
          return Err("Invalid assignment target.");
        }
        var a := AssignVar(expr.name);
        if !a.Ok? {
          return a.PropagateFailure();
        }
        var value := Expression();
        if !value.Ok? {
          return value;
        }
        expr := Ast.Assign(expr, value.value);
      }
      return Ok(expr);
    }

    /** `unary` */
    method Unary() returns (r: Res<Ast.Expr>)
      requires Valid()
      modifies this
      ensures Valid() && r == Grammar.Unary(toks, old(State())).res
      ensures State() == Grammar.Unary(toks, old(State())).st
      decreases |toks| - pos, 2
    {
      var negated := MatchAdvance({Bang, Minus});
      if negated {
        var op := toks[pos - 1];
        var right := Unary();
        if !right.Ok? {
          return right;
        }
        return Ok(Ast.Unary(op, right.value));
      }
      r := Call();
    }

    /** `call`: a primary, then a call for every `(` that follows. */
    method Call() returns (r: Res<Ast.Expr>)
      requires Valid()
      modifies this
      ensures Valid() && r == Grammar.Call(toks, old(State())).res
      ensures State() == Grammar.Call(toks, old(State())).st
      decreases |toks| - pos, 1
    {
      var p := Primary();
      if !p.Ok? {
        return p;
      }
      var expr := p.value;
      ghost var target := CallRest(toks, State(), expr);
      while Check(toks, State(), {LeftParen})
        invariant Valid() && old(pos) < pos && Ast.WellFormed(expr)
        invariant CallRest(toks, State(), expr) == target
        decreases |toks| - pos
      {
        pos := pos + 1;
        var c := BuildCall(expr);
        if !c.Ok? {
          return c;
        }
        expr := c.value;
      }
      return Ok(expr);
    }

    /** `build_call`, entered after the `(`. */
    method BuildCall(callee: Ast.Expr) returns (r: Res<Ast.Expr>)
      requires Valid() && Ast.WellFormed(callee)
      modifies this
      ensures Valid() && r == Grammar.BuildCall(toks, old(State()), callee).res
      ensures State() == Grammar.BuildCall(toks, old(State()), callee).st
      decreases |toks| - pos, 19
    {
      var args: seq<Ast.Expr> := [];
      if !Check(toks, State(), {RightParen}) {
        var a := CallArgs();
        if !a.Ok? {
          return a.PropagateFailure();
        }
        args := a.value;
      }
      if Check(toks, State(), {RightParen}) {
        var paren := Advance();
        return Ok(Ast.Call(callee, paren.value, args));
      }
      return ErrAtPeek<Ast.Expr>(toks, State(), "Expect ).").res;
    }

    /** `call_args`: expressions separated by commas, at most 254. */
    method CallArgs() returns (r: Res<seq<Ast.Expr>>)
      requires Valid()
      modifies this
      ensures Valid() && r == Grammar.CallArgs(toks, old(State())).res
      ensures State() == Grammar.CallArgs(toks, old(State())).st
      decreases |toks| - pos, 18
    {
      var args: seq<Ast.Expr> := [];
      ghost var target := ArgsLoop(toks, State(), []);
      var done := false;
      while !done
        invariant Valid() && old(pos) <= pos
        invariant forall a <- args :: Ast.WellFormed(a)
        invariant !done ==> ArgsLoop(toks, State(), args) == target
        invariant done ==> target == Parsed(Ok(args), State())
        decreases !done, |toks| - pos
      {
        var e := Expression();
        if !e.Ok? {
          return e.PropagateFailure();
        }
        args := args + [e.value];
        var comma := MatchAdvance({Comma});
        done := !comma;
      }
      if |args| >= 255 {
        return Err("Can't have more than 255 arguments.");
      }
      return Ok(args);
    }

    /** `primary` */
    method Primary() returns (r: Res<Ast.Expr>)
      requires Valid()
      modifies this
      ensures Valid() && r == Grammar.Primary(toks, old(State())).res
      ensures State() == Grammar.Primary(toks, old(State())).st
      decreases |toks| - pos, 0
    {
      if Check(toks, State(), {Semicolon}) {
        return Err("Expect expression.");
      }
      var t := Advance();
      if !t.Ok? {
        return t.PropagateFailure();
      }
      var token := t.value;
      match token.ttype
      case False => r := Ok(Ast.Literal(Objects.Bool(false)));
      case Identifier(_) =>
        var depth := DepthFor(token);
        r := Ok(Ast.Variable(token, depth.value));
      case LeftParen =>
        var e := Expression();
        if !e.Ok? {
          return e;
        }
        var c := Consume(RightParen, "Expect )!");
        if !c.Ok? {
          return c.PropagateFailure();
        }
        r := Ok(Ast.Grouping(e.value));
      case Nil => r := Ok(Ast.Literal(Objects.Nil));
      case Number(n) => r := Ok(Ast.Literal(Objects.Num(n)));
      case StringLit(_) => r := Ok(Ast.Literal(Objects.Str(token.literal)));
      case True => r := Ok(Ast.Literal(Objects.Bool(true)));
      case _ => r := Err("Expect expression.");
    }

    // -------------------------------------------------------------------
    // Statements

    /** `declaration` */
    method Declaration() returns (r: Res<Ast.Stmt>)
      requires Valid()
      modifies this
      ensures Valid() && r == Grammar.Declaration(toks, old(State())).res
      ensures State() == Grammar.Declaration(toks, old(State())).st
      decreases |toks| - pos, 6
    {
      var fun := MatchAdvance({Fun});
      if fun {
        r := FunStatement();
        return;
      }
      var isVar := MatchAdvance({Var});
      if isVar {
        r := VarStatement();
        return;
      }
      r := Statement();
    }

    /** `statement` */
    method Statement() returns (r: Res<Ast.Stmt>)
      requires Valid()
      modifies this
      ensures Valid() && r == Grammar.Statement(toks, old(State())).res
      ensures State() == Grammar.Statement(toks, old(State())).st
      decreases |toks| - pos, 4
    {
      var m := MatchAdvance({Print});
      if m {
        r := PrintStatement();
        return;
      }
      if Check(toks, State(), {LeftBrace}) {
        r := Block();
        return;
      }
      m := MatchAdvance({If});
      if m {
        r := IfStatement();
        return;
      }
      m := MatchAdvance({While});
      if m {
        r := WhileStatement();
        return;
      }
      m := MatchAdvance({For});
      if m {
        r := ForStatement();
        return;
      }
      m := MatchAdvance({Return});
      if m {
        r := ReturnStatement();
        return;
      }
      r := ExprStatement();
    }

    /** `block`: a scope is pushed; a braced list of declarations, each
        failure skipped by `synchronize`, or a single statement; the scope
        is popped. The braced loop also stops when no token is left. */
    method Block() returns (r: Res<Ast.Stmt>)
      requires Valid()
      modifies this
      ensures Valid() && r == Grammar.Block(toks, old(State())).res
      ensures State() == Grammar.Block(toks, old(State())).st
      decreases |toks| - pos, if Check(toks, State(), {LeftBrace}) then 1 else 5
    {
      scopes := scopes + [map[]];
      var stmts: seq<Ast.Stmt> := [];
      var failed := false;
      var braced := MatchAdvance({LeftBrace});
      if braced {
        ghost var target := BlockLoop(toks, State(), Collected([], false));
        var done := false;
        while !done
          invariant Valid() && old(pos) < pos
          invariant forall x <- stmts :: Ast.WellFormedStmt(x)
          invariant !done ==> BlockLoop(toks, State(), Collected(stmts, failed)) == target
          invariant done ==> target == Parsed(Ok(Collected(stmts, failed)), State())
          decreases !done, |toks| - pos
        {
          var closed := MatchAdvance({RightBrace});
          if closed {
            done := true;
          } else {
            var d := Declaration();
            if d.Panic? {
              return Panic;
            }
            if d.Ok? {
              stmts := stmts + [d.value];
            } else {
              failed := true;
              var ignored := Synchronize();
            }
            done := Check(toks, State(), {Eof}) || pos == |toks|;
          }
        }
      } else {
        var st := Statement();
        if !st.Ok? {
          return st;
        }
        stmts := [st.value];
      }
      scopes := Pop(scopes);
      if failed {
        return Err("Failed while parsing block.");
      }
      return Ok(Ast.Block(stmts));
    }

    /** `for_statement`, entered after `for`. */
    method ForStatement() returns (r: Res<Ast.Stmt>)
      requires Valid()
      modifies this
      ensures Valid() && r == Grammar.ForStatement(toks, old(State())).res
      ensures State() == Grammar.ForStatement(toks, old(State())).st
      decreases |toks| - pos, 3
    {
      scopes := scopes + [map[]];
      var init := ForInit();
      if !init.Ok? {
        return init.PropagateFailure();
      }
      var clauses := ForClauses();
      if !clauses.Ok? {
        return clauses.PropagateFailure();
      }
      var blk := Block();
      if !blk.Ok? {
        return blk;
      }
      scopes := Pop(scopes);
      return Ok(Ast.For(init.value, clauses.value.0, clauses.value.1, blk.value));
    }

    /** The condition and the increment of `for_statement`, up to its `)`. */
    method ForClauses() returns (r: Res<(Option<Ast.Expr>, Option<Ast.Expr>)>)
      requires Valid()
      modifies this
      ensures Valid() && r == Grammar.ForClauses(toks, old(State())).res
      ensures State() == Grammar.ForClauses(toks, old(State())).st
    {
      var condition := ForCondition();
      if !condition.Ok? {
        return condition.PropagateFailure();
      }
      var inc := ForIncrement();
      if !inc.Ok? {
        return inc.PropagateFailure();
      }
      return Ok((condition.value, inc.value));
    }

    /** The `(` and the initialiser of `for_statement`. */
    method ForInit() returns (r: Res<Option<Ast.Stmt>>)
      requires Valid()
      modifies this
      ensures Valid() && r == Grammar.ForInit(toks, old(State())).res
      ensures State() == Grammar.ForInit(toks, old(State())).st
      decreases |toks| - pos, 2
    {
      var a := Consume(LeftParen, "Expect ( for condition.");
      if !a.Ok? {
        return a.PropagateFailure();
      }
      var semicolon := MatchAdvance({Semicolon});
      if semicolon {
        return Ok(None);
      }
      if !(Check(toks, State(), {Var}) || CheckIdentifier(toks, State())) {
        return ErrAtPeek<Option<Ast.Stmt>>(toks, State(), "Expect expression.").res;
      }
      var d := Declaration();
      if !d.Ok? {
        return d.PropagateFailure();
      }
      return Ok(Some(d.value));
    }

    /** The condition of `for_statement`, up to its `;`. */
    method ForCondition() returns (r: Res<Option<Ast.Expr>>)
      requires Valid()
      modifies this
      ensures Valid() && r == Grammar.ForCondition(toks, old(State())).res
      ensures State() == Grammar.ForCondition(toks, old(State())).st
    {
      var semicolon := MatchAdvance({Semicolon});
      if semicolon {
        return Ok(None);
      }
      var e := Expression();
      if !e.Ok? {
        return e.PropagateFailure();
      }
      var k := Consume(Semicolon, "Expect ; after for condition.");
      if !k.Ok? {
        return k.PropagateFailure();
      }
      return Ok(Some(e.value));
    }

    /** The increment of `for_statement`, up to its `)`. */
    method ForIncrement() returns (r: Res<Option<Ast.Expr>>)
      requires Valid()
      modifies this
      ensures Valid() && r == Grammar.ForIncrement(toks, old(State())).res
      ensures State() == Grammar.ForIncrement(toks, old(State())).st
    {
      var paren := MatchAdvance({RightParen});
      if paren {
        return Ok(None);
      }
      if !CheckIdentifier(toks, State()) {
        return ErrAtPeek<Option<Ast.Expr>>(toks, State(), "Expect expression.").res;
      }
      var e := Expression();
      if !e.Ok? {
        return e.PropagateFailure();
      }
      var k := Consume(RightParen, "Expect ) for end of for.");
      if !k.Ok? {
        return k.PropagateFailure();
      }
      return Ok(Some(e.value));
    }

    /** `fun_statement`, entered after `fun`. */
    method FunStatement() returns (r: Res<Ast.Stmt>)
      requires Valid()
      modifies this
      ensures Valid() && r == Grammar.FunStatement(toks, old(State())).res
      ensures State() == Grammar.FunStatement(toks, old(State())).st
      decreases |toks| - pos, 3
    {
      if !CheckIdentifier(toks, State()) {
        return ErrAtPeek<Ast.Stmt>(toks, State(), "Expect function name.").res;
      }
      var t := Advance();
      var name := t.value;
      // Defining an identifier cannot fail.
      var defined := SetVar(name, true);
      var c := Consume(LeftParen, "Expect '(' after function name.");
      if !c.Ok? {
        return c.PropagateFailure();
      }
      scopes := scopes + [map[]];
      var params := FunParams();
      if !params.Ok? {
        return params.PropagateFailure();
      }
      if !Check(toks, State(), {LeftBrace}) {
        return ErrAtPeek<Ast.Stmt>(toks, State(), "Expect '{' before function body.").res;
      }
      var body := Block();
      if !body.Ok? {
        return body;
      }
      scopes := Pop(scopes);
      var depth := if scopes == [] then None else Some(0);
      return Ok(Ast.Fun(name, params.value, body.value, depth));
    }

    /** The parameter list of `fun_statement` and its `)`. */
    method FunParams() returns (r: Res<seq<Token>>)
      requires Valid()
      modifies this
      ensures Valid() && r == Grammar.FunParams(toks, old(State())).res
      ensures State() == Grammar.FunParams(toks, old(State())).st
    {
      var params: seq<Token> := [];
      if !Check(toks, State(), {RightParen}) {
        ghost var target := ParamsLoop(toks, State(), []);
        var done := false;
        while !done
          invariant Valid()
          invariant !done ==> ParamsLoop(toks, State(), params) == target
          invariant done ==> target == Parsed(Ok(params), State())
          decreases !done, |toks| - pos
        {
          if !CheckIdentifier(toks, State()) {
            return ErrAtPeek<seq<Token>>(toks, State(), "Expect parameter name.").res;
          }
          var e := Expression();
          if !e.Ok? {
            return e.PropagateFailure();
          }
          if !e.value.Variable? {
            // The `unreachable!()` arm.
            return Panic;
          }
          var name := e.value.name;
          var declared := SetVar(name, false);
          if !declared.Ok? {
            return declared.PropagateFailure();
          }
          var defined := SetVar(name, true);
          if !defined.Ok? {
            return defined.PropagateFailure();
          }
          params := params + [name];
          var comma := MatchAdvance({Comma});
          done := !comma;
        }
        if |params| >= 255 {
          return Err("Can't have more than 255 parameters.");
        }
      }
      var k := Consume(RightParen, "Expect ')' after parameters.");
      if !k.Ok? {
        return k.PropagateFailure();
      }
      return Ok(params);
    }

    /** `var_statement`, entered after `var`. */
    method VarStatement() returns (r: Res<Ast.Stmt>)
      requires Valid()
      modifies this
      ensures Valid() && r == Grammar.VarStatement(toks, old(State())).res
      ensures State() == Grammar.VarStatement(toks, old(State())).st
    {
      if !CheckIdentifier(toks, State()) {
        if pos < |toks| {
          return Err("Expect variable name.");
        }
        // The `unwrap` of the empty iterator.
        return Panic;
      }
      var vname := toks[pos];
      var d := SetVar(vname, false);
      if !d.Ok? {
        return d.PropagateFailure();
      }
      var e := Expression();
      if !e.Ok? {
        return e.PropagateFailure();
      }
      match e.value
      case Assign(variable, value) =>
        if value.Variable? && value.name == vname {
          var depth := DepthFor(vname);
          if depth.value.Some? {
            return Err("Can't read local variable in its own initializer.");
          }
        }
        // Defining an identifier cannot fail.
        var defined := SetVar(vname, true);
        var k := Consume(Semicolon, "Expect ';' after expression.");
        if !k.Ok? {
          return k.PropagateFailure();
        }
        return Ok(Ast.VarDecl(variable, value));
      case Variable(name, depth) =>
        var f := SetVar(name, true);
        if !f.Ok? {
          return f.PropagateFailure();
        }
        var k := Consume(Semicolon, "Expect ';' after expression.");
        if !k.Ok? {
          return k.PropagateFailure();
        }
        return Ok(Ast.VarDecl(Ast.Variable(name, depth), Ast.Literal(Objects.Nil)));
      case _ =>
        return Err("Invalid declaration");
    }

    /** `print_statement`, entered after `print`. */
    method PrintStatement() returns (r: Res<Ast.Stmt>)
      requires Valid()
      modifies this
      ensures Valid() && r == Grammar.PrintStatement(toks, old(State())).res
      ensures State() == Grammar.PrintStatement(toks, old(State())).st
    {
      var e := Expression();
      if !e.Ok? {
        return e.PropagateFailure();
      }
      var k := Consume(Semicolon, "Expect ';' after expression.");
      if !k.Ok? {
        return k.PropagateFailure();
      }
      return Ok(Ast.Print(e.value));
    }

    /** `if_statement`, entered after `if`. */
    method IfStatement() returns (r: Res<Ast.Stmt>)
      requires Valid()
      modifies this
      ensures Valid() && r == Grammar.IfStatement(toks, old(State())).res
      ensures State() == Grammar.IfStatement(toks, old(State())).st
      decreases |toks| - pos, 3
    {
      var conditionals := IfLoop();
      if !conditionals.Ok? {
        return conditionals.PropagateFailure();
      }
      var hasElse := MatchAdvance({Else});
      if hasElse {
        var stmt := Statement();
        if !stmt.Ok? {
          return stmt;
        }
        return Ok(Ast.If(conditionals.value, Some(stmt.value)));
      }
      return Ok(Ast.If(conditionals.value, None));
    }

    /** The loop of `if_statement`: a parenthesised condition and a block,
        again after every `elif`. */
    method IfLoop() returns (r: Res<seq<(Ast.Expr, Ast.Stmt)>>)
      requires Valid()
      modifies this
      ensures Valid() && r == Grammar.IfLoop(toks, old(State()), []).res
      ensures State() == Grammar.IfLoop(toks, old(State()), []).st
      decreases |toks| - pos, 2
    {
      var conditionals: seq<(Ast.Expr, Ast.Stmt)> := [];
      ghost var target := Grammar.IfLoop(toks, State(), []);
      var done := false;
      while !done
        invariant Valid() && old(pos) <= pos
        invariant forall c <- conditionals :: Ast.WellFormed(c.0) && Ast.WellFormedStmt(c.1)
        invariant !done ==> Grammar.IfLoop(toks, State(), conditionals) == target
        invariant done ==> target == Parsed(Ok(conditionals), State())
        decreases !done, |toks| - pos
      {
        var a := Consume(LeftParen, "Expect ( for condition.");
        if !a.Ok? {
          return a.PropagateFailure();
        }
        var condition := Expression();
        if !condition.Ok? {
          return condition.PropagateFailure();
        }
        var k := Consume(RightParen, "Expect ) for condition.");
        if !k.Ok? {
          return k.PropagateFailure();
        }
        var blk := Block();
        if !blk.Ok? {
          return blk.PropagateFailure();
        }
        conditionals := conditionals + [(condition.value, blk.value)];
        var elif := MatchAdvance({Elif});
        done := !elif;
      }
      return Ok(conditionals);
    }

    /** `while_statement`, entered after `while`. */
    method WhileStatement() returns (r: Res<Ast.Stmt>)
      requires Valid()
      modifies this
      ensures Valid() && r == Grammar.WhileStatement(toks, old(State())).res
      ensures State() == Grammar.WhileStatement(toks, old(State())).st
      decreases |toks| - pos, 3
    {
      var a := Consume(LeftParen, "Expect ( for condition.");
      if !a.Ok? {
        return a.PropagateFailure();
      }
      var condition := Expression();
      if !condition.Ok? {
        return condition.PropagateFailure();
      }
      var k := Consume(RightParen, "Expect ) for condition.");
      if !k.Ok? {
        return k.PropagateFailure();
      }
      var blk := Block();
      if !blk.Ok? {
        return blk;
      }
      return Ok(Ast.While(condition.value, blk.value));
    }

    /** `return_statement`, entered after `return`. */
    method ReturnStatement() returns (r: Res<Ast.Stmt>)
      requires Valid()
      modifies this
      ensures Valid() && r == Grammar.ReturnStatement(toks, old(State())).res
      ensures State() == Grammar.ReturnStatement(toks, old(State())).st
    {
      if scopes == [] {
        return Err("Can't return from top-level code.");
      }
      var semicolon := MatchAdvance({Semicolon});
      if semicolon {
        return Ok(Ast.Return(Ast.Literal(Objects.Nil)));
      }
      var e := Expression();
      if !e.Ok? {
        return e.PropagateFailure();
      }
      var k := Consume(Semicolon, "Expect ';' after expression.");
      if !k.Ok? {
        return k.PropagateFailure();
      }
      return Ok(Ast.Return(e.value));
    }

    /** `expr_statement` */
    method ExprStatement() returns (r: Res<Ast.Stmt>)
      requires Valid()
      modifies this
      ensures Valid() && r == Grammar.ExprStatement(toks, old(State())).res
      ensures State() == Grammar.ExprStatement(toks, old(State())).st
    {
      var e := Expression();
      if !e.Ok? {
        return e.PropagateFailure();
      }
      var k := Consume(Semicolon, "Expect ';' after expression.");
      if !k.Ok? {
        return k.PropagateFailure();
      }
      return Ok(Ast.ExprStmt(e.value));
    }

    // -------------------------------------------------------------------
    // The whole program

    /** `parse`: declarations up to the `Eof`, each failure skipped by
        `synchronize`; the loop test panics on an exhausted token list. */
    method Parse() returns (r: ParseOutcome)
      requires Valid()
      modifies this
      ensures r == Outcome(ParseLoop(toks, old(State()), Collected([], false)))
    {
      var stmts: seq<Ast.Stmt> := [];
      var failed := false;
      ghost var target := ParseLoop(toks, State(), Collected([], false));
      var done := false;
      while !done
        invariant Valid()
        invariant forall x <- stmts :: Ast.WellFormedStmt(x)
        invariant !done ==> ParseLoop(toks, State(), Collected(stmts, failed)) == target
        invariant done ==> target == Parsed(Ok(Collected(stmts, failed)), State())
        decreases !done, |toks| - pos
      {
        if pos == |toks| {
          return ParsePanicked;
        }
        if toks[pos].ttype == Eof {
          done := true;
        } else {
          var d := Declaration();
          if d.Panic? {
            return ParsePanicked;
          }
          if d.Ok? {
            stmts := stmts + [d.value];
          } else {
            failed := true;
            var ignored := Synchronize();
          }
          done := pos == |toks|;
        }
      }
      if failed {
        return ParseFailed;
      }
      return Statements(stmts);
    }
  }

  /** `Parser::new(tokens).parse()`, as src/lox.rs runs it. */
  method ParseTokens(tokens: seq<Token>) returns (r: ParseOutcome)
    ensures r == Grammar.Parse(tokens)
  {
    var parser := new Parser(tokens);
    r := parser.Parse();
  }
}
