/** What each routine of the current parser (src/parser.rs) returns, as a
    function of the token list and of the parser state before the call: the
    cursor into the token list and the stack of local scopes. The class in
    parsing.dfy is proved to compute exactly these. */
module Grammar {
  import opened Wrappers
  import opened Tokens
  import Objects
  import Ast

  /** Every local scope maps a name to whether its definition is complete. */
  type Scopes = seq<map<string, bool>>

  /** The parser state: how many tokens the iterator has handed out, and
      the stack of local scopes (the global scope is not on it). The
      `prev` field of the parser is always the token just before the
      cursor, so it is read as `toks[pos - 1]`. */
  datatype PState = PState(pos: nat, scopes: Scopes)

  /** How a routine ends: with a value, with a `ParseError` carrying its
      message, or with a Rust panic. */
  datatype Res<T> = Ok(value: T) | Err(msg: string) | Panic {
    predicate IsFailure() { !Ok? }

    function PropagateFailure<U>(): Res<U>
      requires IsFailure()
    {
      match this
      case Err(m) => Err(m)
      case Panic => Panic
    }

    function Extract(): T
      requires Ok?
    {
      value
    }
  }

  /** A routine's outcome together with the state it leaves behind. The
      `:-` operator on it plays the part of Rust's `?`. */
  datatype Parsed<T> = Parsed(res: Res<T>, st: PState) {
    predicate IsFailure() { !res.Ok? }

    function PropagateFailure<U>(): Parsed<U>
      requires IsFailure()
    {
      Parsed(res.PropagateFailure(), st)
    }

    function Extract(): (T, PState)
      requires res.Ok?
    {
      (res.value, st)
    }
  }

  // ---------------------------------------------------------------------
  // The token cursor

  /** Moves past one token; the scope stack stays. */
  function Next(s: PState): (r: PState)
    ensures r.pos == s.pos + 1 && r.scopes == s.scopes
  {
    s.(pos := s.pos + 1)
  }

  /** `check`: the next token is one of the kinds; false at the end. */
  function Check(toks: seq<Token>, s: PState, kinds: set<TokenType>): (r: bool)
    ensures r ==> s.pos < |toks|
    ensures kinds == {} ==> !r
  {
    s.pos < |toks| && toks[s.pos].ttype in kinds
  }

  /** `check_identifier` */
  function CheckIdentifier(toks: seq<Token>, s: PState): (r: bool)
    ensures r ==> s.pos < |toks| && !Check(toks, s, {Eof})
  {
    s.pos < |toks| && toks[s.pos].ttype.Identifier?
  }

  /** `peek` */
  function Peek(toks: seq<Token>, s: PState): (r: Res<Token>)
    ensures r.Ok? <==> Advance(toks, s).res.Ok?
    ensures r.Ok? ==> r == Advance(toks, s).res
    ensures !r.Ok? ==> r == Err("peek() Expected another token!")
  {
    if s.pos < |toks| then Ok(toks[s.pos]) else Err("peek() Expected another token!")
  }

  /** `perror(self.peek()?.clone(), msg)`: the error names the next token,
      and with no token left the `?` on `peek` reports that instead. */
  function ErrAtPeek<T>(toks: seq<Token>, s: PState, msg: string): (r: Parsed<T>)
    ensures r.st == s && r.res.Err?
  {
    Parsed(if s.pos < |toks| then Err(msg) else Err("peek() Expected another token!"), s)
  }

  /** `advance` */
  function Advance(toks: seq<Token>, s: PState): (r: Parsed<Token>)
    ensures r.res.Ok? <==> s.pos < |toks|
    ensures r.res.Ok? ==> r.res.value == toks[s.pos] && r.st == Next(s)
    ensures !r.res.Ok? ==> r == Parsed(Err("advance() Expected another token!"), s)
  {
    if s.pos < |toks| then Parsed(Ok(toks[s.pos]), Next(s))
    else Parsed(Err("advance() Expected another token!"), s)
  }

  /** `consume` */
  function Consume(toks: seq<Token>, s: PState, t: TokenType, msg: string): (r: Parsed<()>)
    ensures r.res.Ok? <==> Check(toks, s, {t})
    ensures r.res.Ok? ==> r.st == Next(s)
    ensures !r.res.Ok? ==> r.st == s && r.res.Err?
  {
    if Check(toks, s, {t}) then Parsed(Ok(()), Next(s)) else ErrAtPeek(toks, s, msg)
  }

  // ---------------------------------------------------------------------
  // The scope stack

  /** `Vec::pop` on the scope stack. */
  function Pop(scopes: Scopes): (r: Scopes)
    ensures scopes != [] ==> r == scopes[..|scopes| - 1]
    ensures scopes == [] ==> r == []
  {
    if scopes == [] then [] else scopes[..|scopes| - 1]
  }

  /** `set_var`: `declare_var` (define = false) and `define_var` (define =
      true) record the name in the innermost scope; a declaration of a name
      the innermost scope already holds is refused. With no local scope
      nothing happens. */
  function SetVar(s: PState, name: Token, define: bool): (r: Parsed<()>)
    ensures r.st.pos == s.pos && |r.st.scopes| == |s.scopes|
    ensures r.res.Ok? || r.res.Err?
    ensures define && name.ttype.Identifier? ==> r.res.Ok?
  {
    if s.scopes == [] then Parsed(Ok(()), s)
    else if name.ttype.Identifier? then
      var top := s.scopes[|s.scopes| - 1];
      var v := name.ttype.name;
      if !define && v in top then Parsed(Err("Already a variable with this name in this scope."), s)
      else Parsed(Ok(()), s.(scopes := s.scopes[..|s.scopes| - 1] + [top[v := define]]))
    else Parsed(Err("Expect variable."), s)
  }

  /** Every scope that holds the name with that name marked defined. */
  function MarkDefined(scopes: Scopes, v: string): (r: Scopes)
    ensures |r| == |scopes|
    ensures forall i :: 0 <= i < |scopes| ==> r[i] == (if v in scopes[i] then scopes[i][v := true] else scopes[i])
  {
    seq(|scopes|, i requires 0 <= i < |scopes| => if v in scopes[i] then scopes[i][v := true] else scopes[i])
  }

  /** `assign_var` */
  function AssignVar(s: PState, name: Token): (r: Parsed<()>)
    ensures r.st.pos == s.pos && |r.st.scopes| == |s.scopes|
  {
    if s.scopes == [] then Parsed(Ok(()), s)
    else if name.ttype.Identifier? then Parsed(Ok(()), s.(scopes := MarkDefined(s.scopes, name.ttype.name)))
    else Parsed(Err("Expect variable."), s)
  }

  /** How many scopes out from the innermost the nearest scope holding the
      name is. */
  function Depth(scopes: Scopes, v: string): (r: Option<nat>)
    ensures r.Some? ==> r.value < |scopes| && v in scopes[|scopes| - 1 - r.value]
  {
    if scopes == [] then None
    else if v in scopes[|scopes| - 1] then Some(0)
    else match Depth(scopes[..|scopes| - 1], v)
      case Some(d) => Some(d + 1)
      case None => None
  }

  /** `depth_for` */
  function DepthFor(scopes: Scopes, identifier: Token): (r: Res<Option<nat>>)
    ensures r.Ok? <==> identifier.ttype.Identifier?
    ensures !r.Ok? ==> r == Err("Expect identifier.")
    ensures r.Ok? && r.value.Some? ==>
      r.value.value < |scopes| && identifier.ttype.name in scopes[|scopes| - 1 - r.value.value]
  {
    if identifier.ttype.Identifier? then Ok(Depth(scopes, identifier.ttype.name))
    else Err("Expect identifier.")
  }

  // ---------------------------------------------------------------------
  // Error recovery

  /** The kinds `synchronize` stops in front of. */
  predicate SyncKind(t: TokenType) {
    t.Eof? || t.Class? || t.Fun? || t.Var? || t.For? || t.If? || t.While? || t.Print? || t.Return?
  }

  /** The next token is one `synchronize` stops in front of. */
  predicate AtSyncPoint(toks: seq<Token>, s: PState) {
    s.pos < |toks| && SyncKind(toks[s.pos].ttype)
  }

  /** The inner loop of `synchronize`: tokens are taken up to and including
      a `}` or the `Eof`. */
  function SkipBraces(toks: seq<Token>, s: PState): (r: Parsed<()>)
    requires s.pos <= |toks|
    ensures s.pos <= r.st.pos <= |toks| && r.st.scopes == s.scopes
    ensures r.res.Ok? || r.res.Err?
    ensures r.res.Ok? ==> r.st.pos > s.pos
    decreases |toks| - s.pos
  {
    var a :- Advance(toks, s);
    if a.0.ttype == RightBrace || a.0.ttype == Eof then Parsed(Ok(()), a.1)
    else SkipBraces(toks, a.1)
  }

  /** The outer loop of `synchronize`, entered after a token was taken. */
  function SyncLoop(toks: seq<Token>, s: PState): (r: Parsed<()>)
    requires 1 <= s.pos <= |toks|
    ensures s.pos <= r.st.pos <= |toks| && r.st.scopes == s.scopes
    ensures r.res.Ok? || r.res.Err?
    ensures r.res.Ok? ==> toks[r.st.pos - 1].ttype == Semicolon || AtSyncPoint(toks, r.st)
    decreases |toks| - s.pos
  {
    var b :- if toks[s.pos - 1].ttype == LeftBrace then SkipBraces(toks, s) else Parsed(Ok(()), s);
    var s1 := b.1;
    if toks[s1.pos - 1].ttype == Semicolon then Parsed(Ok(()), s1)
    else if AtSyncPoint(toks, s1) then Parsed(Ok(()), s1)
    else
      var a :- Advance(toks, s1);
      SyncLoop(toks, a.1)
  }

  /** `synchronize`: skip the rest of a broken statement. Unless the next
      token is the `Eof`, at least one token is skipped. */
  function Synchronize(toks: seq<Token>, s: PState): (r: Parsed<()>)
    requires s.pos <= |toks|
    ensures s.pos <= r.st.pos <= |toks| && r.st.scopes == s.scopes
    ensures r.res.Ok? || r.res.Err?
    ensures s.pos < |toks| && toks[s.pos].ttype != Eof ==> r.st.pos > s.pos
    ensures Check(toks, s, {Eof}) ==> r == Parsed(Ok(()), s)
    ensures r.res.Ok? && r.st.pos > s.pos ==> toks[r.st.pos - 1].ttype == Semicolon || AtSyncPoint(toks, r.st)
  {
    if Check(toks, s, {Eof}) then Parsed(Ok(()), s)
    else
      var a :- Advance(toks, s);
      SyncLoop(toks, a.1)
  }

  // ---------------------------------------------------------------------
  // Expressions

  /** The six left-associative binary levels, loosest first: `logic_or`,
      `logic_and`, `equality`, `comparison`, `term`, `factor`. */
  datatype Level = LogicOr | LogicAnd | Equality | Comparison | Term | Factor

  /** The operators a level loops over. */
  function Ops(l: Level): set<TokenType> {
    match l
    case LogicOr => {Or}
    case LogicAnd => {And}
    case Equality => {BangEqual, EqualEqual}
    case Comparison => {Greater, GreaterEqual, Less, LessEqual}
    case Term => {Minus, Plus}
    case Factor => {Slash, Star}
  }

  /** The two logical levels build `logic` nodes, the others `binary` nodes. */
  function Build(l: Level, left: Ast.Expr, op: Token, right: Ast.Expr): Ast.Expr {
    if l.LogicOr? || l.LogicAnd? then Ast.Logic(left, op, right) else Ast.Binary(left, op, right)
  }

  /** The order in which routines may call each other without taking a
      token first; a routine taking a token may call any other. */
  function Rank(l: Level): nat {
    match l
    case LogicOr => 15
    case LogicAnd => 13
    case Equality => 10
    case Comparison => 8
    case Term => 6
    case Factor => 4
  }

  /** `expression` */
  function Expression(toks: seq<Token>, s: PState): (r: Parsed<Ast.Expr>)
    requires s.pos <= |toks|
    ensures s.pos <= r.st.pos <= |toks| && |r.st.scopes| == |s.scopes|
    ensures r.res.Ok? || r.res.Err?
    ensures r.res.Ok? ==> r.st.pos > s.pos
    ensures r.res.Ok? ==> Ast.WellFormed(r.res.value)
    decreases |toks| - s.pos, 16
  {
    BinaryLevel(toks, s, LogicOr)
  }

  /** One binary level: an operand, then the loop over the level's operators. */
  function BinaryLevel(toks: seq<Token>, s: PState, l: Level): (r: Parsed<Ast.Expr>)
    requires s.pos <= |toks|
    ensures s.pos <= r.st.pos <= |toks| && |r.st.scopes| == |s.scopes|
    ensures r.res.Ok? || r.res.Err?
    ensures r.res.Ok? ==> r.st.pos > s.pos
    ensures r.res.Ok? ==> Ast.WellFormed(r.res.value)
    decreases |toks| - s.pos, Rank(l)
  {
    var p :- Operand(toks, s, l);
    LevelRest(toks, p.1, l, p.0)
  }

  /** The next tighter routine a level parses its operands with. */
  function Operand(toks: seq<Token>, s: PState, l: Level): (r: Parsed<Ast.Expr>)
    requires s.pos <= |toks|
    ensures s.pos <= r.st.pos <= |toks| && |r.st.scopes| == |s.scopes|
    ensures r.res.Ok? || r.res.Err?
    ensures r.res.Ok? ==> r.st.pos > s.pos
    ensures r.res.Ok? ==> Ast.WellFormed(r.res.value)
    decreases |toks| - s.pos, Rank(l) - 1
  {
    match l
    case LogicOr => BinaryLevel(toks, s, LogicAnd)
    case LogicAnd => Assignment(toks, s)
    case Equality => BinaryLevel(toks, s, Comparison)
    case Comparison => BinaryLevel(toks, s, Term)
    case Term => BinaryLevel(toks, s, Factor)
    case Factor => Unary(toks, s)
  }

  /** The `while` loop of a level: each operator met folds the expression so
      far and the next operand into a new left operand. */
  function LevelRest(toks: seq<Token>, s: PState, l: Level, left: Ast.Expr): (r: Parsed<Ast.Expr>)
    requires s.pos <= |toks|
    requires Ast.WellFormed(left)
    ensures s.pos <= r.st.pos <= |toks| && |r.st.scopes| == |s.scopes|
    ensures r.res.Ok? || r.res.Err?
    ensures r.res.Ok? ==> Ast.WellFormed(r.res.value)
    decreases |toks| - s.pos, 0
  {
    if Check(toks, s, Ops(l)) then
      var p :- Operand(toks, Next(s), l);
      LevelRest(toks, p.1, l, Build(l, left, toks[s.pos], p.0))
    else Parsed(Ok(left), s)
  }

  /** `assignment` */
  function Assignment(toks: seq<Token>, s: PState): (r: Parsed<Ast.Expr>)
    requires s.pos <= |toks|
    ensures s.pos <= r.st.pos <= |toks| && |r.st.scopes| == |s.scopes|
    ensures r.res.Ok? || r.res.Err?
    ensures r.res.Ok? ==> r.st.pos > s.pos
    ensures r.res.Ok? ==> Ast.WellFormed(r.res.value)
    decreases |toks| - s.pos, 11
  {
    var p :- BinaryLevel(toks, s, Equality);
    if Check(toks, p.1, {Equal}) then
      var s1 := Next(p.1);
      if !p.0.Variable? then Parsed(Err("Invalid assignment target."), s1)
      else
        var a :- AssignVar(s1, p.0.name);
        var v :- Expression(toks, a.1);
        Parsed(Ok(Ast.Assign(p.0, v.0)), v.1)
    else Parsed(Ok(p.0), p.1)
  }

  /** `unary` */
  function Unary(toks: seq<Token>, s: PState): (r: Parsed<Ast.Expr>)
    requires s.pos <= |toks|
    ensures s.pos <= r.st.pos <= |toks| && |r.st.scopes| == |s.scopes|
    ensures r.res.Ok? || r.res.Err?
    ensures r.res.Ok? ==> r.st.pos > s.pos
    ensures r.res.Ok? ==> Ast.WellFormed(r.res.value)
    decreases |toks| - s.pos, 2
  {
    if Check(toks, s, {Bang, Minus}) then
      var p :- Unary(toks, Next(s));
      Parsed(Ok(Ast.Unary(toks[s.pos], p.0)), p.1)
    else Call(toks, s)
  }

  /** `call` */
  function Call(toks: seq<Token>, s: PState): (r: Parsed<Ast.Expr>)
    requires s.pos <= |toks|
    ensures s.pos <= r.st.pos <= |toks| && |r.st.scopes| == |s.scopes|
    ensures r.res.Ok? || r.res.Err?
    ensures r.res.Ok? ==> r.st.pos > s.pos
    ensures r.res.Ok? ==> Ast.WellFormed(r.res.value)
    decreases |toks| - s.pos, 1
  {
    var p :- Primary(toks, s);
    CallRest(toks, p.1, p.0)
  }

  /** The loop of `call`: every `(` applies the expression so far. */
  function CallRest(toks: seq<Token>, s: PState, callee: Ast.Expr): (r: Parsed<Ast.Expr>)
    requires s.pos <= |toks|
    requires Ast.WellFormed(callee)
    ensures s.pos <= r.st.pos <= |toks| && |r.st.scopes| == |s.scopes|
    ensures r.res.Ok? || r.res.Err?
    ensures r.res.Ok? ==> Ast.WellFormed(r.res.value)
    decreases |toks| - s.pos, 0
  {
    if Check(toks, s, {LeftParen}) then
      var p :- BuildCall(toks, Next(s), callee);
      CallRest(toks, p.1, p.0)
    else Parsed(Ok(callee), s)
  }

  /** `build_call`, entered after the `(`. */
  function BuildCall(toks: seq<Token>, s: PState, callee: Ast.Expr): (r: Parsed<Ast.Expr>)
    requires s.pos <= |toks|
    requires Ast.WellFormed(callee)
    ensures s.pos <= r.st.pos <= |toks| && |r.st.scopes| == |s.scopes|
    ensures r.res.Ok? || r.res.Err?
    ensures r.res.Ok? ==> r.st.pos > s.pos
    ensures r.res.Ok? ==> Ast.WellFormed(r.res.value)
    decreases |toks| - s.pos, 19
  {
    var a :- if Check(toks, s, {RightParen}) then Parsed(Ok([]), s) else CallArgs(toks, s);
    if Check(toks, a.1, {RightParen}) then
      // The `advance` taking the `)` just checked cannot fail.
      Parsed(Ok(Ast.Call(callee, toks[a.1.pos], a.0)), Next(a.1))
    else ErrAtPeek(toks, a.1, "Expect ).")
  }

  /** `call_args`: at most 254 arguments are accepted. */
  function CallArgs(toks: seq<Token>, s: PState): (r: Parsed<seq<Ast.Expr>>)
    requires s.pos <= |toks|
    ensures s.pos <= r.st.pos <= |toks| && |r.st.scopes| == |s.scopes|
    ensures r.res.Ok? || r.res.Err?
    ensures r.res.Ok? ==> r.st.pos > s.pos && 1 <= |r.res.value| < 255
    ensures r.res.Ok? ==> forall a <- r.res.value :: Ast.WellFormed(a)
    decreases |toks| - s.pos, 18
  {
    var p :- ArgsLoop(toks, s, []);
    if |p.0| >= 255 then Parsed(Err("Can't have more than 255 arguments."), p.1)
    else Parsed(Ok(p.0), p.1)
  }

  /** The loop of `call_args`: arguments separated by commas. */
  function ArgsLoop(toks: seq<Token>, s: PState, args: seq<Ast.Expr>): (r: Parsed<seq<Ast.Expr>>)
    requires s.pos <= |toks|
    requires forall a <- args :: Ast.WellFormed(a)
    ensures s.pos <= r.st.pos <= |toks| && |r.st.scopes| == |s.scopes|
    ensures r.res.Ok? || r.res.Err?
    ensures r.res.Ok? ==> r.st.pos > s.pos && |r.res.value| > |args| && r.res.value[..|args|] == args
    ensures r.res.Ok? ==> forall a <- r.res.value :: Ast.WellFormed(a)
    decreases |toks| - s.pos, 17
  {
    var p :- Expression(toks, s);
    var args1 := args + [p.0];
    if Check(toks, p.1, {Comma}) then ArgsLoop(toks, Next(p.1), args1)
    else Parsed(Ok(args1), p.1)
  }

  /** `primary` */
  function Primary(toks: seq<Token>, s: PState): (r: Parsed<Ast.Expr>)
    requires s.pos <= |toks|
    ensures s.pos <= r.st.pos <= |toks| && |r.st.scopes| == |s.scopes|
    ensures r.res.Ok? || r.res.Err?
    ensures r.res.Ok? ==> r.st.pos > s.pos
    ensures r.res.Ok? ==> Ast.WellFormed(r.res.value)
    decreases |toks| - s.pos, 0
  {
    if Check(toks, s, {Semicolon}) then ErrAtPeek(toks, s, "Expect expression.")
    else
      var t :- Advance(toks, s);
      var token, s1 := t.0, t.1;
      match token.ttype
      case False => Parsed(Ok(Ast.Literal(Objects.Bool(false))), s1)
      case Identifier(_) => Parsed(Ok(Ast.Variable(token, Depth(s1.scopes, token.ttype.name))), s1)
      case LeftParen =>
        var e :- Expression(toks, s1);
        var c :- Consume(toks, e.1, RightParen, "Expect )!");
        Parsed(Ok(Ast.Grouping(e.0)), c.1)
      case Nil => Parsed(Ok(Ast.Literal(Objects.Nil)), s1)
      case Number(n) => Parsed(Ok(Ast.Literal(Objects.Num(n))), s1)
      case StringLit(_) => Parsed(Ok(Ast.Literal(Objects.Str(token.literal))), s1)
      case True => Parsed(Ok(Ast.Literal(Objects.Bool(true))), s1)
      case _ => Parsed(Err("Expect expression."), s1)
  }

  // ---------------------------------------------------------------------
  // Statements. A routine that takes no token before calling another
  // ranks above it; the only loop that can repeat without taking a token,
  // the loop of `block`, stops when the tokens run out (see
  // BlockLoopAsWritten for the loop as the source writes it).

  /** What a loop over declarations collects: the statements parsed, and
      whether any declaration failed. */
  datatype Collected = Collected(stmts: seq<Ast.Stmt>, failed: bool)

  /** `declaration` */
  function Declaration(toks: seq<Token>, s: PState): (r: Parsed<Ast.Stmt>)
    requires s.pos <= |toks|
    ensures s.pos <= r.st.pos <= |toks| && |r.st.scopes| >= |s.scopes|
    ensures r.res.Ok? ==> r.st.pos > s.pos && |r.st.scopes| == |s.scopes|
    ensures r.res.Ok? && r.res.value.Return? ==> s.scopes != []
    ensures r.res.Ok? ==> Ast.WellFormedStmt(r.res.value)
    decreases |toks| - s.pos, 6
  {
    if Check(toks, s, {Fun}) then FunStatement(toks, Next(s))
    else if Check(toks, s, {Var}) then VarStatement(toks, Next(s))
    else Statement(toks, s)
  }

  /** `statement` */
  function Statement(toks: seq<Token>, s: PState): (r: Parsed<Ast.Stmt>)
    requires s.pos <= |toks|
    ensures s.pos <= r.st.pos <= |toks| && |r.st.scopes| >= |s.scopes|
    ensures r.res.Ok? ==> r.st.pos > s.pos && |r.st.scopes| == |s.scopes|
    ensures r.res.Ok? && r.res.value.Return? ==> s.scopes != []
    ensures r.res.Ok? ==> Ast.WellFormedStmt(r.res.value)
    decreases |toks| - s.pos, 4
  {
    if Check(toks, s, {Print}) then PrintStatement(toks, Next(s))
    else if Check(toks, s, {LeftBrace}) then BracedBlock(toks, s)
    else if Check(toks, s, {If}) then IfStatement(toks, Next(s))
    else if Check(toks, s, {While}) then WhileStatement(toks, Next(s))
    else if Check(toks, s, {For}) then ForStatement(toks, Next(s))
    else if Check(toks, s, {Return}) then ReturnStatement(toks, Next(s))
    else ExprStatement(toks, s)
  }

  /** `block`: a scope is pushed, a braced list of declarations or a single
      statement is parsed, and the scope is popped again; a `?` return on
      the single statement leaves the scope pushed. */
  function Block(toks: seq<Token>, s: PState): (r: Parsed<Ast.Stmt>)
    requires s.pos <= |toks|
    ensures s.pos <= r.st.pos <= |toks| && |r.st.scopes| >= |s.scopes|
    ensures r.res.Ok? ==> r.st.pos > s.pos && |r.st.scopes| == |s.scopes| && r.res.value.Block?
    ensures r.res.Ok? ==> Ast.WellFormedStmt(r.res.value)
    decreases |toks| - s.pos, 5
  {
    if Check(toks, s, {LeftBrace}) then BracedBlock(toks, s)
    else
      var s0 := s.(scopes := s.scopes + [map[]]);
      var p :- Statement(toks, s0);
      Parsed(Ok(Ast.Block([p.0])), p.1.(scopes := Pop(p.1.scopes)))
  }

  /** `block` when the next token is its `{`: the declarations up to the
      `}` in a scope of their own; a failed one fails the block, after the
      scope is popped. */
  function BracedBlock(toks: seq<Token>, s: PState): (r: Parsed<Ast.Stmt>)
    requires Check(toks, s, {LeftBrace})
    ensures s.pos <= r.st.pos <= |toks| && |r.st.scopes| >= |s.scopes|
    ensures r.res.Ok? ==> r.st.pos > s.pos && |r.st.scopes| == |s.scopes| && r.res.value.Block?
    ensures r.res.Ok? ==> Ast.WellFormedStmt(r.res.value)
    decreases |toks| - s.pos, 1
  {
    var s0 := s.(scopes := s.scopes + [map[]]);
    var b :- BlockLoop(toks, Next(s0), Collected([], false));
    var s1 := b.1.(scopes := Pop(b.1.scopes));
    if b.0.failed then Parsed(Err("Failed while parsing block."), s1)
    else Parsed(Ok(Ast.Block(b.0.stmts)), s1)
  }

  /** The loop of `block`, up to and including the `}`: a failed
      declaration marks the block failed and is skipped by `synchronize`;
      the loop also stops in front of the `Eof` and when no token is left. */
  function BlockLoop(toks: seq<Token>, s: PState, acc: Collected): (r: Parsed<Collected>)
    requires s.pos <= |toks|
    requires forall x <- acc.stmts :: Ast.WellFormedStmt(x)
    ensures s.pos <= r.st.pos <= |toks| && |r.st.scopes| >= |s.scopes|
    ensures r.res.Ok? ==> acc.stmts <= r.res.value.stmts && (acc.failed ==> r.res.value.failed)
    ensures r.res.Ok? && !r.res.value.failed ==> |r.st.scopes| == |s.scopes|
    ensures r.res.Ok? ==> forall x <- r.res.value.stmts :: Ast.WellFormedStmt(x)
    decreases |toks| - s.pos, 7
  {
    if Check(toks, s, {RightBrace}) then Parsed(Ok(acc), Next(s))
    else
      var d := Declaration(toks, s);
      if d.res.Panic? then Parsed(Panic, d.st)
      else
        var s1 := if d.res.Ok? then d.st else Synchronize(toks, d.st).st;
        var acc1 := if d.res.Ok? then Collected(acc.stmts + [d.res.value], acc.failed) else Collected(acc.stmts, true);
        if Check(toks, s1, {Eof}) || s1.pos == |toks| then Parsed(Ok(acc1), s1)
        else BlockLoop(toks, s1, acc1)
  }

  /** The loop of `block` as src/parser.rs writes it: it stops only at a
      `}` or in front of the `Eof`, so once the tokens run out it repeats
      for ever; `None` when `fuel` iterations did not finish it. */
  function BlockLoopAsWritten(toks: seq<Token>, s: PState, acc: Collected, fuel: nat): Option<Parsed<Collected>>
    requires s.pos <= |toks|
    decreases fuel
  {
    if Check(toks, s, {RightBrace}) then Some(Parsed(Ok(acc), Next(s)))
    else if fuel == 0 then None
    else
      var d := Declaration(toks, s);
      if d.res.Panic? then Some(Parsed(Panic, d.st))
      else
        var s1 := if d.res.Ok? then d.st else Synchronize(toks, d.st).st;
        var acc1 := if d.res.Ok? then Collected(acc.stmts + [d.res.value], acc.failed) else Collected(acc.stmts, true);
        if Check(toks, s1, {Eof}) then Some(Parsed(Ok(acc1), s1))
        else BlockLoopAsWritten(toks, s1, acc1, fuel - 1)
  }

  /** `for_statement`, entered after `for`: a scope is pushed for the
      initialiser and popped after the body. */
  function ForStatement(toks: seq<Token>, s: PState): (r: Parsed<Ast.Stmt>)
    requires s.pos <= |toks|
    ensures s.pos <= r.st.pos <= |toks| && |r.st.scopes| >= |s.scopes|
    ensures r.res.Ok? ==> r.st.pos > s.pos && |r.st.scopes| == |s.scopes|
    ensures r.res.Ok? ==> r.res.value.For?
    ensures r.res.Ok? ==> Ast.WellFormedStmt(r.res.value)
    decreases |toks| - s.pos, 3
  {
    var s0 := s.(scopes := s.scopes + [map[]]);
    var i :- ForInit(toks, s0);
    var c :- ForClauses(toks, i.1);
    var b :- Block(toks, c.1);
    Parsed(Ok(Ast.For(i.0, c.0.0, c.0.1, b.0)), b.1.(scopes := Pop(b.1.scopes)))
  }

  /** The condition and the increment of a `for`, up to its `)`. */
  function ForClauses(toks: seq<Token>, s: PState): (r: Parsed<(Option<Ast.Expr>, Option<Ast.Expr>)>)
    requires s.pos <= |toks|
    ensures s.pos <= r.st.pos <= |toks| && |r.st.scopes| == |s.scopes|
    ensures r.res.Ok? ==> r.st.pos > s.pos
    ensures r.res.Ok? && r.res.value.0.Some? ==> Ast.WellFormed(r.res.value.0.value)
    ensures r.res.Ok? && r.res.value.1.Some? ==> Ast.WellFormed(r.res.value.1.value)
  {
    var c :- ForCondition(toks, s);
    var n :- ForIncrement(toks, c.1);
    Parsed(Ok((c.0, n.0)), n.1)
  }

  /** The `(` and the initialiser of a `for`: none before a `;`, otherwise
      a declaration that must start with `var` or an identifier. */
  function ForInit(toks: seq<Token>, s: PState): (r: Parsed<Option<Ast.Stmt>>)
    requires s.pos <= |toks|
    ensures s.pos <= r.st.pos <= |toks| && |r.st.scopes| >= |s.scopes|
    ensures r.res.Ok? ==> r.st.pos > s.pos && |r.st.scopes| == |s.scopes|
    ensures r.res.Ok? && r.res.value.Some? ==> Ast.WellFormedStmt(r.res.value.value)
    decreases |toks| - s.pos, 2
  {
    var a :- Consume(toks, s, LeftParen, "Expect ( for condition.");
    if Check(toks, a.1, {Semicolon}) then Parsed(Ok(None), Next(a.1))
    else if !(Check(toks, a.1, {Var}) || CheckIdentifier(toks, a.1)) then ErrAtPeek(toks, a.1, "Expect expression.")
    else
      var d :- Declaration(toks, a.1);
      Parsed(Ok(Some(d.0)), d.1)
  }

  /** The condition of a `for`: none when the `;` follows at once. */
  function ForCondition(toks: seq<Token>, s: PState): (r: Parsed<Option<Ast.Expr>>)
    requires s.pos <= |toks|
    ensures s.pos <= r.st.pos <= |toks| && |r.st.scopes| == |s.scopes|
    ensures r.res.Ok? ==> r.st.pos > s.pos && toks[r.st.pos - 1].ttype == Semicolon
    ensures r.res.Ok? && r.res.value.Some? ==> Ast.WellFormed(r.res.value.value)
  {
    if Check(toks, s, {Semicolon}) then Parsed(Ok(None), Next(s))
    else
      var e :- Expression(toks, s);
      var k :- Consume(toks, e.1, Semicolon, "Expect ; after for condition.");
      Parsed(Ok(Some(e.0)), k.1)
  }

  /** The increment of a `for` and its `)`: none when the `)` follows at
      once, otherwise an expression that must start with an identifier. */
  function ForIncrement(toks: seq<Token>, s: PState): (r: Parsed<Option<Ast.Expr>>)
    requires s.pos <= |toks|
    ensures s.pos <= r.st.pos <= |toks| && |r.st.scopes| == |s.scopes|
    ensures r.res.Ok? ==> r.st.pos > s.pos && toks[r.st.pos - 1].ttype == RightParen
    ensures r.res.Ok? && r.res.value.Some? ==> CheckIdentifier(toks, s)
    ensures r.res.Ok? && r.res.value.Some? ==> Ast.WellFormed(r.res.value.value)
  {
    if Check(toks, s, {RightParen}) then Parsed(Ok(None), Next(s))
    else if !CheckIdentifier(toks, s) then ErrAtPeek(toks, s, "Expect expression.")
    else
      var e :- Expression(toks, s);
      var k :- Consume(toks, e.1, RightParen, "Expect ) for end of for.");
      Parsed(Ok(Some(e.0)), k.1)
  }

  /** `fun_statement`, entered after `fun`: the name is defined in the
      enclosing scope, the parameters in a scope of their own around the
      body; the function is resolved at depth 0 unless it is global. */
  function FunStatement(toks: seq<Token>, s: PState): (r: Parsed<Ast.Stmt>)
    requires s.pos <= |toks|
    ensures s.pos <= r.st.pos <= |toks| && |r.st.scopes| >= |s.scopes|
    ensures r.res.Ok? ==> r.st.pos > s.pos && |r.st.scopes| == |s.scopes|
    ensures r.res.Ok? ==> r.res.value.Fun? && |r.res.value.params| < 255
    ensures r.res.Ok? ==> (r.res.value.depth.None? <==> s.scopes == [])
    ensures r.res.Ok? ==> Ast.WellFormedStmt(r.res.value)
    decreases |toks| - s.pos, 3
  {
    if !CheckIdentifier(toks, s) then ErrAtPeek(toks, s, "Expect function name.")
    else
      var name := toks[s.pos];
      var d := SetVar(Next(s), name, true).st;
      var c :- Consume(toks, d, LeftParen, "Expect '(' after function name.");
      var ps :- FunParams(toks, c.1.(scopes := c.1.scopes + [map[]]));
      if !Check(toks, ps.1, {LeftBrace}) then ErrAtPeek(toks, ps.1, "Expect '{' before function body.")
      else
        var b :- Block(toks, ps.1);
        var s2 := b.1.(scopes := Pop(b.1.scopes));
        Parsed(Ok(Ast.Fun(name, ps.0, b.0, if s2.scopes == [] then None else Some(0))), s2)
  }

  /** The parameter list of `fun_statement` and its `)`: at most 254
      parameters. */
  function FunParams(toks: seq<Token>, s: PState): (r: Parsed<seq<Token>>)
    requires s.pos <= |toks|
    ensures s.pos <= r.st.pos <= |toks| && |r.st.scopes| == |s.scopes|
    ensures r.res.Ok? ==> r.st.pos > s.pos && |r.res.value| < 255
  {
    var ps :- if Check(toks, s, {RightParen}) then Parsed(Ok([]), s)
      else
        var q :- ParamsLoop(toks, s, []);
        if |q.0| >= 255 then Parsed(Err("Can't have more than 255 parameters."), q.1)
        else Parsed(Ok(q.0), q.1);
    var k :- Consume(toks, ps.1, RightParen, "Expect ')' after parameters.");
    Parsed(Ok(ps.0), k.1)
  }

  /** The parameter loop of `fun_statement`: every parameter is parsed as an
      expression, which must come out as a variable (anything else is the
      `unreachable!()` panic), and is declared and defined. */
  function ParamsLoop(toks: seq<Token>, s: PState, params: seq<Token>): (r: Parsed<seq<Token>>)
    requires s.pos <= |toks|
    ensures s.pos <= r.st.pos <= |toks| && |r.st.scopes| == |s.scopes|
    ensures r.res.Ok? ==> r.st.pos > s.pos && |r.res.value| > |params|
    decreases |toks| - s.pos
  {
    if !CheckIdentifier(toks, s) then ErrAtPeek(toks, s, "Expect parameter name.")
    else
      var e :- Expression(toks, s);
      if !e.0.Variable? then Parsed(Panic, e.1)
      else
        var d :- SetVar(e.1, e.0.name, false);
        var f :- SetVar(d.1, e.0.name, true);
        var ps := params + [e.0.name];
        if Check(toks, f.1, {Comma}) then ParamsLoop(toks, Next(f.1), ps)
        else Parsed(Ok(ps), f.1)
  }

  /** `var_statement`, entered after `var`. */
  function VarStatement(toks: seq<Token>, s: PState): (r: Parsed<Ast.Stmt>)
    requires s.pos <= |toks|
    ensures s.pos <= r.st.pos <= |toks| && |r.st.scopes| == |s.scopes|
    ensures r.res.Ok? ==> r.st.pos > s.pos && r.res.value.VarDecl?
    ensures r.res.Ok? ==> Ast.WellFormedStmt(r.res.value)
  {
    if CheckIdentifier(toks, s) then
      var vname := toks[s.pos];
      var d :- SetVar(s, vname, false);
      var e :- Expression(toks, d.1);
      match e.0
      case Assign(variable, value) =>
        if value.Variable? && value.name == vname && Depth(e.1.scopes, vname.ttype.name).Some? then
          Parsed(Err("Can't read local variable in its own initializer."), e.1)
        else
          var k :- Consume(toks, SetVar(e.1, vname, true).st, Semicolon, "Expect ';' after expression.");
          Parsed(Ok(Ast.VarDecl(variable, value)), k.1)
      case Variable(name, depth) =>
        var f :- SetVar(e.1, name, true);
        var k :- Consume(toks, f.1, Semicolon, "Expect ';' after expression.");
        Parsed(Ok(Ast.VarDecl(Ast.Variable(name, depth), Ast.Literal(Objects.Nil))), k.1)
      case _ => Parsed(Err("Invalid declaration"), e.1)
    else if s.pos < |toks| then Parsed(Err("Expect variable name."), s)
    else Parsed(Panic, s)
  }

  /** `print_statement`, entered after `print`. */
  function PrintStatement(toks: seq<Token>, s: PState): (r: Parsed<Ast.Stmt>)
    requires s.pos <= |toks|
    ensures s.pos <= r.st.pos <= |toks| && |r.st.scopes| == |s.scopes|
    ensures r.res.Ok? ==> r.st.pos > s.pos
    ensures r.res.Ok? ==> r.res.value.Print?
    ensures r.res.Ok? ==> Ast.WellFormedStmt(r.res.value)
  {
    var e :- Expression(toks, s);
    var k :- Consume(toks, e.1, Semicolon, "Expect ';' after expression.");
    Parsed(Ok(Ast.Print(e.0)), k.1)
  }

  /** `if_statement`, entered after `if`. */
  function IfStatement(toks: seq<Token>, s: PState): (r: Parsed<Ast.Stmt>)
    requires s.pos <= |toks|
    ensures s.pos <= r.st.pos <= |toks| && |r.st.scopes| >= |s.scopes|
    ensures r.res.Ok? ==> r.st.pos > s.pos && |r.st.scopes| == |s.scopes|
    ensures r.res.Ok? ==> r.res.value.If?
    ensures r.res.Ok? ==> Ast.WellFormedStmt(r.res.value)
    decreases |toks| - s.pos, 3
  {
    var c :- IfLoop(toks, s, []);
    if Check(toks, c.1, {Else}) then
      var e :- Statement(toks, Next(c.1));
      Parsed(Ok(Ast.If(c.0, Some(e.0))), e.1)
    else Parsed(Ok(Ast.If(c.0, None)), c.1)
  }

  /** The loop of `if_statement`: a parenthesised condition and a block,
      again after every `elif`. */
  function IfLoop(toks: seq<Token>, s: PState, conds: seq<(Ast.Expr, Ast.Stmt)>): (r: Parsed<seq<(Ast.Expr, Ast.Stmt)>>)
    requires s.pos <= |toks|
    requires forall c <- conds :: Ast.WellFormed(c.0) && Ast.WellFormedStmt(c.1)
    ensures s.pos <= r.st.pos <= |toks| && |r.st.scopes| >= |s.scopes|
    ensures r.res.Ok? ==> r.st.pos > s.pos && |r.st.scopes| == |s.scopes|
    ensures r.res.Ok? ==> |r.res.value| > |conds| && r.res.value[..|conds|] == conds
    ensures r.res.Ok? ==> forall c <- r.res.value :: Ast.WellFormed(c.0) && Ast.WellFormedStmt(c.1)
    decreases |toks| - s.pos, 2
  {
    var a :- Consume(toks, s, LeftParen, "Expect ( for condition.");
    var e :- Expression(toks, a.1);
    var k :- Consume(toks, e.1, RightParen, "Expect ) for condition.");
    var b :- Block(toks, k.1);
    var conds1 := conds + [(e.0, b.0)];
    if Check(toks, b.1, {Elif}) then IfLoop(toks, Next(b.1), conds1)
    else Parsed(Ok(conds1), b.1)
  }

  /** `while_statement`, entered after `while`. */
  function WhileStatement(toks: seq<Token>, s: PState): (r: Parsed<Ast.Stmt>)
    requires s.pos <= |toks|
    ensures s.pos <= r.st.pos <= |toks| && |r.st.scopes| >= |s.scopes|
    ensures r.res.Ok? ==> r.st.pos > s.pos && |r.st.scopes| == |s.scopes|
    ensures r.res.Ok? ==> r.res.value.While?
    ensures r.res.Ok? ==> Ast.WellFormedStmt(r.res.value)
    decreases |toks| - s.pos, 3
  {
    var a :- Consume(toks, s, LeftParen, "Expect ( for condition.");
    var e :- Expression(toks, a.1);
    var k :- Consume(toks, e.1, RightParen, "Expect ) for condition.");
    var b :- Block(toks, k.1);
    Parsed(Ok(Ast.While(e.0, b.0)), b.1)
  }

  /** `return_statement`, entered after `return`: refused outside every
      local scope; a bare `return;` returns `nil`. */
  function ReturnStatement(toks: seq<Token>, s: PState): (r: Parsed<Ast.Stmt>)
    requires s.pos <= |toks|
    ensures s.pos <= r.st.pos <= |toks| && |r.st.scopes| == |s.scopes|
    ensures r.res.Ok? ==> r.st.pos > s.pos
    ensures r.res.Ok? ==> Ast.WellFormedStmt(r.res.value)
    ensures r.res.Ok? ==> r.res.value.Return?
    ensures s.scopes == [] ==> r == Parsed(Err("Can't return from top-level code."), s)
    ensures s.scopes != [] && Check(toks, s, {Semicolon}) ==> r == Parsed(Ok(Ast.Return(Ast.Literal(Objects.Nil))), Next(s))
  {
    if s.scopes == [] then Parsed(Err("Can't return from top-level code."), s)
    else if Check(toks, s, {Semicolon}) then Parsed(Ok(Ast.Return(Ast.Literal(Objects.Nil))), Next(s))
    else
      var e :- Expression(toks, s);
      var k :- Consume(toks, e.1, Semicolon, "Expect ';' after expression.");
      Parsed(Ok(Ast.Return(e.0)), k.1)
  }

  /** `expr_statement` */
  function ExprStatement(toks: seq<Token>, s: PState): (r: Parsed<Ast.Stmt>)
    requires s.pos <= |toks|
    ensures s.pos <= r.st.pos <= |toks| && |r.st.scopes| == |s.scopes|
    ensures r.res.Ok? ==> r.st.pos > s.pos
    ensures r.res.Ok? ==> r.res.value.ExprStmt?
    ensures r.res.Ok? ==> Ast.WellFormedStmt(r.res.value)
  {
    var e :- Expression(toks, s);
    var k :- Consume(toks, e.1, Semicolon, "Expect ';' after expression.");
    Parsed(Ok(Ast.ExprStmt(e.0)), k.1)
  }

  // ---------------------------------------------------------------------
  // The whole program

  /** What `parse` returns: the statements, `LoxError::Parse` when some
      declaration failed, or a panic. */
  datatype ParseOutcome = Statements(stmts: seq<Ast.Stmt>) | ParseFailed | ParsePanicked

  /** The loop of `parse`: declarations up to the `Eof`; a failed one is
      skipped by `synchronize` and the loop goes on. The `unwrap` of the
      loop test panics on an exhausted token list. */
  function ParseLoop(toks: seq<Token>, s: PState, acc: Collected): (r: Parsed<Collected>)
    requires s.pos <= |toks|
    requires forall x <- acc.stmts :: Ast.WellFormedStmt(x)
    ensures !r.res.Err?
    ensures r.res.Ok? ==> acc.stmts <= r.res.value.stmts && (acc.failed ==> r.res.value.failed)
    ensures r.res.Ok? ==> forall x <- r.res.value.stmts :: Ast.WellFormedStmt(x)
    decreases |toks| - s.pos
  {
    if s.pos == |toks| then Parsed(Panic, s)
    else if toks[s.pos].ttype == Eof then Parsed(Ok(acc), s)
    else
      var d := Declaration(toks, s);
      if d.res.Panic? then Parsed(Panic, d.st)
      else
        var s1 := if d.res.Ok? then d.st else Synchronize(toks, d.st).st;
        var acc1 := if d.res.Ok? then Collected(acc.stmts + [d.res.value], acc.failed) else Collected(acc.stmts, true);
        if s1.pos == |toks| then Parsed(Ok(acc1), s1)
        else ParseLoop(toks, s1, acc1)
  }

  /** How `parse` turns what its loop collected into its result. */
  function Outcome(p: Parsed<Collected>): ParseOutcome {
    if !p.res.Ok? then ParsePanicked
    else if p.res.value.failed then ParseFailed
    else Statements(p.res.value.stmts)
  }

  /** `Parser::new(tokens).parse()` */
  function Parse(toks: seq<Token>): (r: ParseOutcome)
    ensures r.Statements? ==> forall x <- r.stmts :: Ast.WellFormedStmt(x)
    ensures toks == [] ==> r == ParsePanicked
    ensures |toks| > 0 && toks[0].ttype == Eof ==> r == Statements([])
  {
    Outcome(ParseLoop(toks, PState(0, []), Collected([], false)))
  }
}
