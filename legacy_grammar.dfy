/** What each routine of the older parser (lox-rust/src/parser.rs)
    returns, as a function of the token list and of the index `current`
    before the call. The class in legacy_parsing.dfy is proved to compute
    exactly these. Indexing past the end of the token list, which Rust
    answers with a panic, is the outcome `Panic`. */
module LegacyGrammar {
  import opened Tokens
  import LegacyAst
  import G = Grammar

  /** A routine's outcome together with the index it leaves behind. The
      `:-` operator on it plays the part of Rust's `?`. */
  datatype Step<T> = Step(res: G.Res<T>, pos: nat) {
    predicate IsFailure() { !res.Ok? }

    function PropagateFailure<U>(): Step<U>
      requires IsFailure()
    {
      Step(res.PropagateFailure(), pos)
    }

    function Extract(): (T, nat)
      requires res.Ok?
    {
      (res.value, pos)
    }
  }

  /** The four binary levels, loosest first. */
  datatype Level = Equality | Comparison | Term | Factor

  /** The operators each level's loop accepts. */
  function Ops(l: Level): set<TokenType> {
    match l
    case Equality => {BangEqual, EqualEqual}
    case Comparison => {Greater, GreaterEqual, Less, LessEqual}
    case Term => {Minus, Plus}
    case Factor => {Slash, Star}
  }

  /** Orders the mutually recursive routines at one index: each calls only
      routines of lower rank there. */
  function Rank(l: Level): nat {
    match l
    case Equality => 10
    case Comparison => 8
    case Term => 6
    case Factor => 4
  }

  /** `check` and `match_advance`: false past the end, otherwise whether
      the kind at `current` is one of `kinds`. */
  predicate Matches(toks: seq<Token>, pos: nat, kinds: set<TokenType>)
    requires pos <= |toks|
    ensures Matches(toks, pos, kinds) <==> G.Check(toks, G.PState(pos, []), kinds)
  {
    pos < |toks| && toks[pos].ttype in kinds
  }

  /** `consume`: takes a token of kind `t`; otherwise fails with `msg`,
      except past the end, where reading the line for the message panics. */
  function Consume(toks: seq<Token>, pos: nat, t: TokenType, msg: string): (r: Step<()>)
    requires pos <= |toks|
    ensures r.res.Ok? <==> Matches(toks, pos, {t})
    ensures r.res.Ok? ==> r.pos == pos + 1
    ensures !r.res.Ok? ==> r.pos == pos && (r.res.Panic? <==> pos == |toks|)
  {
    if Matches(toks, pos, {t}) then Step(G.Ok(()), pos + 1)
    else if pos < |toks| then Step(G.Err(msg), pos)
    else Step(G.Panic, pos)
  }

  /** `expression`: the loosest level. */
  function Expression(toks: seq<Token>, pos: nat): (r: Step<LegacyAst.Expr>)
    requires pos <= |toks|
    ensures pos <= r.pos <= |toks|
    ensures r.res.Ok? ==> pos < r.pos
    decreases |toks| - pos, 12
  {
    BinaryLevel(toks, pos, Equality)
  }

  /** `equality`, `comparison`, `term` and `factor`: one operand, then the
      level's loop. */
  function BinaryLevel(toks: seq<Token>, pos: nat, l: Level): (r: Step<LegacyAst.Expr>)
    requires pos <= |toks|
    ensures pos <= r.pos <= |toks|
    ensures r.res.Ok? ==> pos < r.pos
    decreases |toks| - pos, Rank(l)
  {
    var (left, p) :- Operand(toks, pos, l);
    LevelRest(toks, p, l, left)
  }

  /** The operand of a level: the next tighter level, or `unary` below
      `factor`. */
  function Operand(toks: seq<Token>, pos: nat, l: Level): (r: Step<LegacyAst.Expr>)
    requires pos <= |toks|
    ensures pos <= r.pos <= |toks|
    ensures r.res.Ok? ==> pos < r.pos
    decreases |toks| - pos, Rank(l) - 1
  {
    match l
    case Equality => BinaryLevel(toks, pos, Comparison)
    case Comparison => BinaryLevel(toks, pos, Term)
    case Term => BinaryLevel(toks, pos, Factor)
    case Factor => Unary(toks, pos)
  }

  /** A level's `while` loop: while the next token is one of its
      operators, take it and one more operand, and fold to the left. */
  function LevelRest(toks: seq<Token>, pos: nat, l: Level, acc: LegacyAst.Expr): (r: Step<LegacyAst.Expr>)
    requires pos <= |toks|
    ensures pos <= r.pos <= |toks|
    decreases |toks| - pos, 1
  {
    if Matches(toks, pos, Ops(l)) then
      var (right, p) :- Operand(toks, pos + 1, l);
      LevelRest(toks, p, l, LegacyAst.Binary(acc, toks[pos], right))
    else
      Step(G.Ok(acc), pos)
  }

  /** `unary`: prefix `!` and `-` nest to the right. */
  function Unary(toks: seq<Token>, pos: nat): (r: Step<LegacyAst.Expr>)
    requires pos <= |toks|
    ensures pos <= r.pos <= |toks|
    ensures r.res.Ok? ==> pos < r.pos
    decreases |toks| - pos, 2
  {
    if Matches(toks, pos, {Bang, Minus}) then
      var (right, p) :- Unary(toks, pos + 1);
      Step(G.Ok(LegacyAst.Unary(toks[pos], right)), p)
    else
      Primary(toks, pos)
  }

  /** `primary`. Past the end, reading the line for the message panics.
      Otherwise the token is taken first; an unexpected one fails, or
      panics when it was the last token. The `)` after a parenthesised
      expression is consumed if present, and its absence is not an
      error. */
  function Primary(toks: seq<Token>, pos: nat): (r: Step<LegacyAst.Expr>)
    requires pos <= |toks|
    ensures pos <= r.pos <= |toks|
    ensures r.res.Ok? ==> pos < r.pos
    decreases |toks| - pos, 0
  {
    if pos == |toks| then Step(G.Panic, pos)
    else
      var t := toks[pos];
      match t.ttype
      case False => Step(G.Ok(LegacyAst.Literal("false")), pos + 1)
      case True => Step(G.Ok(LegacyAst.Literal("true")), pos + 1)
      case Nil => Step(G.Ok(LegacyAst.Literal("nil")), pos + 1)
      case Number(_) => Step(G.Ok(LegacyAst.Literal(t.literal)), pos + 1)
      case StringLit(_) => Step(G.Ok(LegacyAst.Literal(t.literal)), pos + 1)
      case LeftParen =>
        var (inner, p) :- Expression(toks, pos + 1);
        var c := Consume(toks, p, RightParen, "Expected )!");
        if c.res.Panic? then Step(G.Panic, c.pos) else Step(G.Ok(LegacyAst.Grouping(inner)), c.pos)
      case _ =>
        if pos + 1 == |toks| then Step(G.Panic, pos + 1)
        else Step(G.Err("Something went wrong!"), pos + 1)
  }

  /** `parse`: one expression from the start; what follows it is never
      looked at. */
  function Parse(toks: seq<Token>): (r: G.Res<LegacyAst.Expr>)
    ensures toks == [] ==> r == G.Panic
    ensures |toks| == 1 && toks[0].ttype == Eof ==> r == G.Panic
  {
    ExhaustedPanics(toks);
    if |toks| == 1 && toks[0].ttype == Eof then
      EofPanics(toks);
      Expression(toks, 0).res
    else
      Expression(toks, 0).res
  }

  // ---------------------------------------------------------------------
  // Properties

  /** The tree a level's loop builds from a first operand and the
      (operator, operand) pairs after it: each operator joins everything
      before it to the one operand after it. */
  function FoldLeft(left: LegacyAst.Expr, rest: seq<(Token, LegacyAst.Expr)>): LegacyAst.Expr
    decreases |rest|
  {
    if rest == [] then left
    else FoldLeft(LegacyAst.Binary(left, rest[0].0, rest[0].1), rest[1..])
  }

  /** `ps[i]` is where the i-th operator of `rest` stands, and the operand
      after it ends at `ps[i + 1]`; no operator of the level follows the
      last one. */
  predicate Steps(toks: seq<Token>, l: Level, ps: seq<nat>, rest: seq<(Token, LegacyAst.Expr)>) {
    && |ps| == |rest| + 1
    && (forall i :: 0 <= i < |ps| ==> ps[i] <= |toks|)
    && (forall i :: 0 <= i < |rest| ==>
          && Matches(toks, ps[i], Ops(l)) && toks[ps[i]] == rest[i].0
          && Operand(toks, ps[i] + 1, l) == Step(G.Ok(rest[i].1), ps[i + 1]))
    && !Matches(toks, ps[|rest|], Ops(l))
  }

  /** Every binary level is left-associative. */
  lemma {:induction false} LevelRestFoldsLeft(toks: seq<Token>, l: Level, left: LegacyAst.Expr, ps: seq<nat>, rest: seq<(Token, LegacyAst.Expr)>)
    requires Steps(toks, l, ps, rest)
    ensures LevelRest(toks, ps[0], l, left) == Step(G.Ok(FoldLeft(left, rest)), ps[|rest|])
    decreases |rest|
  {
    if rest != [] {
      var left1 := LegacyAst.Binary(left, rest[0].0, rest[0].1);
      assert LevelRest(toks, ps[0], l, left) == LevelRest(toks, ps[1], l, left1);
      assert Steps(toks, l, ps[1..], rest[1..]) by {
        forall i | 0 <= i < |rest[1..]|
          ensures Matches(toks, ps[1..][i], Ops(l)) && toks[ps[1..][i]] == rest[1..][i].0
          ensures Operand(toks, ps[1..][i] + 1, l) == Step(G.Ok(rest[1..][i].1), ps[1..][i + 1])
        {
          assert ps[1..][i] == ps[i + 1] && ps[1..][i + 1] == ps[i + 2];
        }
      }
      LevelRestFoldsLeft(toks, l, left1, ps[1..], rest[1..]);
    }
  }

  /** `a - b - c` and its kind at every level: three operands joined by
      two operators of one level give `(a op b) op c`. */
  lemma ThreeOperands(toks: seq<Token>, l: Level, p0: nat, a: LegacyAst.Expr, p1: nat, b: LegacyAst.Expr, p2: nat, c: LegacyAst.Expr, p3: nat)
    requires p0 <= |toks| && Operand(toks, p0, l) == Step(G.Ok(a), p1)
    requires Matches(toks, p1, Ops(l)) && Operand(toks, p1 + 1, l) == Step(G.Ok(b), p2)
    requires Matches(toks, p2, Ops(l)) && Operand(toks, p2 + 1, l) == Step(G.Ok(c), p3)
    requires !Matches(toks, p3, Ops(l))
    ensures BinaryLevel(toks, p0, l) == Step(G.Ok(LegacyAst.Binary(LegacyAst.Binary(a, toks[p1], b), toks[p2], c)), p3)
  {
    var ab := LegacyAst.Binary(a, toks[p1], b);
    assert LevelRest(toks, p3, l, LegacyAst.Binary(ab, toks[p2], c)) == Step(G.Ok(LegacyAst.Binary(ab, toks[p2], c)), p3);
    assert LevelRest(toks, p2, l, ab) == LevelRest(toks, p3, l, LegacyAst.Binary(ab, toks[p2], c));
    assert LevelRest(toks, p1, l, a) == LevelRest(toks, p2, l, ab);
  }

  /** The failure of the `consume` after a parenthesised expression is
      thrown away: with any token but `)` next, the result is still a
      grouping, and nothing is taken. */
  lemma MissingParenStillGroups(toks: seq<Token>, pos: nat, e: LegacyAst.Expr, q: nat)
    requires pos < |toks| && toks[pos].ttype == LeftParen
    requires Expression(toks, pos + 1) == Step(G.Ok(e), q)
    requires q < |toks| && toks[q].ttype != RightParen
    ensures Primary(toks, pos) == Step(G.Ok(LegacyAst.Grouping(e)), q)
  {
  }

  /** A closing `)` is taken when present. */
  lemma ClosedParenGroups(toks: seq<Token>, pos: nat, e: LegacyAst.Expr, q: nat)
    requires pos < |toks| && toks[pos].ttype == LeftParen
    requires Expression(toks, pos + 1) == Step(G.Ok(e), q)
    requires q < |toks| && toks[q].ttype == RightParen
    ensures Primary(toks, pos) == Step(G.Ok(LegacyAst.Grouping(e)), q + 1)
  {
  }

  /** The tokens `primary` turns into a literal, and the text it keeps. */
  predicate LiteralToken(t: Token) {
    t.ttype.False? || t.ttype.True? || t.ttype.Nil? || t.ttype.Number? || t.ttype.StringLit?
  }

  function LiteralText(t: Token): (s: string)
    requires LiteralToken(t)
    ensures t.ttype.Number? || t.ttype.StringLit? ==> s == t.literal
  {
    if t.ttype.False? then "false"
    else if t.ttype.True? then "true"
    else if t.ttype.Nil? then "nil"
    else t.literal
  }

  /** Whether a kind is the operator of some binary level. */
  predicate BinaryOperator(k: TokenType) {
    k in Ops(Equality) || k in Ops(Comparison) || k in Ops(Term) || k in Ops(Factor)
  }

  /** A literal token not followed by a binary operator is a whole
      expression by itself. */
  lemma SingleLiteral(toks: seq<Token>, pos: nat)
    requires pos + 1 < |toks| && LiteralToken(toks[pos]) && !BinaryOperator(toks[pos + 1].ttype)
    ensures Expression(toks, pos) == Step(G.Ok(LegacyAst.Literal(LiteralText(toks[pos]))), pos + 1)
  {
    var e := LegacyAst.Literal(LiteralText(toks[pos]));
    var r := Step(G.Ok(e), pos + 1);
    assert Primary(toks, pos) == r;
    assert Unary(toks, pos) == r;
    assert Operand(toks, pos, Factor) == r;
    assert LevelRest(toks, pos + 1, Factor, e) == r;
    assert BinaryLevel(toks, pos, Factor) == r;
    assert LevelRest(toks, pos + 1, Term, e) == r;
    assert BinaryLevel(toks, pos, Term) == r;
    assert LevelRest(toks, pos + 1, Comparison, e) == r;
    assert BinaryLevel(toks, pos, Comparison) == r;
    assert LevelRest(toks, pos + 1, Equality, e) == r;
    assert BinaryLevel(toks, pos, Equality) == r;
  }

  /** `parse` looks at no token after the one that ends its expression: a
      literal followed by a non-operator parses the same whatever comes
      after those two tokens. */
  lemma TrailingIgnored(toks: seq<Token>, rest: seq<Token>)
    requires 2 <= |toks| && LiteralToken(toks[0]) && !BinaryOperator(toks[1].ttype)
    ensures Parse(toks + rest) == Parse(toks) == G.Ok(LegacyAst.Literal(LiteralText(toks[0])))
  {
    SingleLiteral(toks, 0);
    assert (toks + rest)[0] == toks[0] && (toks + rest)[1] == toks[1];
    SingleLiteral(toks + rest, 0);
  }

  /** Asking for an expression where only `Eof` is left panics: `primary`
      takes the `Eof`, finds nothing to build, and reads past the end for
      the error's line. */
  lemma EofPanics(toks: seq<Token>)
    requires |toks| > 0 && toks[|toks| - 1].ttype == Eof
    ensures Expression(toks, |toks| - 1).res.Panic?
  {
    var pos := |toks| - 1;
    assert Primary(toks, pos).res.Panic?;
    assert Unary(toks, pos).res.Panic?;
    assert Operand(toks, pos, Factor).res.Panic?;
    assert BinaryLevel(toks, pos, Factor).res.Panic?;
    assert BinaryLevel(toks, pos, Term).res.Panic?;
    assert BinaryLevel(toks, pos, Comparison).res.Panic?;
    assert BinaryLevel(toks, pos, Equality).res.Panic?;
  }

  /** The same when the tokens are used up. */
  lemma ExhaustedPanics(toks: seq<Token>)
    ensures Expression(toks, |toks|).res.Panic?
  {
    var pos := |toks|;
    assert Primary(toks, pos).res.Panic?;
    assert Unary(toks, pos).res.Panic?;
    assert Operand(toks, pos, Factor).res.Panic?;
    assert BinaryLevel(toks, pos, Factor).res.Panic?;
    assert BinaryLevel(toks, pos, Term).res.Panic?;
    assert BinaryLevel(toks, pos, Comparison).res.Panic?;
    assert BinaryLevel(toks, pos, Equality).res.Panic?;
  }

  /** So an operator with nothing after it but `Eof` panics too, as in
      `1 +`. */
  lemma DanglingOperatorPanics(toks: seq<Token>)
    requires |toks| == 3 && LiteralToken(toks[0]) && toks[1].ttype == Plus && toks[2].ttype == Eof
    ensures Parse(toks).Panic?
  {
    var e := LegacyAst.Literal(LiteralText(toks[0]));
    var r := Step(G.Ok(e), 1);
    assert Primary(toks, 0) == r;
    assert Unary(toks, 0) == r;
    assert Operand(toks, 0, Factor) == r;
    assert LevelRest(toks, 1, Factor, e) == r;
    assert BinaryLevel(toks, 0, Factor) == r;
    assert Operand(toks, 0, Term) == r;
    assert Primary(toks, 2).res.Panic?;
    assert Unary(toks, 2).res.Panic?;
    assert Operand(toks, 2, Factor).res.Panic?;
    assert BinaryLevel(toks, 2, Factor).res.Panic?;
    assert Operand(toks, 2, Term).res.Panic?;
    assert LevelRest(toks, 1, Term, e).res.Panic?;
    assert BinaryLevel(toks, 0, Term).res.Panic?;
    assert Operand(toks, 0, Comparison).res.Panic?;
    assert BinaryLevel(toks, 0, Comparison).res.Panic?;
    assert Operand(toks, 0, Equality).res.Panic?;
    assert BinaryLevel(toks, 0, Equality).res.Panic?;
  }
}
