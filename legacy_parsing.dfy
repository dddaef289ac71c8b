/** The parser of lox-rust/src/parser.rs as the object it is: a token list
    and an index `current` into it that every routine moves forward in
    place. Each method is proved to return, and to leave `current` at,
    exactly what the function of the same name in LegacyGrammar
    describes, so the properties proved there (left associativity, the
    ignored `)`, the panics at the end of the tokens) hold of the
    methods. */
module LegacyParsing {
  import opened Tokens
  import LegacyAst
  import opened LegacyGrammar
  import G = Grammar

  class Parser {
    const tokens: seq<Token>
    var current: nat

    predicate Valid()
      reads this
    {
      current <= |tokens|
    }

    /** `Parser::new`: the index starts at the first token. */
    constructor (toks: seq<Token>)
      ensures tokens == toks && current == 0 && Valid()
    {
      tokens := toks;
      current := 0;
    }

    /** `parse`: one expression. */
    method Parse() returns (r: G.Res<LegacyAst.Expr>)
      requires Valid()
      modifies this
      ensures Valid() && r == LegacyGrammar.Expression(tokens, old(current)).res
      ensures current == LegacyGrammar.Expression(tokens, old(current)).pos
    {
      r := Expression();
    }

    /** `is_at_end` */
    predicate IsAtEnd()
      reads this
    {
      current >= |tokens|
    }

    /** `match_advance`: false at the end; otherwise the next token is
        taken, by exactly one step, when it is of one of the kinds. */
    method MatchAdvance(kinds: set<TokenType>) returns (b: bool)
      requires Valid()
      modifies this
      ensures Valid() && b == Matches(tokens, old(current), kinds)
      ensures current == if b then old(current) + 1 else old(current)
    {
      if IsAtEnd() {
        return false;
      }
      var kind := tokens[current].ttype;
      if kind in kinds {
        current := current + 1;
        b := true;
      } else {
        b := false;
      }
    }

    /** `check`: false at the end, otherwise whether the next token is of
        kind `t`; nothing is taken. */
    method Check(t: TokenType) returns (b: bool)
      requires Valid()
      ensures b == Matches(tokens, current, {t})
      ensures b ==> current < |tokens| && tokens[current].ttype == t
    {
      if IsAtEnd() {
        return false;
      }
      b := tokens[current].ttype == t;
    }

    /** `consume` */
    method Consume(t: TokenType, msg: string) returns (r: G.Res<()>)
      requires Valid()
      modifies this
      ensures Valid() && r == LegacyGrammar.Consume(tokens, old(current), t, msg).res
      ensures current == LegacyGrammar.Consume(tokens, old(current), t, msg).pos
    {
      var ok := Check(t);
      if ok {
        current := current + 1;
        r := G.Ok(());
      } else if current < |tokens| {
        r := G.Err(msg);
      } else {
        r := G.Panic;
      }
    }

    /** `expression` */
    method Expression() returns (r: G.Res<LegacyAst.Expr>)
      requires Valid()
      modifies this
      ensures Valid() && r == LegacyGrammar.Expression(tokens, old(current)).res
      ensures current == LegacyGrammar.Expression(tokens, old(current)).pos
      decreases |tokens| - current, 12
    {
      r := BinaryLevel(Equality);
    }

    /** `equality`, `comparison`, `term` and `factor`: one operand, then a
        loop that folds each further operator and operand to the left. */
    method BinaryLevel(l: Level) returns (r: G.Res<LegacyAst.Expr>)
      requires Valid()
      modifies this
      ensures Valid() && r == LegacyGrammar.BinaryLevel(tokens, old(current), l).res
      ensures current == LegacyGrammar.BinaryLevel(tokens, old(current), l).pos
      decreases |tokens| - current, Rank(l)
    {
      var left := Operand(l);
      if !left.Ok? {
        return left;
      }
      var expr := left.value;
      ghost var target := LevelRest(tokens, current, l, expr);
      while true
        invariant Valid() && old(current) < current
        invariant LevelRest(tokens, current, l, expr) == target
        decreases |tokens| - current
      {
        var more := MatchAdvance(Ops(l));
        if !more {
          return G.Ok(expr);
        }
        var op := tokens[current - 1];
        var right := Operand(l);
        if !right.Ok? {
          return right;
        }
        expr := LegacyAst.Binary(expr, op, right.value);
      }
    }

    /** The routine a level calls for its operands. */
    method Operand(l: Level) returns (r: G.Res<LegacyAst.Expr>)
      requires Valid()
      modifies this
      ensures Valid() && r == LegacyGrammar.Operand(tokens, old(current), l).res
      ensures current == LegacyGrammar.Operand(tokens, old(current), l).pos
      decreases |tokens| - current, Rank(l) - 1
    {
      match l
      case Equality => r := BinaryLevel(Comparison);
      case Comparison => r := BinaryLevel(Term);
      case Term => r := BinaryLevel(Factor);
      case Factor => r := Unary();
    }

    /** `unary` */
    method Unary() returns (r: G.Res<LegacyAst.Expr>)
      requires Valid()
      modifies this
      ensures Valid() && r == LegacyGrammar.Unary(tokens, old(current)).res
      ensures current == LegacyGrammar.Unary(tokens, old(current)).pos
      decreases |tokens| - current, 2
    {
      var prefixed := MatchAdvance({Bang, Minus});
      if prefixed {
        var op := tokens[current - 1];
        var right := Unary();
        if !right.Ok? {
          return right;
        }
        r := G.Ok(LegacyAst.Unary(op, right.value));
      } else {
        r := Primary();
      }
    }

    /** `primary` */
    method Primary() returns (r: G.Res<LegacyAst.Expr>)
      requires Valid()
      modifies this
      ensures Valid() && r == LegacyGrammar.Primary(tokens, old(current)).res
      ensures current == LegacyGrammar.Primary(tokens, old(current)).pos
      decreases |tokens| - current, 0
    {
      if IsAtEnd() {
        return G.Panic;
      }
      var t := tokens[current];
      current := current + 1;
      match t.ttype
      case False => r := G.Ok(LegacyAst.Literal("false"));
      case True => r := G.Ok(LegacyAst.Literal("true"));
      case Nil => r := G.Ok(LegacyAst.Literal("nil"));
      case Number(_) => r := G.Ok(LegacyAst.Literal(tokens[current - 1].literal));
      case StringLit(_) => r := G.Ok(LegacyAst.Literal(tokens[current - 1].literal));
      case LeftParen =>
        var inner := Expression();
        if !inner.Ok? {
          return inner;
        }
        var closed := Consume(RightParen, "Expected )!");
        if closed.Panic? {
          return G.Panic;
        }
        r := G.Ok(LegacyAst.Grouping(inner.value));
      case _ =>
        if IsAtEnd() {
          r := G.Panic;
        } else {
          r := G.Err("Something went wrong!");
        }
    }
  }

  /** `Parser::new(tokens).parse()` */
  method ParseTokens(tokens: seq<Token>) returns (r: G.Res<LegacyAst.Expr>)
    ensures r == LegacyGrammar.Parse(tokens)
  {
    var p := new Parser(tokens);
    r := p.Parse();
  }
}
