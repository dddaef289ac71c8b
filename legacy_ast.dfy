/** The expression tree of the older interpreter (lox-rust/src/expr.rs)
    and its prefix rendering. Literals hold their text; operators keep
    their token. */
module LegacyAst {
  import opened Tokens
  import Text

  datatype Expr =
    | Binary(left: Expr, operator: Token, right: Expr)
    | Grouping(expression: Expr)
    | Literal(value: string)
    | Unary(operator: Token, right: Expr)

  /** `Token::to_string`: the kind's `{:?}` form, a space, and the quoted
      lexeme. */
  function TokenText(t: Token, numDebug: real -> string): (r: string)
    ensures Text.StartsWith(r, KindDebug(t.ttype, numDebug))
    ensures Text.EndsWith(r, Text.DebugQuote(t.lexeme))
  {
    KindDebug(t.ttype, numDebug) + " " + Text.DebugQuote(t.lexeme)
  }

  /** `parens`: both operands in `{:?}` quotes, between "(" and " )". */
  function Parens(l: string, r: string): (s: string)
    ensures Text.StartsWith(s, "(\"") && Text.EndsWith(s, "\" )")
    ensures |s| >= |l| + |r| + 7
  {
    "(" + Text.DebugQuote(l) + " " + Text.DebugQuote(r) + " )"
  }

  /** Operands free of quotes, backslashes and control characters appear
      verbatim between the quotes. */
  lemma ParensPlain(l: string, r: string)
    requires forall i :: 0 <= i < |l| ==> ' ' <= l[i] && l[i] != '\U{007F}' && l[i] != '"' && l[i] != '\\'
    requires forall i :: 0 <= i < |r| ==> ' ' <= r[i] && r[i] != '\U{007F}' && r[i] != '"' && r[i] != '\\'
    ensures Parens(l, r) == "(\"" + l + "\" \"" + r + "\" )"
  {
    Text.DebugQuotePlain(l);
    Text.DebugQuotePlain(r);
  }

  /** `to_string`: operators in front, groupings transparent, literals
      verbatim. */
  function ToString(e: Expr, numDebug: real -> string): (r: string)
    ensures e.Literal? ==> r == e.value
    ensures e.Binary? ==> Text.StartsWith(r, TokenText(e.operator, numDebug)) && Text.EndsWith(r, "\" )")
    ensures e.Unary? ==> Text.StartsWith(r, "(\"" + Text.EscapeDebug(KindDebug(e.operator.ttype, numDebug))) && Text.EndsWith(r, "\" )")
  {
    match e
    case Binary(left, operator, right) =>
      var o := TokenText(operator, numDebug);
      var p := Parens(ToString(left, numDebug), ToString(right, numDebug));
      assert (o + p)[..|o|] == o;
      assert (o + p)[|o + p| - 3..] == p[|p| - 3..];
      o + p
    case Grouping(inner) => ToString(inner, numDebug)
    case Literal(value) => value
    case Unary(operator, right) =>
      UnaryFront(TokenText(operator, numDebug), KindDebug(operator.ttype, numDebug), ToString(right, numDebug));
      Parens(TokenText(operator, numDebug), ToString(right, numDebug))
  }

  lemma UnaryFront(o: string, k: string, r: string)
    requires Text.StartsWith(o, k)
    ensures Text.StartsWith(Parens(o, r), "(\"" + Text.EscapeDebug(k))
  {
    var rest := Text.EscapeDebug(o[|k|..]);
    assert k + o[|k|..] == o;
    EscapeAppend(k, o[|k|..]);
    var tail := "\" " + Text.DebugQuote(r) + " )";
    ParensSplit(o, r);
    PrefixOfConcat("(\"", Text.EscapeDebug(k), rest, tail);
  }

  lemma ParensSplit(o: string, r: string)
    ensures Parens(o, r) == "(\"" + Text.EscapeDebug(o) + ("\" " + Text.DebugQuote(r) + " )")
  {
  }

  lemma PrefixOfConcat(a: string, b: string, c: string, d: string)
    ensures Text.StartsWith(a + (b + c) + d, a + b)
  {
    assert a + (b + c) + d == (a + b) + (c + d);
  }

  /** Escaping works character by character. */
  lemma {:induction false} EscapeAppend(a: string, b: string)
    ensures Text.EscapeDebug(a + b) == Text.EscapeDebug(a) + Text.EscapeDebug(b)
  {
    if a == [] {
      assert a + b == b;
    } else {
      assert (a + b)[0] == a[0];
      assert (a + b)[1..] == a[1..] + b;
      EscapeAppend(a[1..], b);
    }
  }

  /** The tree with every grouping removed. */
  function StripGroupings(e: Expr): (r: Expr)
    ensures !r.Grouping?
  {
    match e
    case Binary(left, operator, right) => Binary(StripGroupings(left), operator, StripGroupings(right))
    case Grouping(inner) => StripGroupings(inner)
    case Literal(value) => Literal(value)
    case Unary(operator, right) => Unary(operator, StripGroupings(right))
  }

  /** Groupings leave no trace in the rendering: a tree renders exactly as
      the same tree without its parentheses. */
  lemma {:induction false} GroupingInvisible(e: Expr, numDebug: real -> string)
    ensures ToString(StripGroupings(e), numDebug) == ToString(e, numDebug)
  {
    match e
    case Binary(left, operator, right) =>
      GroupingInvisible(left, numDebug);
      GroupingInvisible(right, numDebug);
    case Grouping(inner) => GroupingInvisible(inner, numDebug);
    case Literal(_) =>
    case Unary(_, right) => GroupingInvisible(right, numDebug);
  }
}
