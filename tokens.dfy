/** The tokens the scanners produce and the parsers consume. */
module Tokens {
  import Text

  /** The token kinds of the current interpreter. The older scanners use the
      same kinds except `Elif` and `Sof`, which they never produce. A number
      token carries its exact decimal value. */
  datatype TokenType =
    | LeftParen | RightParen | LeftBrace | RightBrace
    | Comma | Dot | Minus | Plus | Semicolon | Slash | Star
    | Bang | BangEqual | Equal | EqualEqual
    | Greater | GreaterEqual | Less | LessEqual
    | Identifier(name: string) | StringLit(text: string) | Number(value: real)
    | And | Class | Elif | Else | False | Fun | For | If | Nil | Or
    | Print | Return | Super | This | True | Var | While
    | Eof | Sof
    | Error

  datatype Token = Token(ttype: TokenType, lexeme: string, literal: string, line: nat)

  /** The comparisons, `-` and `*`: both operands must be numbers. */
  predicate NumericOperator(k: TokenType) {
    k.Greater? || k.GreaterEqual? || k.Less? || k.LessEqual? || k.Minus? || k.Star?
  }

  /** The operators both interpreters' `eval_binary` know. */
  predicate BinaryOperator(k: TokenType) {
    k.BangEqual? || k.EqualEqual? || NumericOperator(k) || k.Plus? || k.Slash?
  }

  /** `{:?}` of a token kind, the same in both interpreters: the variant
      name, with its payload in parentheses. How a number payload prints
      is `numDebug`, the `{:?}` of an `f64`. */
  function KindDebug(t: TokenType, numDebug: real -> string): (r: string)
    ensures |r| > 0
    ensures t.Identifier? || t.StringLit? || t.Number? ==> r[|r| - 1] == ')'
    ensures !(t.Identifier? || t.StringLit? || t.Number?) ==> r[|r| - 1] != ')'
  {
    match t
    case LeftParen => "LeftParen"
    case RightParen => "RightParen"
    case LeftBrace => "LeftBrace"
    case RightBrace => "RightBrace"
    case Comma => "Comma"
    case Dot => "Dot"
    case Minus => "Minus"
    case Plus => "Plus"
    case Semicolon => "Semicolon"
    case Slash => "Slash"
    case Star => "Star"
    case Bang => "Bang"
    case BangEqual => "BangEqual"
    case Equal => "Equal"
    case EqualEqual => "EqualEqual"
    case Greater => "Greater"
    case GreaterEqual => "GreaterEqual"
    case Less => "Less"
    case LessEqual => "LessEqual"
    case Identifier(name) => "Identifier(" + Text.DebugQuote(name) + ")"
    case StringLit(text) => "StringLit(" + Text.DebugQuote(text) + ")"
    case Number(v) => "Number(" + numDebug(v) + ")"
    case And => "And"
    case Class => "Class"
    case Elif => "Elif"
    case Else => "Else"
    case False => "False"
    case Fun => "Fun"
    case For => "For"
    case If => "If"
    case Nil => "Nil"
    case Or => "Or"
    case Print => "Print"
    case Return => "Return"
    case Super => "Super"
    case This => "This"
    case True => "True"
    case Var => "Var"
    case While => "While"
    case Eof => "Eof"
    case Sof => "Sof"
    case Error => "Error"
  }
}
