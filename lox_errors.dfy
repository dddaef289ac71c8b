/** The error values of the current interpreter (src/lox_error.rs). The
    messages these helpers print to standard error are not modelled; only
    the values they return are. */
module LoxErrors {
  import opened Text
  import Tokens
  import Objects

  /** The coarse error a whole phase reports. */
  datatype LoxError = Parse | Runtime | Scan

  /** `Display for LoxError` prints the variant name. */
  function LoxErrorText(e: LoxError): string {
    match e
    case Parse => "Parse"
    case Runtime => "Runtime"
    case Scan => "Scan"
  }

  datatype ScanError = ScanError(msg: string)
  datatype ParseError = ParseError(msg: string)

  /** An evaluation error: either a `return` unwinding with its value, or a
      runtime failure with its message. */
  datatype EvalError = Return(value: Objects.Object) | Runtime(msg: string)

  /** `scerror`: the error carries the message unchanged. */
  function Scerror(line: nat, msg: string): (e: ScanError)
    ensures e.msg == msg
  {
    ScanError(msg)
  }

  /** `perror`: the error carries the message unchanged. */
  function Perror(token: Tokens.Token, msg: string): (e: ParseError)
    ensures e.msg == msg
  {
    ParseError(msg)
  }

  /** Where an error is reported: at the end of input or at a lexeme. */
  function LocationFor(token: Tokens.Token): (r: string)
    ensures token.ttype == Tokens.Eof ==> r == "at end"
    ensures token.ttype != Tokens.Eof ==> r == "at '" + token.lexeme + "'"
  {
    if token.ttype == Tokens.Eof then "at end" else "at '" + token.lexeme + "'"
  }

  /** The location text names the end of input exactly for the `Eof` token. */
  lemma LocationEndIffEof(token: Tokens.Token)
    ensures LocationFor(token) == "at end" <==> token.ttype == Tokens.Eof
  {
    if token.ttype != Tokens.Eof {
      assert LocationFor(token)[3] == '\'';
    }
  }

  /** `EvalError::new` */
  function New(msg: string): (e: EvalError)
    ensures e.Runtime? && e.msg == msg
  {
    EvalError.Runtime(msg)
  }

  /** The suffix a context adds: the line of the token and the expression. */
  function ContextLine(token: Tokens.Token, exprStr: string): (r: string)
    ensures |r| >= 18 + |exprStr| && r[..6] == "[line " && r[|r| - |exprStr|..] == exprStr
    ensures r[6..|r| - |exprStr| - 11] == NatToString(token.line)
    ensures r[|r| - |exprStr| - 11..|r| - |exprStr|] == "] Error at "
  {
    var digits := NatToString(token.line);
    var r := "[line " + digits + "] Error at " + exprStr;
    assert r[6..6 + |digits|] == digits;
    assert r[6 + |digits|..6 + |digits| + 11] == "] Error at ";
    r
  }

  /** `EvalError::new_with_context`: the context line, a colon and the message. */
  function NewWithContext(token: Tokens.Token, exprStr: string, msg: string): (e: EvalError)
    ensures e.Runtime? && EndsWith(e.msg, ": " + msg) && StartsWith(e.msg, "[line ")
    ensures e.msg == ContextLine(token, exprStr) + ": " + msg
  {
    var m := ContextLine(token, exprStr) + ": " + msg;
    assert m[|m| - |": " + msg|..] == ": " + msg;
    EvalError.Runtime(m)
  }

  /** `EvalError::new_return` */
  function NewReturn(obj: Objects.Object): (e: EvalError)
    ensures e.Return? && e.value == obj
  {
    EvalError.Return(obj)
  }

  /** `with_context`: a `Return` passes through; a runtime message gets one
      more line naming the token's line and the expression. */
  function WithContext(e: EvalError, token: Tokens.Token, exprStr: string): (r: EvalError)
    ensures e.Return? ==> r == e
    ensures e.Runtime? ==> r.Runtime? && StartsWith(r.msg, e.msg)
    ensures e.Runtime? ==> |r.msg| > |e.msg| && r.msg[|e.msg|] == '\n'
    ensures e.Runtime? ==> r.msg == e.msg + "\n" + ContextLine(token, exprStr)
  {
    match e
    case Return(_) => e
    case Runtime(old_msg) =>
      var m := old_msg + "\n" + ContextLine(token, exprStr);
      assert m[..|old_msg|] == old_msg;
      EvalError.Runtime(m)
  }

  /** Every application adds a line: context is never applied only once. */
  lemma WithContextNotIdempotent(msg: string, token: Tokens.Token, exprStr: string)
    ensures WithContext(WithContext(EvalError.Runtime(msg), token, exprStr), token, exprStr) != WithContext(EvalError.Runtime(msg), token, exprStr)
  {
  }

  /** Each application adds exactly one line break when the expression text has none. */
  lemma WithContextAddsOneLine(msg: string, token: Tokens.Token, exprStr: string)
    requires '\n' !in exprStr
    ensures Count(WithContext(EvalError.Runtime(msg), token, exprStr).msg, '\n') == Count(msg, '\n') + 1
  {
    var ctx := ContextLine(token, exprStr);
    ContextLineUnbroken(token, exprStr);
    assert WithContext(EvalError.Runtime(msg), token, exprStr).msg == msg + ("\n" + ctx);
    OneMoreLine(msg, ctx);
  }

  lemma OneMoreLine(msg: string, ctx: string)
    requires Count(ctx, '\n') == 0
    ensures Count(msg + ("\n" + ctx), '\n') == Count(msg, '\n') + 1
  {
    assert Count("\n", '\n') == 1;
    CountAppend(msg, "\n" + ctx, '\n');
    CountAppend("\n", ctx, '\n');
  }

  lemma ContextLineUnbroken(token: Tokens.Token, exprStr: string)
    requires '\n' !in exprStr
    ensures Count(ContextLine(token, exprStr), '\n') == 0
  {
    var digits := NatToString(token.line);
    assert '\n' !in digits;
    var ctx := "[line " + digits + "] Error at " + exprStr;
    assert forall i :: 0 <= i < |ctx| ==> ctx[i] != '\n';
    CountZero(ctx, '\n');
  }

  /** `Display for EvalError`. */
  function Display(e: EvalError, numText: real -> string): (r: string)
    ensures e.Runtime? ==> r == e.msg
    ensures e.Return? ==> r == "Return " + Objects.Display(e.value, numText)
  {
    match e
    case Return(obj) => "Return " + Objects.Display(obj, numText)
    case Runtime(msg) => msg
  }
}
