/** The error values shared by the environments (src/cerror.rs). The
    reports these helpers print are not modelled; only the values they
    return are. */
module CErrors {
  import opened Text
  import Tokens
  import LoxErrors

  datatype ScannerError = ScannerError(msg: string)
  datatype ParseError = ParseError(msg: string)

  /** An evaluation error before and after the place it happened is known. */
  datatype EvalError =
    | WithoutContext(msg: string)
    | WithContext(line: nat, location: string, token: Tokens.Token, msg: string)

  /** `scerror`: the error carries the message unchanged. */
  function Scerror(line: nat, msg: string): (e: ScannerError)
    ensures e.msg == msg
  {
    ScannerError(msg)
  }

  /** `perror`: the error carries the message unchanged. */
  function Perror(token: Tokens.Token, msg: string): (e: ParseError)
    ensures e.msg == msg
  {
    ParseError(msg)
  }

  /** `EvalError::new` */
  function New(msg: string): (e: EvalError)
    ensures e.WithoutContext? && GetMsg(e) == msg
  {
    WithoutContext(msg)
  }

  /** `EvalError::new_everror`: the context is the token's line, the
      expression text as location, the token and the message. */
  function NewEverror(token: Tokens.Token, exprStr: string, msg: string): (e: EvalError)
    ensures e.WithContext? && e.line == token.line && e.location == exprStr && e.token == token
    ensures GetMsg(e) == msg
  {
    WithContext(token.line, exprStr, token, msg)
  }

  /** `with_context`: an error without context gets this one; an error that
      has a context keeps it. */
  function AddContext(e: EvalError, token: Tokens.Token, exprStr: string): (r: EvalError)
    ensures r.WithContext?
    ensures e.WithContext? ==> r == e
    ensures e.WithoutContext? ==> r.line == token.line && r.location == exprStr && r.token == token
  {
    match e
    case WithoutContext(msg) => NewEverror(token, exprStr, msg)
    case WithContext(_, _, _, _) => e
  }

  /** `get_msg` */
  function GetMsg(e: EvalError): (r: string)
    ensures r == e.msg
  {
    match e
    case WithoutContext(msg) => msg
    case WithContext(_, _, _, msg) => msg
  }

  /** Adding context never changes the message. */
  lemma AddContextKeepsMsg(e: EvalError, token: Tokens.Token, exprStr: string)
    ensures GetMsg(AddContext(e, token, exprStr)) == GetMsg(e)
  {
  }

  /** Context is added once: the first context wins over every later one. */
  lemma AddContextIdempotent(e: EvalError, t1: Tokens.Token, s1: string, t2: Tokens.Token, s2: string)
    ensures AddContext(AddContext(e, t1, s1), t2, s2) == AddContext(e, t1, s1)
  {
  }

  /** `Display for EvalError` */
  function Display(e: EvalError): (r: string)
    ensures r == "Evaluation error: " + GetMsg(e)
  {
    "Evaluation error: " + GetMsg(e)
  }

  /** The message is recovered from the printed error. */
  lemma DisplayMsg(e: EvalError)
    ensures Display(e)[|"Evaluation error: "|..] == GetMsg(e)
  {
  }
}
