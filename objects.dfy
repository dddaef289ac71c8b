/** Runtime values of the current interpreter and their printed forms
    (src/object.rs). */
module Objects {
  import opened Text

  /** A callable value: its name, the number of parameters it takes, and
      whether it is a built-in. */
  datatype Callee = Callee(name: string, arity: nat, native: bool)

  /** Numbers are exact reals: floating-point rounding is not modelled. */
  datatype Object = Nil | Str(s: string) | Num(n: real) | Bool(b: bool) | Fun(f: Callee)

  function BoolText(b: bool): string {
    if b then "true" else "false"
  }

  /** The `Debug` text of a callable: built-ins print as `<native fn>`,
      user functions as `<fn name>`. */
  function CalleeText(f: Callee): (r: string)
    ensures |r| >= 4 && r[0] == '<' && r[|r| - 1] == '>'
    ensures f.native <==> r == "<native fn>"
    ensures !f.native ==> r[1..4] == "fn " && r[4..|r| - 1] == f.name
  {
    if f.native then "<native fn>"
    else
      var r := "<fn " + f.name + ">";
      assert r[1] != "<native fn>"[1];
      r
  }

  /** `Display for Object`. How a number is printed is the parameter `numText`. */
  function Display(o: Object, numText: real -> string): (r: string)
    ensures o.Nil? ==> r == "nil"
    ensures o.Str? ==> r == o.s
    ensures o.Bool? ==> r == (if o.b then "true" else "false")
  {
    match o
    case Nil => "nil"
    case Str(s) => s
    case Num(n) => numText(n)
    case Bool(b) => BoolText(b)
    case Fun(f) => CalleeText(f)
  }

  /** A trailing `.0` removed, any other text unchanged. */
  function TrimPointZero(s: string): (r: string)
    ensures StartsWith(s, r)
    ensures r == s <==> !EndsWith(s, ".0")
    ensures r != s ==> |r| == |s| - 2
  {
    if EndsWith(s, ".0") then s[..|s| - 2] else s
  }

  /** `stringify_cli_result`: the printed form of a value, with a trailing
      `.0` removed whatever the kind of the value. */
  function StringifyCliResult(o: Object, numText: real -> string): (r: string)
    ensures StartsWith(Display(o, numText), r)
    ensures r == Display(o, numText) <==> !EndsWith(Display(o, numText), ".0")
  {
    TrimPointZero(Display(o, numText))
  }

  /** A string is trimmed like a number: a string whose text ends in `.0`
      prints without it. */
  lemma StringTrimmed(s: string, numText: real -> string)
    ensures StringifyCliResult(Str(s + ".0"), numText) == s
  {
    assert EndsWith(s + ".0", ".0");
    assert (s + ".0")[..|s|] == s;
  }

  /** The trimming is not idempotent: a second application removes another `.0`. */
  lemma TrimTwice(s: string)
    ensures TrimPointZero(TrimPointZero(s + ".0.0")) == s
  {
    var t := s + ".0.0";
    assert EndsWith(t, ".0");
    assert t[..|t| - 2] == s + ".0";
    assert EndsWith(s + ".0", ".0");
    assert (s + ".0")[..|s|] == s;
  }
}
