/** Runtime values of the older interpreter and their printed forms
    (lox-rust/src/object.rs). */
module LegacyObjects {
  import opened Text
  import Objects

  datatype Object = Nil | Str(s: string) | Num(n: real) | Bool(b: bool)

  /** `Display for Object`: strings are printed in double quotes. How a
      number is printed is the parameter `numText`. */
  function Display(o: Object, numText: real -> string): (r: string)
    ensures o.Nil? ==> r == "nil"
    ensures o.Str? ==> r == "\"" + o.s + "\""
    ensures o.Bool? ==> r == (if o.b then "true" else "false")
  {
    match o
    case Nil => "nil"
    case Str(s) => "\"" + s + "\""
    case Num(n) => numText(n)
    case Bool(b) => Objects.BoolText(b)
  }

  /** `stringify_cli_result`: the printed form with a trailing `.0` removed. */
  function StringifyCliResult(o: Object, numText: real -> string): (r: string)
    ensures StartsWith(Display(o, numText), r)
    ensures r == Display(o, numText) <==> !EndsWith(Display(o, numText), ".0")
  {
    Objects.TrimPointZero(Display(o, numText))
  }

  /** A string result is never trimmed: its printed form ends in a quote. */
  lemma StringsUntrimmed(s: string, numText: real -> string)
    ensures StringifyCliResult(Str(s), numText) == "\"" + s + "\""
  {
    var d := "\"" + s + "\"";
    assert d[|d| - 1] == '"';
  }
}
