/** The older generator of the `Expr` enum (lox-rust/tools/ast_gen.py): the
    same schema language, types kept verbatim, Rust handle types chosen when a
    field is printed, and constructors that return `Rc<Expr>`. */
module LegacyAstGen {
  import opened Wrappers
  import opened Text
  import AstGen

  type Field = AstGen.Field
  type Variant = AstGen.Variant

  /** The Rust type a declared type is printed as: `Any` and `Expr` are held
      behind `Rc`, every other type is printed as declared. */
  function RustType(t: string): (r: string)
    ensures t == "Any" ==> r == "Rc<dyn Any>"
    ensures t == "Expr" ==> r == "Rc<Expr>"
    ensures t != "Any" && t != "Expr" ==> r == t
  {
    if t == "Any" then "Rc<dyn " + t + ">"
    else if t == "Expr" then "Rc<" + t + ">"
    else t
  }

  /** `str(Field)`: the declaration with the printed type. */
  function FieldStr(f: Field): string
  {
    f.name + ": " + RustType(f.typ)
  }

  function FieldStrs(fields: seq<Field>): (r: seq<string>)
    ensures |r| == |fields|
    ensures forall i :: 0 <= i < |fields| ==> r[i] == FieldStr(fields[i])
  {
    seq(|fields|, i requires 0 <= i < |fields| => FieldStr(fields[i]))
  }

  lemma FieldStrsSnoc(fields: seq<Field>, i: nat)
    requires i < |fields|
    ensures FieldStrs(fields[..i + 1]) == FieldStrs(fields[..i]) + [FieldStr(fields[i])]
  {
  }

  /** `str(Expr)`: the name, an arrow and the printed field declarations; with
      no fields nothing follows the arrow. */
  method ExprStr(e: Variant) returns (s: string)
    ensures s == e.name + " -> " + Join(FieldStrs(e.fields), ", ")
    ensures e.fields == [] ==> s == e.name + " -> "
  {
    var fieldstrs := "";
    var i := 0;
    while i < |e.fields|
      invariant 0 <= i <= |e.fields|
      invariant fieldstrs == Terminated(FieldStrs(e.fields[..i]), ", ")
    {
      FieldStrsSnoc(e.fields, i);
      TerminatedSnoc(FieldStrs(e.fields[..i]), FieldStr(e.fields[i]), ", ");
      fieldstrs := fieldstrs + FieldStr(e.fields[i]) + ", ";
      i := i + 1;
    }
    assert e.fields[..i] == e.fields;
    TerminatedDropIsJoin(FieldStrs(e.fields), ", ");
    s := e.name + " -> " + DropLastTwo(fieldstrs);
  }

  /** `fieldize`: the same word rule as the newer generator, the type kept verbatim. */
  function Fieldize(s: string): (r: Result<Field, AstGen.PyError>)
    ensures r.Success? <==> Count(s, ' ') >= 2
    ensures r.Success? ==> r.value == AstGen.Field(AstGen.FieldWords(s).value.1, AstGen.FieldWords(s).value.0)
  {
    var (typ, name) :- AstGen.FieldWords(s);
    Success(AstGen.Field(name, typ))
  }

  /** `parse_fields` */
  function ParseFields(s: string): (r: Result<seq<Field>, AstGen.PyError>)
    ensures r.Success? <==> AstGen.AllSucceed(Split(s, ','), Fieldize)
    ensures r.Success? ==>
      |r.value| == |Split(s, ',')| && forall i :: 0 <= i < |r.value| ==> Fieldize(Split(s, ',')[i]) == Success(r.value[i])
  {
    AstGen.MapAll(Split(s, ','), Fieldize)
  }

  /** `parse_expr` */
  function ParseExpr(expr: string): (r: Result<Variant, AstGen.PyError>)
    ensures ':' !in expr ==> r.Failure?
    ensures r.Success? ==> r.value.name == Strip(Split(expr, ':')[0])
  {
    CountZero(expr, ':');
    var parts := Split(expr, ':');
    if |parts| < 2 then Failure(AstGen.IndexError)
    else
      var fields :- ParseFields(parts[1]);
      Success(AstGen.Variant(Strip(parts[0]), fields))
  }

  /** The fields a schema line declares, types verbatim. */
  function Declared(decls: seq<(string, string)>): (r: seq<Field>)
    ensures |r| == |decls|
  {
    seq(|decls|, i requires 0 <= i < |decls| => AstGen.Field(decls[i].1, decls[i].0))
  }

  /** A comma-separated list of well-formed declarations parses back to its
      fields, types unchanged. */
  lemma {:induction false} ParseDecls(decls: seq<(string, string)>)
    requires |decls| >= 1
    requires forall i :: 0 <= i < |decls| ==> AstGen.Word(decls[i].0) && AstGen.Word(decls[i].1)
    ensures ParseFields(Join(AstGen.Decls(decls), ",")) == Success(Declared(decls))
  {
    var ds := AstGen.Decls(decls);
    AstGen.DeclsWords(decls);
    SplitJoin(ds, ',');
    forall i | 0 <= i < |ds|
      ensures Fieldize(ds[i]) == Success(Declared(decls)[i])
    {
      AstGen.FieldWordsDecl(decls[i].0, decls[i].1);
    }
    var r := ParseFields(Join(ds, ","));
    assert r.Success?;
    assert r.value == Declared(decls);
  }

  /** Parsing a schema line recovers its name and its fields with the declared
      types unchanged: no `-` is rewritten. */
  lemma {:induction false} ParseSchemaLine(name: string, decls: seq<(string, string)>)
    requires AstGen.Word(name) && |decls| >= 1
    requires forall i :: 0 <= i < |decls| ==> AstGen.Word(decls[i].0) && AstGen.Word(decls[i].1)
    ensures ParseExpr(AstGen.SchemaLine(name, decls)) == Success(AstGen.Variant(name, Declared(decls)))
  {
    var body := Join(AstGen.Decls(decls), ",");
    AstGen.DeclsWords(decls);
    AstGen.JoinNoSep(AstGen.Decls(decls), ",", ':');
    assert ':' !in name + " " by {
      assert forall k :: 0 <= k < |name| ==> name[k] != ':';
    }
    assert AstGen.SchemaLine(name, decls) == (name + " ") + [':'] + body;
    SplitAfter(name + " ", ':', body);
    SplitNoSep(body, ':');
    assert Split(AstGen.SchemaLine(name, decls), ':') == [name + " ", body];
    StripTrailingBlank(name);
    ParseDecls(decls);
  }

  /** The constructor of an expression: its name is the variant name fully
      lower-cased, with no underscores added. */
  function CtorName(e: Variant): (r: string)
    ensures |r| == |e.name|
    ensures forall i :: 0 <= i < |r| ==> !IsUpper(r[i]) && (r[i] == '_' <==> e.name[i] == '_')
    ensures forall i :: 0 <= i < |r| ==> r[i] == ToLower(e.name[i])
  {
    Lower(e.name)
  }

  /** The constructor: parameters as the printed field declarations, and a
      body that wraps the variant with its field names in order in `Rc::new`. */
  function CtorText(e: Variant): string {
    "\tfn " + CtorName(e) + "(" + Join(FieldStrs(e.fields), ", ") + ") -> Rc<Expr> {\n"
    + "\t\tRc::new(Expr::" + e.name + " { " + Join(AstGen.FieldNames(e), ", ") + " })\n\t}\n\n"
  }

  function EnumLine(e: Variant): string {
    "\t" + e.name + " { " + Join(FieldStrs(e.fields), ", ") + " },\n"
  }

  function EnumLines(es: seq<Variant>): (r: seq<string>)
    ensures |r| == |es| && forall i :: 0 <= i < |es| ==> r[i] == EnumLine(es[i])
  {
    seq(|es|, i requires 0 <= i < |es| => EnumLine(es[i]))
  }

  function CtorTexts(es: seq<Variant>): (r: seq<string>)
    ensures |r| == |es| && forall i :: 0 <= i < |es| ==> r[i] == CtorText(es[i])
  {
    seq(|es|, i requires 0 <= i < |es| => CtorText(es[i]))
  }

  /** The text the script prints for the parsed expressions. */
  function SourceText(es: seq<Variant>): string {
    "pub enum Expr {\n" + Concat(EnumLines(es)) + "}\n\n" + "impl Expr {\n" + Concat(CtorTexts(es)) + "}"
  }

  /** The module-level assembly of `output`, without reading the schema file
      and printing the result. */
  method GenExprSource(exprs: seq<Variant>) returns (output: string)
    ensures output == SourceText(exprs)
  {
    output := "pub enum Expr {\n";
    ghost var head := output;
    for i := 0 to |exprs|
      invariant output == head + Concat(EnumLines(exprs[..i]))
    {
      var e := exprs[i];
      var line := "\t" + e.name + " { " + Join(FieldStrs(e.fields), ", ") + " },\n";
      EnumLinesSnoc(exprs, i);
      AppendAssoc(head, Concat(EnumLines(exprs[..i])), line);
      output := output + line;
    }
    assert exprs[..|exprs|] == exprs;
    output := output + "}\n\n";
    output := output + "impl Expr {\n";
    head := output;
    for i := 0 to |exprs|
      invariant output == head + Concat(CtorTexts(exprs[..i]))
    {
      var e := exprs[i];
      var text := "\tfn " + Lower(e.name) + "(" + Join(FieldStrs(e.fields), ", ") + ") -> Rc<Expr> {\n"
        + "\t\tRc::new(Expr::" + e.name + " { " + Join(AstGen.FieldNames(e), ", ") + " })\n\t}\n\n";
      CtorTextsSnoc(exprs, i);
      AppendAssoc(head, Concat(CtorTexts(exprs[..i])), text);
      output := output + text;
    }
    output := output + "}";
  }

  lemma EnumLinesSnoc(es: seq<Variant>, i: nat)
    requires i < |es|
    ensures Concat(EnumLines(es[..i + 1])) == Concat(EnumLines(es[..i])) + EnumLine(es[i])
  {
    assert EnumLines(es[..i + 1]) == EnumLines(es[..i]) + [EnumLine(es[i])];
    ConcatSnoc(EnumLines(es[..i]), EnumLine(es[i]));
  }

  lemma CtorTextsSnoc(es: seq<Variant>, i: nat)
    requires i < |es|
    ensures Concat(CtorTexts(es[..i + 1])) == Concat(CtorTexts(es[..i])) + CtorText(es[i])
  {
    assert CtorTexts(es[..i + 1]) == CtorTexts(es[..i]) + [CtorText(es[i])];
    ConcatSnoc(CtorTexts(es[..i]), CtorText(es[i]));
  }
}
