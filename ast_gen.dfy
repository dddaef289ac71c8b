/** The generator of the `Expr` and `Stmt` Rust enums (codegen/ast_gen.py):
    it parses schema lines `Name : Type field, Type field` and assembles the
    enum, one constructor function per variant and a `Display` impl. */
module AstGen {
  import opened Wrappers
  import opened Text

  /** The only exception the parsing functions raise: a list index out of range. */
  datatype PyError = IndexError

  /** A declared field of a variant. */
  datatype Field = Field(name: string, typ: string)

  /** A parsed schema line: the variant name and its fields in schema order. */
  datatype Variant = Variant(name: string, fields: seq<Field>)

  /** `Field(name, typ)`: every `-` of the declared type becomes `,`, so that
      `HashMap<String-Object>` can be written inside a comma-separated list. */
  function NewField(name: string, typ: string): (f: Field)
    ensures f.name == name && |f.typ| == |typ|
    ensures forall i :: 0 <= i < |typ| ==> f.typ[i] == (if typ[i] == '-' then ',' else typ[i])
    ensures '-' !in f.typ
  {
    Field(name, ReplaceChar(typ, '-', ','))
  }

  /** `str(Field)`: the declaration `name: type` as Rust writes it. */
  function FieldStr(f: Field): string
  {
    f.name + ": " + f.typ
  }

  function FieldStrs(fields: seq<Field>): (r: seq<string>)
    ensures |r| == |fields|
    ensures forall i :: 0 <= i < |fields| ==> r[i] == FieldStr(fields[i])
  {
    seq(|fields|, i requires 0 <= i < |fields| => FieldStr(fields[i]))
  }

  /** `Expr.field_names()` */
  function FieldNames(v: Variant): (r: seq<string>)
    ensures |r| == |v.fields|
    ensures forall i :: 0 <= i < |r| ==> r[i] == v.fields[i].name
  {
    seq(|v.fields|, i requires 0 <= i < |v.fields| => v.fields[i].name)
  }

  /** `str(Expr)`: the name, an arrow and the field declarations joined by
      `", "`, built by appending `", "` after every field and cutting the last
      two characters off. */
  method VariantStr(v: Variant) returns (s: string)
    ensures s == v.name + " -> " + Join(FieldStrs(v.fields), ", ")
  {
    var fieldstrs := "";
    var i := 0;
    while i < |v.fields|
      invariant 0 <= i <= |v.fields|
      invariant fieldstrs == Terminated(FieldStrs(v.fields[..i]), ", ")
    {
      assert FieldStrs(v.fields[..i + 1]) == FieldStrs(v.fields[..i]) + [FieldStr(v.fields[i])];
      TerminatedSnoc(FieldStrs(v.fields[..i]), FieldStr(v.fields[i]), ", ");
      fieldstrs := fieldstrs + FieldStr(v.fields[i]) + ", ";
      i := i + 1;
    }
    assert v.fields[..i] == v.fields;
    TerminatedDropIsJoin(FieldStrs(v.fields), ", ");
    s := v.name + " -> " + DropLastTwo(fieldstrs);
  }

  /** The words of a field fragment: `s.split(' ')` with the type at index 1
      and the name at index 2, both stripped; fewer than three words raise
      IndexError. */
  function FieldWords(s: string): (r: Result<(string, string), PyError>)
    ensures r.Success? <==> Count(s, ' ') >= 2
    ensures r.Success? ==> r.value == (Strip(Split(s, ' ')[1]), Strip(Split(s, ' ')[2]))
  {
    var raw := Split(s, ' ');
    if |raw| < 3 then Failure(IndexError) else Success((Strip(raw[1]), Strip(raw[2])))
  }

  /** `fieldize`: a fragment ` Type name` becomes a field. */
  function Fieldize(s: string): (r: Result<Field, PyError>)
    ensures r.Success? <==> Count(s, ' ') >= 2
    ensures r.Success? ==> r.value == NewField(FieldWords(s).value.1, FieldWords(s).value.0)
  {
    var (typ, name) :- FieldWords(s);
    Success(NewField(name, typ))
  }

  /** `f` raises no exception on any of the pieces. */
  predicate AllSucceed<T>(pieces: seq<string>, f: string -> Result<T, PyError>) {
    forall i :: 0 <= i < |pieces| ==> f(pieces[i]).Success?
  }

  /** `list(map(f, pieces))`: the results in order, or the first exception. */
  function MapAll<T>(pieces: seq<string>, f: string -> Result<T, PyError>): (r: Result<seq<T>, PyError>)
    ensures r.Success? <==> AllSucceed(pieces, f)
    ensures r.Success? ==>
      |r.value| == |pieces| && forall i :: 0 <= i < |pieces| ==> f(pieces[i]) == Success(r.value[i])
  {
    if pieces == [] then Success([])
    else
      var head :- f(pieces[0]);
      var tail :- MapAll(pieces[1..], f);
      assert forall i :: 1 <= i < |pieces| ==> pieces[i] == pieces[1..][i - 1];
      Success([head] + tail)
  }

  /** `parse_fields`: one field per comma-separated fragment, in order. */
  function ParseFields(s: string): (r: Result<seq<Field>, PyError>)
    ensures r.Success? <==> AllSucceed(Split(s, ','), Fieldize)
    ensures r.Success? ==>
      |r.value| == |Split(s, ',')| && forall i :: 0 <= i < |r.value| ==> Fieldize(Split(s, ',')[i]) == Success(r.value[i])
  {
    MapAll(Split(s, ','), Fieldize)
  }

  /** `parse_variant`: the trimmed text before the first `:` names the variant,
      the text between the first and the second `:` declares its fields. */
  function ParseVariant(variant: string): (r: Result<Variant, PyError>)
    ensures ':' !in variant ==> r.Failure?
    ensures r.Success? ==> r.value.name == Strip(Split(variant, ':')[0])
  {
    CountZero(variant, ':');
    var parts := Split(variant, ':');
    if |parts| < 2 then Failure(IndexError)
    else
      var fields :- ParseFields(parts[1]);
      Success(Variant(Strip(parts[0]), fields))
  }

  /** A schema word: non-empty, without blanks and without the schema's separators. */
  predicate Word(s: string) {
    s != [] && forall i :: 0 <= i < |s| ==> !IsSpace(s[i]) && s[i] != ',' && s[i] != ':'
  }

  /** The fragment declaring one field, as the schema files write it. */
  function Decl(typ: string, name: string): string {
    " " + typ + " " + name
  }

  function Decls(decls: seq<(string, string)>): seq<string> {
    seq(|decls|, i requires 0 <= i < |decls| => Decl(decls[i].0, decls[i].1))
  }

  /** The schema line `Name : Type field, Type field` for the given (type, name) pairs. */
  function SchemaLine(name: string, decls: seq<(string, string)>): string {
    name + " :" + Join(Decls(decls), ",")
  }

  /** The fields a schema line declares, as `Field` constructs them. */
  function Declared(decls: seq<(string, string)>): (r: seq<Field>)
    ensures |r| == |decls|
  {
    seq(|decls|, i requires 0 <= i < |decls| => NewField(decls[i].1, decls[i].0))
  }

  /** A well-formed declaration fragment parses back to its field. */
  lemma FieldizeDecl(typ: string, name: string)
    requires Word(typ) && Word(name)
    ensures Fieldize(Decl(typ, name)) == Success(NewField(name, typ))
  {
    FieldWordsDecl(typ, name);
  }

  /** The fragment ` Type name` yields exactly its two words. */
  lemma {:induction false} FieldWordsDecl(typ: string, name: string)
    requires Word(typ) && Word(name)
    ensures FieldWords(Decl(typ, name)) == Success((typ, name))
  {
    var s := Decl(typ, name);
    assert ' ' !in typ && ' ' !in name by {
      assert forall i :: 0 <= i < |typ| ==> typ[i] != ' ';
      assert forall i :: 0 <= i < |name| ==> name[i] != ' ';
    }
    assert s == [] + [' '] + (typ + [' '] + name);
    SplitAfter([], ' ', typ + [' '] + name);
    SplitAfter(typ, ' ', name);
    SplitNoSep(name, ' ');
    assert Split(s, ' ') == ["", typ, name];
    StripNoSpace(typ);
    StripNoSpace(name);
  }

  lemma {:induction false} DeclsWords(decls: seq<(string, string)>)
    requires forall i :: 0 <= i < |decls| ==> Word(decls[i].0) && Word(decls[i].1)
    ensures forall i :: 0 <= i < |decls| ==> ',' !in Decls(decls)[i] && ':' !in Decls(decls)[i]
  {
    forall i | 0 <= i < |decls|
      ensures ',' !in Decls(decls)[i] && ':' !in Decls(decls)[i]
    {
      var t, n := decls[i].0, decls[i].1;
      var d := Decls(decls)[i];
      assert d == " " + t + " " + n;
      forall k | 0 <= k < |d|
        ensures d[k] != ',' && d[k] != ':'
      {
        if 1 <= k < 1 + |t| {
          assert d[k] == t[k - 1];
        } else if k >= 2 + |t| {
          assert d[k] == n[k - 2 - |t|];
        }
      }
    }
  }

  /** A comma-separated list of well-formed declarations parses back to its fields. */
  lemma {:induction false} ParseDecls(decls: seq<(string, string)>)
    requires |decls| >= 1
    requires forall i :: 0 <= i < |decls| ==> Word(decls[i].0) && Word(decls[i].1)
    ensures ParseFields(Join(Decls(decls), ",")) == Success(Declared(decls))
  {
    var ds := Decls(decls);
    DeclsWords(decls);
    SplitJoin(ds, ',');
    forall i | 0 <= i < |ds|
      ensures Fieldize(ds[i]) == Success(Declared(decls)[i])
    {
      FieldizeDecl(decls[i].0, decls[i].1);
    }
    var r := ParseFields(Join(ds, ","));
    assert r.Success?;
    assert r.value == Declared(decls);
  }

  /** Parsing a schema line recovers its name and every declared field in
      order, each type with `-` rewritten to `,`. */
  lemma {:induction false} ParseSchemaLine(name: string, decls: seq<(string, string)>)
    requires Word(name) && |decls| >= 1
    requires forall i :: 0 <= i < |decls| ==> Word(decls[i].0) && Word(decls[i].1)
    ensures ParseVariant(SchemaLine(name, decls)) == Success(Variant(name, Declared(decls)))
  {
    var body := Join(Decls(decls), ",");
    DeclsWords(decls);
    JoinNoSep(Decls(decls), ",", ':');
    assert ':' !in name + " " by {
      assert forall k :: 0 <= k < |name| ==> name[k] != ':';
    }
    assert SchemaLine(name, decls) == (name + " ") + [':'] + body;
    SplitAfter(name + " ", ':', body);
    SplitNoSep(body, ':');
    assert Split(SchemaLine(name, decls), ':') == [name + " ", body];
    StripTrailingBlank(name);
    ParseDecls(decls);
  }

  lemma {:induction false} JoinNoSep(pieces: seq<string>, sep: string, c: char)
    requires c !in sep
    requires forall i :: 0 <= i < |pieces| ==> c !in pieces[i]
    ensures c !in Join(pieces, sep)
  {
    if |pieces| > 1 {
      JoinNoSep(pieces[1..], sep, c);
    }
  }

  /** Only the segment between the first and the second `:` declares fields:
      anything after a second `:` is ignored. */
  lemma {:induction false} ParseVariantIgnoresTail(a: string, b: string, c: string)
    requires ':' !in a && ':' !in b
    ensures ParseVariant(a + ":" + b + ":" + c) == ParseVariant(a + ":" + b)
  {
    SplitAfter(a, ':', b + ":" + c);
    assert a + ":" + b + ":" + c == a + [':'] + (b + ":" + c);
    SplitAfter(b, ':', c);
    assert b + ":" + c == b + [':'] + c;
    SplitAfter(a, ':', b);
    SplitNoSep(b, ':');
    assert a + ":" + b == a + [':'] + b;
  }

  /** A variant with no fields is rejected: its empty declaration list has
      fewer than three space-separated words. */
  lemma {:induction false} EmptyVariantRejected(name: string)
    requires ':' !in name
    ensures ParseVariant(name + ":").Failure?
    ensures ParseVariant(name + ": ").Failure?
  {
    SplitAfter(name, ':', "");
    assert name + ":" == name + [':'] + "";
    SplitAfter(name, ':', " ");
    assert name + ": " == name + [':'] + " ";
    SplitNoSep(" ", ',');
    assert Count(" ", ' ') == 1;
  }

  /** The substitution of `(?<!^)(?=[A-Z])` by `_`, from position `k` on: an
      underscore goes before every ASCII capital that is not the first character. */
  function InsertUnderscores(s: string, k: nat): string
    requires k <= |s|
    decreases |s| - k
  {
    if k == |s| then []
    else (if k > 0 && IsUpper(s[k]) then "_" else "") + [s[k]] + InsertUnderscores(s, k + 1)
  }

  /** `new_fn_name`: the snake_case constructor name of a variant. */
  function NewFnName(enum: string): (r: string)
    ensures forall i :: 0 <= i < |r| ==> !IsUpper(r[i])
  {
    Lower(InsertUnderscores(enum, 0))
  }

  lemma {:induction false} RemoveInserted(s: string, k: nat)
    requires '_' !in s && k <= |s|
    ensures Remove(InsertUnderscores(s, k), '_') == s[k..]
    decreases |s| - k
  {
    if k < |s| {
      RemoveInserted(s, k + 1);
      var pre := (if k > 0 && IsUpper(s[k]) then "_" else "") + [s[k]];
      assert s[k] in s;
      RemovePiece(s[k], k > 0 && IsUpper(s[k]));
      RemoveAppend(pre, InsertUnderscores(s, k + 1), '_');
      assert s[k..] == [s[k]] + s[k + 1..];
    }
  }

  /** One piece of the conversion loses its underscore and keeps its character. */
  lemma RemovePiece(c: char, marked: bool)
    requires c != '_'
    ensures Remove((if marked then "_" else "") + [c], '_') == [c]
  {
    var pre := (if marked then "_" else "") + [c];
    if marked {
      assert pre[1..] == [c];
    }
  }

  lemma {:induction false} RemoveLower(s: string)
    ensures Remove(Lower(s), '_') == Lower(Remove(s, '_'))
  {
    if s != [] {
      RemoveLower(s[1..]);
      LowerAppend(if s[0] == '_' then [] else [s[0]], Remove(s[1..], '_'));
    }
  }

  /** Deleting the inserted underscores from a constructor name leaves the
      lower-cased variant name: the conversion adds nothing else and drops nothing. */
  lemma {:induction false} NewFnNameUnderscoresOnly(enum: string)
    requires '_' !in enum
    ensures Remove(NewFnName(enum), '_') == Lower(enum)
  {
    RemoveLower(InsertUnderscores(enum, 0));
    RemoveInserted(enum, 0);
  }

  /** The capitals of a string. */
  function CountUpper(s: string): nat {
    if s == [] then 0 else (if IsUpper(s[0]) then 1 else 0) + CountUpper(s[1..])
  }

  /** One underscore per capital after the first character, and no other. */
  lemma {:induction false} NewFnNameUnderscoreCount(enum: string)
    requires '_' !in enum && enum != []
    ensures Count(NewFnName(enum), '_') == CountUpper(enum[1..])
  {
    LowerKeepsUnderscores(InsertUnderscores(enum, 0));
    InsertedCount(enum, 1);
    assert InsertUnderscores(enum, 0) == [enum[0]] + InsertUnderscores(enum, 1);
  }

  /** Where each character of the variant name lands in the constructor
      name: character `j` is preceded by one `_` for every capital in
      positions 1 to `j`, it appears lower-cased, and the character just
      before it is `_` exactly when it is a capital other than the first
      character. */
  lemma NewFnNamePlacement(enum: string, j: nat)
    requires '_' !in enum && j < |enum|
    ensures |NewFnName(enum)| == |enum| + CountUpper(enum[1..])
    ensures j + CountUpper(enum[1..j + 1]) < |NewFnName(enum)|
    ensures NewFnName(enum)[j + CountUpper(enum[1..j + 1])] == ToLower(enum[j])
    ensures j > 0 ==> (IsUpper(enum[j]) <==> NewFnName(enum)[j + CountUpper(enum[1..j + 1]) - 1] == '_')
  {
    InsertedPlacement(enum, j);
    if j > 0 {
      var p := j + CountUpper(enum[1..j + 1]);
      var c := InsertUnderscores(enum, 0)[p - 1];
      assert c == '_' || (c == enum[j - 1] && enum[j - 1] in enum);
    }
  }

  /** The same placement before lower-casing; a character that does not
      follow an inserted `_` follows its predecessor. */
  lemma {:induction false} InsertedPlacement(enum: string, j: nat)
    requires '_' !in enum && j < |enum|
    ensures |InsertUnderscores(enum, 0)| == |enum| + CountUpper(enum[1..])
    ensures j + CountUpper(enum[1..j + 1]) < |InsertUnderscores(enum, 0)|
    ensures InsertUnderscores(enum, 0)[j + CountUpper(enum[1..j + 1])] == enum[j]
    ensures j > 0 && IsUpper(enum[j]) ==> InsertUnderscores(enum, 0)[j + CountUpper(enum[1..j + 1]) - 1] == '_'
    ensures j > 0 && !IsUpper(enum[j]) ==> InsertUnderscores(enum, 0)[j + CountUpper(enum[1..j + 1]) - 1] == enum[j - 1]
  {
    var ins := InsertUnderscores(enum, 0);
    var pre := InsertUnderscores(enum[..j], 0);
    var marked := j > 0 && IsUpper(enum[j]);
    var piece := (if marked then "_" else "") + [enum[j]];
    var post := InsertUnderscores(enum, j + 1);
    InsertSplit(enum, 0, j);
    assert InsertUnderscores(enum, j) == piece + post;
    assert ins == pre + piece + post;
    assert ins == [enum[0]] + InsertUnderscores(enum, 1);
    InsertedLength(enum, 1);
    PrefixLength(enum, j);
    var p := j + CountUpper(enum[1..j + 1]);
    if j == 0 {
      assert enum[1..1] == [];
    } else {
      assert enum[1..j + 1] == enum[1..j] + [enum[j]];
      CountUpperSnoc(enum[1..j], enum[j]);
      if !marked {
        InsertedEnd(enum[..j], 0);
      }
    }
  }

  /** The conversion of the first `j` characters has one character more
      for each capital after the first character. */
  lemma PrefixLength(s: string, j: nat)
    requires j < |s|
    ensures |InsertUnderscores(s[..j], 0)| == if j == 0 then 0 else j + CountUpper(s[1..j])
  {
    var t := s[..j];
    if j > 0 {
      assert InsertUnderscores(t, 0) == [t[0]] + InsertUnderscores(t, 1);
      InsertedLength(t, 1);
      assert t[1..] == s[1..j];
    }
  }

  /** The conversion from position `k` is that of the first `j` characters
      followed by that from position `j`. */
  lemma {:induction false} InsertSplit(s: string, k: nat, j: nat)
    requires k <= j <= |s|
    ensures InsertUnderscores(s, k) == InsertUnderscores(s[..j], k) + InsertUnderscores(s, j)
    decreases j - k
  {
    var t := s[..j];
    if k == j {
      assert InsertUnderscores(t, k) == [];
    } else {
      InsertSplit(s, k + 1, j);
      var piece := (if k > 0 && IsUpper(s[k]) then "_" else "") + [s[k]];
      assert t[k] == s[k];
      assert InsertUnderscores(t, k) == piece + InsertUnderscores(t, k + 1);
      assert InsertUnderscores(s, k) == piece + InsertUnderscores(s, k + 1);
      AppendAssoc(piece, InsertUnderscores(t, k + 1), InsertUnderscores(s, j));
    }
  }

  lemma {:induction false} InsertedLength(s: string, k: nat)
    requires 1 <= k <= |s|
    ensures |InsertUnderscores(s, k)| == |s| - k + CountUpper(s[k..])
    decreases |s| - k
  {
    if k < |s| {
      InsertedLength(s, k + 1);
      assert s[k..][0] == s[k] && s[k..][1..] == s[k + 1..];
    } else {
      assert s[k..] == [];
    }
  }

  /** The conversion of a non-empty tail ends with the last character. */
  lemma {:induction false} InsertedEnd(t: string, k: nat)
    requires k < |t|
    ensures |InsertUnderscores(t, k)| > 0
    ensures InsertUnderscores(t, k)[|InsertUnderscores(t, k)| - 1] == t[|t| - 1]
    decreases |t| - k
  {
    if k + 1 == |t| {
      assert InsertUnderscores(t, k + 1) == [];
    } else {
      InsertedEnd(t, k + 1);
    }
  }

  lemma {:induction false} CountUpperSnoc(s: string, c: char)
    ensures CountUpper(s + [c]) == CountUpper(s) + (if IsUpper(c) then 1 else 0)
  {
    if s == [] {
      assert s + [c] == [c];
    } else {
      assert (s + [c])[0] == s[0] && (s + [c])[1..] == s[1..] + [c];
      CountUpperSnoc(s[1..], c);
    }
  }

  lemma {:induction false} InsertedCount(s: string, k: nat)
    requires '_' !in s && 1 <= k <= |s|
    ensures Count(InsertUnderscores(s, k), '_') == CountUpper(s[k..])
    decreases |s| - k
  {
    if k < |s| {
      InsertedCount(s, k + 1);
      var pre := (if IsUpper(s[k]) then "_" else "") + [s[k]];
      CountAppend(pre, InsertUnderscores(s, k + 1), '_');
      if IsUpper(s[k]) {
        assert pre == ['_', s[k]];
        assert pre[1..] == [s[k]];
      }
      assert s[k..][1..] == s[k + 1..];
    }
  }

  lemma {:induction false} LowerKeepsUnderscores(s: string)
    ensures Count(Lower(s), '_') == Count(s, '_')
  {
    if s != [] {
      LowerKeepsUnderscores(s[1..]);
      assert Lower(s)[1..] == Lower(s[1..]);
    }
  }

  const Banner := "///////////////////////\n// This file is \n// auto-generated code\n///////////////////////\n"
  const FmtImport := "\nuse std::fmt;\n\t"
  const Derive := "\n#[derive(Debug)]\n"
  const DisplayBody := "\n\t\tlet s = format!(\"{:?}\", self);\n\t\twrite!(f, \"{}\", s)\n\t}\n}\n\t"

  /** The enum line of a variant: its name and its field declarations. */
  function EnumLine(v: Variant): (r: string)
    ensures |r| >= 1 && r[|r| - 1] == '\n'
  {
    "\t" + v.name + " { " + JoinFieldStrs(v.fields) + " },\n"
  }

  /** An enum line without its newline. */
  function EnumEntry(v: Variant): (r: string)
    ensures r + "\n" == EnumLine(v)
  {
    EnumLine(v)[..|EnumLine(v)| - 1]
  }

  /** The constructor of a variant: the field declarations become the
      parameter list and the field names the struct literal. */
  function CtorText(enum: string, v: Variant): (r: string)
    ensures |r| >= 8 + |NewFnName(v.name)| && r[..8] == "\tpub fn "
    ensures r[8..8 + |NewFnName(v.name)|] == NewFnName(v.name)
  {
    var rest := "(" + JoinFieldStrs(v.fields) + ") -> " + enum + " {\n"
      + "\t\t" + enum + "::" + v.name + " { " + Join(FieldNames(v), ", ") + " }\n\t}\n\n";
    "\tpub fn " + NewFnName(v.name) + rest
  }

  /** `', '.join(map(str, fields))` */
  function JoinFieldStrs(fields: seq<Field>): (r: string)
    ensures fields == [] ==> r == ""
    ensures |fields| == 1 ==> r == FieldStr(fields[0])
  {
    Join(FieldStrs(fields), ", ")
  }

  function EnumLines(vs: seq<Variant>): (r: seq<string>)
    ensures |r| == |vs| && forall i :: 0 <= i < |vs| ==> r[i] == EnumLine(vs[i])
  {
    seq(|vs|, i requires 0 <= i < |vs| => EnumLine(vs[i]))
  }

  function EnumEntries(vs: seq<Variant>): (r: seq<string>)
    ensures |r| == |vs| && forall i :: 0 <= i < |vs| ==> r[i] == EnumEntry(vs[i])
  {
    seq(|vs|, i requires 0 <= i < |vs| => EnumEntry(vs[i]))
  }

  function CtorTexts(enum: string, vs: seq<Variant>): (r: seq<string>)
    ensures |r| == |vs| && forall i :: 0 <= i < |vs| ==> r[i] == CtorText(enum, vs[i])
  {
    seq(|vs|, i requires 0 <= i < |vs| => CtorText(enum, vs[i]))
  }

  /** The whole generated file for `enum` with the given variants. */
  function SourceText(prelude: string, enum: string, vs: seq<Variant>): (r: string)
    ensures |r| >= |Banner| + |Concat(EnumLines(vs))| + |Concat(CtorTexts(enum, vs))| + |DisplayBody|
    ensures r[|r| - |DisplayBody|..] == DisplayBody
  {
    Banner + prelude + FmtImport + Derive + "pub enum " + enum + " {\n"
    + Concat(EnumLines(vs)) + "}\n\n" + "impl " + enum + " {\n"
    + Concat(CtorTexts(enum, vs)) + "}\n\n"
    + "impl fmt::Display for " + enum + "{\n"
    + "\tfn fmt(&self, f: &mut fmt::Formatter) -> fmt::Result {\n" + DisplayBody
  }

  /** `gen_source` without the file reading and writing: the parsed variants
      in, the generated Rust text out. */
  method GenSource(prelude: string, enum: string, variants: seq<Variant>) returns (output: string)
    ensures output == SourceText(prelude, enum, variants)
  {
    output := Banner;
    output := output + prelude;
    output := output + FmtImport;
    output := output + Derive;
    output := output + "pub enum " + enum + " {\n";
    output := AppendEnumLines(output, variants);
    output := output + "}\n\n";
    output := output + "impl " + enum + " {\n";
    output := AppendCtors(output, enum, variants);
    output := output + "}\n\n";
    output := output + "impl fmt::Display for " + enum + "{\n";
    output := output + "\tfn fmt(&self, f: &mut fmt::Formatter) -> fmt::Result {\n";
    output := output + DisplayBody;
  }

  /** The first loop of `gen_source`: one enum line per variant. */
  method AppendEnumLines(head: string, variants: seq<Variant>) returns (output: string)
    ensures output == head + Concat(EnumLines(variants))
  {
    output := head;
    for i := 0 to |variants|
      invariant output == head + Concat(EnumLines(variants[..i]))
    {
      var v := variants[i];
      var line := "\t" + v.name + " { " + JoinFieldStrs(v.fields) + " },\n";
      EnumLinesSnoc(variants, i);
      AppendAssoc(head, Concat(EnumLines(variants[..i])), line);
      output := output + line;
    }
    assert variants[..|variants|] == variants;
  }

  /** The second loop of `gen_source`: one constructor per variant. */
  method AppendCtors(head: string, enum: string, variants: seq<Variant>) returns (output: string)
    ensures output == head + Concat(CtorTexts(enum, variants))
  {
    output := head;
    for i := 0 to |variants|
      invariant output == head + Concat(CtorTexts(enum, variants[..i]))
    {
      var v := variants[i];
      var fnName := NewFnName(v.name);
      var rest := "(" + JoinFieldStrs(v.fields) + ") -> " + enum + " {\n"
        + "\t\t" + enum + "::" + v.name + " { " + Join(FieldNames(v), ", ") + " }\n\t}\n\n";
      var text := "\tpub fn " + fnName + rest;
      CtorTextsSnoc(enum, variants, i);
      AppendAssoc(head, Concat(CtorTexts(enum, variants[..i])), text);
      output := output + text;
    }
    assert variants[..|variants|] == variants;
  }

  lemma EnumLinesSnoc(vs: seq<Variant>, i: nat)
    requires i < |vs|
    ensures Concat(EnumLines(vs[..i + 1])) == Concat(EnumLines(vs[..i])) + EnumLine(vs[i])
  {
    assert EnumLines(vs[..i + 1]) == EnumLines(vs[..i]) + [EnumLine(vs[i])];
    ConcatSnoc(EnumLines(vs[..i]), EnumLine(vs[i]));
  }

  lemma CtorTextsSnoc(enum: string, vs: seq<Variant>, i: nat)
    requires i < |vs|
    ensures Concat(CtorTexts(enum, vs[..i + 1])) == Concat(CtorTexts(enum, vs[..i])) + CtorText(enum, vs[i])
  {
    assert CtorTexts(enum, vs[..i + 1]) == CtorTexts(enum, vs[..i]) + [CtorText(enum, vs[i])];
    ConcatSnoc(CtorTexts(enum, vs[..i]), CtorText(enum, vs[i]));
  }

  /** No newline anywhere in a variant's name or fields. */
  predicate SingleLine(v: Variant) {
    '\n' !in v.name &&
    forall j :: 0 <= j < |v.fields| ==> '\n' !in v.fields[j].name && '\n' !in v.fields[j].typ
  }

  /** The enum section has exactly one line per variant, in schema order:
      cut at newlines it is the variants' entries and a final empty piece. */
  lemma {:induction false} EnumOneLinePerVariant(vs: seq<Variant>)
    requires forall i :: 0 <= i < |vs| ==> SingleLine(vs[i])
    ensures Split(Concat(EnumLines(vs)), '\n') == EnumEntries(vs) + [""]
  {
    if vs != [] {
      var rest := vs[1..];
      assert forall i :: 0 <= i < |rest| ==> SingleLine(rest[i]) by {
        forall i | 0 <= i < |rest| ensures SingleLine(rest[i]) {
          assert rest[i] == vs[i + 1];
        }
      }
      EnumOneLinePerVariant(rest);
      EnumSplitCons(vs);
    }
  }

  /** One induction step of `EnumOneLinePerVariant`: the first entry and its
      newline come off the front of the cut. */
  lemma EnumSplitCons(vs: seq<Variant>)
    requires vs != [] && SingleLine(vs[0])
    requires Split(Concat(EnumLines(vs[1..])), '\n') == EnumEntries(vs[1..]) + [""]
    ensures Split(Concat(EnumLines(vs)), '\n') == EnumEntries(vs) + [""]
  {
    var e, t := EnumEntry(vs[0]), Concat(EnumLines(vs[1..]));
    EnumEntryNoNewline(vs[0]);
    EnumLinesCons(vs);
    SplitAfter(e, '\n', t);
    EnumEntriesCons(vs);
    calc {
      Split(Concat(EnumLines(vs)), '\n');
      Split(e + ['\n'] + t, '\n');
      [e] + Split(t, '\n');
      [e] + (EnumEntries(vs[1..]) + [""]);
      EnumEntries(vs) + [""];
    }
  }

  lemma EnumEntriesCons(vs: seq<Variant>)
    requires vs != []
    ensures EnumEntries(vs) == [EnumEntry(vs[0])] + EnumEntries(vs[1..])
  {
  }

  lemma EnumLinesCons(vs: seq<Variant>)
    requires vs != []
    ensures Concat(EnumLines(vs)) == EnumEntry(vs[0]) + ['\n'] + Concat(EnumLines(vs[1..]))
  {
    assert EnumLines(vs) == [EnumLine(vs[0])] + EnumLines(vs[1..]);
    assert EnumLine(vs[0]) == EnumEntry(vs[0]) + ['\n'];
  }

  lemma {:induction false} EnumEntryNoNewline(v: Variant)
    requires SingleLine(v)
    ensures '\n' !in EnumEntry(v)
  {
    var fs := FieldStrs(v.fields);
    forall i | 0 <= i < |fs|
      ensures '\n' !in fs[i]
    {
      assert fs[i] == v.fields[i].name + ": " + v.fields[i].typ;
    }
    JoinNoSep(fs, ", ", '\n');
    assert EnumEntry(v) == "\t" + v.name + " { " + JoinFieldStrs(v.fields) + " },";
  }
}
