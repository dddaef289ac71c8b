/** The converter of UPPER_SNAKE token names to the CamelCase variants of
    the Rust `TokenType` enum (lc.py). */
module TokenNames {
  import opened Text

  /** The CamelCase form of a trimmed name: every `_`-separated part
      capitalized. Joining the parts loses no letter and adds none: up to
      case it is the name with its underscores deleted. */
  function Camel(w: string): (r: string)
    ensures Lower(r) == Lower(Remove(w, '_'))
  {
    JoinSplit(w, '_');
    CamelParts(Split(w, '_'));
    Concat(Capitalized(Split(w, '_')))
  }

  function Capitalized(parts: seq<string>): (r: seq<string>)
    ensures |r| == |parts| && forall i :: 0 <= i < |parts| ==> r[i] == Capitalize(parts[i])
  {
    seq(|parts|, i requires 0 <= i < |parts| => Capitalize(parts[i]))
  }

  /** What `lc` returns for one piece of the token list. */
  function LcText(w: string): (r: string)
    ensures r == "\n" <==> w == "|"
    ensures r == "" <==> w != "|" && Strip(w) == ""
    ensures |r| > 1 ==> r[|r| - 2..] == ", " && Lower(r[..|r| - 2]) == Lower(Remove(Strip(w), '_'))
  {
    if w == "|" then "\n"
    else if Strip(w) == "" then ""
    else Camel(Strip(w)) + ", "
  }

  /** `lc`: a line marker becomes a newline, a blank piece disappears, any
      other piece becomes its CamelCase name followed by `", "`. */
  method Lc(w: string) returns (r: string)
    ensures r == LcText(w)
    ensures w == "|" ==> r == "\n"
    ensures w != "|" && Strip(w) == "" ==> r == ""
  {
    if w == "|" {
      return "\n";
    }
    var v := Strip(w);
    if v == "" {
      return "";
    }
    var ws := Split(v, '_');
    var newW := "";
    for i := 0 to |ws|
      invariant newW == Concat(Capitalized(ws[..i]))
    {
      CapitalizedSnoc(ws, i);
      newW := newW + Capitalize(ws[i]);
    }
    assert ws[..|ws|] == ws;
    r := newW + ", ";
  }

  /** Every newline of the token list becomes the piece `|`. */
  function Expand(ws: string): (r: string)
    ensures '\n' !in r
  {
    if ws == [] then []
    else (if ws[0] == '\n' then ",|," else [ws[0]]) + Expand(ws[1..])
  }

  function LcTexts(pieces: seq<string>): (r: seq<string>)
    ensures |r| == |pieces| && forall i :: 0 <= i < |pieces| ==> r[i] == LcText(pieces[i])
  {
    seq(|pieces|, i requires 0 <= i < |pieces| => LcText(pieces[i]))
  }

  /** What `lcs` returns for a whole token list. */
  function LcsText(ws: string): string {
    Concat(LcTexts(Split(Expand(ws), ',')))
  }

  /** `lcs`: the newlines marked, the list cut at commas, every piece converted. */
  method Lcs(ws: string) returns (r: string)
    ensures r == LcsText(ws)
  {
    var pieces := Split(Expand(ws), ',');
    var newWs := "";
    for i := 0 to |pieces|
      invariant newWs == Concat(LcTexts(pieces[..i]))
    {
      var converted := Lc(pieces[i]);
      LcTextsSnoc(pieces, i);
      newWs := newWs + converted;
    }
    assert pieces[..|pieces|] == pieces;
    r := newWs;
  }

  lemma {:induction false} ExpandAppend(a: string, b: string)
    ensures Expand(a + b) == Expand(a) + Expand(b)
  {
    if a == [] {
      assert a + b == b;
    } else {
      var h := if a[0] == '\n' then ",|," else [a[0]];
      assert (a + b)[0] == a[0] && (a + b)[1..] == a[1..] + b;
      ExpandAppend(a[1..], b);
      assert Expand(a + b) == h + Expand(a[1..] + b);
      assert Expand(a) == h + Expand(a[1..]);
    }
  }

  /** A separator splits a string into the pieces of its two sides. */
  lemma {:induction false} SplitAtSep(x: string, sep: char, y: string)
    ensures Split(x + [sep] + y, sep) == Split(x, sep) + Split(y, sep)
  {
    if x == [] {
      assert x + [sep] + y == [sep] + y;
      assert ([sep] + y)[1..] == y;
    } else {
      assert (x + [sep] + y)[1..] == x[1..] + [sep] + y;
      SplitAtSep(x[1..], sep, y);
    }
  }

  lemma LcTextsAppend(a: seq<string>, b: seq<string>)
    ensures LcTexts(a + b) == LcTexts(a) + LcTexts(b)
  {
  }

  lemma CapitalizedSnoc(ws: seq<string>, i: nat)
    requires i < |ws|
    ensures Concat(Capitalized(ws[..i + 1])) == Concat(Capitalized(ws[..i])) + Capitalize(ws[i])
  {
    assert Capitalized(ws[..i + 1]) == Capitalized(ws[..i]) + [Capitalize(ws[i])];
    ConcatSnoc(Capitalized(ws[..i]), Capitalize(ws[i]));
  }

  lemma LcTextsSnoc(pieces: seq<string>, i: nat)
    requires i < |pieces|
    ensures Concat(LcTexts(pieces[..i + 1])) == Concat(LcTexts(pieces[..i])) + LcText(pieces[i])
  {
    assert pieces[..i + 1] == pieces[..i] + [pieces[i]];
    LcTextsAppend(pieces[..i], [pieces[i]]);
    assert LcTexts([pieces[i]]) == [LcText(pieces[i])];
    ConcatSnoc(LcTexts(pieces[..i]), LcText(pieces[i]));
  }

  /** Each line of the token list is converted on its own, and the newline
      between two lines is reproduced between their conversions. */
  lemma {:induction false} LcsNewline(a: string, b: string)
    ensures LcsText(a + "\n" + b) == LcsText(a) + "\n" + LcsText(b)
  {
    ExpandNewline(a, b);
    LcTextsBar(Split(Expand(a), ','), Split(Expand(b), ','));
  }

  lemma {:induction false} ExpandNewline(a: string, b: string)
    ensures Split(Expand(a + "\n" + b), ',') == Split(Expand(a), ',') + ["|"] + Split(Expand(b), ',')
  {
    ExpandMarks(a, b);
    SplitBar(Expand(a), Expand(b));
  }

  lemma {:induction false} ExpandMarks(a: string, b: string)
    ensures Expand(a + "\n" + b) == Expand(a) + ",|," + Expand(b)
  {
    ExpandAppend(a + "\n", b);
    ExpandAppend(a, "\n");
    assert Expand("\n") == ",|,";
  }

  lemma {:induction false} SplitBar(x: string, y: string)
    ensures Split(x + ",|," + y, ',') == Split(x, ',') + ["|"] + Split(y, ',')
  {
    assert x + ",|," + y == (x + [','] + "|") + [','] + y;
    SplitAtSep(x + [','] + "|", ',', y);
    SplitAtSep(x, ',', "|");
    SplitNoSep("|", ',');
  }

  lemma {:induction false} LcTextsBar(sa: seq<string>, sb: seq<string>)
    ensures Concat(LcTexts(sa + ["|"] + sb)) == Concat(LcTexts(sa)) + "\n" + Concat(LcTexts(sb))
  {
    LcTextsAppend(sa + ["|"], sb);
    LcTextsAppend(sa, ["|"]);
    assert LcTexts(["|"]) == ["\n"];
    ConcatAppend(LcTexts(sa) + ["\n"], LcTexts(sb));
    ConcatAppend(LcTexts(sa), ["\n"]);
    assert Concat(["\n"]) == "\n";
  }

  lemma {:induction false} LowerCapitalize(s: string)
    ensures Lower(Capitalize(s)) == Lower(s)
  {
    if s != [] {
      assert Lower(Capitalize(s))[0] == Lower(s)[0];
    }
  }

  lemma {:induction false} CamelParts(parts: seq<string>)
    requires |parts| >= 1
    requires forall i :: 0 <= i < |parts| ==> '_' !in parts[i]
    ensures Lower(Concat(Capitalized(parts))) == Lower(Remove(Join(parts, "_"), '_'))
  {
    var head, tail := parts[0], parts[1..];
    assert parts == [head] + tail;
    CamelCons(head, tail);
    if |parts| == 1 {
      assert Capitalized(tail) == [];
      RemoveNone(head);
    } else {
      CamelParts(tail);
      RemoveJoinCons(head, tail);
      LowerAppend(head, Remove(Join(tail, "_"), '_'));
    }
  }

  /** Up to case, the first part contributes itself. */
  lemma {:induction false} CamelCons(head: string, tail: seq<string>)
    ensures Lower(Concat(Capitalized([head] + tail))) == Lower(head) + Lower(Concat(Capitalized(tail)))
  {
    CapitalizedCons(head, tail);
    LowerAppend(Capitalize(head), Concat(Capitalized(tail)));
    LowerCapitalize(head);
  }

  lemma CapitalizedCons(head: string, tail: seq<string>)
    ensures Capitalized([head] + tail) == [Capitalize(head)] + Capitalized(tail)
  {
    assert Capitalized([head] + tail)[1..] == Capitalized(tail);
  }

  lemma {:induction false} RemoveJoinCons(head: string, tail: seq<string>)
    requires '_' !in head && |tail| >= 1
    ensures Remove(Join([head] + tail, "_"), '_') == head + Remove(Join(tail, "_"), '_')
  {
    assert ([head] + tail)[1..] == tail;
    assert Join([head] + tail, "_") == head + "_" + Join(tail, "_");
    RemoveSeparated(head, Join(tail, "_"));
  }

  /** Dropping `_` from `head_rest` leaves `head` and what is left of `rest`. */
  lemma {:induction false} RemoveSeparated(head: string, rest: string)
    requires '_' !in head
    ensures Remove(head + "_" + rest, '_') == head + Remove(rest, '_')
  {
    RemoveAppend(head + "_", rest, '_');
    RemoveAppend(head, "_", '_');
    assert Remove("_", '_') == [];
    RemoveNone(head);
    assert Remove(head + "_", '_') == head;
  }

  lemma {:induction false} RemoveNone(s: string)
    requires '_' !in s
    ensures Remove(s, '_') == s
  {
    if s != [] {
      RemoveNone(s[1..]);
      assert [s[0]] + s[1..] == s;
    }
  }

  /** Every part of the name starts with a capital in the output when it
      starts with a letter. */
  lemma CamelCapitalizesParts(w: string, i: nat)
    requires i < |Split(w, '_')| && Split(w, '_')[i] != []
    requires IsLower(Split(w, '_')[i][0]) || IsUpper(Split(w, '_')[i][0])
    ensures IsUpper(Capitalized(Split(w, '_'))[i][0])
  {
  }

  /** The module-level result: the converted list with any remaining `|`
      turned into a line break, so that no `|` is left in it. */
  function ScriptOutput(text: string): (r: string)
    ensures |r| == |LcsText(text)| && '|' !in r
  {
    ReplaceChar(LcsText(text), '|', '\n')
  }
}
