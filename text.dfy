/** String operations of Python's `str` and Rust's `String` that the
    generators, the scanners and the renderers rely on, over ASCII text. */
module Text {

  predicate IsUpper(c: char) { 'A' <= c <= 'Z' }
  predicate IsLower(c: char) { 'a' <= c <= 'z' }
  predicate IsDigit(c: char) { '0' <= c <= '9' }
  predicate IsAlpha(c: char) { IsUpper(c) || IsLower(c) }
  predicate IsAlphanumeric(c: char) { IsAlpha(c) || IsDigit(c) }

  /** Python's `str.isspace()` on one character: the ASCII controls
      `\t` to `\r` and `\x1c` to `\x1f`, the space, and the Unicode
      spaces and separators. These are what `str.strip()` removes. */
  predicate IsSpace(c: char) {
    ('\t' <= c <= '\r') || ('\U{001C}' <= c <= ' ') || c == '\U{0085}' || c == '\U{00A0}'
    || c == '\U{1680}' || ('\U{2000}' <= c <= '\U{200A}') || c == '\U{2028}' || c == '\U{2029}'
    || c == '\U{202F}' || c == '\U{205F}' || c == '\U{3000}'
  }

  function ToLower(c: char): (d: char)
    ensures IsUpper(c) ==> IsLower(d)
    ensures !IsUpper(c) ==> d == c
  {
    if IsUpper(c) then (c as int + 32) as char else c
  }

  function ToUpper(c: char): (d: char)
    ensures IsLower(c) ==> IsUpper(d)
    ensures !IsLower(c) ==> d == c
  {
    if IsLower(c) then (c as int - 32) as char else c
  }

  /** `str.lower()` */
  function Lower(s: string): (r: string)
    ensures |r| == |s|
    ensures forall i :: 0 <= i < |s| ==> r[i] == ToLower(s[i])
  {
    if s == [] then [] else [ToLower(s[0])] + Lower(s[1..])
  }

  lemma {:induction false} LowerAppend(a: string, b: string)
    ensures Lower(a + b) == Lower(a) + Lower(b)
  {
    if a == [] {
      assert a + b == b;
    } else {
      assert (a + b)[0] == a[0] && (a + b)[1..] == a[1..] + b;
      LowerAppend(a[1..], b);
    }
  }

  /** `str.capitalize()`: the first character upper-cased, every other one lower-cased. */
  function Capitalize(s: string): (r: string)
    ensures |r| == |s|
    ensures |s| > 0 ==> r[0] == ToUpper(s[0])
    ensures forall i :: 1 <= i < |s| ==> r[i] == ToLower(s[i])
  {
    if s == [] then [] else [ToUpper(s[0])] + Lower(s[1..])
  }

  /** `str.replace(a, b)` for single characters. */
  function ReplaceChar(s: string, a: char, b: char): (r: string)
    ensures |r| == |s|
    ensures forall i :: 0 <= i < |s| ==> r[i] == (if s[i] == a then b else s[i])
  {
    if s == [] then [] else [if s[0] == a then b else s[0]] + ReplaceChar(s[1..], a, b)
  }

  function StripLeft(s: string): (r: string)
    ensures |r| <= |s| && r == s[|s| - |r|..]
    ensures r == [] || !IsSpace(r[0])
    ensures forall k {:trigger IsSpace(s[k])} :: 0 <= k < |s| - |r| ==> IsSpace(s[k])
  {
    if s != [] && IsSpace(s[0]) then
      var r := StripLeft(s[1..]);
      assert forall k :: 1 <= k < |s| - |r| ==> s[k] == s[1..][k - 1];
      r
    else s
  }

  function StripRight(s: string): (r: string)
    ensures |r| <= |s| && r == s[..|r|]
    ensures r == [] || !IsSpace(r[|r| - 1])
    ensures forall k {:trigger IsSpace(s[k])} :: |r| <= k < |s| ==> IsSpace(s[k])
  {
    if s != [] && IsSpace(s[|s| - 1]) then
      var r := StripRight(s[..|s| - 1]);
      assert forall k :: |r| <= k < |s| - 1 ==> s[k] == s[..|s| - 1][k];
      r
    else s
  }

  /** Python's `str.strip()` with no argument: the middle of the string
      left once the `isspace` characters at both ends are removed. */
  function Strip(s: string): (r: string)
    ensures |r| <= |s|
    ensures r == [] || (!IsSpace(r[0]) && !IsSpace(r[|r| - 1]))
    ensures exists a, b :: 0 <= a <= b <= |s| && r == s[a..b]
                           && (forall k {:trigger IsSpace(s[k])} :: 0 <= k < a ==> IsSpace(s[k]))
                           && (forall k {:trigger IsSpace(s[k])} :: b <= k < |s| ==> IsSpace(s[k]))
  {
    var l := StripLeft(s);
    var r := StripRight(l);
    SliceBetweenBlanks(s, l, r);
    r
  }

  /** A prefix `r` of a suffix `l` of `s` is a slice of `s`, and when what
      the two cuts removed is blank, `s` is blank around that slice. */
  lemma SliceBetweenBlanks(s: string, l: string, r: string)
    requires |l| <= |s| && l == s[|s| - |l|..]
    requires forall k {:trigger IsSpace(s[k])} :: 0 <= k < |s| - |l| ==> IsSpace(s[k])
    requires |r| <= |l| && r == l[..|r|]
    requires forall k {:trigger IsSpace(l[k])} :: |r| <= k < |l| ==> IsSpace(l[k])
    ensures exists a, b :: 0 <= a <= b <= |s| && r == s[a..b]
                           && (forall k {:trigger IsSpace(s[k])} :: 0 <= k < a ==> IsSpace(s[k]))
                           && (forall k {:trigger IsSpace(s[k])} :: b <= k < |s| ==> IsSpace(s[k]))
  {
    var a := |s| - |l|;
    var b := a + |r|;
    assert r == s[a..b];
    forall k | b <= k < |s|
      ensures IsSpace(s[k])
    {
      assert s[k] == l[k - a];
      assert IsSpace(l[k - a]);
    }
  }

  lemma {:induction false} StripNoSpace(s: string)
    requires forall i :: 0 <= i < |s| ==> !IsSpace(s[i])
    ensures Strip(s) == s
  {
    assert StripLeft(s) == s;
  }

  /** Trailing blanks after a word are trimmed away. */
  lemma {:induction false} StripTrailingBlank(s: string)
    requires forall i :: 0 <= i < |s| ==> !IsSpace(s[i])
    ensures Strip(s + " ") == s
  {
    var t := s + " ";
    assert IsSpace(t[|t| - 1]) && t[..|t| - 1] == s;
    if s == [] {
      assert StripLeft(t) == StripLeft("");
    } else {
      assert t[0] == s[0];
      assert StripLeft(t) == t;
      assert StripRight(t) == StripRight(s);
      assert StripRight(s) == s;
    }
  }

  lemma {:induction false} StripAllSpace(s: string)
    requires forall i :: 0 <= i < |s| ==> IsSpace(s[i])
    ensures Strip(s) == ""
  {
    if s != [] {
      StripAllSpace(s[1..]);
    }
  }

  /** `str.split(sep)` for a one-character separator: never empty, and
      no piece contains the separator. */
  function Split(s: string, sep: char): (r: seq<string>)
    ensures |r| == Count(s, sep) + 1
    ensures forall i :: 0 <= i < |r| ==> sep !in r[i]
  {
    if s == [] then [""]
    else
      var rest := Split(s[1..], sep);
      if s[0] == sep then [""] + rest
      else [[s[0]] + rest[0]] + rest[1..]
  }

  /** `sep.join(pieces)` */
  function Join(pieces: seq<string>, sep: string): string
  {
    if |pieces| == 0 then ""
    else if |pieces| == 1 then pieces[0]
    else pieces[0] + sep + Join(pieces[1..], sep)
  }

  lemma AppendAssoc(a: string, b: string, c: string)
    ensures a + b + c == a + (b + c)
  {
  }

  /** Every piece followed by `sep`, as a loop of `+=` builds it. */
  function Terminated(pieces: seq<string>, sep: string): (r: string)
    ensures sep != [] ==> (r == [] <==> pieces == [])
  {
    if pieces == [] then "" else pieces[0] + sep + Terminated(pieces[1..], sep)
  }

  /** Concatenation of all pieces. */
  function Concat(pieces: seq<string>): string
  {
    if pieces == [] then "" else pieces[0] + Concat(pieces[1..])
  }

  lemma {:induction false} TerminatedSnoc(pieces: seq<string>, p: string, sep: string)
    ensures Terminated(pieces + [p], sep) == Terminated(pieces, sep) + p + sep
  {
    if pieces != [] {
      assert (pieces + [p])[1..] == pieces[1..] + [p];
      TerminatedSnoc(pieces[1..], p, sep);
    }
  }

  lemma {:induction false} ConcatSnoc(pieces: seq<string>, p: string)
    ensures Concat(pieces + [p]) == Concat(pieces) + p
  {
    if pieces != [] {
      assert (pieces + [p])[1..] == pieces[1..] + [p];
      ConcatSnoc(pieces[1..], p);
    }
  }

  lemma {:induction false} ConcatAppend(a: seq<string>, b: seq<string>)
    ensures Concat(a + b) == Concat(a) + Concat(b)
  {
    if a != [] {
      assert (a + b)[1..] == a[1..] + b;
      ConcatAppend(a[1..], b);
    } else {
      assert a + b == b;
    }
  }

  /** Python's `s[:-2]`: all but the last two characters, empty when shorter. */
  function DropLastTwo(s: string): (r: string)
    ensures |s| >= 2 ==> r + s[|s| - 2..] == s
    ensures |s| < 2 ==> r == ""
  {
    if |s| < 2 then "" else s[..|s| - 2]
  }

  /** Cutting the final separator off a terminated list leaves the joined list. */
  lemma {:induction false} TerminatedDropIsJoin(pieces: seq<string>, sep: string)
    requires |sep| == 2
    ensures DropLastTwo(Terminated(pieces, sep)) == Join(pieces, sep)
  {
    if |pieces| == 1 {
      assert Terminated(pieces[1..], sep) == "";
    } else if |pieces| > 1 {
      var t := Terminated(pieces[1..], sep);
      TerminatedDropIsJoin(pieces[1..], sep);
      var rest := pieces[1..];
      assert rest == rest[..|rest| - 1] + [rest[|rest| - 1]];
      TerminatedSnoc(rest[..|rest| - 1], rest[|rest| - 1], sep);
      assert t == DropLastTwo(t) + sep;
      calc {
        DropLastTwo(Terminated(pieces, sep));
        DropLastTwo(pieces[0] + sep + DropLastTwo(t) + sep);
        { assert pieces[0] + sep + DropLastTwo(t) + sep == (pieces[0] + sep + DropLastTwo(t)) + sep; }
        pieces[0] + sep + DropLastTwo(t);
      }
    }
  }

  /** Splitting a joined list on a separator that no piece contains gives the list back. */
  lemma {:induction false} SplitJoin(pieces: seq<string>, sep: char)
    requires |pieces| >= 1
    requires forall i :: 0 <= i < |pieces| ==> sep !in pieces[i]
    ensures Split(Join(pieces, [sep]), sep) == pieces
  {
    if |pieces| == 1 {
      SplitNoSep(pieces[0], sep);
    } else {
      SplitJoin(pieces[1..], sep);
      SplitAfter(pieces[0], sep, Join(pieces[1..], [sep]));
      assert Join(pieces, [sep]) == pieces[0] + [sep] + Join(pieces[1..], [sep]);
      assert [pieces[0]] + pieces[1..] == pieces;
    }
  }

  lemma {:induction false} SplitNoSep(s: string, sep: char)
    requires sep !in s
    ensures Split(s, sep) == [s]
  {
    if s != [] {
      SplitNoSep(s[1..], sep);
      assert s[0] != sep;
      assert [s[0]] + s[1..] == s;
    }
  }

  /** A prefix free of the separator becomes the first piece on its own. */
  lemma {:induction false} SplitAfter(a: string, sep: char, b: string)
    requires sep !in a
    ensures Split(a + [sep] + b, sep) == [a] + Split(b, sep)
  {
    if a == [] {
      assert a + [sep] + b == [sep] + b;
      assert ([sep] + b)[1..] == b;
    } else {
      assert (a + [sep] + b)[1..] == a[1..] + [sep] + b;
      SplitAfter(a[1..], sep, b);
      assert [a[0]] + a[1..] == a;
    }
  }

  /** Joining the pieces of a split gives the string back. */
  lemma {:induction false} JoinSplit(s: string, sep: char)
    ensures Join(Split(s, sep), [sep]) == s
  {
    if s != [] {
      JoinSplit(s[1..], sep);
      var rest := Split(s[1..], sep);
      if s[0] == sep {
        assert Split(s, sep) == [""] + rest;
        assert Join([""] + rest, [sep]) == "" + [sep] + Join(rest, [sep]);
      } else {
        assert Split(s, sep) == [[s[0]] + rest[0]] + rest[1..];
        JoinPrepend([s[0]], rest, [sep]);
      }
      assert [s[0]] + s[1..] == s;
    }
  }

  lemma {:induction false} JoinPrepend(x: string, ps: seq<string>, sep: string)
    requires |ps| >= 1
    ensures Join([x + ps[0]] + ps[1..], sep) == x + Join(ps, sep)
  {
    var r := [x + ps[0]] + ps[1..];
    if |ps| > 1 {
      assert r[1..] == ps[1..];
    }
  }

  /** The characters of `s` other than `c`, in order. */
  function Remove(s: string, c: char): (r: string)
    ensures |r| <= |s| && c !in r
  {
    if s == [] then [] else (if s[0] == c then [] else [s[0]]) + Remove(s[1..], c)
  }

  lemma {:induction false} RemoveAppend(a: string, b: string, c: char)
    ensures Remove(a + b, c) == Remove(a, c) + Remove(b, c)
  {
    if a == [] {
      assert a + b == b;
    } else {
      assert (a + b)[0] == a[0] && (a + b)[1..] == a[1..] + b;
      RemoveAppend(a[1..], b, c);
    }
  }

  /** Number of occurrences of `c` in `s`. */
  function Count(s: string, c: char): (n: nat)
    ensures n <= |s|
  {
    if s == [] then 0 else (if s[0] == c then 1 else 0) + Count(s[1..], c)
  }

  /** `c` occurs in `s` exactly when it is counted. */
  lemma {:induction false} CountZero(s: string, c: char)
    ensures Count(s, c) == 0 <==> c !in s
  {
    if s != [] {
      CountZero(s[1..], c);
      assert s == [s[0]] + s[1..];
    }
  }

  lemma {:induction false} CountAppend(a: string, b: string, c: char)
    ensures Count(a + b, c) == Count(a, c) + Count(b, c)
  {
    if a == [] {
      assert a + b == b;
    } else {
      assert (a + b)[1..] == a[1..] + b;
      CountAppend(a[1..], b, c);
    }
  }

  predicate EndsWith(s: string, suffix: string) {
    |suffix| <= |s| && s[|s| - |suffix|..] == suffix
  }

  predicate StartsWith(s: string, prefix: string) {
    |prefix| <= |s| && s[..|prefix|] == prefix
  }

  function DigitChar(d: nat): (c: char)
    requires d < 10
    ensures IsDigit(c)
  {
    ('0' as int + d) as char
  }

  /** Decimal rendering of a natural number, as Rust's `{}` prints a `u32`. */
  function NatToString(n: nat): (r: string)
    ensures |r| >= 1
    ensures forall i :: 0 <= i < |r| ==> IsDigit(r[i])
  {
    if n < 10 then [DigitChar(n)] else NatToString(n / 10) + [DigitChar(n % 10)]
  }

  /** Rust's `{:?}` of a `str`: the text in double quotes, with quotes,
      backslashes and control characters escaped. */
  function DebugQuote(s: string): (r: string)
    ensures |r| >= |s| + 2
    ensures r[0] == '"' && r[|r| - 1] == '"'
  {
    "\"" + EscapeDebug(s) + "\""
  }

  function EscapeDebug(s: string): (r: string)
    ensures |r| >= |s|
  {
    if s == [] then "" else EscapeChar(s[0]) + EscapeDebug(s[1..])
  }

  function EscapeChar(c: char): (r: string)
    ensures |r| >= 1
    ensures r == [c] <==> (' ' <= c && c != '\U{007F}' && c != '"' && c != '\\')
  {
    if c == '\t' then "\\t"
    else if c == '\r' then "\\r"
    else if c == '\n' then "\\n"
    else if c == '\\' then "\\\\"
    else if c == '"' then "\\\""
    else if c == '\0' then "\\0"
    else if c < ' ' || c == '\U{007F}' then "\\u{" + HexLower(c as nat) + "}"
    else [c]
  }

  function HexDigit(d: nat): char
    requires d < 16
  {
    if d < 10 then DigitChar(d) else ('a' as int + d - 10) as char
  }

  function HexLower(n: nat): (r: string)
    ensures |r| >= 1
  {
    if n < 16 then [HexDigit(n)] else HexLower(n / 16) + [HexDigit(n % 16)]
  }

  /** Text free of the characters `{:?}` escapes is quoted verbatim. */
  lemma {:induction false} DebugQuotePlain(s: string)
    requires forall i :: 0 <= i < |s| ==> ' ' <= s[i] && s[i] != '\U{007F}' && s[i] != '"' && s[i] != '\\'
    ensures DebugQuote(s) == "\"" + s + "\""
  {
    EscapePlain(s);
  }

  lemma {:induction false} EscapePlain(s: string)
    requires forall i :: 0 <= i < |s| ==> ' ' <= s[i] && s[i] != '\U{007F}' && s[i] != '"' && s[i] != '\\'
    ensures EscapeDebug(s) == s
  {
    if s != [] {
      EscapePlain(s[1..]);
      assert [s[0]] + s[1..] == s;
    }
  }
}
