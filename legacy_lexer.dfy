/** The scanner of the older interpreter (lox-rust/src/scanner.rs): the same
    cursor as the current one, but a lexical error pushes an `Error` token
    and scanning goes on, there are only `//` comments and 16 reserved
    words, and a string token keeps its quotes in its lexeme. The copy of
    this scanner in lox-rust/src/main.rs differs only in that its tokens
    carry no literal; it is modelled as a projection of this one. */
module LegacyLexer {
  import opened Wrappers
  import opened Text
  import opened Tokens
  import Lexer

  /** The 16 reserved words: no `elif`. */
  const Keywords: seq<string> := ["and", "class", "else", "false", "fun", "for", "if",
    "nil", "or", "print", "return", "super", "this", "true", "var", "while"]

  /** `keyword_token`: a word outside the list reports an error and becomes
      an `Error` token. */
  function KeywordToken(keyword: string): (t: TokenType)
    ensures keyword in Keywords <==> t != Error
  {
    match keyword
    case "and" => And
    case "class" => Class
    case "else" => Else
    case "false" => False
    case "fun" => Fun
    case "for" => For
    case "if" => If
    case "nil" => Nil
    case "or" => Or
    case "print" => Print
    case "return" => Return
    case "super" => Super
    case "this" => This
    case "true" => True
    case "var" => Var
    case "while" => While
    case _ => Error
  }

  /** The older list is the newer one without `elif`. */
  lemma KeywordsWithoutElif(w: string)
    ensures w in Keywords <==> w in Lexer.Keywords && w != "elif"
  {
  }

  /** Both generations map a shared reserved word to the same kind. */
  lemma KeywordsAgree(w: string)
    requires w in Keywords
    ensures Lexer.KeywordToken(w) == Success(KeywordToken(w))
  {
    if w in Keywords[..8] {
      assert w in ["and", "class", "else", "false", "fun", "for", "if", "nil"];
    } else {
      assert w in ["or", "print", "return", "super", "this", "true", "var", "while"];
    }
  }

  /** `/`: a line comment runs to the next line break; its loop looks at the
      character before testing for the end, so a comment that reaches the
      end of the source is read past. */
  function SlashStep(src: seq<char>, start: nat, line: nat): (s: Lexer.Step)
    requires start < |src|
    ensures (s.Emit? || s.Skip?) ==> start < s.next <= |src|
  {
    var cur := start + 1;
    if cur < |src| && src[cur] == '/' then
      var e := Lexer.LineEnd(src, cur + 1);
      if e == |src| then Lexer.Step.Panic else Lexer.Skip(e, line)
    else Lexer.Emit(Lexer.Tok(Slash, src[start..cur], line), cur, line)
  }

  /** A string literal: the kind carries the text between the quotes, the
      lexeme keeps the quotes, and the line is not advanced past the line
      breaks inside; without a closing quote the rest of the source becomes
      an `Error` token. */
  function StringStep(src: seq<char>, start: nat, line: nat): (s: Lexer.Step)
    requires start < |src|
    ensures (s.Emit? || s.Skip?) ==> start < s.next <= |src|
  {
    match Lexer.StringEnd(src, start + 1)
    case None => Lexer.Emit(Lexer.Tok(Error, src[start..|src|], line), |src|, line)
    case Some(k) => Lexer.Emit(Lexer.Tok(StringLit(src[start + 1..k]), src[start..k + 1], line), k + 1, line)
  }

  /** A word: a keyword of the 16 or an identifier. */
  function WordStep(src: seq<char>, start: nat, line: nat): (s: Lexer.Step)
    requires start < |src|
    ensures (s.Emit? || s.Skip?) ==> start < s.next <= |src|
  {
    var e := Lexer.WordEnd(src, start + 1);
    var w := src[start..e];
    Lexer.Emit(Lexer.Tok(if w in Keywords then KeywordToken(w) else Identifier(w), w, line), e, line)
  }

  /** A number literal; a `.` not followed by a digit ends an `Error` token
      that includes the `.`. */
  function NumberStep(src: seq<char>, start: nat, line: nat): (s: Lexer.Step)
    requires start < |src|
    ensures (s.Emit? || s.Skip?) ==> start < s.next <= |src|
  {
    match Lexer.NumberEnd(src, start + 1)
    case Ok(e) => Lexer.Emit(Lexer.Tok(Number(Lexer.NumberValue(src[start..e])), src[start..e], line), e, line)
    case Err(_) =>
      var dot := Lexer.DigitsEnd(src, start + 1) + 1;
      Lexer.Emit(Lexer.Tok(Error, src[start..dot], line), dot, line)
    case Panic => Lexer.Step.Panic
  }

  /** `scan_token` on values. */
  function ScanStep(src: seq<char>, start: nat, line: nat): (s: Lexer.Step)
    requires start < |src|
    ensures (s.Emit? || s.Skip?) ==> start < s.next <= |src|
  {
    var c := src[start];
    if Lexer.SingleChar(c).Some? then Lexer.Emit(Lexer.Tok(Lexer.SingleChar(c).value, [c], line), start + 1, line)
    else if Lexer.TakesEqual(c) then Lexer.OperatorStep(src, start, line)
    else if c == '/' then SlashStep(src, start, line)
    else if c == '"' then StringStep(src, start, line)
    else if IsAlpha(c) then WordStep(src, start, line)
    else if IsDigit(c) then NumberStep(src, start, line)
    else if c == ' ' || c == '\r' || c == '\t' then Lexer.Skip(start + 1, line)
    else if c == '\n' then Lexer.Skip(start + 1, line + 1)
    else Lexer.Emit(Lexer.Tok(Error, [c], line), start + 1, line)
  }

  /** The loop of `scan_tokens` on values: it stops only at the end of the
      source or when it reads past it. */
  function ScanFrom(src: seq<char>, pos: nat, line: nat): (r: Lexer.Run)
    requires pos <= |src|
    ensures |r.pushed| <= |src| - pos
    decreases |src| - pos
  {
    if pos == |src| then Lexer.Run([], Lexer.Finished(line))
    else match ScanStep(src, pos, line)
      case Emit(t, n, l) =>
        var rest := ScanFrom(src, n, l);
        Lexer.Run([t] + rest.pushed, rest.status)
      case Skip(n, l) => ScanFrom(src, n, l)
      case Fail(msg) => Lexer.Run([], Lexer.Failed(msg))
      case Panic => Lexer.Run([], Lexer.Panicked)
  }

  /** What `Scanner::new(source).scan_tokens()` returns, unless it reads past
      the end of the source. */
  function Scan(src: seq<char>): (r: Option<seq<Token>>)
    ensures r.Some? ==> 1 <= |r.value| <= |src| + 1 && r.value[|r.value| - 1].ttype == Eof
    ensures src == [] ==> r == Some([Token(Eof, "", "", 1)])
  {
    var run := ScanFrom(src, 0, 1);
    assert src == [] ==> run.status == Lexer.Finished(1) && run.pushed + [Token(Eof, "", "", 1)] == [Token(Eof, "", "", 1)];
    match run.status
    case Finished(l) => Some(run.pushed + [Token(Eof, "", "", l)])
    case Failed(_) => None
    case Panicked => None
  }

  // Properties of the specification.

  /** No lexical error stops the scan. */
  lemma StepNeverFails(src: seq<char>, start: nat, line: nat)
    requires start < |src|
    ensures !ScanStep(src, start, line).Fail?
  {
  }

  lemma {:induction false} RunNeverFails(src: seq<char>, pos: nat, line: nat)
    requires pos <= |src|
    ensures !ScanFrom(src, pos, line).status.Failed?
    ensures forall t :: t in ScanFrom(src, pos, line).pushed ==> t.ttype != Eof
    decreases |src| - pos
  {
    if pos < |src| {
      StepNeverFails(src, pos, line);
      StepNotEof(src, pos, line);
      match ScanStep(src, pos, line)
      case Emit(t, n, l) => RunNeverFails(src, n, l);
      case Skip(n, l) => RunNeverFails(src, n, l);
      case Panic =>
    }
  }

  lemma StepNotEof(src: seq<char>, start: nat, line: nat)
    requires start < |src|
    ensures ScanStep(src, start, line).Emit? ==> ScanStep(src, start, line).token.ttype != Eof
  {
  }

  /** Unless it reads past the end, a scan returns its tokens followed by
      exactly one `Eof` on the last line. */
  lemma ScanEndsWithEof(src: seq<char>)
    ensures Scan(src).Some? <==> ScanFrom(src, 0, 1).status.Finished?
    ensures Scan(src).Some? ==> var ts := Scan(src).value;
      |ts| >= 1 && ts[|ts| - 1] == Token(Eof, "", "", ScanFrom(src, 0, 1).status.line) &&
      forall i :: 0 <= i < |ts| - 1 ==> ts[i].ttype != Eof
  {
    RunNeverFails(src, 0, 1);
    var run := ScanFrom(src, 0, 1);
    assert forall i :: 0 <= i < |run.pushed| ==> run.pushed[i] in run.pushed;
  }

  /** An unexpected character becomes an `Error` token of its own. */
  lemma UnexpectedCharacter(src: seq<char>, start: nat, line: nat)
    requires start < |src|
    requires var c := src[start];
      Lexer.SingleChar(c).None? && !Lexer.TakesEqual(c) && c !in "/\" \r\t\n" && !IsAlpha(c) && !IsDigit(c)
    ensures ScanStep(src, start, line) == Lexer.Emit(Token(Error, [src[start]], [src[start]], line), start + 1, line)
  {
  }

  /** A string literal keeps its quotes in the lexeme and carries the text
      between them in its kind; the line counter does not move, whatever
      line breaks the text holds. An unterminated string turns the rest of
      the source into one `Error` token. */
  lemma StringLiteral(src: seq<char>, start: nat, line: nat)
    requires start < |src| && src[start] == '"'
    ensures var s := ScanStep(src, start, line);
      s.Emit? && s.line == line && s.token.line == line &&
      ('"' in src[start + 1..] ==>
        s.token.ttype == StringLit(src[start + 1..s.next - 1]) &&
        s.token.lexeme == ['"'] + src[start + 1..s.next - 1] + ['"'] && '"' !in src[start + 1..s.next - 1]) &&
      ('"' !in src[start + 1..] ==> s.token.ttype == Error && s.token.lexeme == src[start..] && s.next == |src|)
  {
    Lexer.StringEndFirst(src, start + 1);
    match Lexer.StringEnd(src, start + 1)
    case None =>
      assert '"' !in src[start + 1..];
    case Some(k) =>
      assert src[start + 1..][k - start - 1] == '"';
      assert src[start..k + 1] == ['"'] + src[start + 1..k] + ['"'];
  }

  /** A number whose `.` is not followed by a digit becomes an `Error` token
      holding the digits and the `.`, and scanning resumes after the `.`. */
  lemma TrailingDot(src: seq<char>, start: nat, line: nat)
    requires start < |src| && IsDigit(src[start])
    requires var e1 := Lexer.DigitsEnd(src, start + 1); e1 + 1 < |src| && src[e1] == '.' && !IsDigit(src[e1 + 1])
    ensures var e1 := Lexer.DigitsEnd(src, start + 1);
      ScanStep(src, start, line) == Lexer.Emit(Token(Error, src[start..e1 + 1], src[start..e1 + 1], line), e1 + 1, line)
  {
  }

  /** A `//` comment with no line break after it reads past the end. */
  lemma CommentAtEnd(src: seq<char>, start: nat, line: nat)
    requires start + 1 < |src| && src[start] == '/' && src[start + 1] == '/'
    requires forall k :: start + 2 <= k < |src| ==> src[k] != '\n'
    ensures ScanStep(src, start, line) == Lexer.Step.Panic
  {
    LineEndToEnd(src, start + 2);
  }

  lemma {:induction false} LineEndToEnd(src: seq<char>, i: nat)
    requires i <= |src|
    requires forall k :: i <= k < |src| ==> src[k] != '\n'
    ensures Lexer.LineEnd(src, i) == |src|
    decreases |src| - i
  {
    if i < |src| {
      LineEndToEnd(src, i + 1);
    }
  }

  /** `elif` is an ordinary identifier here. */
  lemma ElifIsIdentifier(src: seq<char>, start: nat, line: nat)
    requires start + 4 <= |src| && src[start..start + 4] == "elif"
    requires start + 4 == |src| || !Lexer.IsWordChar(src[start + 4])
    ensures ScanStep(src, start, line).Emit? && ScanStep(src, start, line).token.ttype == Identifier("elif")
  {
    WordEndAt(src, start + 1, start + 4);
  }

  lemma {:induction false} WordEndAt(src: seq<char>, i: nat, e: nat)
    requires i <= e <= |src|
    requires forall k :: i <= k < e ==> Lexer.IsWordChar(src[k])
    requires e == |src| || !Lexer.IsWordChar(src[e])
    ensures Lexer.WordEnd(src, i) == e
    decreases e - i
  {
    if i < e {
      WordEndAt(src, i + 1, e);
    }
  }

  /** Where neither scanner meets an error, a comment or a string, the two
      generations scan alike: same token, same cursor, same line. */
  lemma AgreesWithCurrent(src: seq<char>, start: nat, line: nat)
    requires start < |src|
    requires Lexer.SingleChar(src[start]).Some? || Lexer.TakesEqual(src[start]) ||
      (IsDigit(src[start]) && Lexer.NumberEnd(src, start + 1).Ok?) ||
      (IsAlpha(src[start]) && src[start..Lexer.WordEnd(src, start + 1)] != "elif")
    ensures ScanStep(src, start, line) == Lexer.ScanStep(src, start, line)
  {
    var c := src[start];
    if IsAlpha(c) && Lexer.SingleChar(c).None? && !Lexer.TakesEqual(c) {
      var w := src[start..Lexer.WordEnd(src, start + 1)];
      KeywordsWithoutElif(w);
      if w in Keywords {
        KeywordsAgree(w);
      }
    }
  }

  /** The older `Scanner`. The source is kept once: the `String` and the
      `Vec<char>` of the original hold the same ASCII characters. */
  class Scanner {
    const source: seq<char>
    var tokens: seq<Token>
    var start: nat
    var current: nat
    var line: nat

    ghost predicate Valid()
      reads this
    {
      start <= current <= |source|
    }

    /** `Scanner::new` */
    constructor(s: string)
      ensures Valid()
      ensures source == s && tokens == [] && start == 0 && current == 0 && line == 1
    {
      source := s;
      tokens := [];
      start := 0;
      current := 0;
      line := 1;
    }

    /** `is_at_end` */
    function IsAtEnd(): (b: bool)
      reads this
      ensures b <==> current >= |source|
    {
      current >= |source|
    }

    /** `advance`: reads the character under the cursor and moves past it. */
    method Advance() returns (c: char)
      requires Valid() && current < |source|
      modifies this
      ensures Valid() && tokens == old(tokens) && start == old(start) && line == old(line)
      ensures c == source[old(current)] && current == old(current) + 1
    {
      c := source[current];
      current := current + 1;
    }

    /** `match_advance`: consumes the next character exactly when it is `m`. */
    method MatchAdvance(m: char) returns (b: bool)
      requires Valid()
      modifies this
      ensures Valid()
      ensures tokens == old(tokens) && start == old(start) && line == old(line)
      ensures b <==> old(current) < |source| && source[old(current)] == m
      ensures b ==> current == old(current) + 1
      ensures !b ==> current == old(current)
    {
      if IsAtEnd() {
        return false;
      }
      if source[current] == m {
        current := current + 1;
        return true;
      }
      return false;
    }

    /** `source_substr`: a slice of the source. */
    function SourceSubstr(): string
      reads this
      requires Valid()
    {
      source[start..current]
    }

    /** `add_token`: pushes the token being scanned, its text as lexeme and literal. */
    method AddToken(ttype: TokenType)
      requires Valid()
      modifies this
      ensures start == old(start) && current == old(current) && line == old(line)
      ensures tokens == old(tokens) + [Lexer.Tok(ttype, source[start..current], line)]
    {
      var s := SourceSubstr();
      tokens := tokens + [Token(ttype, s, s, line)];
    }

    /** `scan_string`: the kind of a string token, its text taken between the
        opening quote and the closing one; without a closing quote the cursor
        ends at the end of the source and the kind is `Error`. */
    method ScanString() returns (t: TokenType)
      requires Valid() && current == start + 1
      modifies this
      ensures Valid() && start == old(start) && tokens == old(tokens) && line == old(line)
      ensures match Lexer.StringEnd(source, old(current))
        case None => t == Error && current == |source|
        case Some(k) => t == StringLit(source[start + 1..k]) && current == k + 1
    {
      while true
        invariant Valid() && start == old(start) && tokens == old(tokens) && line == old(line)
        invariant old(current) <= current
        invariant Lexer.StringEnd(source, old(current)) == Lexer.StringEnd(source, current)
        decreases |source| - current
      {
        var closed := MatchAdvance('"');
        if closed {
          break;
        }
        if IsAtEnd() {
          return Error;
        }
        current := current + 1;
      }
      t := StringLit(source[start + 1..current - 1]);
    }

    /** `scan_word`: a reserved word of the 16 gets its keyword kind, any
        other word is an identifier. */
    method ScanWord() returns (t: TokenType)
      requires Valid()
      modifies this
      ensures Valid() && start == old(start) && tokens == old(tokens) && line == old(line)
      ensures current == Lexer.WordEnd(source, old(current))
      ensures source[start..current] in Keywords ==> t == KeywordToken(source[start..current]) && t != Error
      ensures source[start..current] !in Keywords ==> t == Identifier(source[start..current])
    {
      while !IsAtEnd() && Lexer.IsWordChar(source[current])
        invariant Valid() && start == old(start) && tokens == old(tokens) && line == old(line)
        invariant Lexer.WordEnd(source, old(current)) == Lexer.WordEnd(source, current)
        decreases |source| - current
      {
        current := current + 1;
      }
      var substr := SourceSubstr();
      if substr in Keywords {
        t := KeywordToken(substr);
      } else {
        t := Identifier(substr);
      }
    }

    /** `scan_number`: the digits, and a `.` with its fraction digits; a `.`
        without a digit after it gives `Error`, the cursor past the `.`. */
    method ScanNumber() returns (r: Lexer.Outcome<TokenType>)
      requires Valid()
      modifies this
      ensures Valid() && start == old(start) && tokens == old(tokens) && line == old(line)
      ensures match Lexer.NumberEnd(source, old(current))
        case Ok(e) => current == e && r == Lexer.Ok(Number(Lexer.NumberValue(source[start..e])))
        case Err(_) => current == Lexer.DigitsEnd(source, old(current)) + 1 && r == Lexer.Ok(Error)
        case Panic => r == Lexer.Outcome.Panic
    {
      ghost var c0 := current;
      while !IsAtEnd() && IsDigit(source[current])
        invariant Valid() && start == old(start) && tokens == old(tokens) && line == old(line) && c0 <= current
        invariant Lexer.DigitsEnd(source, c0) == Lexer.DigitsEnd(source, current)
        decreases |source| - current
      {
        current := current + 1;
      }
      var dot := MatchAdvance('.');
      if dot {
        if IsAtEnd() {
          return Lexer.Outcome.Panic;
        }
        if !IsDigit(source[current]) {
          return Lexer.Ok(Error);
        }
        ghost var f0 := current;
        while true
          invariant Valid() && start == old(start) && tokens == old(tokens) && line == old(line) && f0 <= current
          invariant Lexer.DigitsEnd(source, f0) == Lexer.DigitsEnd(source, current)
          decreases |source| - current
        {
          if IsAtEnd() {
            return Lexer.Outcome.Panic;
          }
          if !IsDigit(source[current]) {
            break;
          }
          current := current + 1;
        }
      }
      var lexeme := SourceSubstr();
      r := Lexer.Ok(Number(Lexer.NumberValue(lexeme)));
    }

    /** `scan_token`: scans one token from `start` and pushes it, an `Error`
        token when the text is not a token, unless it is a comment or blank
        space. */
    method ScanToken() returns (o: Lexer.Outcome<()>)
      requires Valid() && start == current && current < |source|
      modifies this
      ensures Valid() && start == old(start)
      ensures Lexer.StepTaken(source, o, ScanStep(source, old(current), old(line)), old(tokens), tokens, current, line)
    {
      var c := Advance();
      if Lexer.SingleChar(c).Some? {
        AddToken(Lexer.SingleChar(c).value);
        assert source[start..current] == [c];
        o := Lexer.Ok(());
      } else if Lexer.TakesEqual(c) {
        var eq := MatchAdvance('=');
        AddToken(Lexer.OperatorType(c, eq));
        o := Lexer.Ok(());
      } else if c == '/' {
        o := ScanSlash();
      } else if c == '"' {
        o := ScanStringToken();
      } else if IsAlpha(c) {
        var t := ScanWord();
        AddToken(t);
        o := Lexer.Ok(());
      } else if IsDigit(c) {
        o := ScanNumberToken();
      } else if c == ' ' || c == '\r' || c == '\t' {
        o := Lexer.Ok(());
      } else if c == '\n' {
        line := line + 1;
        o := Lexer.Ok(());
      } else {
        assert source[start..current] == [c];
        AddToken(Error);
        o := Lexer.Ok(());
      }
    }

    /** The `/` arm of `scan_token`. */
    method ScanSlash() returns (o: Lexer.Outcome<()>)
      requires Valid() && current == start + 1 && current <= |source|
      modifies this
      ensures Valid() && start == old(start)
      ensures Lexer.StepTaken(source, o, SlashStep(source, start, old(line)), old(tokens), tokens, current, line)
    {
      var slash := MatchAdvance('/');
      if slash {
        while true
          invariant Valid() && start == old(start) && tokens == old(tokens) && line == old(line)
          invariant start + 2 <= current
          invariant Lexer.LineEnd(source, start + 2) == Lexer.LineEnd(source, current)
          decreases |source| - current
        {
          // `peek` comes before the end test.
          if current == |source| {
            return Lexer.Outcome.Panic;
          }
          if source[current] == '\n' {
            break;
          }
          current := current + 1;
        }
        return Lexer.Ok(());
      }
      AddToken(Slash);
      o := Lexer.Ok(());
    }

    /** The `"` arm of `scan_token`. */
    method ScanStringToken() returns (o: Lexer.Outcome<()>)
      requires Valid() && current == start + 1 && current <= |source|
      modifies this
      ensures Valid() && start == old(start)
      ensures Lexer.StepTaken(source, o, StringStep(source, start, old(line)), old(tokens), tokens, current, line)
    {
      var t := ScanString();
      AddToken(t);
      o := Lexer.Ok(());
    }

    /** The digit arm of `scan_token`. */
    method ScanNumberToken() returns (o: Lexer.Outcome<()>)
      requires Valid() && current == start + 1 && current <= |source|
      modifies this
      ensures Valid() && start == old(start)
      ensures Lexer.StepTaken(source, o, NumberStep(source, start, old(line)), old(tokens), tokens, current, line)
    {
      var n := ScanNumber();
      match n
      case Ok(t) =>
        AddToken(t);
        o := Lexer.Ok(());
      case Err(msg) => o := Lexer.Err(msg);
      case Panic => o := Lexer.Outcome.Panic;
    }

    /** `scan_tokens`: scans to the end of the source, pushes `Eof` on the
        last line and hands the tokens over, leaving none behind. */
    method ScanTokens() returns (r: Option<seq<Token>>)
      requires Valid()
      modifies this
      ensures var run := ScanFrom(source, old(current), old(line));
        match run.status
        case Finished(l) => r == Some(old(tokens) + run.pushed + [Token(Eof, "", "", l)]) && tokens == []
        case Failed(_) => r == None
        case Panicked => r == None
      ensures old(current) == 0 && old(line) == 1 && old(tokens) == [] ==> r == Scan(source)
    {
      ghost var run0 := ScanFrom(source, current, line);
      ghost var before := tokens;
      while !IsAtEnd()
        invariant Valid()
        invariant ScanFrom(source, current, line).status == run0.status
        invariant before + run0.pushed == tokens + ScanFrom(source, current, line).pushed
        decreases |source| - current
      {
        start := current;
        ghost var t0, c0, l0 := tokens, current, line;
        var o := ScanToken();
        if !o.Ok? {
          StepNeverFails(source, c0, l0);
          assert ScanFrom(source, c0, l0).status == Lexer.Panicked;
          return None;
        }
        RunStep(source, c0, l0, t0, tokens, current, line);
      }
      assert ScanFrom(source, current, line) == Lexer.Run([], Lexer.Finished(line));
      assert before + run0.pushed == tokens;
      assert before == [] ==> tokens == run0.pushed;
      tokens := tokens + [Token(Eof, "", "", line)];
      r := Some(tokens);
      tokens := [];
    }
  }

  /** A step that succeeds hands the rest of the scan on unchanged. */
  lemma RunStep(src: seq<char>, c0: nat, l0: nat, t0: seq<Token>, tokens: seq<Token>, current: nat, line: nat)
    requires c0 < |src|
    requires Lexer.StepTaken(src, Lexer.Ok(()), ScanStep(src, c0, l0), t0, tokens, current, line)
    ensures current <= |src|
    ensures ScanFrom(src, current, line).status == ScanFrom(src, c0, l0).status
    ensures t0 + ScanFrom(src, c0, l0).pushed == tokens + ScanFrom(src, current, line).pushed
  {
    match ScanStep(src, c0, l0)
    case Emit(t, n, l) =>
      assert t0 + ([t] + ScanFrom(src, n, l).pushed) == (t0 + [t]) + ScanFrom(src, n, l).pushed;
    case Skip(n, l) =>
  }

  /** A token of the scanner copied into lox-rust/src/main.rs, which has no
      literal. */
  datatype BareToken = BareToken(ttype: TokenType, lexeme: string, line: nat)

  function Bare(t: Token): BareToken {
    BareToken(t.ttype, t.lexeme, t.line)
  }

  function BareAll(ts: seq<Token>): (r: seq<BareToken>)
    ensures |r| == |ts| && forall i :: 0 <= i < |ts| ==> r[i] == Bare(ts[i])
  {
    seq(|ts|, i requires 0 <= i < |ts| => Bare(ts[i]))
  }

  /** What the copy in lox-rust/src/main.rs returns: the same scan with the
      literal dropped from every token. */
  function MainScan(src: seq<char>): (r: Option<seq<BareToken>>)
    ensures r.Some? <==> Scan(src).Some?
    ensures r.Some? ==> |r.value| == |Scan(src).value|
    ensures r.Some? ==> forall i :: 0 <= i < |r.value| ==>
      r.value[i].ttype == Scan(src).value[i].ttype && r.value[i].lexeme == Scan(src).value[i].lexeme &&
      r.value[i].line == Scan(src).value[i].line
  {
    match Scan(src)
    case Some(ts) => Some(BareAll(ts))
    case None => None
  }

  /** `Scanner::new(source).scan_tokens()` of the copy: the same cursor run
      on the same source, its tokens stripped of their literal. */
  method MainScanTokens(source: string) returns (r: Option<seq<BareToken>>)
    ensures r == MainScan(source)
  {
    var scanner := new Scanner(source);
    var tokens := scanner.ScanTokens();
    r := if tokens.Some? then Some(BareAll(tokens.value)) else None;
  }

  /** The copy ends its tokens with one `Eof` on the last line, and holds no
      other `Eof`. */
  lemma MainScanEndsWithEof(src: seq<char>)
    requires MainScan(src).Some?
    ensures var ts := MainScan(src).value;
      |ts| >= 1 && ts[|ts| - 1] == BareToken(Eof, "", ScanFrom(src, 0, 1).status.line) &&
      forall i :: 0 <= i < |ts| - 1 ==> ts[i].ttype != Eof
  {
    ScanEndsWithEof(src);
  }
}
