/** The scanner of the current interpreter (src/scanner.rs): a cursor over
    the source characters that pushes tokens and stops at the first lexical
    error. Characters are ASCII; an index past the end of the source, where
    Rust would panic, is the outcome `Panic`. */
module Lexer {
  import opened Wrappers
  import opened Text
  import opened Tokens
  import LoxErrors

  /** The 17 reserved words. */
  const Keywords: seq<string> := ["and", "class", "elif", "else", "false", "fun", "for",
    "if", "nil", "or", "print", "return", "super", "this", "true", "var", "while"]

  /** `keyword_token` */
  function KeywordToken(keyword: string): (r: Result<TokenType, LoxErrors.ScanError>)
    ensures r.Failure? ==> r.error.msg == "Invalid keyword!"
  {
    match keyword
    case "and" => Success(And)
    case "class" => Success(Class)
    case "elif" => Success(Elif)
    case "else" => Success(Else)
    case "false" => Success(False)
    case "fun" => Success(Fun)
    case "for" => Success(For)
    case "if" => Success(If)
    case "nil" => Success(Nil)
    case "or" => Success(Or)
    case "print" => Success(Print)
    case "return" => Success(Return)
    case "super" => Success(Super)
    case "this" => Success(This)
    case "true" => Success(True)
    case "var" => Success(Var)
    case "while" => Success(While)
    case _ => Failure(LoxErrors.Scerror(0, "Invalid keyword!"))
  }

  /** Every reserved word has its own token kind: the error arm of
      `keyword_token` is never reached from `scan_word`. */
  lemma KeywordsAccepted(w: string)
    requires w in Keywords
    ensures KeywordToken(w).Success?
    ensures !KeywordToken(w).value.Identifier? && KeywordToken(w).value != Eof
  {
  }

  /** Exactly the reserved words are accepted. */
  lemma OnlyKeywordsAccepted(w: string)
    requires w !in Keywords
    ensures KeywordToken(w).Failure?
  {
  }

  /** The kinds of the characters that always form a token on their own. */
  function SingleChar(c: char): Option<TokenType> {
    match c
    case '(' => Some(LeftParen)
    case ')' => Some(RightParen)
    case '{' => Some(LeftBrace)
    case '}' => Some(RightBrace)
    case ',' => Some(Comma)
    case '.' => Some(Dot)
    case '-' => Some(Minus)
    case '+' => Some(Plus)
    case ';' => Some(Semicolon)
    case '*' => Some(Star)
    case _ => None
  }

  /** The characters that take a following `=`. */
  predicate TakesEqual(c: char) {
    c == '>' || c == '<' || c == '=' || c == '!'
  }

  /** The kind of an operator that may be followed by `=`, without and with it. */
  function OperatorType(c: char, withEqual: bool): TokenType
    requires TakesEqual(c)
  {
    match c
    case '>' => if withEqual then GreaterEqual else Greater
    case '<' => if withEqual then LessEqual else Less
    case '=' => if withEqual then EqualEqual else Equal
    case '!' => if withEqual then BangEqual else Bang
  }

  predicate IsWordChar(c: char) {
    IsAlphanumeric(c) || c == '_'
  }

  /** Where a `//` comment stops: at the next line break, which it leaves in
      place, or at the end of the source. */
  function LineEnd(src: seq<char>, i: nat): (e: nat)
    requires i <= |src|
    ensures i <= e <= |src| && (e < |src| ==> src[e] == '\n')
    ensures forall k :: i <= k < e ==> src[k] != '\n'
    decreases |src| - i
  {
    if i == |src| || src[i] == '\n' then i else LineEnd(src, i + 1)
  }

  /** Where a word stops. */
  function WordEnd(src: seq<char>, i: nat): (e: nat)
    requires i <= |src|
    ensures i <= e <= |src| && (e < |src| ==> !IsWordChar(src[e]))
    ensures forall k :: i <= k < e ==> IsWordChar(src[k])
    decreases |src| - i
  {
    if i == |src| || !IsWordChar(src[i]) then i else WordEnd(src, i + 1)
  }

  /** Where a run of digits stops. */
  function DigitsEnd(src: seq<char>, i: nat): (e: nat)
    requires i <= |src|
    ensures i <= e <= |src| && (e < |src| ==> !IsDigit(src[e]))
    ensures forall k :: i <= k < e ==> IsDigit(src[k])
    decreases |src| - i
  {
    if i == |src| || !IsDigit(src[i]) then i else DigitsEnd(src, i + 1)
  }

  /** Where the body of a string literal stops: the index of its closing quote. */
  function StringEnd(src: seq<char>, i: nat): (r: Option<nat>)
    requires i <= |src|
    ensures r.Some? ==> i <= r.value < |src| && src[r.value] == '"'
    decreases |src| - i
  {
    if i == |src| then None
    else if src[i] == '"' then Some(i)
    else StringEnd(src, i + 1)
  }

  /** The body of a string literal holds no quote: the closing quote is the
      first one, and without one there is none left. */
  lemma {:induction false} StringEndFirst(src: seq<char>, i: nat)
    requires i <= |src|
    ensures StringEnd(src, i).Some? ==> forall k :: i <= k < StringEnd(src, i).value ==> src[k] != '"'
    ensures StringEnd(src, i).None? ==> forall k :: i <= k < |src| ==> src[k] != '"'
    decreases |src| - i
  {
    if i < |src| && src[i] != '"' {
      StringEndFirst(src, i + 1);
    }
  }

  /** How the search for the end of a block comment ends. */
  datatype CommentEnd = Closed(at: nat) | Unclosed | Overrun

  /** The search for the closing star and slash: it looks one character ahead whenever it sees
      `*`, so a `*` as the last character of the source is read past. */
  function BlockEnd(src: seq<char>, i: nat): (r: CommentEnd)
    requires i <= |src|
    ensures r.Closed? ==> i <= r.at && r.at + 1 < |src| && src[r.at] == '*' && src[r.at + 1] == '/'
    ensures r.Overrun? ==> |src| >= 1 && src[|src| - 1] == '*'
    ensures r.Closed? ==> forall j :: i <= j < r.at ==> !(src[j] == '*' && src[j + 1] == '/')
    ensures r.Overrun? ==> forall j :: i <= j < |src| - 1 ==> !(src[j] == '*' && src[j + 1] == '/')
    ensures r.Unclosed? <==> forall j :: i <= j < |src| && src[j] == '*' ==> j + 1 < |src| && src[j + 1] != '/'
    decreases |src| - i
  {
    if i == |src| then Unclosed
    else if src[i] == '*' && i + 1 == |src| then Overrun
    else if src[i] == '*' && src[i + 1] == '/' then Closed(i)
    else BlockEnd(src, i + 1)
  }

  /** The value of a digit string. */
  function DigitsValue(s: string): nat {
    if s == [] then 0
    else DigitsValue(s[..|s| - 1]) * 10 + (if IsDigit(s[|s| - 1]) then s[|s| - 1] as int - '0' as int else 0)
  }

  function Pow10(k: nat): (r: nat)
    ensures r >= 1
  {
    if k == 0 then 1 else 10 * Pow10(k - 1)
  }

  /** The exact value of a number lexeme `digits` or `digits.digits`. */
  function NumberValue(lexeme: string): real {
    var whole := DigitsEnd(lexeme, 0);
    if whole < |lexeme| && lexeme[whole] == '.' then
      var frac := lexeme[whole + 1..];
      (DigitsValue(lexeme[..whole]) as real) + (DigitsValue(frac) as real) / (Pow10(|frac|) as real)
    else DigitsValue(lexeme) as real
  }

  /** What a step of the scanner that may fail or read past the end yields. */
  datatype Outcome<T> = Ok(value: T) | Err(msg: string) | Panic

  /** Where a number whose digits continue at `i` stops: after its integer
      digits, or after a `.` and its fraction digits. A `.` followed by no
      digit is an error; a `.` or a fraction that reaches the end of the
      source is read past, because the fraction is scanned with `peek` alone. */
  function NumberEnd(src: seq<char>, i: nat): (r: Outcome<nat>)
    requires i <= |src|
    ensures r.Ok? ==> i <= r.value <= |src| && forall k :: i <= k < r.value ==> IsDigit(src[k]) || src[k] == '.'
    ensures r.Err? ==> r.msg == "Number has trailing ."
  {
    var e1 := DigitsEnd(src, i);
    if e1 < |src| && src[e1] == '.' then
      if e1 + 1 == |src| then Outcome.Panic
      else if !IsDigit(src[e1 + 1]) then Err("Number has trailing .")
      else
        var e2 := DigitsEnd(src, e1 + 1);
        if e2 == |src| then Outcome.Panic else Ok(e2)
    else Ok(e1)
  }

  /** A token whose lexeme and literal are both `text`. */
  function Tok(ttype: TokenType, text: string, line: nat): Token {
    Token(ttype, text, text, line)
  }

  /** What one call of `scan_token` does from `start`. */
  datatype Step =
    | Emit(token: Token, next: nat, line: nat)
    | Skip(next: nat, line: nat)
    | Fail(msg: string)
    | Panic

  /** `scan_token` on values: the token it pushes, where the cursor and the
      line counter end up, or the error that stops the scan. */
  function ScanStep(src: seq<char>, start: nat, line: nat): (s: Step)
    requires start < |src|
    ensures (s.Emit? || s.Skip?) ==> start < s.next <= |src|
  {
    var c := src[start];
    if SingleChar(c).Some? then Emit(Tok(SingleChar(c).value, [c], line), start + 1, line)
    else if TakesEqual(c) then OperatorStep(src, start, line)
    else if c == '/' then SlashStep(src, start, line)
    else if c == '"' then StringStep(src, start, line)
    else if IsAlpha(c) then WordStep(src, start, line)
    else if IsDigit(c) then NumberStep(src, start, line)
    else if c == ' ' || c == '\r' || c == '\t' then Skip(start + 1, line)
    else if c == '\n' then Skip(start + 1, line + 1)
    else Fail("Unexpected character.")
  }

  /** `>`, `<`, `=` and `!`, with a following `=` taken into the token. */
  function OperatorStep(src: seq<char>, start: nat, line: nat): (s: Step)
    requires start < |src| && TakesEqual(src[start])
    ensures s.Emit? && start < s.next <= |src|
  {
    var cur := start + 1;
    if cur < |src| && src[cur] == '=' then Emit(Tok(OperatorType(src[start], true), src[start..cur + 1], line), cur + 1, line)
    else Emit(Tok(OperatorType(src[start], false), src[start..cur], line), cur, line)
  }

  /** `/`: a line comment, a block comment, or the division operator. */
  function SlashStep(src: seq<char>, start: nat, line: nat): (s: Step)
    requires start < |src|
    ensures (s.Emit? || s.Skip?) ==> start < s.next <= |src|
  {
    var cur := start + 1;
    if cur < |src| && src[cur] == '/' then Skip(LineEnd(src, cur + 1), line)
    else if cur < |src| && src[cur] == '*' then
      match BlockEnd(src, cur + 1)
      case Closed(k) => Skip(k + 2, line)
      case Unclosed => Fail("You must close multiline comments with */")
      case Overrun => Step.Panic
    else Emit(Tok(Slash, src[start..cur], line), cur, line)
  }

  /** A string literal: the token is pushed on the line where it ends. */
  function StringStep(src: seq<char>, start: nat, line: nat): (s: Step)
    requires start < |src|
    ensures (s.Emit? || s.Skip?) ==> start < s.next <= |src|
  {
    match StringEnd(src, start + 1)
    case None => Fail("Unterminated string.")
    case Some(k) =>
      var text := src[start + 1..k];
      var l := line + Count(text, '\n');
      Emit(Tok(StringLit(text), text, l), k + 1, l)
  }

  /** A word: a keyword or an identifier. */
  function WordStep(src: seq<char>, start: nat, line: nat): (s: Step)
    requires start < |src|
    ensures (s.Emit? || s.Skip?) ==> start < s.next <= |src|
  {
    var e := WordEnd(src, start + 1);
    var w := src[start..e];
    if w in Keywords then
      match KeywordToken(w)
      case Success(t) => Emit(Tok(t, w, line), e, line)
      case Failure(err) => Fail(err.msg)
    else Emit(Tok(Identifier(w), w, line), e, line)
  }

  /** A number literal. */
  function NumberStep(src: seq<char>, start: nat, line: nat): (s: Step)
    requires start < |src|
    ensures (s.Emit? || s.Skip?) ==> start < s.next <= |src|
  {
    match NumberEnd(src, start + 1)
    case Ok(e) => Emit(Tok(Number(NumberValue(src[start..e])), src[start..e], line), e, line)
    case Err(msg) => Fail(msg)
    case Panic => Step.Panic
  }

  /** How a whole scan ends. */
  datatype Status = Finished(line: nat) | Failed(msg: string) | Panicked

  /** The tokens a scan from `pos` pushes before it ends, and how it ends. */
  datatype Run = Run(pushed: seq<Token>, status: Status)

  /** The loop of `scan_tokens` on values. */
  function ScanFrom(src: seq<char>, pos: nat, line: nat): (r: Run)
    requires pos <= |src|
    ensures |r.pushed| <= |src| - pos
    decreases |src| - pos
  {
    if pos == |src| then Run([], Finished(line))
    else match ScanStep(src, pos, line)
      case Emit(t, n, l) =>
        var rest := ScanFrom(src, n, l);
        Run([t] + rest.pushed, rest.status)
      case Skip(n, l) => ScanFrom(src, n, l)
      case Fail(_) => Run([], Failed(ScanStep(src, pos, line).msg))
      case Panic => Run([], Panicked)
  }

  /** The outcome of `scan_tokens`. */
  datatype Scanned = Scanned(tokens: seq<Token>) | ScanFailed(error: LoxErrors.LoxError) | ScanPanicked

  /** What `Scanner::new(source).scan_tokens()` returns. */
  function Scan(src: seq<char>): (r: Scanned)
    ensures r.Scanned? ==> 1 <= |r.tokens| <= |src| + 1 && r.tokens[|r.tokens| - 1].ttype == Eof
    ensures src == [] ==> r == Scanned([Token(Eof, "", "", 1)])
  {
    var run := ScanFrom(src, 0, 1);
    assert src == [] ==> run.status == Finished(1) && run.pushed + [Token(Eof, "", "", 1)] == [Token(Eof, "", "", 1)];
    match run.status
    case Finished(l) => Scanned(run.pushed + [Token(Eof, "", "", l)])
    case Failed(_) => ScanFailed(LoxErrors.Scan)
    case Panicked => ScanPanicked
  }

  // Properties of the specification.

  /** `scan_token` never produces the end marker. */
  lemma StepNotEof(src: seq<char>, start: nat, line: nat)
    requires start < |src|
    ensures ScanStep(src, start, line).Emit? ==> ScanStep(src, start, line).token.ttype != Eof
  {
    var c := src[start];
    if IsAlpha(c) && !(SingleChar(c).Some? || TakesEqual(c) || c == '/' || c == '"') {
      var w := src[start..WordEnd(src, start + 1)];
      if w in Keywords {
        KeywordsAccepted(w);
      }
    }
  }

  lemma {:induction false} RunNoEof(src: seq<char>, pos: nat, line: nat)
    requires pos <= |src|
    ensures forall t :: t in ScanFrom(src, pos, line).pushed ==> t.ttype != Eof
    decreases |src| - pos
  {
    if pos < |src| {
      StepNotEof(src, pos, line);
      match ScanStep(src, pos, line)
      case Emit(t, n, l) => RunNoEof(src, n, l);
      case Skip(n, l) => RunNoEof(src, n, l);
      case Fail(_) =>
      case Panic =>
    }
  }

  /** A successful scan ends with exactly one `Eof` token, with an empty
      lexeme and literal, on the last line. */
  lemma ScanEndsWithEof(src: seq<char>)
    requires Scan(src).Scanned?
    ensures var ts := Scan(src).tokens;
      |ts| >= 1 && ts[|ts| - 1].ttype == Eof && ts[|ts| - 1].lexeme == "" && ts[|ts| - 1].literal == "" &&
      ts[|ts| - 1].line == ScanFrom(src, 0, 1).status.line &&
      forall i :: 0 <= i < |ts| - 1 ==> ts[i].ttype != Eof
  {
    var run := ScanFrom(src, 0, 1);
    RunNoEof(src, 0, 1);
    assert forall i :: 0 <= i < |run.pushed| ==> run.pushed[i] in run.pushed;
  }

  /** Maximal munch: `>`, `<`, `=` and `!` take a following `=` into the
      same token, and form a one-character token otherwise. */
  lemma MaximalMunch(src: seq<char>, start: nat, line: nat)
    requires start < |src| && TakesEqual(src[start])
    ensures var s := ScanStep(src, start, line);
      s.Emit? && s.line == line &&
      (start + 1 < |src| && src[start + 1] == '=' ==>
        s.token.ttype == OperatorType(src[start], true) && s.token.lexeme == src[start..start + 2] && s.next == start + 2) &&
      (!(start + 1 < |src| && src[start + 1] == '=') ==>
        s.token.ttype == OperatorType(src[start], false) && s.token.lexeme == [src[start]] && s.next == start + 1)
  {
  }

  /** A `//` comment emits nothing and stops at the line break, which is
      scanned next and so still counted. */
  lemma LineComment(src: seq<char>, start: nat, line: nat)
    requires start + 1 < |src| && src[start] == '/' && src[start + 1] == '/'
    ensures var s := ScanStep(src, start, line);
      s.Skip? && s.line == line && (s.next == |src| || src[s.next] == '\n') &&
      forall k :: start + 2 <= k < s.next ==> src[k] != '\n'
  {
  }

  /** A block comment emits nothing and ends after the first closing star and slash; without
      one the scan fails, unless the source ends in a star, which is read past. */
  lemma BlockComment(src: seq<char>, start: nat, line: nat)
    requires start + 1 < |src| && src[start] == '/' && src[start + 1] == '*'
    ensures var s := ScanStep(src, start, line);
      !s.Emit? &&
      (s.Skip? ==> s.line == line && start + 4 <= s.next && src[s.next - 2] == '*' && src[s.next - 1] == '/') &&
      (s.Skip? ==> forall j :: start + 2 <= j < s.next - 2 ==> !(src[j] == '*' && src[j + 1] == '/')) &&
      (s.Fail? ==> s.msg == "You must close multiline comments with */") &&
      (s.Fail? <==> forall j :: start + 2 <= j < |src| && src[j] == '*' ==> j + 1 < |src| && src[j + 1] != '/') &&
      (s.Panic? ==> src[|src| - 1] == '*' && forall j :: start + 2 <= j < |src| - 1 ==> !(src[j] == '*' && src[j + 1] == '/'))
  {
  }

  /** A string literal's lexeme and literal are the characters between the
      quotes; every line break inside counts towards the line; without a
      closing quote the scan fails. */
  lemma StringLiteral(src: seq<char>, start: nat, line: nat)
    requires start < |src| && src[start] == '"'
    ensures var s := ScanStep(src, start, line);
      (s.Emit? <==> '"' in src[start + 1..]) &&
      (s.Emit? ==>
        s.token.ttype == StringLit(s.token.lexeme) && s.token.literal == s.token.lexeme &&
        s.token.lexeme == src[start + 1..s.next - 1] && src[s.next - 1] == '"' && '"' !in s.token.lexeme &&
        s.line == line + Count(s.token.lexeme, '\n') && s.token.line == s.line) &&
      (s.Fail? ==> s.msg == "Unterminated string.")
  {
    StringEndFirst(src, start + 1);
    match StringEnd(src, start + 1)
    case None =>
      assert '"' !in src[start + 1..];
    case Some(k) =>
      assert src[start + 1..][k - start - 1] == '"';
  }

  /** A word is a keyword token exactly when it is a reserved word, and an
      identifier carrying its text otherwise; it spans every following
      letter, digit and underscore. */
  lemma Word(src: seq<char>, start: nat, line: nat)
    requires start < |src| && IsAlpha(src[start])
    ensures var s := ScanStep(src, start, line);
      s.Emit? && s.next == WordEnd(src, start + 1) && s.token.lexeme == src[start..s.next] &&
      (s.next < |src| ==> !IsWordChar(src[s.next])) &&
      (s.token.lexeme in Keywords ==> s.token.ttype == KeywordToken(s.token.lexeme).value) &&
      (s.token.lexeme !in Keywords ==> s.token.ttype == Identifier(s.token.lexeme))
  {
    var w := src[start..WordEnd(src, start + 1)];
    if w in Keywords {
      KeywordsAccepted(w);
    }
  }

  /** A `.` after the digits of a number must be followed by a digit. */
  lemma TrailingDot(src: seq<char>, start: nat, line: nat)
    requires start < |src| && IsDigit(src[start])
    requires DigitsEnd(src, start + 1) + 1 < |src|
    requires src[DigitsEnd(src, start + 1)] == '.' && !IsDigit(src[DigitsEnd(src, start + 1) + 1])
    ensures ScanStep(src, start, line) == Fail("Number has trailing .")
  {
  }

  /** A number with a fractional part that reaches the end of the source
      reads past the end: `peek` has no end check there. */
  lemma FractionAtEnd(src: seq<char>, start: nat, line: nat)
    requires start < |src| && IsDigit(src[start])
    requires DigitsEnd(src, start + 1) < |src| && src[DigitsEnd(src, start + 1)] == '.'
    requires forall k :: DigitsEnd(src, start + 1) < k < |src| ==> IsDigit(src[k])
    ensures ScanStep(src, start, line) == Step.Panic
  {
    var e1 := DigitsEnd(src, start + 1);
    if e1 + 1 < |src| {
      DigitsToEnd(src, e1 + 1);
    }
  }

  lemma {:induction false} DigitsToEnd(src: seq<char>, i: nat)
    requires i <= |src|
    requires forall k :: i <= k < |src| ==> IsDigit(src[k])
    ensures DigitsEnd(src, i) == |src|
    decreases |src| - i
  {
    if i < |src| {
      DigitsToEnd(src, i + 1);
    }
  }

  /** What one call of `scan_token` must leave behind: the token pushed and
      the cursor and line moved as `ScanStep` says, or its failure. */
  predicate StepTaken(src: seq<char>, o: Outcome<()>, s: Step, before: seq<Token>, tokens: seq<Token>, current: nat, line: nat) {
    match s
    case Emit(t, n, l) => o == Ok(()) && tokens == before + [t] && current == n && line == l
    case Skip(n, l) => o == Ok(()) && tokens == before && current == n && line == l
    case Fail(msg) => o == Err(msg)
    case Panic => o == Outcome.Panic
  }

  /** One more character of a string body: the text grows by it, the count
      of line breaks by one exactly when it is one, and the closing quote
      is still ahead. */
  lemma StringBodyStep(src: seq<char>, c0: nat, i: nat, s: string)
    requires c0 <= i < |src| && src[i] != '"' && s == src[c0..i]
    ensures src[c0..i + 1] == s + [src[i]]
    ensures Count(s + [src[i]], '\n') == Count(s, '\n') + (if src[i] == '\n' then 1 else 0)
    ensures StringEnd(src, i) == StringEnd(src, i + 1)
  {
    CountAppend(s, [src[i]], '\n');
  }

  /** The two ways a string literal ends, spelled out. */
  lemma StringStepCases(src: seq<char>, start: nat, line: nat)
    requires start < |src|
    ensures StringEnd(src, start + 1).None? ==> StringStep(src, start, line) == Fail("Unterminated string.")
    ensures StringEnd(src, start + 1).Some? ==>
      var k := StringEnd(src, start + 1).value;
      var l := line + Count(src[start + 1..k], '\n');
      StringStep(src, start, line) == Emit(Token(StringLit(src[start + 1..k]), src[start + 1..k], src[start + 1..k], l), k + 1, l)
  {
  }

  /** A word step spelled out: the word up to `WordEnd`, with its keyword
      kind or as an identifier. */
  lemma WordStepCases(src: seq<char>, start: nat, line: nat)
    requires start < |src|
    ensures var e := WordEnd(src, start + 1); var w := src[start..e];
      WordStep(src, start, line) ==
        Emit(Tok(if w in Keywords then KeywordToken(w).value else Identifier(w), w, line), e, line)
  {
    var w := src[start..WordEnd(src, start + 1)];
    if w in Keywords {
      KeywordsAccepted(w);
    }
  }

  /** `Scanner`: the source, the tokens pushed so far, the start of the
      token being scanned, the cursor and the line counter. */
  class Scanner {
    const source: seq<char>
    var tokens: seq<Token>
    var start: nat
    var current: nat
    var line: nat

    ghost predicate Valid()
      reads this
    {
      start <= current <= |source|
    }

    /** `Scanner::new` */
    constructor(s: string)
      ensures Valid()
      ensures source == s && tokens == [] && start == 0 && current == 0 && line == 1
    {
      source := s;
      tokens := [];
      start := 0;
      current := 0;
      line := 1;
    }

    /** `is_at_end` */
    function IsAtEnd(): (b: bool)
      reads this
      ensures b <==> current >= |source|
    {
      current >= |source|
    }

    /** `advance`: reads the character under the cursor and moves past it. */
    method Advance() returns (c: char)
      requires Valid() && current < |source|
      modifies this
      ensures Valid() && tokens == old(tokens) && start == old(start) && line == old(line)
      ensures c == source[old(current)] && current == old(current) + 1
    {
      c := source[current];
      current := current + 1;
    }

    /** `match_advance`: consumes the next character exactly when it is `m`. */
    method MatchAdvance(m: char) returns (b: bool)
      requires Valid()
      modifies this
      ensures Valid()
      ensures tokens == old(tokens) && start == old(start) && line == old(line)
      ensures b <==> old(current) < |source| && source[old(current)] == m
      ensures b ==> current == old(current) + 1
      ensures !b ==> current == old(current)
    {
      if IsAtEnd() {
        return false;
      }
      if source[current] == m {
        current := current + 1;
        return true;
      }
      return false;
    }

    /** `source_substr`: the text of the token being scanned. */
    method SourceSubstr() returns (s: string)
      requires Valid()
      ensures s == source[start..current]
    {
      s := "";
      for i := start to current
        invariant s == source[start..i]
      {
        s := s + [source[i]];
      }
    }

    /** `add_token`: pushes the token being scanned, its text as lexeme and literal. */
    method AddToken(ttype: TokenType)
      requires Valid()
      modifies this
      ensures start == old(start) && current == old(current) && line == old(line)
      ensures tokens == old(tokens) + [Tok(ttype, source[start..current], line)]
    {
      var s := SourceSubstr();
      tokens := tokens + [Token(ttype, s, s, line)];
    }

    /** `scan_string`: the characters up to the closing quote, counting the
        line breaks among them. */
    method ScanString() returns (r: Result<(TokenType, string), string>)
      requires Valid()
      modifies this
      ensures Valid() && start == old(start) && tokens == old(tokens)
      ensures StringEnd(source, old(current)).None? ==> r == Failure("Unterminated string.")
      ensures StringEnd(source, old(current)).Some? ==>
        current == StringEnd(source, old(current)).value + 1 &&
        r == Success((StringLit(source[old(current)..current - 1]), source[old(current)..current - 1])) &&
        line == old(line) + Count(source[old(current)..current - 1], '\n')
    {
      ghost var c0 := current;
      var s := "";
      while true
        invariant start <= c0 <= current <= |source|
        invariant start == old(start) && tokens == old(tokens)
        invariant s == source[c0..current]
        invariant line == old(line) + Count(s, '\n')
        invariant StringEnd(source, c0) == StringEnd(source, current)
        decreases |source| - current
      {
        var closed := MatchAdvance('"');
        if closed {
          assert StringEnd(source, c0) == Some(current - 1);
          break;
        }
        if IsAtEnd() {
          assert StringEnd(source, c0).None?;
          return Failure("Unterminated string.");
        }
        var c := source[current];
        StringBodyStep(source, c0, current, s);
        if c == '\n' {
          line := line + 1;
        }
        s := s + [c];
        current := current + 1;
      }
      r := Success((StringLit(s), s));
    }

    /** `scan_word`: the word runs over letters, digits and underscores; a
        reserved word gets its keyword kind, any other word is an identifier. */
    method ScanWord() returns (r: Result<TokenType, string>)
      requires Valid()
      modifies this
      ensures Valid() && start == old(start) && tokens == old(tokens) && line == old(line)
      ensures current == WordEnd(source, old(current))
      ensures r.Success?
      ensures source[start..current] in Keywords ==> r.value == KeywordToken(source[start..current]).value
      ensures source[start..current] !in Keywords ==> r.value == Identifier(source[start..current])
    {
      while !IsAtEnd() && IsWordChar(source[current])
        invariant Valid() && start == old(start) && tokens == old(tokens) && line == old(line)
        invariant WordEnd(source, old(current)) == WordEnd(source, current)
        decreases |source| - current
      {
        current := current + 1;
      }
      var substr := SourceSubstr();
      if substr in Keywords {
        KeywordsAccepted(substr);
        match KeywordToken(substr)
        case Success(t) => r := Success(t);
        case Failure(e) => r := Failure(e.msg);
      } else {
        r := Success(Identifier(substr));
      }
    }

    /** `scan_number`: the digits, and a `.` with its fraction digits. */
    method ScanNumber() returns (r: Outcome<TokenType>)
      requires Valid()
      modifies this
      ensures Valid() && start == old(start) && tokens == old(tokens) && line == old(line)
      ensures match NumberEnd(source, old(current))
        case Ok(e) => current == e && r == Ok(Number(NumberValue(source[start..e])))
        case Err(msg) => r == Err(msg)
        case Panic => r == Outcome.Panic
    {
      ghost var c0 := current;
      while !IsAtEnd() && IsDigit(source[current])
        invariant Valid() && start == old(start) && tokens == old(tokens) && line == old(line) && c0 <= current
        invariant DigitsEnd(source, c0) == DigitsEnd(source, current)
        decreases |source| - current
      {
        current := current + 1;
      }
      var dot := MatchAdvance('.');
      if dot {
        if IsAtEnd() {
          return Outcome.Panic;
        }
        if !IsDigit(source[current]) {
          return Err("Number has trailing .");
        }
        ghost var f0 := current;
        while true
          invariant Valid() && start == old(start) && tokens == old(tokens) && line == old(line) && f0 <= current
          invariant DigitsEnd(source, f0) == DigitsEnd(source, current)
          decreases |source| - current
        {
          if IsAtEnd() {
            return Outcome.Panic;
          }
          if !IsDigit(source[current]) {
            break;
          }
          current := current + 1;
        }
      }
      var lexeme := SourceSubstr();
      r := Ok(Number(NumberValue(lexeme)));
    }

    /** `scan_token`: scans one token from `start`, pushing it unless it is
        a comment or blank space. */
    method ScanToken() returns (o: Outcome<()>)
      requires Valid() && start == current && current < |source|
      modifies this
      ensures Valid() && start == old(start)
      ensures StepTaken(source, o, ScanStep(source, old(current), old(line)), old(tokens), tokens, current, line)
    {
      var c := Advance();
      if SingleChar(c).Some? {
        AddToken(SingleChar(c).value);
        assert source[start..current] == [c];
        o := Ok(());
      } else if TakesEqual(c) {
        o := ScanOperator();
      } else if c == '/' {
        o := ScanSlash();
      } else if c == '"' {
        o := ScanStringToken();
      } else if IsAlpha(c) {
        o := ScanWordToken();
      } else if IsDigit(c) {
        o := ScanNumberToken();
      } else if c == ' ' || c == '\r' || c == '\t' {
        o := Ok(());
      } else if c == '\n' {
        line := line + 1;
        o := Ok(());
      } else {
        o := Err("Unexpected character.");
      }
    }

    /** The `>`, `<`, `=` and `!` arms of `scan_token`. */
    method ScanOperator() returns (o: Outcome<()>)
      requires Valid() && current == start + 1 && TakesEqual(source[start])
      modifies this
      ensures Valid() && start == old(start)
      ensures StepTaken(source, o, OperatorStep(source, start, old(line)), old(tokens), tokens, current, line)
    {
      var eq := MatchAdvance('=');
      AddToken(OperatorType(source[start], eq));
      o := Ok(());
    }

    /** The `"` arm of `scan_token`: the string is pushed with its text as
        lexeme and literal, on the line the scan has reached. */
    method ScanStringToken() returns (o: Outcome<()>)
      requires Valid() && current == start + 1 && current <= |source|
      modifies this
      ensures Valid() && start == old(start)
      ensures StepTaken(source, o, StringStep(source, start, old(line)), old(tokens), tokens, current, line)
    {
      ghost var l0 := line;
      var res := ScanString();
      StringStepCases(source, start, l0);
      if res.Failure? {
        return Err(res.error);
      }
      var text := res.value.1;
      tokens := tokens + [Token(res.value.0, text, text, line)];
      o := Ok(());
    }

    /** The alphabetic arm of `scan_token`. */
    method ScanWordToken() returns (o: Outcome<()>)
      requires Valid() && current == start + 1 && current <= |source|
      modifies this
      ensures Valid() && start == old(start)
      ensures StepTaken(source, o, WordStep(source, start, old(line)), old(tokens), tokens, current, line)
    {
      ghost var l0 := line;
      var w := ScanWord();
      WordStepCases(source, start, l0);
      // The `?` after `scan_word` never fires: every word it looks up in
      // `keyword_token` is a reserved word.
      AddToken(w.value);
      o := Ok(());
    }

    /** The digit arm of `scan_token`. */
    method ScanNumberToken() returns (o: Outcome<()>)
      requires Valid() && current == start + 1 && current <= |source|
      modifies this
      ensures Valid() && start == old(start)
      ensures StepTaken(source, o, NumberStep(source, start, old(line)), old(tokens), tokens, current, line)
    {
      var n := ScanNumber();
      match n
      case Ok(t) =>
        AddToken(t);
        o := Ok(());
      case Err(msg) => o := Err(msg);
      case Panic => o := Outcome.Panic;
    }

    /** The `/` arm of `scan_token`: a line comment runs to the line break,
        a block comment past its closing star and slash, and a lone `/` is
        the division operator. */
    method ScanSlash() returns (o: Outcome<()>)
      requires Valid() && current == start + 1 && current <= |source|
      modifies this
      ensures Valid() && start == old(start)
      ensures StepTaken(source, o, SlashStep(source, start, old(line)), old(tokens), tokens, current, line)
    {
      var slash := MatchAdvance('/');
      if slash {
        while !(IsAtEnd() || source[current] == '\n')
          invariant Valid() && start == old(start) && tokens == old(tokens) && line == old(line)
          invariant start + 2 <= current
          invariant LineEnd(source, start + 2) == LineEnd(source, current)
          decreases |source| - current
        {
          current := current + 1;
        }
        return Ok(());
      }
      var star := MatchAdvance('*');
      if star {
        o := SkipBlockComment();
        return;
      }
      AddToken(Slash);
      o := Ok(());
    }

    /** The block comment loop of `scan_token`: up to and past the first
        closing star and slash. */
    method SkipBlockComment() returns (o: Outcome<()>)
      requires Valid()
      modifies this
      ensures Valid() && start == old(start) && tokens == old(tokens) && line == old(line)
      ensures match BlockEnd(source, old(current))
        case Closed(k) => o == Ok(()) && current == k + 2
        case Unclosed => o == Err("You must close multiline comments with */")
        case Overrun => o == Outcome.Panic
    {
      while !IsAtEnd()
        invariant Valid() && start == old(start) && tokens == old(tokens) && line == old(line)
        invariant old(current) <= current
        invariant BlockEnd(source, old(current)) == BlockEnd(source, current)
        decreases |source| - current
      {
        if source[current] == '*' {
          // `peek_next` reads past the end when this `*` is the last character.
          if current + 1 == |source| {
            return Outcome.Panic;
          }
          if source[current + 1] == '/' {
            break;
          }
        }
        current := current + 1;
      }
      if IsAtEnd() {
        return Err("You must close multiline comments with */");
      }
      current := current + 2;
      o := Ok(());
    }

    /** `scan_tokens`: scans to the end of the source, pushes `Eof` on the
        last line and hands the tokens over, leaving none behind; the first
        lexical error ends the scan with `LoxError::Scan`. */
    method ScanTokens() returns (r: Scanned)
      requires Valid()
      modifies this
      ensures var run := ScanFrom(source, old(current), old(line));
        match run.status
        case Finished(l) => r == Scanned(old(tokens) + run.pushed + [Token(Eof, "", "", l)]) && tokens == []
        case Failed(_) => r == ScanFailed(LoxErrors.Scan)
        case Panicked => r == ScanPanicked
      ensures old(current) == 0 && old(line) == 1 && old(tokens) == [] ==> r == Scan(source)
    {
      ghost var run0 := ScanFrom(source, current, line);
      ghost var before := tokens;
      while !IsAtEnd()
        invariant Valid()
        invariant ScanFrom(source, current, line).status == run0.status
        invariant before + run0.pushed == tokens + ScanFrom(source, current, line).pushed
        decreases |source| - current
      {
        start := current;
        ghost var t0, c0, l0 := tokens, current, line;
        var o := ScanToken();
        if o.Err? {
          return ScanFailed(LoxErrors.Scan);
        }
        if o.Panic? {
          return ScanPanicked;
        }
        RunStep(source, c0, l0, t0, tokens, current, line);
      }
      tokens := tokens + [Token(Eof, "", "", line)];
      r := Scanned(tokens);
      tokens := [];
    }
  }

  /** A step that succeeds hands the rest of the scan on unchanged: what is
      pushed so far plus what is still to come stays the same. */
  lemma RunStep(src: seq<char>, c0: nat, l0: nat, t0: seq<Token>, tokens: seq<Token>, current: nat, line: nat)
    requires c0 < |src|
    requires StepTaken(src, Ok(()), ScanStep(src, c0, l0), t0, tokens, current, line)
    ensures current <= |src|
    ensures ScanFrom(src, current, line).status == ScanFrom(src, c0, l0).status
    ensures t0 + ScanFrom(src, c0, l0).pushed == tokens + ScanFrom(src, current, line).pushed
  {
    match ScanStep(src, c0, l0)
    case Emit(t, n, l) =>
      assert t0 + ([t] + ScanFrom(src, n, l).pushed) == (t0 + [t]) + ScanFrom(src, n, l).pushed;
    case Skip(n, l) =>
  }
}
