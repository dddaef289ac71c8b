# rlox, modelled in Dafny

This project models the core of rlox, a tree-walking interpreter for the Lox language written in Rust, and proves properties of the model. The repository holds two generations of the interpreter: the current one under `src/` and an older one under `lox-rust/`. It also holds the Python scripts that generate the AST enums. Each core source file has its own module:

- **Generators.** `AstGen` models `codegen/ast_gen.py` and `LegacyAstGen` models `lox-rust/tools/ast_gen.py`. They cover the schema parsing (`Name : Type field, …`), the type mapping, the snake_case constructor names and the `+=` loops that assemble the enum, constructor and `Display` text. `TokenNames` models `lc.py`, which turns UPPER_SNAKE names into CamelCase.
- **Scanners.** `Lexer.Scanner` models `src/scanner.rs`; it aborts on the first lexical error. `LegacyLexer.Scanner` models `lox-rust/src/scanner.rs`, which emits `Error` tokens instead. `LegacyLexer.MainScanTokens` models the copy of that scanner in `lox-rust/src/main.rs`. Each is a class with the cursor fields `start`, `current` and `line` and the token list. Its loops are proved against scanning functions.
- **Parsers.** `Grammar` gives each routine of `src/parser.rs` as a function of the token list and the parser state. That state is the cursor plus the stack of scopes used to compute variable depths. `Parsing.Parser` is the class that moves the cursor and pushes and pops scopes in place; each of its methods is proved to compute the matching `Grammar` function. `GrammarProps` proves what the parser guarantees across calls. `LegacyGrammar` and `LegacyParsing` do the same for the expression ladder of `lox-rust/src/parser.rs`.
- **Environments.** `Envs` models both `environment.rs` files: a chain of scopes with `declare`, `lookup` and `assign`, both as functions on values and as a class.
- **Interpreters.** `Evaluation` gives each routine of `src/interpreter.rs` as a function of the tree and the interpreter state: globals, the chain of local scopes, and the printed lines. `Interp.Interpreter` is the class whose fields those routines reassign; each method is proved to compute the matching function. `EvaluationProps` proves the evaluator's rules. `LegacyInterp` models `lox-rust/src/interpreter.rs`.
- **Values, errors and renderers.** `Objects` and `LegacyObjects` model `Display` of a value and `stringify_cli_result`. `LoxErrors` and `CErrors` model the two error types and their context and location text. `ManStmt`, `LegacyStmt` and `LegacyAst` model the `Display`/`to_string` renderers of statements and expressions.

Modelling conventions:

- A Rust panic is an explicit outcome of the model. This covers an index past the end, `unwrap` on `None` and `unreachable!()`. For example, `fun f(a = 1)` reaches the `unreachable!()` at `src/parser.rs:161`.
- Numbers are exact reals. How a number prints (`{}` and `{:?}` of an `f64`) is a parameter.
- Characters are ASCII, except that the blanks `str.strip()` removes are the whole set of Python's `str.isspace()`.
- Loops that Lox programs write (`while`, `for`) run under a fuel bound. Running out of fuel is a separate outcome, `Exhausted`.

Where the documentation and the code disagree, the model follows the code:

- `codegen/ast_gen.py` fails with an index error on a variant with no fields (`AstGen.EmptyVariantRejected`).
- `interpret` in `lox-rust/src/interpreter.rs` returns `Ok(())` exactly when some statement failed (`LegacyInterp.Verdict`).
- The older interpreter matches `Expr::Variable` and a literal holding an `Object`, which `lox-rust/src/expr.rs` does not declare. `LegacyInterp` takes its expression type from what the interpreter matches.

## Model

| member | source | states |
|---|---|---|
| AstGen.NewField | codegen/ast_gen.py:6-9 | the field keeps its name; its type is the declared type with every `-` turned into `,`, character for character, so no `-` is left |
| AstGen.FieldStrs | codegen/ast_gen.py:11-12 | one `name: type` declaration per field, in field order |
| AstGen.FieldNames | codegen/ast_gen.py:19-20 | the names of the fields, one per field, in order |
| AstGen.VariantStr | codegen/ast_gen.py:22-26 | the loop that appends `str(f) + ', '` and then cuts the last two characters yields the name, ` -> ` and the declarations joined by `, `, with no trailing separator |
| AstGen.FieldWords | codegen/ast_gen.py:29-30 | a fragment yields a (type, name) pair exactly when it holds at least two blanks (otherwise the list index is out of range); the pair is the stripped second and third blank-separated words |
| AstGen.Fieldize | codegen/ast_gen.py:28-30 | succeeds exactly when the fragment holds two blanks; the field's name is the third word and its type the second |
| AstGen.MapAll | codegen/ast_gen.py:34 | `list(map(f, pieces))` succeeds exactly when `f` succeeds on every piece, and then holds their results in order |
| AstGen.ParseFields | codegen/ast_gen.py:32-34 | succeeds exactly when every comma-separated fragment is a field declaration; one field per fragment, in order |
| AstGen.ParseVariant | codegen/ast_gen.py:36-40 | a line without `:` fails with an index error; a parsed variant is named by the stripped text before the first `:` |
| AstGen.FieldizeDecl | codegen/ast_gen.py:28-30 | the fragment ` Type name` built from two schema words parses to the field `name: Type` |
| AstGen.ParseDecls | codegen/ast_gen.py:32-34 | round trip: comma-joined well-formed declarations parse back to exactly the declared fields |
| AstGen.ParseSchemaLine | codegen/ast_gen.py:36-40 | round trip: a schema line `Name : Type field, …` parses back to its name and every declared field, in order |
| AstGen.ParseVariantIgnoresTail | codegen/ast_gen.py:37-39 | text after a second `:` has no effect on the parsed variant |
| AstGen.EmptyVariantRejected | codegen/ast_gen.py:29-30 | a variant declared with no fields (`Name :` or `Name : `) fails with an index error |
| AstGen.NewFnName | codegen/ast_gen.py:42-43 | no capital letter is left in a constructor name |
| AstGen.NewFnNameUnderscoresOnly | codegen/ast_gen.py:42-43 | for a variant name without `_`, deleting the underscores of the constructor name gives the lower-cased variant name: the substitution only inserts `_` |
| AstGen.NewFnNameUnderscoreCount | codegen/ast_gen.py:42-43 | the number of `_` in the constructor name equals the number of capitals after the first character; where each one goes is `NewFnNamePlacement` |
| AstGen.NewFnNamePlacement | codegen/ast_gen.py:42-43 | for a variant name without `_`: the name grows by one character per capital after the first; the character at position j lands, lower-cased, at j plus the number of capitals among positions 1 to j; the character before it is `_` exactly when j > 0 and the character is a capital |
| AstGen.InsertedPlacement | codegen/ast_gen.py:4 | the same placement for the substitution alone, before lower-casing; where no `_` goes, the previous character of the name stands |
| AstGen.InsertedLength | codegen/ast_gen.py:4 | from any position after the first, the substitution adds exactly one character per capital |
| AstGen.InsertedCount | codegen/ast_gen.py:4 | for a name without `_`, the substitution from any position after the first inserts exactly one `_` per capital |
| AstGen.RemoveInserted | codegen/ast_gen.py:4 | for a name without `_`, deleting the underscores of the substitution started at any position gives back the name from that position: it only inserts `_` |
| AstGen.EnumLine | codegen/ast_gen.py:60-61 | every enum line ends with a newline |
| AstGen.EnumEntry | codegen/ast_gen.py:60-61 | an enum line is its entry followed by a newline |
| AstGen.JoinFieldStrs | codegen/ast_gen.py:61 | no fields join to the empty text, one field to its own declaration |
| AstGen.GenSource | codegen/ast_gen.py:45-84 | the generated text is the banner, the prelude, the derived enum with one line per variant, the constructor `impl` with one `pub fn` per variant and the `Display` impl |
| AstGen.SourceText | codegen/ast_gen.py:51-84 | the generated file is at least as long as the banner, all enum lines, all constructors and the `Display` body together, and ends with the `Display` body |
| AstGen.AppendEnumLines | codegen/ast_gen.py:59-61 | the first loop appends one enum line per variant, in schema order |
| AstGen.AppendCtors | codegen/ast_gen.py:66-73 | the second loop appends one constructor per variant, in schema order |
| AstGen.CtorText | codegen/ast_gen.py:67-68 | a constructor starts with `\tpub fn ` followed by `new_fn_name` of the variant |
| AstGen.EnumOneLinePerVariant | codegen/ast_gen.py:57-63 | splitting the enum section at newlines gives one entry per variant, in schema order, followed by the empty remainder |
| LegacyAstGen.RustType | lox-rust/tools/ast_gen.py:9-13 | `Any` becomes `Rc<dyn Any>`, `Expr` becomes `Rc<Expr>`, every other type is kept |
| LegacyAstGen.FieldStrs | lox-rust/tools/ast_gen.py:8-15 | one `name: RustType(type)` declaration per field, in order |
| LegacyAstGen.ExprStr | lox-rust/tools/ast_gen.py:25-29 | the name, ` -> ` and the declarations joined by `, `; with no fields the cut of two characters leaves just the name and ` -> ` |
| LegacyAstGen.Fieldize | lox-rust/tools/ast_gen.py:31-33 | succeeds exactly when the fragment holds two blanks; name from the third word, type from the second, with no `-` rewriting |
| LegacyAstGen.ParseFields | lox-rust/tools/ast_gen.py:35-37 | succeeds exactly when every comma-separated fragment is a declaration; one field per fragment, in order |
| LegacyAstGen.ParseExpr | lox-rust/tools/ast_gen.py:39-43 | a line without `:` fails; the name is the stripped text before the first `:` |
| LegacyAstGen.ParseDecls | lox-rust/tools/ast_gen.py:35-37 | round trip: comma-joined well-formed declarations parse back to the declared fields |
| LegacyAstGen.ParseSchemaLine | lox-rust/tools/ast_gen.py:39-43 | round trip: a schema line parses back to its name and declared fields |
| LegacyAstGen.CtorName | lox-rust/tools/ast_gen.py:60 | the constructor name is the variant name lower-cased character by character: same length, no capitals, and an `_` exactly where the name has one |
| LegacyAstGen.GenExprSource | lox-rust/tools/ast_gen.py:50-65 | the output is the enum with one line per variant and the `impl` with one `Rc`-returning constructor per variant, in order |
| TokenNames.Capitalized | lc.py:20-21 | each part capitalized, one per part, in order |
| TokenNames.Lc | lc.py:11-22 | the marker `\|` becomes a newline; a piece that is blank once stripped becomes nothing; any other piece becomes its `_`-separated parts, each capitalized, followed by `, ` |
| TokenNames.LcText | lc.py:11-22 | the result is a newline exactly for the marker `\|`, empty exactly for a blank piece, and otherwise a name followed by `, `; up to letter case that name is the stripped piece without its underscores |
| TokenNames.Expand | lc.py:4 | no newline is left once every newline is replaced by `,\|,` |
| TokenNames.Lcs | lc.py:3-9 | the loop yields the conversion of every comma-separated piece of the marked list, concatenated in order |
| TokenNames.ExpandAppend | lc.py:4 | the replacement works piecewise: expanding a concatenation is concatenating the expansions |
| TokenNames.LcsNewline | lc.py:3-9 | a newline in the token list becomes exactly one newline in the output, with the text on either side converted independently |
| TokenNames.ExpandNewline | lc.py:4-5 | a newline of the input splits into the separate piece `\|` between the pieces of the two sides |
| TokenNames.LcTextsBar | lc.py:7-13 | the converted pieces around a `\|` piece are joined by exactly one newline |
| TokenNames.LowerCapitalize | lc.py:21 | capitalizing changes only letter case |
| TokenNames.Camel | lc.py:18-21 | up to letter case, the CamelCase name is the token name with its underscores removed |
| TokenNames.CamelParts | lc.py:18-21 | up to letter case, capitalizing and joining the `_`-separated parts drops only the underscores |
| TokenNames.CamelCapitalizesParts | lc.py:20-21 | every part that starts with a letter starts with a capital in the output |
| Text.Strip | codegen/ast_gen.py:30 | `str.strip()`: the result is a slice of the input with only `str.isspace()` characters (`\x1c` to `\x1f` included) before and after it, and it neither starts nor ends with one |
| Text.StripLeft | codegen/ast_gen.py:30 | the leading part of `str.strip()`: a suffix of the input, everything removed is blank, and it does not start with a blank |
| Text.StripRight | codegen/ast_gen.py:30 | the trailing part of `str.strip()`: a prefix of the input, everything removed is blank, and it does not end with a blank |
| Text.SliceBetweenBlanks | codegen/ast_gen.py:30 | a prefix of a suffix of the input is a slice of it, and when both cuts removed only blanks the input is blank before and after that slice |
| Text.Split | codegen/ast_gen.py:29 | `str.split(sep)`: one more piece than there are separators, and no piece holds the separator |
| Tokens.KindDebug | src/token.rs:25-47 | `{:?}` of a kind: never empty, and it ends with `)` exactly for the kinds that carry a payload |
| TokenNames.ScriptOutput | lc.py:49 | the printed text has the converted list's length and no `\|` left in it |
| Lexer.KeywordToken | src/scanner.rs:178-199 | the only error `keyword_token` raises says "Invalid keyword!" |
| Lexer.KeywordsAccepted | src/scanner.rs:6-8 | every one of the 17 reserved words gets its own keyword kind, never an identifier and never `Eof` |
| Lexer.OnlyKeywordsAccepted | src/scanner.rs:178-199 | any other word is rejected with an error |
| Lexer.LineEnd | src/scanner.rs:96 | a `//` comment stops at the first line break after it, or at the end of the source, and crosses no line break |
| Lexer.WordEnd | src/scanner.rs:140-142 | a word runs over letters, digits and `_` and stops at the first other character |
| Lexer.DigitsEnd | src/scanner.rs:152-154 | a run of digits stops at the first non-digit |
| Lexer.StringEnd | src/scanner.rs:129-135 | when found, the end of a string body is a `"` inside the source |
| Lexer.StringEndFirst | src/scanner.rs:129-135 | the end found is the first `"`; when none is found the rest of the source holds no `"` |
| Lexer.BlockEnd | src/scanner.rs:99-106 | a closed block comment ends at the first `*` followed by `/`; the search ends unclosed exactly when no `*/` is left and the source does not end in `*`; an overrun (reading past the end) happens only when the source ends in `*` with no `*/` before it |
| Lexer.Pow10 | src/scanner.rs:161 | powers of ten are positive, so a fraction's value is well defined |
| Lexer.NumberEnd | src/scanner.rs:151-160 | a number stops after digits and at most one `.` with its fraction, or fails with "Number has trailing ." |
| Lexer.ScanStep | src/scanner.rs:69-125 | a step that emits or skips moves the cursor forward and stays inside the source |
| Lexer.OperatorStep | src/scanner.rs:82-93 | `>`, `<`, `=` and `!` always emit a token and move forward |
| Lexer.SlashStep | src/scanner.rs:94-111 | the `/` arm moves forward when it emits or skips |
| Lexer.StringStep | src/scanner.rs:112-116 | the `"` arm moves forward when it emits |
| Lexer.WordStep | src/scanner.rs:117 | the word arm moves forward |
| Lexer.NumberStep | src/scanner.rs:118 | the number arm moves forward when it emits |
| Lexer.StepNotEof | src/scanner.rs:69-125 | `scan_token` never pushes an `Eof` token |
| Lexer.RunNoEof | src/scanner.rs:28-31 | the scan loop pushes no `Eof` token |
| Lexer.ScanEndsWithEof | src/scanner.rs:27-35 | a successful scan ends with exactly one `Eof` token, with empty lexeme and literal, on the line where scanning stopped, and no other `Eof` before it |
| Lexer.MaximalMunch | src/scanner.rs:82-93 | `>`, `<`, `=` and `!` take a following `=` into a two-character token, and otherwise form a one-character token |
| Lexer.LineComment | src/scanner.rs:95-97 | a `//` comment emits nothing, keeps the line, and stops at the next line break, which it does not consume |
| Lexer.BlockComment | src/scanner.rs:98-107 | a block comment emits nothing; it ends right after the first `*/`, with no `*/` between its opening and its end; it fails with "You must close multiline comments with */" exactly when no `*/` follows the opening and the source does not end in `*`; it panics only when the source ends in `*` with no `*/` before it |
| Lexer.StringLiteral | src/scanner.rs:112-137 | a string token is emitted exactly when a closing quote follows; its lexeme and literal are the characters between the quotes, the line advances by the newlines inside and the token carries the line where it ends; otherwise it fails with "Unterminated string." |
| Lexer.Word | src/scanner.rs:139-149 | a word extends to the end of its letters, digits and underscores; it is its keyword kind when it is a reserved word and an identifier otherwise |
| Lexer.TrailingDot | src/scanner.rs:155-156 | a `.` after the digits that is not followed by a digit fails with "Number has trailing ." |
| Lexer.FractionAtEnd | src/scanner.rs:157-159 | a fraction whose digits run to the end of the source reads past the end and panics |
| Lexer.Scanner.constructor | src/scanner.rs:19-25 | a new scanner holds the source, no tokens, both cursors at 0 and line 1 |
| Lexer.Scanner.IsAtEnd | src/scanner.rs:37-39 | at the end exactly when the cursor is at or past the source's length |
| Lexer.Scanner.Advance | src/scanner.rs:41-45 | returns the character under the cursor and moves the cursor by one; nothing else changes |
| Lexer.Scanner.MatchAdvance | src/scanner.rs:55-63 | consumes the next character exactly when there is one and it is the one asked for, and reports whether it did |
| Lexer.Scanner.SourceSubstr | src/scanner.rs:170-176 | the characters from `start` up to the cursor |
| Lexer.Scanner.AddToken | src/scanner.rs:165-168 | pushes one token whose lexeme and literal are the scanned text, on the current line |
| Lexer.Scanner.ScanString | src/scanner.rs:127-137 | without a closing quote the result is "Unterminated string."; otherwise the cursor is past the closing quote, the token text is the body and the line counts its newlines |
| Lexer.Scanner.ScanWord | src/scanner.rs:139-149 | the cursor stops at the end of the word; the kind is the keyword's for a reserved word and an identifier otherwise |
| Lexer.Scanner.ScanNumber | src/scanner.rs:151-163 | moves to where `NumberEnd` says and yields the exact value of the lexeme, or the trailing-dot error, or a panic |
| Lexer.Scanner.ScanToken | src/scanner.rs:69-125 | does exactly what the step function `ScanStep` says: the token pushed, the cursor, the line and the error |
| Lexer.Scanner.ScanOperator | src/scanner.rs:82-93 | the operator arms, as `OperatorStep` says |
| Lexer.Scanner.ScanStringToken | src/scanner.rs:112-116 | the string arm, as `StringStep` says |
| Lexer.Scanner.ScanWordToken | src/scanner.rs:117 | the word arm, as `WordStep` says |
| Lexer.Scanner.ScanNumberToken | src/scanner.rs:118 | the digit arm, as `NumberStep` says |
| Lexer.Scanner.ScanSlash | src/scanner.rs:94-111 | the `/` arm, as `SlashStep` says |
| Lexer.Scanner.SkipBlockComment | src/scanner.rs:99-107 | the loop agrees with `BlockEnd`: it stops right after the first `*/`, fails with the unclosed-comment message exactly when none is left, or panics on a final `*` |
| Lexer.Scanner.ScanTokens | src/scanner.rs:27-35 | the tokens of the whole source followed by `Eof` on the final line, a scan error, or a panic, as the loop `ScanFrom` says; from a fresh scanner this is `Scan(source)` |
| Lexer.RunStep | src/scanner.rs:28-31 | one successful step hands the rest of the scan on unchanged: the tokens pushed so far plus those still to come are the same |
| Lexer.ScanFrom | src/scanner.rs:28-31 | the loop pushes at most one token per character left in the source |
| Lexer.Scan | src/scanner.rs:27-35 | a successful scan holds at least one token and at most one more than the source has characters, and its last token is `Eof`; the empty source scans to `Eof` alone on line 1 |
| LegacyLexer.KeywordToken | lox-rust/src/scanner.rs:147-167 | a word gets a keyword kind exactly when it is one of the 16 reserved words, and the `Error` kind otherwise |
| LegacyLexer.KeywordsWithoutElif | lox-rust/src/scanner.rs:6-8 | the 16 reserved words are the current scanner's 17 without `elif` |
| LegacyLexer.KeywordsAgree | lox-rust/src/scanner.rs:147-167 | on a shared reserved word both generations yield the same kind |
| LegacyLexer.SlashStep | lox-rust/src/scanner.rs:87-93 | the `/` arm moves forward when it emits or skips |
| LegacyLexer.StringStep | lox-rust/src/scanner.rs:94-110 | the `"` arm moves forward when it emits |
| LegacyLexer.WordStep | lox-rust/src/scanner.rs:95 | the word arm moves forward |
| LegacyLexer.NumberStep | lox-rust/src/scanner.rs:96 | the digit arm moves forward when it emits |
| LegacyLexer.ScanStep | lox-rust/src/scanner.rs:62-102 | a step that emits or skips moves the cursor forward and stays inside the source |
| LegacyLexer.StepNeverFails | lox-rust/src/scanner.rs:99-129 | no step stops the scan with an error: lexical errors become tokens |
| LegacyLexer.RunNeverFails | lox-rust/src/scanner.rs:28-33 | the scan loop never stops on an error and pushes no `Eof` |
| LegacyLexer.StepNotEof | lox-rust/src/scanner.rs:62-102 | `scan_token` never pushes `Eof` |
| LegacyLexer.ScanEndsWithEof | lox-rust/src/scanner.rs:28-36 | unless it reads past the end, a scan returns its tokens followed by exactly one `Eof` with empty lexeme and literal on the final line |
| LegacyLexer.UnexpectedCharacter | lox-rust/src/scanner.rs:99 | an unexpected character becomes a one-character `Error` token and the scan goes on after it |
| LegacyLexer.StringLiteral | lox-rust/src/scanner.rs:104-110 | a string token always comes out on the line where it starts; closed, its kind carries the text between the quotes and its lexeme keeps the quotes; unclosed, it is an `Error` token running to the end of the source |
| LegacyLexer.TrailingDot | lox-rust/src/scanner.rs:128-129 | a `.` not followed by a digit ends an `Error` token that includes the `.` |
| LegacyLexer.CommentAtEnd | lox-rust/src/scanner.rs:89 | a `//` comment without a line break after it reads past the end (the loop peeks before testing the end) |
| LegacyLexer.ElifIsIdentifier | lox-rust/src/scanner.rs:117-121 | `elif` is an ordinary identifier |
| LegacyLexer.AgreesWithCurrent | lox-rust/src/scanner.rs:62-102 | on single characters, operators, numbers and words other than `elif`, the older step is the current scanner's step |
| LegacyLexer.Scanner.constructor | lox-rust/src/scanner.rs:20-26 | a new scanner holds the source, no tokens, both cursors at 0 and line 1 |
| LegacyLexer.Scanner.IsAtEnd | lox-rust/src/scanner.rs:38-40 | at the end exactly when the cursor is at or past the source's length |
| LegacyLexer.Scanner.Advance | lox-rust/src/scanner.rs:42-46 | returns the character under the cursor and moves past it; nothing else changes |
| LegacyLexer.Scanner.MatchAdvance | lox-rust/src/scanner.rs:52-60 | consumes the next character exactly when there is one and it is the one asked for |
| LegacyLexer.Scanner.AddToken | lox-rust/src/scanner.rs:138-141 | pushes one token whose lexeme and literal are the source from `start` to the cursor, on the current line |
| LegacyLexer.Scanner.ScanString | lox-rust/src/scanner.rs:104-110 | with a closing quote the kind carries the text between the quotes and the cursor is past it; without one the kind is `Error` and the cursor is at the end; the line never changes |
| LegacyLexer.Scanner.ScanWord | lox-rust/src/scanner.rs:112-122 | the cursor stops at the end of the word; a reserved word gets its (non-`Error`) keyword kind, any other word is an identifier |
| LegacyLexer.Scanner.ScanNumber | lox-rust/src/scanner.rs:124-136 | the exact value of the number lexeme, or an `Error` kind right after a trailing `.`, or a panic when it reads past the end |
| LegacyLexer.Scanner.ScanToken | lox-rust/src/scanner.rs:62-102 | does exactly what `ScanStep` says: the token pushed, the cursor and the line |
| LegacyLexer.Scanner.ScanSlash | lox-rust/src/scanner.rs:87-93 | the `/` arm, as `SlashStep` says |
| LegacyLexer.Scanner.ScanStringToken | lox-rust/src/scanner.rs:94 | the `"` arm, as `StringStep` says |
| LegacyLexer.Scanner.ScanNumberToken | lox-rust/src/scanner.rs:96 | the digit arm, as `NumberStep` says |
| LegacyLexer.Scanner.ScanTokens | lox-rust/src/scanner.rs:28-36 | the tokens of the whole source followed by `Eof` on the final line, or nothing when the scan reads past the end; the buffer is left empty; from a fresh scanner this is `Scan(source)` |
| LegacyLexer.RunStep | lox-rust/src/scanner.rs:29-32 | one step hands the rest of the scan on unchanged |
| LegacyLexer.ScanFrom | lox-rust/src/scanner.rs:29-32 | the loop pushes at most one token per character left in the source |
| LegacyLexer.Scan | lox-rust/src/scanner.rs:28-36 | a scan that does not read past the end holds at least one token and at most one more than the source has characters, and its last token is `Eof`; the empty source scans to `Eof` alone on line 1 |
| LegacyLexer.MainScanTokens | lox-rust/src/main.rs:93-110 | the copy of the scanner yields the older scanner's tokens with the literal dropped |
| LegacyLexer.MainScan | lox-rust/src/main.rs:93-110 | the copy succeeds exactly when the older scanner does, with as many tokens, each of the same kind, lexeme and line |
| LegacyLexer.MainScanEndsWithEof | lox-rust/src/main.rs:102-110 | the copy's tokens end with exactly one `Eof` with an empty lexeme on the final line |
| Objects.Display | src/object.rs:16-27 | `Nil` shows as "nil", a string as itself, a boolean as "true" or "false" |
| Objects.CalleeText | src/function.rs:50-52 | a callable prints between `<` and `>`: exactly `<native fn>` for a built-in, and `<fn ` then the name for a user function, so the name can be read back |
| Objects.TrimPointZero | src/object.rs:31-35 | the result is a prefix of its input; it is the input exactly when the input does not end in ".0", and otherwise two characters shorter |
| Objects.StringifyCliResult | src/object.rs:29-36 | a prefix of the display text, equal to it exactly when the display text does not end in ".0" |
| Objects.StringTrimmed | src/object.rs:21-32 | the trimming applies to strings as well: `Str(s + ".0")` prints as `s` |
| Objects.TrimTwice | src/object.rs:31-32 | one call removes one ".0" and no more |
| LegacyObjects.Display | lox-rust/src/object.rs:12-23 | `Nil` shows as "nil", a string between double quotes, a boolean as "true" or "false" |
| LegacyObjects.StringifyCliResult | lox-rust/src/object.rs:25-32 | a prefix of the display text, equal to it exactly when the display text does not end in ".0" |
| LegacyObjects.StringsUntrimmed | lox-rust/src/object.rs:17-27 | a string result is never trimmed, since its display ends with a quote |
| LoxErrors.Scerror | src/lox_error.rs:23-26 | the scan error carries the message unchanged |
| LoxErrors.Perror | src/lox_error.rs:28-33 | the parse error carries the message unchanged |
| LoxErrors.LocationFor | src/lox_error.rs:35-41 | "at end" for the `Eof` token, and "at '" + lexeme + "'" for any other token |
| LoxErrors.LocationEndIffEof | src/lox_error.rs:35-41 | the location reads "at end" exactly for the `Eof` token: no lexeme can produce it |
| LoxErrors.New | src/lox_error.rs:92-94 | a runtime error carrying the message unchanged |
| LoxErrors.NewWithContext | src/lox_error.rs:96-100 | a runtime error whose message is the context line of `ContextLine`, then ": " and the original message |
| LoxErrors.ContextLine | src/lox_error.rs:111 | the context line is "[line ", then the line number in digits, then "] Error at ", then the expression text, each at its stated position |
| LoxErrors.NewReturn | src/lox_error.rs:102-104 | a `Return` carrying the object |
| LoxErrors.WithContext | src/lox_error.rs:106-115 | a `Return` is left as it is; a runtime message is kept as a prefix and continued by a line break and the context line of `ContextLine` |
| LoxErrors.WithContextNotIdempotent | src/lox_error.rs:109-113 | adding context twice differs from adding it once |
| LoxErrors.WithContextAddsOneLine | src/lox_error.rs:111 | each call adds exactly one line break to a runtime message (for an expression text without line breaks) |
| LoxErrors.ContextLineUnbroken | src/lox_error.rs:111 | the context text itself holds no line break |
| LoxErrors.Display | src/lox_error.rs:127-134 | a runtime error shows as its message; a `Return` as "Return " and the object |
| CErrors.Scerror | src/cerror.rs:12-15 | the scanner error carries the message unchanged |
| CErrors.Perror | src/cerror.rs:17-23 | the parse error carries the message unchanged |
| CErrors.New | src/cerror.rs:94-96 | an error without context carrying the message |
| CErrors.NewEverror | src/cerror.rs:99-104 | an error with context: the token's line, the expression text as location, the token, and the message |
| CErrors.AddContext | src/cerror.rs:107-114 | the result always has context; one that had it is returned unchanged; one that had none takes its line, location and token from the call |
| CErrors.AddContextKeepsMsg | src/cerror.rs:107-125 | adding context keeps the message |
| CErrors.AddContextIdempotent | src/cerror.rs:107-114 | adding context a second time, with any token and text, changes nothing |
| CErrors.Display | src/cerror.rs:130-134 | "Evaluation error: " followed by the message |
| CErrors.GetMsg | src/cerror.rs:116-125 | the message the error carries, with or without context |
| CErrors.DisplayMsg | src/cerror.rs:130-134 | the message can be read back from the displayed text |
| Envs.Innermost | src/environment.rs:38-49 | the position of the innermost scope that binds the name: it binds it and no scope inside it does; none when no scope binds it |
| Envs.UndefinedMessage | src/environment.rs:46 | the message holds the name at a fixed place: after "Undefined variable '" and before "'." (in lox-rust/src/environment.rs:36, after "Variable " and before " has not been declared!") |
| Envs.ChainLookup | src/environment.rs:38-49 | the value from the innermost scope binding the name; otherwise "Undefined variable 'name'." (in lox-rust/src/environment.rs:28-39, "Variable name has not been declared!") |
| Envs.ChainAssign | src/environment.rs:51-65 | overwrites the name in the innermost scope that binds it and changes no other scope; fails with the undefined-variable message when no scope binds it, never creating a binding |
| Envs.LookupAfterDeclare | src/environment.rs:33-41 | a lookup right after a declaration returns the declared value |
| Envs.LookupAfterAssign | src/environment.rs:51-65 | a lookup right after a successful assignment returns the assigned value |
| Envs.AssignKeepsOthers | src/environment.rs:51-65 | an assignment keeps the number of scopes and every scope's set of names, and leaves every other name's lookup unchanged |
| Envs.Environment.constructor | src/environment.rs:14-16 | a single empty scope with no outer environment |
| Envs.Environment.FromOuter | src/environment.rs:18-20 | a new empty scope in front of the outer environment's chain |
| Envs.Environment.AddScope | src/environment.rs:22-24 | a fresh environment whose outer is the given one, adding one empty scope to the chain |
| Envs.Environment.RemoveScope | src/environment.rs:26-31 | the outer environment, or the error "Tried to remove non-existent scope from environment!" when there is none; together with `AddScope` this gives back the original |
| Envs.Environment.Declare | src/environment.rs:33-36 | inserts or overwrites the name in the innermost map only, and always succeeds |
| Envs.Environment.Lookup | src/environment.rs:38-49 | the recursive walk returns what `ChainLookup` says of the chain |
| Envs.Environment.Assign | src/environment.rs:51-65 | the chain after the call is what `ChainAssign` says, or unchanged with its error; the outer link taken and restored is the same object |
| LegacyAst.TokenText | lox-rust/src/token.rs:15-17 | the kind's `{:?}` form, then the lexeme in `{:?}` quotes |
| LegacyAst.Parens | lox-rust/src/expr.rs:34-36 | starts with `("` and ends with `" )`, around both operands |
| LegacyAst.ParensPlain | lox-rust/src/expr.rs:34-36 | operands free of quotes, backslashes and control characters appear verbatim: `("l" "r" )` |
| LegacyAst.ToString | lox-rust/src/expr.rs:38-51 | a literal prints verbatim; a binary expression starts with its operator token's text and ends with the closing `" )`; a unary one starts with `("` and its operator kind |
| LegacyAst.StripGroupings | lox-rust/src/expr.rs:45 | no grouping is left at the top of the expression |
| LegacyAst.GroupingInvisible | lox-rust/src/expr.rs:45 | a grouping prints exactly as its inner expression, however deeply nested |
| LegacyGrammar.Consume | lox-rust/src/parser.rs:63-70 | succeeds and moves one token on exactly when the next token has the expected kind; otherwise stays put, and reads past the end (a panic) exactly when no token is left |
| LegacyGrammar.Expression | lox-rust/src/parser.rs:72-74 | never moves back; a parsed expression consumed at least one token |
| LegacyGrammar.BinaryLevel | lox-rust/src/parser.rs:76-119 | each binary level never moves back and consumes at least one token on success |
| LegacyGrammar.Operand | lox-rust/src/parser.rs:77 | the operand of a level is the next higher level (equality → comparison → term → factor → unary) |
| LegacyGrammar.LevelRest | lox-rust/src/parser.rs:79-84 | the `while` loop of a level never moves back |
| LegacyGrammar.Unary | lox-rust/src/parser.rs:121-129 | never moves back; a parsed unary consumed at least one token |
| LegacyGrammar.Primary | lox-rust/src/parser.rs:131-151 | never moves back; a parsed primary consumed at least one token |
| LegacyGrammar.Matches | lox-rust/src/parser.rs:46-61 | `check` and `match_advance` test the next token exactly as `Grammar.Check` does in the current parser |
| LegacyGrammar.Parse | lox-rust/src/parser.rs:20-22 | an empty token list, and a list holding only `Eof`, panic |
| LegacyGrammar.LevelRestFoldsLeft | lox-rust/src/parser.rs:79-84 | a chain of operators of one level builds a left-nested tree: each new operand becomes the right child of a new node above everything so far |
| LegacyGrammar.ThreeOperands | lox-rust/src/parser.rs:99-108 | `a - b - c` parses as `(a - b) - c` |
| LegacyGrammar.MissingParenStillGroups | lox-rust/src/parser.rs:142-146 | a `(` whose `)` is missing still yields the grouping, and the failed `consume` leaves the cursor where it was |
| LegacyGrammar.ClosedParenGroups | lox-rust/src/parser.rs:142-146 | a closed `( e )` yields the grouping of `e` and moves past the `)` |
| LegacyGrammar.LiteralText | lox-rust/src/parser.rs:136-141 | a number or string literal carries the token's literal text |
| LegacyGrammar.SingleLiteral | lox-rust/src/parser.rs:136-141 | a literal followed by a non-operator is parsed as that literal alone (`false`, `true` and `nil` as their names) |
| LegacyGrammar.TrailingIgnored | lox-rust/src/parser.rs:20-22 | tokens after the parsed expression are never looked at |
| LegacyGrammar.EofPanics | lox-rust/src/parser.rs:147-149 | meeting `Eof` where a primary is expected reads past the end of the tokens (a panic) |
| LegacyGrammar.ExhaustedPanics | lox-rust/src/parser.rs:132-133 | with no token left the check reads past the end (a panic) instead of reporting "Expected primary!" |
| LegacyGrammar.DanglingOperatorPanics | lox-rust/src/parser.rs:131-151 | `1 +` followed by `Eof` panics |
| LegacyParsing.Parser.constructor | lox-rust/src/parser.rs:15-18 | the parser holds the tokens with the cursor at 0 |
| LegacyParsing.Parser.Parse | lox-rust/src/parser.rs:20-22 | the result and the new cursor are those of `Expression` |
| LegacyParsing.Parser.MatchAdvance | lox-rust/src/parser.rs:46-56 | false at the end; true exactly when the next token has one of the kinds, and then the cursor moves by exactly one |
| LegacyParsing.Parser.Check | lox-rust/src/parser.rs:58-61 | false at the end; otherwise whether the next token has the kind; the cursor stays |
| LegacyParsing.Parser.Consume | lox-rust/src/parser.rs:63-70 | result and cursor as `LegacyGrammar.Consume` says |
| LegacyParsing.Parser.Expression | lox-rust/src/parser.rs:72-74 | result and cursor as `LegacyGrammar.Expression` says |
| LegacyParsing.Parser.BinaryLevel | lox-rust/src/parser.rs:76-119 | the loop that rebinds `expr` yields what `LegacyGrammar.BinaryLevel` says, result and cursor |
| LegacyParsing.Parser.Operand | lox-rust/src/parser.rs:77 | result and cursor as `LegacyGrammar.Operand` says |
| LegacyParsing.Parser.Unary | lox-rust/src/parser.rs:121-129 | result and cursor as `LegacyGrammar.Unary` says |
| LegacyParsing.Parser.Primary | lox-rust/src/parser.rs:131-151 | result and cursor as `LegacyGrammar.Primary` says |
| LegacyParsing.ParseTokens | lox-rust/src/parser.rs:15-22 | `Parser::new(tokens).parse()` yields `LegacyGrammar.Parse(tokens)` |
| Grammar.ErrAtPeek | src/parser.rs:267-273 | an error raised at the next token leaves the state as it was |
| Grammar.Advance | src/parser.rs:279-286 | hands out the next token and moves past it exactly when one is left; otherwise fails with "advance() Expected another token!" and changes nothing |
| Grammar.Consume | src/parser.rs:315-322 | succeeds exactly when the next token has the expected kind, and then moves past it; otherwise an error, with the state unchanged |
| Grammar.Next | src/parser.rs:279-286 | moving past a token advances the cursor by one and keeps the scope stack |
| Grammar.Check | src/parser.rs:294-298 | false past the end and for an empty set of kinds |
| Grammar.CheckIdentifier | src/parser.rs:304-313 | true only in front of a token, which is then not `Eof` |
| Grammar.Peek | src/parser.rs:267-273 | yields a token exactly when `advance` would, and the same one; otherwise "peek() Expected another token!" |
| Grammar.Pop | src/parser.rs:100 | removes the innermost scope; popping an empty stack leaves it empty |
| Grammar.SetVar | src/parser.rs:502-515 | never moves the cursor nor changes the number of scopes; defining an identifier always succeeds |
| Grammar.MarkDefined | src/parser.rs:520-525 | every scope that holds the name marks it defined; every other scope is unchanged |
| Grammar.AssignVar | src/parser.rs:517-530 | never moves the cursor nor changes the number of scopes |
| Grammar.Depth | src/parser.rs:534-540 | a depth found is below the number of scopes and counts outwards from the innermost scope to one that holds the name |
| Grammar.DepthFor | src/parser.rs:532-544 | succeeds exactly on an identifier, otherwise "Expect identifier."; a depth found names a scope that holds the identifier |
| Grammar.SkipBraces | src/parser.rs:553-559 | moves forward, never changes the scopes, and on success has taken at least one token |
| Grammar.SyncLoop | src/parser.rs:552-571 | stops only after a `;` or in front of a statement keyword or `Eof`; never changes the scopes |
| Grammar.Synchronize | src/parser.rs:548-572 | in front of `Eof` it does nothing; otherwise it moves forward and, on success, stops after a `;` or in front of one of `Eof class fun var for if while print return` |
| Grammar.Expression | src/parser.rs:328-330 | never moves back and never changes the number of scopes; a parsed expression consumed tokens, assigns only to variables and has no call with 255 arguments or more |
| Grammar.BinaryLevel | src/parser.rs:332-412 | the same for every binary level (`or`, `and`, equality, comparison, term, factor) |
| Grammar.Operand | src/parser.rs:333-337 | the same for the operand of a level: the next level up, with `assignment` below `and` and `unary` below factor |
| Grammar.LevelRest | src/parser.rs:335-340 | the `while` loop of a level never moves back and builds well-formed expressions |
| Grammar.Assignment | src/parser.rs:354-367 | never moves back; on success the result assigns only to a variable |
| Grammar.Unary | src/parser.rs:414-422 | never moves back; on success it consumed tokens and is well formed |
| Grammar.Call | src/parser.rs:424-435 | never moves back; on success it consumed tokens and is well formed |
| Grammar.CallRest | src/parser.rs:427-433 | the call loop never moves back and keeps the callee well formed |
| Grammar.BuildCall | src/parser.rs:437-448 | on success it consumed the `)` and the call is well formed |
| Grammar.CallArgs | src/parser.rs:450-461 | on success there are between 1 and 254 arguments |
| Grammar.ArgsLoop | src/parser.rs:452-455 | the argument loop only appends, keeping the arguments already read as a prefix |
| Grammar.Primary | src/parser.rs:463-492 | never moves back; on success it consumed a token and is well formed |
| Grammar.Declaration | src/parser.rs:48-56 | on success it moved forward and the scope stack has its old height; a `return` is produced only inside a scope |
| Grammar.Statement | src/parser.rs:58-74 | the same for every statement form |
| Grammar.Block | src/parser.rs:76-107 | with the corrected block loop: on success a `Block`, with the scope stack back to its old height |
| Grammar.BracedBlock | src/parser.rs:81-95 | with the corrected block loop: on success a `Block` after the braces, with the scope stack back to its old height |
| Grammar.BlockLoop | src/parser.rs:82-95 | the corrected loop keeps the statements already collected as a prefix of its result, a failure stays recorded, and a loop that did not fail leaves the scope stack at its old height |
| Grammar.ForStatement | src/parser.rs:109-140 | on success a `For`, with the scope stack back to its old height |
| Grammar.ForClauses | src/parser.rs:120-136 | the condition and increment parts are well formed when present |
| Grammar.ForInit | src/parser.rs:112-119 | the initialiser, when present, is a well-formed declaration or statement |
| Grammar.ForCondition | src/parser.rs:120-126 | on success the last token taken is the `;` |
| Grammar.ForIncrement | src/parser.rs:127-136 | on success the last token taken is the `)`, and an increment is present only when it starts with an identifier |
| Grammar.FunStatement | src/parser.rs:142-184 | on success a `Fun` with fewer than 255 parameters, depth `None` exactly at the top level, and the scope stack back to its old height |
| Grammar.FunParams | src/parser.rs:151-171 | on success fewer than 255 parameters |
| Grammar.ParamsLoop | src/parser.rs:153-167 | the parameter loop only adds parameters |
| Grammar.VarStatement | src/parser.rs:186-215 | on success a `VarDecl`, with the scope stack's height unchanged |
| Grammar.PrintStatement | src/parser.rs:217-221 | on success a `Print` |
| Grammar.IfStatement | src/parser.rs:223-239 | on success an `If` |
| Grammar.IfLoop | src/parser.rs:226-233 | the `elif` loop only appends (condition, block) pairs, keeping the earlier ones as a prefix |
| Grammar.WhileStatement | src/parser.rs:241-247 | on success a `While` |
| Grammar.ReturnStatement | src/parser.rs:249-259 | with no local scope it fails with "Can't return from top-level code." and takes no token; a bare `return;` gives `Return(nil)` and takes the `;`; on success the statement is a well-formed `Return` |
| Grammar.ExprStatement | src/parser.rs:261-265 | on success an `ExprStmt` |
| Grammar.ParseLoop | src/parser.rs:29-40 | never ends in a parse error: it collects well-formed statements, keeping those already collected as a prefix, or panics; a failure stays recorded |
| Grammar.Parse | src/parser.rs:26-46 | a parsed program holds only well-formed statements; an empty token list panics in the `unwrap`; a list that starts with `Eof` is the empty program |
| GrammarProps.LevelRestFoldsLeft | src/parser.rs:332-341 | a binary level's loop folds to the left: each operator combines everything read before it with the operand after it |
| GrammarProps.ThreeOperands | src/parser.rs:392-401 | `a - b - c` (at any level) parses as `(a - b) - c` |
| GrammarProps.InvalidAssignmentTarget | src/parser.rs:354-367 | an `=` after anything but a variable fails with "Invalid assignment target." after taking the `=` |
| GrammarProps.NoTopLevelReturn | src/parser.rs:29-40 | a parse that did not fail has no `return` among its top-level statements |
| GrammarProps.ParsedProgram | src/parser.rs:26-46 | every statement of a parsed program is well formed (only variables assigned, fewer than 255 arguments and parameters) and none is a top-level `return` |
| GrammarProps.FailedDeclarationFailsParse | src/parser.rs:41-45 | a first declaration that fails makes the whole parse fail, although the parse goes on after it |
| GrammarProps.DepthInnermost | src/parser.rs:532-544 | `depth_for` gives `d` exactly when the scope `d` levels out from the innermost holds the name and no scope nearer does |
| GrammarProps.DepthNone | src/parser.rs:532-544 | `depth_for` finds no depth exactly when no local scope holds the name |
| GrammarProps.NoScopes | src/parser.rs:502-530 | at the top level, declaring, defining and assigning succeed and change nothing, and every identifier has no depth |
| GrammarProps.DeclareTwice | src/parser.rs:505-509 | declaring a name twice in one scope fails with "Already a variable with this name in this scope." |
| GrammarProps.DeclareThenDefine | src/parser.rs:494-515 | declare then define leaves the name defined in the innermost scope, at depth 0 |
| GrammarProps.AssignKeepsDepths | src/parser.rs:517-544 | `assign_var` never changes the depth `depth_for` gives any name |
| GrammarProps.SkippedPop | src/parser.rs:96-100 | an unbraced block whose statement fails leaves its scope pushed: the `?` skips the pop |
| GrammarProps.ForWithoutParen | src/parser.rs:110-111 | a `for` without `(` fails with one more scope on the stack than before |
| GrammarProps.ExhaustedDeclaration | src/parser.rs:48-56 | with no token left, a declaration fails and takes nothing |
| GrammarProps.AsWrittenSpins | src/parser.rs:82-95 | the block loop as written never finishes, whatever the fuel, once the tokens have run out |
| GrammarProps.LevelAtEof | src/parser.rs:463-492 | every binary level fails at `Eof` with "Expect expression.", after taking the `Eof` |
| GrammarProps.LoneBraceSpins | src/parser.rs:76-95 | for the program `{` the block loop as written never finishes |
| GrammarProps.ExhaustedBlockLoopStops | src/parser.rs:82-95 | the corrected block loop stops, marked failed, once the tokens have run out |
| GrammarProps.CorrectionAgrees | src/parser.rs:82-95 | wherever the loop as written finishes, the corrected loop gives the same result |
| GrammarProps.RestAgrees | src/parser.rs:82-95 | from any cursor, the loop as written never finishes once no token is left, and agrees with the corrected loop wherever it finishes |
| Parsing.Parser.constructor | src/parser.rs:20-24 | a new parser reads the given tokens from the first one, with no local scope |
| Parsing.Parser.Advance | src/parser.rs:279-286 | the parser's result and its new cursor and scopes are those of `Grammar.Advance` on the old state |
| Parsing.Parser.MatchAdvance | src/parser.rs:288-292 | moves past the next token exactly when it has one of the given kinds, and says whether it did |
| Parsing.Parser.Consume | src/parser.rs:315-322 | the parser's result and its new cursor and scopes are those of `Grammar.Consume` on the old state |
| Parsing.Parser.SetVar | src/parser.rs:502-515 | the parser's result and its new cursor and scopes are those of `Grammar.SetVar` on the old state |
| Parsing.Parser.AssignVar | src/parser.rs:517-530 | the parser's result and its new cursor and scopes are those of `Grammar.AssignVar` on the old state |
| Parsing.Parser.DepthFor | src/parser.rs:532-544 | gives the depth `Grammar.DepthFor` gives for the current scopes: the distance to the innermost scope holding the name |
| Parsing.Parser.Synchronize | src/parser.rs:548-572 | the parser's result and its new cursor and scopes are those of `Grammar.Synchronize` on the old state |
| Parsing.Parser.SyncLoop | src/parser.rs:552-571 | the parser's result and its new cursor and scopes are those of `Grammar.SyncLoop` on the old state |
| Parsing.Parser.SkipBraces | src/parser.rs:553-559 | the parser's result and its new cursor and scopes are those of `Grammar.SkipBraces` on the old state |
| Parsing.Parser.Expression | src/parser.rs:328-330 | the parser's result and its new cursor and scopes are those of `Grammar.Expression` on the old state |
| Parsing.Parser.BinaryLevel | src/parser.rs:332-412 | the parser's result and its new cursor and scopes are those of `Grammar.BinaryLevel` on the old state |
| Parsing.Parser.OperatorLoop | src/parser.rs:332-412 | the loop of each binary level, from its first operand on, returns and leaves what `Grammar.LevelRest` describes |
| Parsing.Parser.Operand | src/parser.rs:333-337 | the parser's result and its new cursor and scopes are those of `Grammar.Operand` on the old state |
| Parsing.Parser.Assignment | src/parser.rs:354-367 | the parser's result and its new cursor and scopes are those of `Grammar.Assignment` on the old state |
| Parsing.Parser.Unary | src/parser.rs:414-422 | the parser's result and its new cursor and scopes are those of `Grammar.Unary` on the old state |
| Parsing.Parser.Call | src/parser.rs:424-435 | the parser's result and its new cursor and scopes are those of `Grammar.Call` on the old state |
| Parsing.Parser.BuildCall | src/parser.rs:437-448 | the parser's result and its new cursor and scopes are those of `Grammar.BuildCall` on the old state |
| Parsing.Parser.CallArgs | src/parser.rs:450-461 | the parser's result and its new cursor and scopes are those of `Grammar.CallArgs` on the old state |
| Parsing.Parser.Primary | src/parser.rs:463-492 | the parser's result and its new cursor and scopes are those of `Grammar.Primary` on the old state |
| Parsing.Parser.Declaration | src/parser.rs:48-56 | the parser's result and its new cursor and scopes are those of `Grammar.Declaration` on the old state |
| Parsing.Parser.Statement | src/parser.rs:58-74 | the parser's result and its new cursor and scopes are those of `Grammar.Statement` on the old state |
| Parsing.Parser.Block | src/parser.rs:76-107 | the parser's result and its new cursor and scopes are those of `Grammar.Block` on the old state |
| Parsing.Parser.ForStatement | src/parser.rs:109-140 | the parser's result and its new cursor and scopes are those of `Grammar.ForStatement` on the old state |
| Parsing.Parser.ForClauses | src/parser.rs:120-136 | the parser's result and its new cursor and scopes are those of `Grammar.ForClauses` on the old state |
| Parsing.Parser.ForInit | src/parser.rs:112-119 | the parser's result and its new cursor and scopes are those of `Grammar.ForInit` on the old state |
| Parsing.Parser.ForCondition | src/parser.rs:120-126 | the parser's result and its new cursor and scopes are those of `Grammar.ForCondition` on the old state |
| Parsing.Parser.ForIncrement | src/parser.rs:127-136 | the parser's result and its new cursor and scopes are those of `Grammar.ForIncrement` on the old state |
| Parsing.Parser.FunStatement | src/parser.rs:142-184 | the parser's result and its new cursor and scopes are those of `Grammar.FunStatement` on the old state |
| Parsing.Parser.FunParams | src/parser.rs:151-171 | the parser's result and its new cursor and scopes are those of `Grammar.FunParams` on the old state |
| Parsing.Parser.VarStatement | src/parser.rs:186-215 | the parser's result and its new cursor and scopes are those of `Grammar.VarStatement` on the old state |
| Parsing.Parser.PrintStatement | src/parser.rs:217-221 | the parser's result and its new cursor and scopes are those of `Grammar.PrintStatement` on the old state |
| Parsing.Parser.IfStatement | src/parser.rs:223-239 | the parser's result and its new cursor and scopes are those of `Grammar.IfStatement` on the old state |
| Parsing.Parser.IfLoop | src/parser.rs:226-233 | the parser's result and its new cursor and scopes are those of `Grammar.IfLoop` on the old state |
| Parsing.Parser.WhileStatement | src/parser.rs:241-247 | the parser's result and its new cursor and scopes are those of `Grammar.WhileStatement` on the old state |
| Parsing.Parser.ReturnStatement | src/parser.rs:249-259 | the parser's result and its new cursor and scopes are those of `Grammar.ReturnStatement` on the old state |
| Parsing.Parser.ExprStatement | src/parser.rs:261-265 | the parser's result and its new cursor and scopes are those of `Grammar.ExprStatement` on the old state |
| Parsing.Parser.Parse | src/parser.rs:26-46 | the outcome is that of `Grammar.ParseLoop` from the current state: the statements, a parse error, or a panic |
| Parsing.ParseTokens | src/parser.rs:20-46 | `Parser::new(tokens).parse()` gives `Grammar.Parse(tokens)`, the parse with the corrected block loop |
| Evaluation.PushScope | src/interpreter.rs:78 | `add_scope` puts a fresh empty scope innermost and changes nothing else |
| Evaluation.PopScope | src/interpreter.rs:91 | `remove_scope` succeeds exactly when a scope encloses the innermost one, and then drops the innermost one |
| Evaluation.Declare | src/interpreter.rs:140-149 | a declaration with a depth binds the name in the innermost local scope only; one without binds it among the globals only |
| Evaluation.AsNum | src/interpreter.rs:435-441 | succeeds exactly on a number, giving it; otherwise "Operands must be numbers." |
| Evaluation.AsStr | src/interpreter.rs:443-449 | succeeds exactly on a string, giving it; otherwise "Operands must be strings." |
| Evaluation.EvalPlus | src/interpreter.rs:373-395 | succeeds exactly on two numbers (their sum) or two strings (their concatenation); otherwise "Operands must be two numbers or two strings." |
| Evaluation.EvalDiv | src/interpreter.rs:397-404 | the divisor is checked first: not a number, then zero ("Tried to divide by 0!"), then the dividend; otherwise the quotient |
| Evaluation.NameAndDepthFor | src/interpreter.rs:406-411 | succeeds exactly on a variable, giving its name and depth; otherwise "Invalid assignment target." |
| Evaluation.IsTruthy | src/interpreter.rs:413-420 | a value is truthy exactly when it is neither `Nil` nor `Bool(false)` |
| Evaluation.IsEqual | src/interpreter.rs:424-433 | two values are equal only when they are the same value and not a callable |
| Evaluation.BinaryOp | src/interpreter.rs:330-346 | `==` and `!=` always succeed with a boolean; the comparisons, `-` and `*` succeed exactly on two numbers; `/` exactly on two numbers with a non-zero divisor; `+` exactly on two numbers or two strings; any other kind fails with "eval_binary: Invalid operator! " and its `{:?}` |
| Evaluation.UnaryOp | src/interpreter.rs:304-316 | succeeds exactly for `!`, or for `-` on a number; `!` gives the negated truthiness and `-` the negated number; `-` on anything else gives "Operand must be a number."; any other kind "eval_unary: Invalid operator! " and its `{:?}` |
| Evaluation.InContext | src/interpreter.rs:222-225 | `with_context` touches only an error: a value and the state pass through unchanged |
| Evaluation.Eval | src/interpreter.rs:205-266 | evaluating an expression never runs out of fuel and keeps the number of local scopes |
| Evaluation.EvalAssign | src/interpreter.rs:208-217 | the same for an assignment |
| Evaluation.EvalBinary | src/interpreter.rs:319-348 | the same for a binary operator |
| Evaluation.EvalUnary | src/interpreter.rs:299-317 | the same for a unary operator |
| Evaluation.EvalLogic | src/interpreter.rs:350-370 | the same for `and` and `or` |
| Evaluation.EvalCall | src/interpreter.rs:272-297 | the same for a call |
| Evaluation.ArityMessage | src/interpreter.rs:281-285 | "Expected ", then the arity in digits, then " arguments but got ", then the count in digits, then "." |
| Evaluation.Carry | src/interpreter.rs:261 | an environment error becomes a runtime error with the same message; `Display` of the environment error is "Evaluation error: " followed by that message (see Left out) |
| Evaluation.EvalArgs | src/interpreter.rs:288-291 | the argument loop keeps the scopes and, when every argument evaluates, yields one value per argument |
| Evaluation.Exec | src/interpreter.rs:67-157 | executing a statement always leaves at least one local scope |
| Evaluation.WhileLoop | src/interpreter.rs:150-155 | the same for the `while` loop |
| Evaluation.ExecFor | src/interpreter.rs:72-93 | the same for a `for` |
| Evaluation.ForLoop | src/interpreter.rs:85-90 | the same for the loop of a `for` |
| Evaluation.ExecIf | src/interpreter.rs:119-133 | the same for an `if` |
| Evaluation.ExecBlock | src/interpreter.rs:170-203 | the same for a block |
| Evaluation.BlockLoop | src/interpreter.rs:180-194 | the statement loop of a block leaves at least one local scope, and the only error that stops it is a `return` |
| Evaluation.InterpretLoop | src/interpreter.rs:36-53 | running the statements of a program always leaves at least one local scope |
| Evaluation.Interpret | src/interpreter.rs:36-53 | at least one local scope remains; an empty program yields `nil` and changes nothing |
| EvaluationProps.FalsyValues | src/interpreter.rs:413-420 | a value is falsy exactly when it is `nil` or `false` |
| EvaluationProps.EqualMeansSameValue | src/interpreter.rs:424-433 | `is_equal` holds exactly of two equal values that are not callables: values of different kinds are never equal |
| EvaluationProps.NotEqualNegates | src/interpreter.rs:331-332 | `==` and `!=` never fail, and `!=` is the negation of `==` |
| EvaluationProps.DivisorFirst | src/interpreter.rs:397-404 | dividing by zero fails with "Tried to divide by 0!" whatever the dividend |
| EvaluationProps.AndShortCircuits | src/interpreter.rs:359-364 | `and` with a falsy left operand yields it, without evaluating the right one |
| EvaluationProps.OrShortCircuits | src/interpreter.rs:365-369 | `or` with a truthy left operand yields it, without evaluating the right one |
| EvaluationProps.LogicYieldsRight | src/interpreter.rs:357-369 | otherwise `and`/`or` yields the right operand, evaluated after the left |
| EvaluationProps.ArityCheckedFirst | src/interpreter.rs:279-287 | a call with the wrong number of arguments fails with "Expected n arguments but got m." in the callee's context, before any argument is evaluated |
| EvaluationProps.OnlyCallablesCalled | src/interpreter.rs:294-295 | calling anything but a callable fails with "Can only call functions and classes." in the callee's context |
| EvaluationProps.DeclarationNeedsVariable | src/interpreter.rs:140-142 | a declaration whose target is not a variable fails with "Invalid assignment target.", after evaluating the value |
| EvaluationProps.ReadAfterDeclare | src/interpreter.rs:140-149 | a global declared with a value is then read back with that value |
| EvaluationProps.FirstTruthyBranchRuns | src/interpreter.rs:123-127 | an `if` runs the block of the first condition that is truthy, after evaluating the conditions before it |
| EvaluationProps.IfFrom | src/interpreter.rs:123-127 | the same from any condition up to that one |
| EvaluationProps.ElseRuns | src/interpreter.rs:128-132 | when no condition is truthy, the `else` runs, or the result is `nil` |
| EvaluationProps.ElseFrom | src/interpreter.rs:128-132 | the same from any condition on |
| EvaluationProps.BlockLoopRunsAll | src/interpreter.rs:180-194 | a block's loop runs every statement: an error does not stop it, and it keeps the last value and the last error |
| EvaluationProps.BlockReportsLastError | src/interpreter.rs:195-202 | a block whose statements all run fails with the last error, if any, and otherwise yields the last value |
| EvaluationProps.ReturnSkipsPop | src/interpreter.rs:188 | a `return` leaves a block at once, without removing the block's scope |
| EvaluationProps.InterpretVerdict | src/interpreter.rs:36-53 | `interpret` runs every statement and fails exactly when one of them failed; otherwise it yields the last value |
| Interp.Builtins | src/interpreter.rs:22-27 | the global scope starts with exactly the native functions `clock`, `input`, `num`, `rand_int` and `str`, each bound under its own name |
| Interp.Interpreter.constructor | src/interpreter.rs:21-34 | a new interpreter has the builtins as its globals and one empty local scope |
| Interp.Interpreter.Evaluate | src/interpreter.rs:205-266 | the value or error, and the new globals, locals and output, are those `Evaluation.Eval` gives from the old ones |
| Interp.Interpreter.EvaluateAssign | src/interpreter.rs:208-217 | the same, against `Evaluation.EvalAssign` |
| Interp.Interpreter.EvaluateBinary | src/interpreter.rs:319-348 | the same, against `Evaluation.EvalBinary` |
| Interp.Interpreter.EvaluateUnary | src/interpreter.rs:299-317 | the same, against `Evaluation.EvalUnary` |
| Interp.Interpreter.EvaluateLogic | src/interpreter.rs:350-370 | the same, against `Evaluation.EvalLogic` |
| Interp.Interpreter.EvaluateCall | src/interpreter.rs:272-297 | the same, against `Evaluation.EvalCall` |
| Interp.Interpreter.Execute | src/interpreter.rs:67-157 | keeps an innermost local scope, and the outcome and new state are those `Evaluation.Exec` gives |
| Interp.Interpreter.ExecuteWhile | src/interpreter.rs:150-155 | the same, against `Evaluation.WhileLoop` |
| Interp.Interpreter.ExecuteFor | src/interpreter.rs:72-93 | the same, against `Evaluation.ExecFor` |
| Interp.Interpreter.ForIterations | src/interpreter.rs:85-90 | the same, against `Evaluation.ForLoop` |
| Interp.Interpreter.ExecuteIf | src/interpreter.rs:119-133 | the same, against `Evaluation.ExecIf` |
| Interp.Interpreter.ExecuteBlock | src/interpreter.rs:159-203 | the same, against `Evaluation.ExecBlock` |
| Interp.Interpreter.Interpret | src/interpreter.rs:36-53 | the verdict and the new state are those `Evaluation.Interpret` gives |
| Interp.Run | src/interpreter.rs:21-53 | a fresh interpreter running a program gives the verdict and the printed lines `Evaluation.Interpret` gives from the builtins and one empty local scope |
| LegacyInterp.ObjectDebug | lox-rust/src/object.rs:3-10 | `{:?}` of a value as `#[derive(Debug)]` writes it: "Nil", `Str("…")` with the string quoted, "Bool(true)" or "Bool(false)" |
| LegacyInterp.IsTruthy | lox-rust/src/interpreter.rs:165-174 | a value is falsy exactly when it is `Nil` or `Bool(false)` |
| LegacyInterp.IsEqual | lox-rust/src/interpreter.rs:178-188 | `is_equal` holds exactly of two identical values: same kind, equal contents |
| LegacyInterp.BinaryOp | lox-rust/src/interpreter.rs:128-141 | `==` is equality of values and `!=` its negation; the comparisons, `-` and `*` succeed exactly on two numbers; `/` exactly on two numbers with a non-zero divisor; `+` exactly on two numbers or two strings; any other kind fails with "eval_binary: Invalid operator! " and its `{:?}` |
| LegacyInterp.UnaryOp | lox-rust/src/interpreter.rs:115-120 | succeeds exactly for `!`, or for `-` on a number; `-` on anything else gives "Expected number, got " and the operand's `{:?}`; any other kind "eval_unary: Invalid operator! " and its `{:?}` |
| LegacyInterp.AsNum | lox-rust/src/interpreter.rs:198-204 | succeeds exactly on a number, giving it; otherwise "Expected number, got " and the value's debug text |
| LegacyInterp.AsStr | lox-rust/src/interpreter.rs:206-212 | succeeds exactly on a string, giving it; otherwise "Expected String, got " and the value's debug text |
| LegacyInterp.EvalPlus | lox-rust/src/interpreter.rs:146-154 | the left operand decides: a number needs a number (the sum), a string needs a string (the concatenation), the error naming the right operand; anything else on the left fails with "eval_plus: Tried to add … and …!" |
| LegacyInterp.EvalDiv | lox-rust/src/interpreter.rs:156-163 | the divisor's kind is checked first, then zero ("eval_div: Tried to divide by 0!"), then the dividend; otherwise the quotient |
| LegacyInterp.InContext | lox-rust/src/interpreter.rs:75-80 | a value passes through; an error gets the operator's line and the expression's text |
| LegacyInterp.Eval | lox-rust/src/interpreter.rs:71-105 | a literal yields its value; a variable is found exactly when the scope binds it, and yields that binding |
| LegacyInterp.ExecFrame | lox-rust/src/interpreter.rs:37-69 | a failing statement changes nothing, only `print` prints, and a successful `print` appends the value's CLI text as one line |
| LegacyInterp.DeclarationBinds | lox-rust/src/interpreter.rs:40-59 | a declaration or an assignment fails, changing nothing, unless its target is a variable; on success it yields `Nil` and the variable then reads back the value |
| LegacyInterp.AssignNeverCreates | lox-rust/src/interpreter.rs:50-59 | an assignment to an undeclared variable fails and changes nothing; no assignment adds or removes a name |
| LegacyInterp.Report | lox-rust/src/interpreter.rs:24-31 | after a failed statement the error banner is printed; after a successful one the value is printed with "val: " in a REPL, and nothing otherwise |
| LegacyInterp.Outcomes | lox-rust/src/interpreter.rs:23-33 | every statement runs, whatever failed before it, giving one result per statement, in order |
| LegacyInterp.Verdict | lox-rust/src/interpreter.rs:34 | `Ok(())` exactly when some statement failed, and `Err(())` otherwise: the flags are inverted |
| LegacyInterp.VerdictSnoc | lox-rust/src/interpreter.rs:22-34 | one more result makes the verdict `Ok` exactly when it or an earlier one failed |
| LegacyInterp.Interpreter.constructor | lox-rust/src/interpreter.rs:17-19 | a new interpreter has an empty scope and has printed nothing |
| LegacyInterp.Interpreter.Execute | lox-rust/src/interpreter.rs:37-69 | the result and the new scope and output are those `LegacyInterp.Exec` gives |
| LegacyInterp.Exec | lox-rust/src/interpreter.rs:37-69 | a failing statement changes nothing; no statement removes a binding; an expression statement changes no state; only `print` adds output |
| LegacyInterp.Interpreter.Interpret | lox-rust/src/interpreter.rs:21-35 | the verdict is `Verdict` of the results of every statement, and the new state is the one after all of them |
| LegacyInterp.Run | lox-rust/src/interpreter.rs:17-35 | a fresh interpreter running a program gives the verdict and the printed lines of `Outcomes` from an empty scope |
| ManStmt.Clauses | src/man_stmt.rs:97-103 | one `if c then b,\n` piece per condition, whose concatenation is the text of an `if` without `else` |
| ManStmt.Lines | src/man_stmt.rs:112-115 | one text per statement of a block, each ended by ";\n" in the block's text |
| ManStmt.Display | src/man_stmt.rs:69-139 | the string the `+=` loops build is `Render` of the statement, for every statement form |
| ManStmt.DisplayIf | src/man_stmt.rs:95-109 | the string the `+=` loop over the conditions builds, followed by the `else` part, is `Render` of the `if` |
| ManStmt.DisplayBlock | src/man_stmt.rs:110-117 | the string the `+=` loop over the statements builds is `Render` of the block |
| ManStmt.Render | src/man_stmt.rs:69-139 | a declaration starts with "var ", a `while` with "while ", and a block renders as nothing exactly when it is empty |
| ManStmt.DeclarationIsVarAssignment | src/man_stmt.rs:74-79 | a declaration reads as the matching assignment behind "var " |
| ManStmt.PrintReadsAsExpression | src/man_stmt.rs:80-81 | a print statement and an expression statement read alike |
| ManStmt.ElseOnlyAtEnd | src/man_stmt.rs:104-107 | an `else` adds "else " and its block at the end, and nothing else |
| ManStmt.IfSplits | src/man_stmt.rs:95-103 | splitting the conditions of an `if` splits its text |
| ManStmt.ClausesAppend | src/man_stmt.rs:97-103 | the pieces of two lists of conditions are the pieces of each, in order |
| ManStmt.EmptyBlock | src/man_stmt.rs:110-117 | an empty block renders as nothing |
| ManStmt.BlockSplits | src/man_stmt.rs:110-117 | splitting the statements of a block splits its text |
| ManStmt.LinesAppend | src/man_stmt.rs:112-115 | the texts of two lists of statements are the texts of each, in order |
| ManStmt.SingleLine | src/man_stmt.rs:110-117 | a block of one statement is that statement followed by ";\n" |
| LegacyStmt.Display | lox-rust/src/stmt.rs:59-111 | the older renderer is the same loop over statements without `while`, printing expressions with the older `to_string` |
| LegacyStmt.DeclarationText | lox-rust/src/stmt.rs:64-66 | a declaration prints "var ", its target, " = " and its value as `to_string` prints them, groupings leaving no trace |

## Left out

- Evaluation.Eval, Evaluation.Exec and the other evaluation functions: their own contracts state only fuel and scope-count facts. What they compute is stated by the lemmas in `EvaluationProps` and by the interpreter methods proved against them.
- Evaluation.Carry: `src/interpreter.rs` applies `?` to environment results at lines 91, 212, 214 and 261. Those results carry `cerror::EvalError` (`src/environment.rs:1`), while the enclosing functions return `lox_error::EvalError`. No `From` conversion between the two exists, and `src/main.rs` declares no `cerror` module, so this part of the source does not build as written. The model assumes a conversion that keeps the message.
- Grammar.Block: follows the corrected loop `Grammar.BlockLoop`. On a block whose `}` never comes, such as the program `{`, the loop in `src/parser.rs` never returns; the model ends with a failed block instead (see Findings).
- Grammar.BracedBlock: the same corrected loop, for the same reason.
- Grammar.Parse: a program holding such a block is a failed parse in the model; the source never returns on it.
- Parsing.Parser.Block: proved against `Grammar.Block`, so it has the same correction.
- Parsing.Parser.Parse: proved against `Grammar.ParseLoop`, so it has the same correction.
- Parsing.ParseTokens: proved against `Grammar.Parse`, so it has the same correction.
- Loops in Lox programs (`while`, `for`) run under a fuel bound. A program that loops forever ends in `Exhausted`, not in a hang.
- Grammar.BlockLoopAsWritten: the as-written block loop of `src/parser.rs` is bounded by fuel. Its non-termination is stated as "`None` for every fuel".
- Depth in variable lookup: `src/interpreter.rs:261` passes a depth to `lookup`, but `lookup` in `src/environment.rs` takes no depth and searches the chain by name. The model searches by name.
- Calls: `src/function.rs` and `src/callable.rs` are not part of this model. After the arity check, a call is the host's `call` applied to the callee and the argument values. That `call` returns only a value or an error, so what a call does to the globals and to the printed output is not modelled: the interpreter state after a call is the state after its arguments. As a result, `execute_with_env` and `execute_block_with_current_scope`, which only function calls use, are covered only through `Evaluation.ExecBlock`'s flag.
- Builtins: `src/builtins.rs` is not part of this model. Its functions appear only by name and arity, since their behaviour reads the clock, stdin or a random source.
- `is_repl` output in `src/interpreter.rs:184-186`: the current interpreter's flag is always `false` after `new`, so the "val:" line is not modelled there. The older interpreter's flag is modelled.
- `eprintln!` reports (`scerror`, `perror`, `report`, `preport`, `new_everror`, `EvalError::report`): only the values these routines return are modelled.
- `location_for` in `src/cerror.rs` has the same text as `LoxErrors.LocationFor` and is only printed, so it is not modelled separately.
- Floating point: `f64` arithmetic, comparison and parsing are exact real arithmetic in the model. `{}` and `{:?}` of a number are parameters.
- The line counters (`usize` and `u32`) are unbounded naturals. The `as u32` cast of a depth cannot overflow for any real program and is not modelled.
- Stmt/Expr constructors (`src/man_stmt.rs:26-61`, `lox-rust/src/stmt.rs:25-56`, `lox-rust/src/expr.rs:17-31`): each is the datatype constructor of its variant, so it has no member of its own.
- `IfStmt` and `BlockStmt` exist in `lox-rust/src/stmt.rs`, but the older `execute` has no arm for them. `LegacyInterp` executes only the four statement kinds it matches.
- `lox-rust/src/cerror.rs` has no `EvalError`. The older interpreter uses the one from `src/cerror.rs`, which the model takes.
- `as_bool` in `lox-rust/src/interpreter.rs:190-196` is never called.
- Unicode: characters are ASCII. Char-versus-byte indexing and `is_alphabetic` beyond ASCII are left out.
- File and process I/O: the file reads, writes and prints in `codegen/ast_gen.py`, `lox-rust/tools/ast_gen.py` and `lc.py` are left out, as are `main`, `run_file` and `run_prompt` in `lox-rust/src/main.rs`. Only the text these produce is modelled.
- Sharing and aliasing of environments through `Rc<RefCell<…>>`: scope chains are held as values, so two handles to one scope are not modelled.

## Findings

| source | as written | input that shows it | evidently intended | confidence | as-written member | corrected member |
|---|---|---|---|---|---|---|
| src/parser.rs:82-95 | The block loop stops only at a `}` or in front of `Eof`. Once a failed statement and `synchronize` have consumed the `Eof`, neither test can succeed, the failing declaration takes no token, and the loop never ends. | the program `{` (tokens `{`, `Eof`), or `{ 1 +` | the loop also stops, with the block marked failed, once no token is left | not executed | Grammar.BlockLoopAsWritten (GrammarProps.LoneBraceSpins, GrammarProps.AsWrittenSpins) | Grammar.BlockLoop (GrammarProps.ExhaustedBlockLoopStops, GrammarProps.CorrectionAgrees) |
