# Mini Pascal scanner and parser, modelled in Dafny

This project models the lexical and syntactic pipeline of a small Pascal-like
language with French keywords (`programme`, `debut`, `fin`, `si … alors …
sinon`, `tantque … faire`, `repeter … jusqua`, `pour … allant de … a … pas …
faire`). It covers three parts.

- **The automaton** (`Automaton.match`): a total, stateless function from a
  source text and a position to an optional `(kind, lexeme, length)`.
  - A letter/digit run is a keyword, looked up case-insensitively, or an
    identifier of the shape letter-then-digit.
  - A digit run is an integer, or a real when a `.` and a digit follow.
  - Two-character operators are tried before punctuation and before
    one-character operators.
  - `Automaton.Match` is the automaton as written. `LexSpec` defines the
    same rules declaratively (`Accepts`, `NoTokenAt`) and proves the
    automaton sound and complete against them.
- **The scanner** (`Scanner.tokenize`), in two places.
  - The back-end scanner (`Scanner`, `SymbolTable`, `Position`) skips
    whitespace, keeps the 1-based line and column, recovers from lexical
    errors and appends one EOF token. It also builds the identifier symbol
    table (first position and occurrence count).
  - The structural validator (`Structure`) runs on the completed token
    list: program header, `debut`/`fin`, the final `.`, and the
    `si`/`alors` and `repeter`/`jusqua` pairs.
  - The command-line scanner (`CliScanner`) is the reduced copy: no symbol
    table, and errors tagged `[ERREUR_LEXICALE]`. It is proved to produce
    exactly the back-end scanner's tokens and errors, rendered.
- **The parser** (`Parser`), a recursive-descent parser.
  - It runs one procedure per non-terminal and threads the state
    `(pos, rules, errors)`.
  - The scanner kinds are collapsed into KEYWORD/ID/NOMBRE/SYMBOLE/EOF, and
    `_expect` recovers in panic mode on one token.
  - `Pipeline` connects the command-line scanner's output to the parser's
    input.
  - `Grammar` gives the language as syntax trees. Its main theorem is that
    the parser accepts, without reporting any error, every token sequence
    that writes out a program of the grammar.

The automaton exists twice in the source, as identical copies in
`backend/src/automata.py` and `validation/scanner.py`. It is modelled once
and used by both scanners.

Unclosed `si`/`repeter` tokens are reported in the order they were opened,
earliest first: backend/src/scanner.py:141-144 iterates each stack from the
bottom.

`/` is scanned as a division operator, but the parser does not treat it as a
multiplicative operator (validation/parser.py:185-192), so a `/` ends a term.

Modules: `Wrappers` and `Chars` (chars.dfy), `Tokens`, `Automaton`, `LexSpec`,
`Position`, `SymbolTable` (symtab.dfy), `Scanner`, `Structure`, `CliScanner`
(cli_scanner.dfy), `Parser`, `Pipeline`, `Grammar`.

## Model

| member | source | states |
|---|---|---|
| Chars.ToLower | backend/src/automata.py:87-90 | lowercasing maps letters to `a`..`z`, leaves every character other than `A`..`Z` alone, and keeps the letter/digit class |
| Chars.Lower | validation/parser.py:83-97 | a lowercased string has the same length and is lowercased character by character |
| Tokens.KindNameClasses | validation/parser.py:85-90 | the type name a scanner kind is written as is `EOF`, `ID` or a number name exactly for the end, identifier and number kinds |
| Automaton.AlnumEnd | backend/src/automata.py:81-86 | the end of the letter/digit run from `i`: everything before it is alphanumeric and the character at it is not (or it is the end) |
| Automaton.DigitEnd | backend/src/automata.py:99-104 | the end of the digit run from `i`: everything before it is a digit and the character at it is not (or it is the end) |
| Automaton.MatchWord | backend/src/automata.py:81-96 | a letter-led match is the exact, non-empty, newline-free source slice at `pos` and never the EOF kind |
| Automaton.MatchNumber | backend/src/automata.py:99-110 | a digit-led match always succeeds and is the exact non-empty source slice at `pos` |
| Automaton.MatchSymbol | backend/src/automata.py:113-126 | an operator or punctuation match is the exact non-empty source slice at `pos` |
| Automaton.Match | backend/src/automata.py:75-126 | `None` at or past the end of input; any match is a non-empty exact slice of the source starting at `pos`, with no newline, never of kind EOF |
| LexSpec.MatchWordSound | backend/src/automata.py:81-96 | at a letter, a match obeys the keyword/identifier rules, and no match means no token of the language starts there |
| LexSpec.MatchNumberSound | backend/src/automata.py:99-110 | at a digit, the match is the integer or real the number rules describe |
| LexSpec.MatchSymbolSound | backend/src/automata.py:113-126 | at a character that is neither a letter nor a digit, a match is the table operator or punctuation, and no match means no token starts there |
| LexSpec.MatchSound | backend/src/automata.py:75-126 | every result of the automaton is a token the declarative rules accept at that position, and `None` exactly when no rule applies |
| LexSpec.WordComplete | backend/src/automata.py:81-96 | every keyword or identifier the rules accept at `pos` is exactly what the automaton returns there |
| LexSpec.IntegerComplete | backend/src/automata.py:99-110 | an integer the rules accept (a maximal digit run not followed by a fraction) is what the number branch returns |
| LexSpec.RealComplete | backend/src/automata.py:99-110 | a real the rules accept (digits, `.`, digits, all maximal) is what the number branch returns |
| LexSpec.RealRuns | backend/src/automata.py:101-108 | a real splits at its dot into the integer digit run, a fraction start, and the fraction digit run reaching its end |
| LexSpec.NumberComplete | backend/src/automata.py:99-110 | every number token the rules accept at `pos` is the automaton's result there |
| LexSpec.SymbolComplete | backend/src/automata.py:113-124 | every operator or punctuation token the rules accept at `pos` is the automaton's result there |
| LexSpec.MatchComplete | backend/src/automata.py:75-126 | whatever token the rules accept at `pos`, the automaton returns exactly that token: the rules determine at most one token and the automaton finds it |
| LexSpec.MatchNoneIff | backend/src/automata.py:126 | the automaton returns `None` if and only if no token of the language starts at `pos` |
| LexSpec.KeywordAnyCase | backend/src/automata.py:87-90 | a maximal letter run whose lowercase form is a keyword yields that keyword's kind with the original-case lexeme |
| LexSpec.IdentifierRule | backend/src/automata.py:92-96 | a non-keyword letter run is an identifier exactly when it has the letter-then-digit shape, and gives no token otherwise |
| LexSpec.NumberRule | backend/src/automata.py:99-110 | a digit always starts a number; it is real iff the digit run is followed by `.` and a digit, otherwise integer with the `.` left unconsumed |
| LexSpec.TwoCharOperatorWins | backend/src/automata.py:113-116 | `:=`, `<=`, `>=`, `<>` always match as one two-character operator, never as their first character alone |
| LexSpec.WordIsMaximal | backend/src/automata.py:81-86 | a letter-led match consumes the whole alphanumeric run: the character after it is not a letter or digit, or it is the end |
| LexSpec.SiInAnyCase | backend/src/automata.py:87-90 | `SI`, `si` and `Si` all give the `si` keyword with the lexeme as written |
| LexSpec.IdentifierExample | backend/src/automata.py:92-96 | `a1` is an identifier |
| LexSpec.NonIdentifierExample | backend/src/automata.py:92-96 | `ab` is not a token |
| LexSpec.IntegerBeforeDot | backend/src/automata.py:104-110 | `12.` gives the integer `12` of length 2 and leaves the dot |
| LexSpec.RealWithFraction | backend/src/automata.py:101-108 | `12.34` gives one real of length 5 |
| LexSpec.AssignmentNotSplit | backend/src/automata.py:113-116 | `:=` is one assignment operator |
| LexSpec.AlnumEndUnique | backend/src/automata.py:81-86 | the end of a maximal letter/digit run is unique |
| LexSpec.DigitEndUnique | backend/src/automata.py:99-104 | the end of a maximal digit run is unique |
| LexSpec.SymbolTablesDisjointFromAlnum | backend/src/automata.py:29-46 | punctuation and one-character operator characters are never letters or digits, and no character is in both tables |
| LexSpec.MultiOperatorStart | backend/src/automata.py:48-53 | every multi-character operator has two characters and does not start with a letter or digit |
| Position.LineCountsNewlines | backend/src/scanner.py:19-29 | the line at position `p` is one more than the number of newlines before `p` |
| Position.ColCountsFromLastNewline | backend/src/scanner.py:19-29 | the column at `p` is one more than the distance from the last newline before `p` (or from the start) |
| Position.StepChar | backend/src/scanner.py:19-29 | one step moves one character and keeps line and column consistent with the newlines consumed |
| Position.Advance | backend/src/scanner.py:19-29 | advancing `n` characters never moves past the end of input and keeps line and column consistent |
| Position.AdvanceWithinLine | backend/src/scanner.py:19-29 | advancing over text without a newline keeps the line and adds `n` to the column |
| Position.SkipWhitespace | backend/src/scanner.py:31-36 | whitespace skipping consumes exactly the maximal whitespace run, reports whether it moved, and keeps line and column consistent |
| SymbolTable.FirstId | backend/src/scanner.py:38-47 | the index of the first identifier token with a given lexeme |
| SymbolTable.Record | backend/src/scanner.py:38-47 | recording an identifier adds its lexeme with count 1 at the token's position if new, otherwise increments its count and keeps its first position; other entries and other tokens change nothing |
| SymbolTable.IdCountAppend | backend/src/scanner.py:38-47 | appending a token adds one to the identifier count of its lexeme exactly when it is an identifier with that lexeme |
| SymbolTable.FirstIdAppend | backend/src/scanner.py:38-47 | appending a token never changes an existing first occurrence, and a lexeme's first occurrence is the new token when it had none |
| SymbolTable.EmptyDescribesNoTokens | backend/src/scanner.py:14-17 | the empty table describes the empty token list |
| SymbolTable.RecordKeepsDescription | backend/src/scanner.py:38-52 | if the table describes the tokens so far (an entry per identifier lexeme, its occurrence count, the position of its first token), recording the next token keeps that true |
| Scanner.AddToken | backend/src/scanner.py:49-52 | adding a token appends it to the list, leaves the cursor and errors alone and keeps the symbol table describing the list |
| Scanner.ScanOne | backend/src/scanner.py:59-87 | one loop iteration always moves forward, adds at most one token and at most one error, and keeps the symbol table describing the tokens |
| Scanner.Emit | backend/src/scanner.py:85-87 | a matched token is recorded at the line and column of its first character, and the cursor moves past the lexeme |
| Scanner.Recover | backend/src/scanner.py:66-83 | with no match, at a letter one invalid-identifier error for the whole alphanumeric run is recorded and the run is skipped; at any other character one illegal-character error is recorded and exactly one character is skipped; both at the start position, with no token added |
| Scanner.ScanFrom | backend/src/scanner.py:57-87 | the scan loop reaches the end of input, only appends to tokens and errors, and keeps the symbol table describing the tokens |
| Scanner.Tokenize | backend/src/scanner.py:57-89 | tokenising ends at the end of input and the last token is the EOF token with empty lexeme at the final line and column |
| Scanner.TokenizeDescribes | backend/src/scanner.py:38-47 | after tokenising, the symbol table has an entry exactly for the identifier lexemes, each with its occurrence count and first position |
| Scanner.EndTokenPosition | backend/src/scanner.py:89 | the final token sits at the line and column of the end of input |
| Scanner.TokenizeSound | backend/src/scanner.py:57-89 | no token but the last is EOF; every other token is what the automaton matches at its line and column in the source; every error is a lexical error at the position of an offending character |
| Scanner.SoundMoved | backend/src/scanner.py:31-36 | moving the cursor consistently without output keeps the scan sound |
| Scanner.SoundTokenAdded | backend/src/scanner.py:85-87 | adding a non-EOF token that starts at its recorded position keeps the scan sound |
| Scanner.SoundErrorAdded | backend/src/scanner.py:66-83 | adding a lexical error at its recorded position keeps the scan sound |
| Scanner.EmitSound | backend/src/scanner.py:85-87 | recording a matched token keeps every token and error tied to its source position |
| Scanner.RecoverSound | backend/src/scanner.py:66-83 | recovering from an unmatched character keeps every token and error tied to its source position |
| Scanner.ScanOneSound | backend/src/scanner.py:59-87 | each loop iteration keeps the scan sound |
| Scanner.ScanFromSound | backend/src/scanner.py:57-87 | the whole scan loop keeps the scan sound |
| Scanner.WhitespaceStep | backend/src/scanner.py:59-60 | at whitespace the iteration only skips the maximal whitespace run and records nothing |
| Scanner.MatchedTokenStep | backend/src/scanner.py:62-63 | a matched token is recorded at the line and column of its first character; afterwards the line is unchanged and the column has grown by the lexeme's length |
| Scanner.RecoveryStep | backend/src/scanner.py:66-83 | an unmatched character adds exactly one error at its own line and column; a letter skips the whole alphanumeric run, anything else exactly one character |
| Scanner.LetterRun | backend/src/automata.py:81-86 | the alphanumeric run from a letter is maximal |
| Scanner.RecoveryLetter | backend/src/scanner.py:66-79 | an unmatched letter gives one invalid-identifier error carrying the skipped run, at the letter's line and column |
| Scanner.RecoveryOther | backend/src/scanner.py:80-83 | an unmatched non-letter gives one illegal-character error at its line and column and skips one character |
| Structure.Unclosed | backend/src/scanner.py:141-144 | one report per leftover opener, in stack order from the bottom, each at its opener's line and column |
| Structure.StackPush | backend/src/scanner.py:125-127 | pushing an opener keeps the stack equal to the openers still open — those that no stretch of later tokens closes more often than it opens (`OpenAt`, by counts) — with `|stack| - 1 - j` openers nested inside entry `j` |
| Structure.StackPop | backend/src/scanner.py:128-132 | on a closer meeting a non-empty stack, the newest entry is exactly the opener this closer reaches, so popping it keeps the stack equal to the openers still open |
| Structure.StackKeep | backend/src/scanner.py:124-139 | a token that neither opens nor meets a non-empty stack as a closer leaves the stack equal to the openers still open |
| Structure.SiStackStep | backend/src/scanner.py:124-132 | every step keeps the `si` stack equal to the `si` tokens still open, as defined by counting |
| Structure.RepeterStackStep | backend/src/scanner.py:133-139 | every step keeps the `repeter` stack equal to the `repeter` tokens still open, as defined by counting |
| Structure.SiStackKept | backend/src/scanner.py:124-132 | after any prefix, the `si` stack holds exactly the `si` tokens still open, increasing, with the nesting depth inside each entry given by its height |
| Structure.RepeterStackKept | backend/src/scanner.py:133-139 | after any prefix, the `repeter` stack holds exactly the `repeter` tokens still open, increasing, with the nesting depth inside each entry given by its height |
| Structure.SiStackOf | backend/src/scanner.py:124-139 | after any prefix, the `si` stack is exactly `Opened`: the indices of the `si` tokens still open, in increasing order |
| Structure.RepeterStackOf | backend/src/scanner.py:124-139 | after any prefix, the `repeter` stack is exactly the indices of the `repeter` tokens still open, in increasing order |
| Structure.PairScanStacks | backend/src/scanner.py:121-139 | after any prefix, both stacks are exactly their `Opened` lists of openers still open |
| Structure.OpenedUnique | backend/src/scanner.py:141-144 | a list kept in increasing order that holds exactly the openers still open is `Opened`, so the stack the loops walk is determined by the tokens alone |
| Structure.ValidatePairedKeywords | backend/src/scanner.py:121-144 | the paired-keyword check reports only its four kinds of problems |
| Structure.NoProblemAppend | backend/src/scanner.py:121-144 | a report list lacks a problem exactly when both of its parts lack it |
| Structure.PairStepErrors | backend/src/scanner.py:128-137 | a step reports `alors` without `si` exactly on an `alors` with an empty `si` stack, and `jusqua` without `repeter` exactly on a `jusqua` with an empty `repeter` stack |
| Structure.PairStepStacks | backend/src/scanner.py:125-139 | a step pushes on an opener, pops on a closer with a non-empty stack, and otherwise keeps the stack |
| Structure.PairScanErrorKinds | backend/src/scanner.py:124-139 | the scan over the tokens only reports closers without openers |
| Structure.SiStep | backend/src/scanner.py:125-132 | one step keeps the `si` stack depth and the absence of `alors` errors in step with the token |
| Structure.RepeterStep | backend/src/scanner.py:133-139 | one step keeps the `repeter` stack depth and the absence of `jusqua` errors in step with the token |
| Structure.NeverOverclosedStep | backend/src/scanner.py:124-139 | no prefix closes more than it opened iff that holds for the shorter prefix and the new prefix |
| Structure.NeverOverclosedShorter | backend/src/scanner.py:124-139 | the no-over-closing property of a prefix holds for every shorter prefix |
| Structure.NeverOverclosedLonger | backend/src/scanner.py:124-139 | the no-over-closing property extends by one token when the new prefix closes no more than it opened |
| Structure.SiScanCounts | backend/src/scanner.py:124-132 | with no `alors` error, the leftover `si` count is the number of `si` minus the number of `alors`; and there is no such error iff no prefix has more `alors` than `si` |
| Structure.RepeterScanCounts | backend/src/scanner.py:133-139 | with no `jusqua` error, the leftover `repeter` count is the number of `repeter` minus `jusqua`; and there is no such error iff no prefix has more `jusqua` than `repeter` |
| Structure.PairedKeywordsCleanIffBalanced | backend/src/scanner.py:121-144 | the paired-keyword check reports nothing if and only if `si`/`alors` and `repeter`/`jusqua` are each balanced like brackets |
| Structure.UnclosedReportedInOpeningOrder | backend/src/scanner.py:141-144 | after the closer errors come one report per `si` token still open at the end (`Opened`), then one per `repeter` token still open, each at its own position, in order of opening |
| Structure.Report | backend/src/scanner.py:96-117 | a check makes at most one report, and makes it exactly when it fails |
| Structure.HeaderErrors | backend/src/scanner.py:96-106 | a missing `programme` is reported at token 0; with at least 3 tokens, a non-identifier token 1 and a non-`;` token 2 are each reported at their own position; shorter lists only get the `programme` check; no report appears twice and no other report is made; nothing is reported iff the header is right |
| Structure.DelimiterErrors | backend/src/scanner.py:108-112 | a missing `debut` and a missing `fin` are each reported once, at the last token, and nothing else is reported; nothing is reported iff both appear |
| Structure.TerminatorErrors | backend/src/scanner.py:114-117 | with at least 2 tokens, a token before the last that is not `.` is reported once at its own position, and nothing else is reported; nothing is reported iff the terminator is right |
| Structure.InStructure | backend/src/scanner.py:92-119 | a report is among the structural reports iff it is among one of the four checks' reports |
| Structure.NotPairReport | backend/src/scanner.py:121-144 | the paired-keyword check never produces header, delimiter or terminator problems |
| Structure.InHeader | backend/src/scanner.py:96-106 | a header problem is reported by the structural check iff the header check reports it |
| Structure.InTerminator | backend/src/scanner.py:114-117 | a missing final point is reported by the structural check iff the terminator check reports it |
| Structure.InDelimiters | backend/src/scanner.py:108-112 | a missing `debut`/`fin` is reported by the structural check iff the delimiter check reports it |
| Structure.ProgrammeReported | backend/src/scanner.py:96-98 | the missing-`programme` report at token 0 appears iff token 0 is not `programme` |
| Structure.NameReported | backend/src/scanner.py:100-103 | with at least 3 tokens, the program-name report at token 1 appears iff token 1 is not an identifier |
| Structure.SemicolonReported | backend/src/scanner.py:104-106 | with at least 3 tokens, the `;` report at token 2 appears iff token 2 is not `;` |
| Structure.ShortHeaderUnchecked | backend/src/scanner.py:100 | a list of one or two tokens never gets a program-name or `;` report |
| Structure.DelimitersReported | backend/src/scanner.py:108-112 | the missing-`debut` and missing-`fin` reports appear at the last token iff the keyword is absent |
| Structure.TerminatorReported | backend/src/scanner.py:114-117 | with at least 2 tokens, the missing-point report at the token before the last appears iff it is not `.` |
| Structure.StructureCleanIff | backend/src/scanner.py:92-144 | the structural check reports nothing iff the header is right, `debut` and `fin` appear, the terminator is right, and both keyword pairs are balanced |
| Structure.ScanSource | backend/src/scanner.py:146-161 | the scan result succeeds iff its error list is empty, and its token list ends with the EOF token |
| Structure.ScanSourceSymbolTable | backend/src/scanner.py:38-47 | the symbol table in the scan result describes the result's tokens |
| Structure.ScanSourceSuccessIff | backend/src/scanner.py:146-161 | scanning succeeds iff there is no lexical error and every structural condition holds of the tokens |
| Structure.DelimitersAmong | backend/src/scanner.py:108-112 | missing-delimiter reports survive being appended to earlier errors |
| Structure.MissingDelimiterAtEnd | backend/src/scanner.py:108-112 | after tokenising, a missing `debut` or `fin` is reported at the EOF token's position |
| CliScanner.Step | validation/scanner.py:200-228 | one loop iteration always moves forward and never past the end |
| CliScanner.Emit | validation/scanner.py:225-228 | a matched token is written with its kind's type name at the line and column of its first character |
| CliScanner.Recover | validation/scanner.py:207-224 | the same two recovery branches as the back-end scanner, each with one tagged error at the start position |
| CliScanner.Run | validation/scanner.py:200-228 | the scan loop reaches the end of input and only appends to tokens and errors |
| CliScanner.Tokenize | validation/scanner.py:198-230 | tokenising ends at the end of input with an `EOF` token of empty lexeme at the final line and column |
| CliScanner.RunConsistent | validation/scanner.py:171-181 | line and column stay consistent with the newlines consumed through the whole loop |
| CliScanner.RenderedAppend | validation/scanner.py:190-192 | appending one token to both scanners' outputs keeps the command-line tokens the rendering of the back-end tokens |
| CliScanner.TaggedAppend | validation/scanner.py:194-196 | appending one error to both outputs keeps the command-line errors the tagged back-end errors |
| CliScanner.EmitAgrees | validation/scanner.py:225-228 | emitting a token keeps the two scanners in agreement |
| CliScanner.RecoverAgrees | validation/scanner.py:207-224 | recovery keeps the two scanners in agreement |
| CliScanner.StepAgrees | validation/scanner.py:200-228 | one iteration of each scanner keeps them in agreement |
| CliScanner.RunAgrees | validation/scanner.py:198-228 | the two scan loops agree from any agreeing states |
| CliScanner.TokenizeAgrees | validation/scanner.py:198-230 | the command-line scanner produces exactly the back-end scanner's tokens, written as type name, lexeme, line and column, and its errors, tagged, in the same order |
| CliScanner.ErrorsTaggedAtOffendingCharacter | validation/scanner.py:194-196 | every error entry is tagged `[ERREUR_LEXICALE]` and carries the line and column of an offending character in the source |
| CliScanner.OneEofToken | validation/scanner.py:198-230 | no token but the last has type `EOF` |
| Parser.Convert | validation/parser.py:83-97 | `ID` gives ID; the number types give NOMBRE; `EOF` gives EOF with lexeme `EOF`; otherwise a lexeme whose lowercase is a keyword gives KEYWORD and anything else SYMBOLE; the line is kept |
| Parser.ParserKeywordsAreScannerKeywords | validation/parser.py:36-42 | the parser's keyword list is exactly the scanner's keyword table |
| Parser.SpelledAsLower | validation/parser.py:140-145 | a lexeme is spelled as a lowercase word exactly when its lowercase form is that word |
| Parser.OneSpelling | validation/parser.py:169-171 | a lexeme cannot be two different lowercase words |
| Parser.Match | validation/parser.py:140-145 | `_match` consumes exactly one token iff the current type is the one asked and the lexeme, lower-cased, is the spelling asked; otherwise the state is unchanged. Every spelling the parser asks for is lower case, and for those this is `_match`'s comparison of both sides lower-cased (Parser.FitsIgnoresCase). The contract only splits the two outcomes; what the consumed token means is stated by Parser.FitsIgnoresCase, and where the cursor is by Parser.StoredCursorIsCur |
| Parser.FitsIgnoresCase | validation/parser.py:140-145 | for a lower-case spelling, the token fits exactly when its type is the one asked and its lexeme and the spelling agree once both are lower-cased |
| Parser.MatchType | validation/parser.py:147-152 | `_match_type` consumes exactly one token iff the current type is the one asked; otherwise the state is unchanged. The contract only splits the two outcomes; where the cursor is afterwards is stated by Parser.StoredCursorIsCur |
| Parser.Expect | validation/parser.py:154-158 | `_expect` always moves one token; it reports nothing when the token fits, and otherwise exactly one error at the current token's line naming what was expected and what was found |
| Parser.CurrentTokenTests | validation/parser.py:169-192 | the tests on the current token (`IsKw`, `IsSym`, `IsId`, `IsNombre`, `IsOpRel`, `IsOpAdd`, `IsOpMult`) as the source states them: a keyword with both sides lower-cased, a symbol exactly, an operator by membership in its set (`+`/`-`/`ou`, `*`/`div`/`mod`/`et`, a relational symbol); a symbol is never a keyword, identifier or number |
| Parser.ProgrammePascal | validation/parser.py:198-204 | the program rule is the first rule it records; it consumes at least one token and only extends the state |
| Parser.Corps | validation/parser.py:206-212 | the body consumes at least one token and only extends the state |
| Parser.Declarations | validation/parser.py:208-211 | the optional definition parts consume nothing unless the current token is `constante` or `variable` |
| Parser.PartieDefinitionConstante | validation/parser.py:214-219 | the constant part consumes at least one token and only extends the state |
| Parser.DefinitionConstanteLoop | validation/parser.py:218-219 | the repetition of constant definitions stops at a token that is not an identifier |
| Parser.DefinitionConstante | validation/parser.py:221-226 | a constant definition consumes at least one token and only extends the state |
| Parser.PartieDefinitionVariable | validation/parser.py:228-233 | the variable part consumes at least one token and only extends the state |
| Parser.DefinitionVariableLoop | validation/parser.py:231-233 | the repetition of variable definitions stops at a token that is not an identifier |
| Parser.DefinitionVariable | validation/parser.py:235-243 | a variable definition consumes at least one token and only extends the state |
| Parser.NomVariableLoop | validation/parser.py:238-240 | the list of further names stops at a token that is not `,` |
| Parser.Type | validation/parser.py:245-254 | `entier` and `reel` are recorded as their type rule; anything else gets a type-expected error at its line and is skipped; one token is consumed in every case |
| Parser.Name | validation/parser.py:256-269 | a name rule always records its rule; an identifier is consumed with no error, anything else gets one error and is NOT consumed |
| Parser.Constante | validation/parser.py:271-280 | a number or identifier is recorded as a constant with its lexeme; anything else gets a constant-expected error and is skipped; one token is consumed in every case |
| Parser.InstrComp | validation/parser.py:282-289 | a compound statement consumes at least one token and only extends the state |
| Parser.InstrCompLoop | validation/parser.py:286-288 | the statement list stops at a token that is not `;` |
| Parser.Instruction | validation/parser.py:291-312 | at a token that starts no statement, the empty statement is recorded and nothing is consumed |
| Parser.StructuredInstruction | validation/parser.py:291-312 | the statement dispatch only extends the state |
| Parser.InstructionAffectation | validation/parser.py:314-318 | an assignment consumes at least one token and only extends the state |
| Parser.InstructionSi | validation/parser.py:372-380 | a `si` statement consumes at least one token and only extends the state |
| Parser.SinonPart | validation/parser.py:378-380 | with no `sinon` at the cursor, the else part does nothing |
| Parser.InstructionTantque | validation/parser.py:382-387 | a `tantque` statement consumes at least one token and only extends the state |
| Parser.InstructionRepeter | validation/parser.py:389-394 | a `repeter` statement consumes at least one token and only extends the state |
| Parser.InstructionPour | validation/parser.py:396-409 | a `pour` statement consumes at least one token and only extends the state |
| Parser.PourRange | validation/parser.py:401-407 | the range part of a `pour` consumes at least four tokens |
| Parser.Expression | validation/parser.py:320-325 | an expression consumes at least one token and only extends the state |
| Parser.ExpressionSimple | validation/parser.py:331-339 | a simple expression consumes at least one token and only extends the state |
| Parser.SignPart | validation/parser.py:333-335 | the optional sign only extends the state |
| Parser.ExpressionSimpleLoop | validation/parser.py:337-339 | the additive chain stops at a token that is not an additive operator |
| Parser.Terme | validation/parser.py:345-350 | a term consumes at least one token and only extends the state |
| Parser.TermeLoop | validation/parser.py:348-350 | the multiplicative chain stops at a token that is not a multiplicative operator |
| Parser.Facteur | validation/parser.py:356-370 | a factor consumes at least one token; a token that is not `(`, a number or an identifier gets one factor-expected error naming it and is skipped |
| Parser.Parse | validation/parser.py:413-431 | the trace starts with the program rule and the result is true iff there is no error; an empty token list is rejected |
| Parser.TrailingTokensReported | validation/parser.py:425-427 | when the program rule stops before the end-of-input token, parsing fails and its last error is the trailing-token error |
| Parser.StoredCursorIsCur | validation/parser.py:135-138 | the source's cursor, which stores `current` and stops at the last token, always holds the token the model computes from `pos` alone |
| Parser.StartCursor | validation/parser.py:419-420 | the cursor set up by `parse` satisfies the same correspondence |
| Parser.MultiplicativeOperators | validation/parser.py:185-192 | the multiplicative operators are exactly `*`, `div`, `mod` and `et`; `/` is no operator at all and ends a term |
| Parser.EmptyStatement | validation/parser.py:310-312 | the empty statement records its rule and consumes nothing |
| Parser.StatementDispatch | validation/parser.py:291-309 | an identifier starts an assignment, and `si`, `tantque`, `repeter`, `debut`, `pour` start their statements, each after recording its statement rule |
| Pipeline.LoadTokens | validation/parser.py:55-81 | the loaded list is always one the parser accepts; it is the converted entries, followed by the sentinel exactly when the entries do not already end with `EOF` |
| Pipeline.Analyse | validation/parser.py:413-431 | scanning then parsing always records the program rule first and succeeds iff no syntax error is reported |
| Pipeline.ScannedTokensNeedNoSentinel | validation/parser.py:80-81 | the scanner's output already ends with EOF, so the parser reads exactly one token per scanned token and no sentinel is added |
| Pipeline.KeywordTable | backend/src/automata.py:3-27 | every keyword kind is classed KEYWORD, is spelled as its table word, and that word starts with a letter |
| Pipeline.SymbolTables | backend/src/automata.py:29-53 | every operator and punctuation kind is classed SYMBOLE |
| Pipeline.PlainKindName | validation/parser.py:85-90 | keyword and symbol kinds are never written with an identifier, number or EOF type name |
| Pipeline.WordClass | validation/parser.py:83-97 | a scanned keyword converts to KEYWORD and a scanned identifier to ID, keeping lexeme and line |
| Pipeline.SymbolClass | validation/parser.py:93-97 | a scanned operator or punctuation converts to SYMBOLE, keeping lexeme and line |
| Pipeline.ConvertedClass | validation/parser.py:83-97 | whatever the automaton matches converts to the parser class of its kind |
| Pipeline.KeywordKindFromWord | backend/src/automata.py:87-90 | a match classed KEYWORD is a keyword looked up from its lowercased lexeme |
| Pipeline.SpelledKindsAreKeywords | validation/parser.py:36-42 | a kind has a keyword spelling exactly when it is classed KEYWORD |
| Pipeline.KeywordRecognisedByKind | validation/parser.py:169-171 | the parser sees a scanned token as keyword `w` iff the scanner gave it the kind spelled `w` |
| Pipeline.LoadedRendered | validation/parser.py:55-81 | loading the written tokens gives one parser token per scanned token, converted from its kind name, lexeme and line |
| Pipeline.MatchedTokenClass | validation/parser.py:83-97 | a token the scanner found in the source converts to the parser class of its kind |
| Pipeline.ConvertedScannedToken | validation/parser.py:83-97 | each scanned token, the final EOF included, converts to the parser class of its kind with its lexeme (`EOF` for the end) and line |
| Pipeline.ScannedTokenClass | validation/parser.py:55-97 | the parser's `i`-th token is the class of the scanner's `i`-th token, with its lexeme and line |
| Pipeline.ScannedTokenClasses | validation/parser.py:55-97 | the parser reads as many tokens as the scanner produced, each the class of the scanned kind with the scanned lexeme and line |
| Grammar.FactorParses | validation/parser.py:356-370 | a written factor is read in exactly its tokens without error |
| Grammar.MulChainParses | validation/parser.py:348-350 | a written chain of multiplicative operations is read in exactly its tokens without error |
| Grammar.TermParses | validation/parser.py:345-350 | a written term is read in exactly its tokens without error |
| Grammar.AddChainParses | validation/parser.py:337-339 | a written chain of additive operations is read in exactly its tokens without error |
| Grammar.AddMoreParses | validation/parser.py:337-339 | a non-empty additive chain is read in exactly its tokens without error |
| Grammar.AddStepParses | validation/parser.py:337-339 | one additive operator and its term are read in exactly their tokens without error |
| Grammar.SimpleParses | validation/parser.py:331-339 | a written simple expression, with or without sign, is read in exactly its tokens without error |
| Grammar.SimpleTailParses | validation/parser.py:335-339 | the terms of a simple expression after its sign are read in exactly their tokens without error |
| Grammar.ExprParses | validation/parser.py:320-325 | a written expression, with or without comparison, is read in exactly its tokens without error |
| Grammar.StmtParses | validation/parser.py:291-312 | a written statement followed by a token that may follow it is read in exactly its tokens without error |
| Grammar.AssignParses | validation/parser.py:291-294 | a written assignment is read as a statement in exactly its tokens without error |
| Grammar.AffectationParses | validation/parser.py:314-318 | `_instruction_affectation` reads a written assignment in exactly its tokens without error |
| Grammar.TargetParses | validation/parser.py:314-317 | the target variable and `:=` are read in two tokens without error |
| Grammar.GuardParses | validation/parser.py:372-387 | a keyword, a written expression and the closing `alors`/`faire` are read in exactly their tokens without error |
| Grammar.IfParses | validation/parser.py:295-297 | a written `si` is read as a statement in exactly its tokens without error |
| Grammar.SiParsesWritten | validation/parser.py:372-380 | `_instruction_si` reads a written `si` in exactly its tokens without error |
| Grammar.SiParses | validation/parser.py:372-380 | `_instruction_si` reads a `si` whose parts are laid out as written in exactly its tokens without error |
| Grammar.ThenElseParses | validation/parser.py:377-380 | the `alors` branch and an optional `sinon` branch are read in exactly their tokens without error |
| Grammar.WhileParses | validation/parser.py:298-300 | a written `tantque` is read as a statement in exactly its tokens without error |
| Grammar.TantqueParsesWritten | validation/parser.py:382-387 | `_instruction_tantque` reads a written `tantque` in exactly its tokens without error |
| Grammar.TantqueParses | validation/parser.py:382-387 | `_instruction_tantque` reads a `tantque` whose parts are laid out as written in exactly its tokens without error |
| Grammar.RepeatParses | validation/parser.py:301-303 | a written `repeter` is read as a statement in exactly its tokens without error |
| Grammar.RepeterParsesWritten | validation/parser.py:389-394 | `_instruction_repeter` reads a written `repeter` in exactly its tokens without error |
| Grammar.RepeterParses | validation/parser.py:389-394 | `_instruction_repeter` reads a `repeter` whose parts are laid out as written in exactly its tokens without error |
| Grammar.ConstParses | validation/parser.py:271-280 | a number or identifier is read as a constant in one token without error |
| Grammar.BoundsParse | validation/parser.py:401-407 | `de … a …` and an optional `pas …` are read in exactly their tokens without error |
| Grammar.ForParses | validation/parser.py:307-309 | a written `pour` is read as a statement in exactly its tokens without error |
| Grammar.PourParsesWritten | validation/parser.py:396-409 | `_instruction_pour` reads a written `pour` in exactly its tokens without error |
| Grammar.PourParses | validation/parser.py:396-409 | `_instruction_pour` reads a `pour` whose parts are laid out as written in exactly its tokens without error |
| Grammar.PourHeadParses | validation/parser.py:396-408 | the `pour` head up to `faire` is read in exactly its tokens without error |
| Grammar.BlockParses | validation/parser.py:304-306 | a written block is read as a statement in exactly its tokens without error |
| Grammar.CompoundParses | validation/parser.py:282-289 | a written `debut … fin` is read in exactly its tokens without error |
| Grammar.ChainParses | validation/parser.py:286-288 | a written list of `;`-separated statements before `fin` is read in exactly its tokens without error |
| Grammar.ConstDefParses | validation/parser.py:221-226 | a written constant definition is read in its four tokens without error |
| Grammar.ConstDefsParse | validation/parser.py:217-219 | a written list of constant definitions is read in exactly its tokens without error |
| Grammar.ConstPartParses | validation/parser.py:214-219 | a written constant part is read in exactly its tokens without error |
| Grammar.MoreNamesParse | validation/parser.py:238-240 | a written list of `, name` is read in exactly its tokens without error |
| Grammar.VarDefParses | validation/parser.py:235-243 | a written variable definition is read in exactly its tokens without error |
| Grammar.VarTailParses | validation/parser.py:241-243 | `: type ;` is read in three tokens without error |
| Grammar.VarDefsParse | validation/parser.py:231-233 | a written list of variable definitions is read in exactly its tokens without error |
| Grammar.VarPartParses | validation/parser.py:228-233 | a written variable part is read in exactly its tokens without error |
| Grammar.OptionalConstsParse | validation/parser.py:208-209 | the optional constant part, present or absent, is read in exactly its tokens without error |
| Grammar.OptionalVarsParse | validation/parser.py:210-211 | the optional variable part, present or absent, is read in exactly its tokens without error |
| Grammar.DeclarationsParse | validation/parser.py:208-211 | both optional definition parts are read in exactly their tokens without error |
| Grammar.CorpsParses | validation/parser.py:206-212 | a written body is read in exactly its tokens without error |
| Grammar.ProgrammeHeadParses | validation/parser.py:199-202 | `programme name ;` is read in three tokens without error |
| Grammar.ProgrammeParses | validation/parser.py:198-204 | a written program is read in exactly its tokens without error |
| Grammar.CleanRunAccepted | validation/parser.py:425-431 | a program rule that stops on the end-of-input token without error makes `parse` succeed |
| Grammar.EmittedProgramParses | validation/parser.py:413-431 | every program of the grammar, written as tokens and followed by the end-of-input token, is accepted with no error reported |

The token tests `Parser.IsKw`, `IsSym`, `IsId`, `IsNombre`, `IsOpRel`,
`IsOpAdd` and `IsOpMult` model `_is_kw` … `_is_op_mult`
(validation/parser.py:169-192). `IsSym` compares the lexeme exactly, and
`IsKw` compares it lower-cased. `Parser.CurrentTokenTests` states what they test.

Some one-statement helpers have no row of their own, because their
contracts only spell out their single update. Their meaning is stated by
other lemmas:
- `Parser.Advance` (validation/parser.py:135-138): `Parser.StoredCursorIsCur`.
- `Parser.AddRule`, `Parser.Error` and `Parser.Operator`
  (validation/parser.py:160-165, 327-329): `Parser.Expect`, `Parser.Match`
  and the `Grammar` lemmas.
- `CliScanner.HandleError` and `CliScanner.Finish`
  (validation/scanner.py:194-196, 230): `CliScanner.TokenizeAgrees`.
- `Pipeline.ConvertAll` and `Pipeline.Entries` (validation/parser.py:60-71,
  validation/scanner.py:282-284): `Pipeline.LoadedRendered` and
  `Pipeline.ScannedTokenClasses`.
- `Structure.ValidateProgramStructure` (backend/src/scanner.py:92-119): its
  contract only lists the four checks in order. `Structure.StructureCleanIff`
  states that it reports nothing exactly when the program is well formed, and
  `Structure.InStructure` states which check each report comes from.

## Left out

- **I/O and console.**
  - The command-line `main()` functions, `print` and `sys.exit` are not modelled.
  - Nor are the FastAPI routes and CORS set-up (backend/src/main.py) or the
    pydantic record shapes (backend/src/model/Token.py).
  - The token record appears as the `Token` datatype.
- **The token file between the two programs.** `write_output`, and reading
  and splitting the token file in `load_tokens`, are not modelled. The
  parser gets the entries as the scanner wrote them. Only the conversion
  and the EOF sentinel of `load_tokens` are modelled.
- Pipeline.Entries: takes each scanned token's line as it is. The file
  round trip loses the EOF token's line, because its empty lexeme vanishes
  when the line is split, so the second field is read as the lexeme and the
  line becomes 0. After `_convert_token_type`, that only changes the line
  reported for an error at the end of input.
- **Message text.** Exact French messages are not modelled. Lexical,
  structural and syntax errors are datatypes: the problem plus its line,
  and its column where the source has one. The command-line scanner's
  `[ERREUR_LEXICALE]` tag is kept as a string field.
- **`except Exception` in `parse`** (validation/parser.py:428-429). It only
  catches Python runtime faults such as recursion depth. The model is
  total, so that branch cannot be reached.
- **Case folding.** Lowercasing is ASCII only. The automaton only lowercases
  runs of ASCII letters and digits, and every lowercase comparison the
  parser makes is against an ASCII keyword or symbol. The only non-ASCII
  character Python lowercases to an ASCII letter is the Kelvin sign, to
  `k`, and no keyword contains `k`. So every comparison comes out the same.
- **Whitespace.** `str.isspace` is modelled as its explicit set of code
  points.
- **`_peek`.** The parser never calls it.
- **`get_result`.**
  - The DTO conversion is not modelled.
  - Calling `get_result` a second time runs the structural check again and
    duplicates its errors. The model runs the check once, as `scan_source`
    does.
- Grammar.EmittedProgramParses:
  - The theorem only covers programs whose `si … alors … sinon` is
    unambiguous (`WfStmt`): no `sinon` belongs to a `si` whose `alors`
    branch ends with a `si` that has no `sinon`. The parser reads such
    a `sinon` as the inner `si`'s, so that tree would be read back as a
    different tree.
  - The converse, that every token list the parser accepts writes out some
    program, is not proved.
  - The model has no recursion limit. In the source, each parenthesis level
    costs four Python frames (`_expression`, `_expression_simple`, `_terme`,
    `_facteur`), and each nested statement costs two. Under Python's default
    limit of 1000 frames, a program with about 250 nested parentheses ends in
    the `except` branch (validation/parser.py:428-429) with one error, and
    `parse` returns False. The theorem describes the source only for programs
    nested below that depth.
- Parser.ProgrammePascal: the contracts of the individual grammar
  procedures only state that the state is extended and tokens consumed. What
  each procedure reads is stated by the `Grammar` lemmas on written
  programs, and what it reports on bad input is stated for the primitives
  (`Expect`, `Name`, `Type`, `Constante`, `Facteur`) and by
  `TrailingTokensReported`.
- CliScanner.ErrorsTaggedAtOffendingCharacter: states the error's position
  as that of some offending character, not of a particular one. Which
  character is stated through `TokenizeAgrees` and the back-end lemmas
  `RecoveryStep`, `RecoveryLetter` and `RecoveryOther`.
