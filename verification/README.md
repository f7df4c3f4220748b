# maiden-lane in Dafny

A model of the parts of maiden-lane whose correctness spans several functions, and proofs about it.
`dafny verify dfyconfig.toml` checks all of it.

Code that the repository writes with mutable fields or loops is written here as classes and loops, and
each such method is proved to compute a function, or to keep an invariant, about which the lemmas then
speak.  Code that the repository writes as expressions and recursion is written as functions.

**The rule language** (`internal/dsl`).  `Tokens`, `LexerSpec`, `LexerMachine`, `Ast`, `ExprParser`,
`FileParser` and `ParserMachine` hold the lexer and the parser, as classes and as functions on the tokens that
are left; `Format` and `Printer` hold the canonical printer, as functions and as the loops that append to a
builder.  `Pratt` shows that the operator parser is sound and complete for precedence-correct trees, and
`UniqueTrees` that there is one reading; `Levels` says by sets of tokens how operators group.  `LexerLaws` and
`OtherSpellings` say what is made of texts and declarations that the printer never writes, `Layout` how those
that it writes are laid out.  `LexerFacts`, `ExprRoundTrip`, `FileTokens`, `FileReading`,
`FileLexing` and `DeclLexing` show what the parser makes of printed text, and `OpenCalls`, `ClosedFiles` and
`OpenReading` which printed texts it refuses; `Settling`, `Contents`, `FileSettling`, `NormalForms` and
`FileRoundTrip` show exactly when what it finds is what was printed, up to signs folded into numbers, and exactly
when formatting is idempotent; `ParserOutput` and `SourceRoundTrip` carry this to accepted sources.
`Formatter` is the formatter as it runs.

**Lowering** (`internal/dsl/compile.go`).  `Int64`, `TermKinds` and `Semantics` hold the kernel's arithmetic
and its evaluator; `Lowering` desugars surface expressions into the kernel's language and `LoweringMeaning`
shows that their meaning is kept, which it gives by the names of calls and by exact arithmetic, and
`LoweringProgress` which expressions lower; `LoweringFormatted` shows the same for formatting first; `FieldPaths`,
`SortedTexts`, `RuleReads` and `RuleLowering` hold the field paths of a rule, the reads derived for it, and the
selectors that lowering completes in place.

**The spine and its observer.**  `Phases` says what a well-bracketed list of events is; `Spine` runs
compile, bind, execute, seal and assess over arbitrary operations that may fail anywhere, with a context that
may be done whenever it is asked, and says of each thing sealed and assessed what it is the answer to; `Observer` is the stack machine that the events of concurrent runs share.

**Publication and promotion.**  `Publications` interleaves any number of publishers over an append-only
store that may fail to be read, written or heard; `Evidence`, `ComparisonAssembling`, `Comparability` and
`MetricRegression` assemble the evidence of a comparison and check it; `RegressionExactly` says over which
corpora that check means what it says.

**Execution, replay and the wire.**  `Queue` is the leased work queue with its claim cursor; `Rehydration`
holds the stored projection, replay verification, receipts and publishable evidence; `Wire` the translation
of expressions and select-and-assign payloads.

## Where the code and its promises part

Each of these is a lemma, beside the lemma that says when the promise is kept.

- A `-` directly before the least 64-bit number is lowered to that number itself
  (`LoweringMeaning.LeastWraps`, `LoweringMeaning.LeastInstance`); everything else keeps its meaning
  (`LoweringMeaning.KeptExactly`).
- Formatting a decimal under two minus signs changes the value of what it lowers to
  (`LoweringFormatted.DoubleDecimalChanges`, `LoweringFormatted.DoubleDecimalInstance`); formatting anything
  else does not (`LoweringFormatted.AlikeExactly`).
- The kernel's product of the least number and -1, in that order, passes the overflow check
  (`Int64.MulIsExactButOnce`).
- A duration whose seconds do not fit into 64 bits wraps around (`Lowering.DurationInstance`), and no other
  does (`Lowering.DurationExactlyWhenItFits`).
- An operator without a `select` parses and then crashes the printer (`Formatter.FormatterCrashes`).
- Where the parser would take a name or a string, it takes the second choice but counts it as an error, so that
  no file with a checkpoint, rule or profile named by a string is accepted (`OtherSpellings.SecondChoiceIsAnError`,
  `OtherSpellings.ReadsCheckpointNamed`).
- An operand followed by an unclosed `(` parses and is printed as a text that does not
  (`OpenCalls.OpenCallIsAccepted`); an expression is printed so that it parses exactly when it holds no such
  operator (`OpenCalls.ReadableExactly`), and a file exactly when moreover its relations have their names and
  ends (`FileRoundTrip.FormatIsIdempotent`).
- `%q` writes escapes that the lexer does not read back; the strings for which it does are exactly the plain
  ones (`LexerFacts.QuoteRoundTrip`).  So formatting is not idempotent on every source
  (`Formatter.FormatterNotIdempotent`), but exactly on those with plain strings and nothing left open
  (`SourceRoundTrip.SourceIsIdempotent`).
- The comparison of ready counts is not always redundant (`MetricRegression.AggregateMatters`): it is exactly
  when no side repeats an initial state (`RegressionExactly.CountsRedundantExactly`).  Passing does not always
  pair the cases (`MetricRegression.PassingWithoutBijection`): it does exactly when no side repeats a state or
  all states are one (`RegressionExactly.PairedExactly`).

## Assumptions

The operations of the semantic kernel are parameters.  The spine assumes that an assessment names the
checkpoint and profile it was asked about and that a sealed checkpoint carries its key; that sealed
identities never repeat is assumed only where prefixes are stated.  Evidence assembly assumes that
rehydrating an execution gives artifacts of the state and world it was bound to, and corpus identity is
assumed injective only where two sides are aligned.  Replay assumes that running the same inputs again gives
the same result.  Values that are not integers are opaque to the evaluator, with their comparisons and
operations as parameters; on the wire the kernel's constructors are assumed to make canonical values.

## Model

| member | source | states |
|---|---|---|
| `LexerMachine.Lexer.constructor` | internal/dsl/lexer.go:21-29 | a fresh lexer stands before its whole input |
| `LexerMachine.Lexer.ReadChar` | internal/dsl/lexer.go:39-51 | takes exactly one character off the rest of the input, or stays at its end, within `0 <= pos <= readPos <= len` |
| `LexerMachine.Lexer.SkipWhitespaceAndComments` | internal/dsl/lexer.go:61-103 | leaves what is behind all white space and the three kinds of comments |
| `LexerMachine.Lexer.ReadIdentifier` | internal/dsl/lexer.go:240-246 | returns and takes the longest word at the cursor |
| `LexerMachine.Lexer.ReadNumber` | internal/dsl/lexer.go:248-272 | returns the number of the specification, its `d` suffix dropped, and leaves the text behind it |
| `LexerMachine.Lexer.ReadString` | internal/dsl/lexer.go:274-308 | returns the unescaped text up to the closing quote, and whether there was one |
| `LexerMachine.Lexer.NextToken` | internal/dsl/lexer.go:106-238 | returns the first token of the remaining text and leaves the rest of its tokens; every token but the end of the file advances the offset |
| `LexerMachine.Lexer.ScanToken` | internal/dsl/lexer.go:112-237 | takes the branch that the first character selects, for every character |
| `LexerSpec.LexOne` | internal/dsl/lexer.go:112-237 | every token takes at least one character, and punctuation has one spelling |
| `LexerLaws.Characters` | internal/dsl/lexer.go:310-316 | what letters, digits and white space are, and what a word may hold |
| `LexerLaws.LineCommentIsSkipped` | internal/dsl/lexer.go:61-103 | a comment behind `//` or `#` is skipped up to the end of its line or of the text, whatever it holds |
| `LexerLaws.BlockCommentIsSkipped` | internal/dsl/lexer.go:61-103 | a comment between `/*` and `*/` is skipped, and one that is not closed to the end of the text |
| `LexerLaws.LexMarked` | internal/dsl/lexer.go:248-272 | a number marked by `d` or `D` is the decimal of its digits |
| `LexerLaws.LexThenDot` | internal/dsl/lexer.go:248-272 | a point that no digit follows is no part of the number before it |
| `LexerLaws.LexMarks` | internal/dsl/lexer.go:112-237 | each mark of one character is its token |
| `LexerLaws.LexSigns` | internal/dsl/lexer.go:112-237 | of the signs that start alike the longer one is taken where it stands; a single `&` or `|` is illegal |
| `LexerLaws.UnclosedIsIllegal` | internal/dsl/lexer.go:274-308 | a string that its line does not close is one illegal token |
| `LexerLaws.OtherWords` | internal/dsl/token.go:129-209 | a word that is in none of the listed groups of keywords, each in the order of its tokens, is a name |
| `ParserMachine.Parser.constructor` | internal/dsl/parser.go:49-55 | holds two tokens of lookahead and everything the lexer has left |
| `ParserMachine.Parser.NextToken` | internal/dsl/parser.go:57-60 | moves on by exactly one token of the stream |
| `ParserMachine.Parser.ExpectPeek` | internal/dsl/parser.go:70-77 | moves on if the next token is as wanted, and records one error if not |
| `ParserMachine.Parser.ParseExpression` | internal/dsl/parser.go:839-851 | computes what the functional Pratt parser computes, state and errors included; what that reads is said below by the levels of the operators |
| `ParserMachine.Parser.ParseTighter` | internal/dsl/parser.go:845-849 | the loop extends its operand exactly while the next operator binds tighter |
| `ParserMachine.Parser.ParseInfixExpression` | internal/dsl/parser.go:1011-1018 | one operator and the operand that binds tighter than it |
| `ParserMachine.Parser.ParsePrefixExpression` | internal/dsl/parser.go:853-907 | every kind of operand, with the sign folded into a number directly behind it |
| `ParserMachine.Parser.ParsePathOrFunction` | internal/dsl/parser.go:909-964 | a path, a literal constructor or a call |
| `ParserMachine.Parser.ParsePathExpression` | internal/dsl/parser.go:966-983 | a dotted path, or the error at its first odd token |
| `ParserMachine.Parser.ParseCall` | internal/dsl/parser.go:991-1009 | the operands of a call up to its closing parenthesis |
| `ParserMachine.Parser.ParseFieldDecl` | internal/dsl/parser.go:216-248 | a field and whether it is optional |
| `ParserMachine.Parser.ParseEntityDecl` | internal/dsl/parser.go:194-214 | an entity with the fields that could be read |
| `ParserMachine.Parser.ParseRelationDecl` | internal/dsl/parser.go:250-281 | a relation and its endpoints, in any order |
| `ParserMachine.Parser.ParseSchemaDecl` | internal/dsl/parser.go:143-170 | a schema, whatever stands between its entities and relations |
| `ParserMachine.Parser.ParseEntityDeclStandalone` | internal/dsl/parser.go:172-181 | a schema of one entity |
| `ParserMachine.Parser.ParseRelationDeclStandalone` | internal/dsl/parser.go:183-192 | a schema of one relation |
| `ParserMachine.Parser.ParseStringList` | internal/dsl/parser.go:421-434 | the strings of a list, other tokens skipped |
| `ParserMachine.Parser.ParseRuleAnnotations` | internal/dsl/parser.go:398-419 | the three lists of a rule, in any order |
| `ParserMachine.Parser.ParseSelector` | internal/dsl/parser.go:459-487 | a selector and the clauses it has |
| `ParserMachine.Parser.ParseAssignments` | internal/dsl/parser.go:489-524 | the assignments up to the first that cannot be read |
| `ParserMachine.Parser.ParseSelectAndAssign` | internal/dsl/parser.go:526-540 | crashes exactly when no selector could be read |
| `ParserMachine.Parser.ParseInsertEntity` | internal/dsl/parser.go:542-577 | crashes exactly when a `select` inside it has no kind |
| `ParserMachine.Parser.ParseDeleteEntity` | internal/dsl/parser.go:579-600 | as above, for deletion |
| `ParserMachine.Parser.ParseRelateEntities` | internal/dsl/parser.go:602-650 | both endpoints, in any order, and the guard |
| `ParserMachine.Parser.ParseUnrelateEntities` | internal/dsl/parser.go:652-700 | the same with its own word |
| `ParserMachine.Parser.ParseMergeEntities` | internal/dsl/parser.go:702-760 | a merge with its flags and trailing assignments |
| `ParserMachine.Parser.ParsePartition` | internal/dsl/parser.go:806-835 | one partition of a split |
| `ParserMachine.Parser.ParseSplitEntity` | internal/dsl/parser.go:762-804 | a split and its partitions, in order |
| `ParserMachine.Parser.ParseOperator` | internal/dsl/parser.go:436-457 | the operator its first word names |
| `ParserMachine.Parser.ParseRuleDecl` | internal/dsl/parser.go:283-312 | a rule, or a typed nil behind an error |
| `ParserMachine.Parser.ParseCheckpointDecl` | internal/dsl/parser.go:314-333 | a checkpoint and the rule it is after |
| `ParserMachine.Parser.ParseRequirementDecl` | internal/dsl/parser.go:379-396 | one requirement of a profile |
| `ParserMachine.Parser.ParseProfileDecl` | internal/dsl/parser.go:335-377 | a profile with what it implies and requires |
| `ParserMachine.Parser.ParseDeclaration` | internal/dsl/parser.go:120-141 | the declaration its first word names, or one error |
| `ParserMachine.Parser.ParseFile` | internal/dsl/parser.go:90-107 | every declaration of the stream; terminates on every input |
| `ParserMachine.ParseSource` | internal/dsl/parser.go:90-107 | lexing and parsing a text crashes, fails or returns a file exactly as the specification on its tokens says |
| `Pratt.Reads` | internal/dsl/parser.go:839-1018 | completeness: every precedence-correct tree is read from its own tokens, before any token that binds no tighter |
| `Pratt.Explain` | internal/dsl/parser.go:839-1018 | soundness: whenever no error is recorded, what was consumed is the yield of a precedence-correct tree with left-associative chains, whose meaning is what was returned, and nothing tighter follows |
| `UniqueTrees.UniqueReading` | internal/dsl/parser.go:8-38 | two precedence-correct trees without call or dot operators over one token stream are the same tree, parentheses included, and end at the same place |
| `Levels.TwoOperators` | internal/dsl/parser.go:10-38 | `a o b q c`, for operators of the six listed levels, is read as `a o (b q c)` if `q` stands on a later level than `o`, and as `(a o b) q c` if not |
| `Levels.PrefixTakesOne` | internal/dsl/parser.go:871-889 | `!`, or `-` not before a number, takes one operand before any operator |
| `Levels.LegalByLevels` | internal/dsl/parser.go:10-38 | the precedence-correct trees are exactly those that are grouped as the levels say, on the left not looser and on the right only tighter |
| `Levels.ReadsByLevels` | internal/dsl/parser.go:839-1018 | every tree grouped as the levels say is read from its own tokens, before whatever may end an expression |
| `Levels.ConstructorMakes` | internal/dsl/parser.go:909-964 | a literal constructor makes the literal that its name says |
| `Levels.CallIsRead` | internal/dsl/parser.go:985-1009 | each of the eighteen called words, and any name that makes no literal, calls what it names with the operands in its parentheses, or with none |
| `Levels.PathIsRead` | internal/dsl/parser.go:955-964 | a path goes on behind each dot with a name, `from` or `to` |
| `Levels.LiteralIsRead` | internal/dsl/parser.go:855-884 | what each literal token is, and a sign before a number is part of it |
| `LexerFacts.QuoteRoundTrip` | internal/dsl/lexer.go:274-308 | `%q` and the lexer's escapes are inverse exactly on printable ASCII with newline, tab and carriage return |
| `LexerFacts.LexString` | internal/dsl/format.go:244-246 | a quoted ASCII text is one string token, whose value is known even where the escapes disagree |
| `ExprRoundTrip.LexExpr` | internal/dsl/format.go:238-285 | a printed expression before a delimiter lexes into the tokens of its fully parenthesised tree |
| `ExprRoundTrip.CstOfLegal` | internal/dsl/format.go:238-285 | that tree is precedence-correct and means what reading back gives |
| `ExprRoundTrip.ReadsBack` | internal/dsl/parser.go:839-1018 | reading a printed expression stops on its last token, whatever its literals hold |
| `ExprRoundTrip.ExprRoundTrip` | internal/dsl/format.go:238-285 | the parser finds the normal form of a printed expression if and only if its strings are plain and its decimals have a fraction |
| `ExprRoundTrip.NormPrintsAlike` | internal/dsl/parser.go:871-884 | folding signs changes nothing in print and nothing when repeated |
| `OpenCalls.OpenCallIsAccepted` | internal/dsl/parser.go:36-37 | `1(2` is accepted without an error, and what it is printed as is not |
| `OpenCalls.ReadableExactly` | internal/dsl/parser.go:1011-1018 | the printed text of any expression whose literals are of their kind is read without an error if and only if no `(` or `.` was taken for an operator in it |
| `FileReading.ReadsSelector` | internal/dsl/parser.go:459-487 | the tokens of a printed selector are read as its normal form |
| `FileReading.ReadsOperator` | internal/dsl/parser.go:436-457 | the tokens of each of the seven operators are read back whole |
| `FileReading.ReadsDecl` | internal/dsl/parser.go:120-141 | the tokens of a printed declaration are read back |
| `FileReading.ReadsFile` | internal/dsl/parser.go:90-107 | the tokens of a printed file are read back without an error |
| `OtherSpellings.ReadsMixed` | internal/dsl/parser.go:143-281 | in a schema entities and relations may be mixed, fields be marked required, optional or neither, ends stand in any order or repeat, and anything end in `;`, `,` or nothing: what is read is each kind in order, with the last end of a direction |
| `OtherSpellings.ReadsAlone` | internal/dsl/parser.go:172-192 | a declaration of one entity or relation is a schema of it |
| `OtherSpellings.SemicolonIsNothing` | internal/dsl/parser.go:120-141 | semicolons between declarations say nothing |
| `OtherSpellings.ReadsCheckpointNamed` | internal/dsl/parser.go:314-333 | a checkpoint whose names are strings is read, and each string is counted as an error |
| `OtherSpellings.ReadsListForms` | internal/dsl/parser.go:421-434 | the items of a list may be names or strings, with commas or without |
| `OtherSpellings.ReadsNoteForms` | internal/dsl/parser.go:398-419 | the annotations of a rule may stand in any order, with commas or without; of two of a kind the last counts |
| `OtherSpellings.ReadsInsertClauses` | internal/dsl/parser.go:542-577 | the clauses of an insertion may stand in any order and end in any way; of two of a kind the last counts |
| `OtherSpellings.ReadsLinkClauses` | internal/dsl/parser.go:602-700 | so may the ends and the guard of a relation |
| `OtherSpellings.ReadsMergeClauses` | internal/dsl/parser.go:702-760 | so may the clauses and flags of a merge |
| `OtherSpellings.ReadsSplitClauses` | internal/dsl/parser.go:762-804 | and those of a split, whose partitions keep their order |
| `Layout.RuleLines` | internal/dsl/format.go:83-101 | a rule opens on one line, holds its operator two columns in, and closes on a line of its own |
| `Layout.InsertLines` | internal/dsl/format.go:161-171 | the lines of an insertion: its clauses four columns in, its assignments behind the brace |
| `Layout.LinkLines` | internal/dsl/format.go:179-203 | the lines of a relation: each end a word of its own with its selector below it |
| `Layout.MergeLines` | internal/dsl/format.go:205-217 | the lines of a merge, both flags always written |
| `Layout.SplitLines` | internal/dsl/format.go:219-235 | the lines of a split, its partitions between its flag and its brace |
| `Layout.FileLines` | internal/dsl/format.go:20-30 | declarations are one blank line apart and the text ends with its line |
| `FileLexing.LexOperatorText` | internal/dsl/format.go:111-235 | the text of each of the seven operators lexes into its tokens |
| `DeclLexing.LexDecl` | internal/dsl/format.go:32-101 | the text of every kind of declaration lexes into its tokens |
| `DeclLexing.LexFile` | internal/dsl/format.go:20-30 | the text of a file lexes into the tokens of its declarations |
| `FileRoundTrip.FileReadsBack` | internal/dsl/format.go:20-235 | lexing and parsing the printed text of any well-formed file, whatever ASCII its strings hold, consumes all of it, records no error and returns the file as the lexer knows it |
| `OpenReading.OpenDecls` | internal/dsl/parser.go:90-107 | an error is recorded, or the parser crashes, in the tokens of every list of declarations in which a call is left open or a name is missing |
| `ClosedFiles.FileClosed` | internal/dsl/format.go:20-235 | a written file can be read back if and only if no call is left open in it and every name is there and no keyword |
| `FileRoundTrip.FileRoundTrip` | internal/dsl/format.go:20-235 | what is found in the printed text of a written file is that file, signs folded in, if and only if nothing in it is left open, its strings are plain and its decimals have a fraction |
| `Settling.ExprSettles` | internal/dsl/format.go:238-285 | an expression that was read back is found again, and prints as before if and only if its strings were plain, and shorter otherwise |
| `FileSettling.FileSettles` | internal/dsl/format.go:20-235 | the same for a whole file |
| `FileRoundTrip.FormatIsIdempotent` | internal/dsl/format.go:9-30 | the text of a written file can be formatted if and only if nothing in the file is left open; that changes nothing if and only if moreover its strings are plain; and formatting once more never does |
| `ParserOutput.StreamIsSpelled` | internal/dsl/lexer.go:106-238 | every word token of any text is spelled as the keyword table says |
| `ParserOutput.ParsedIsShaped` | internal/dsl/parser.go:90-835 | whatever the source, a file parsed without an error has a name wherever one is printed, a path wherever a path is, and the guard its selector asks for |
| `SourceRoundTrip.AcceptedIsWritten` | internal/dsl/format.go:9-17 | an accepted source holds a file that is written token by token if and only if its strings are ASCII, its decimals digits, and its atoms and the names of its relations words |
| `SourceRoundTrip.SourceIsIdempotent` | internal/dsl/format.go:9-17 | for every accepted source with such contents: its formatted text is accepted if and only if nothing is left open; formatting that changes nothing if and only if moreover its strings are plain; a third time changes nothing in any case |
| `Formatter.RunFormatSource` | internal/dsl/format.go:9-17 | the whole formatter computes the specification: text, refusal or crash |
| `Formatter.FormatterNotIdempotent` | internal/dsl/format.go:9-17 | a control character in a string makes formatting twice differ from formatting once |
| `Formatter.FormatterCrashes` | internal/dsl/parser.go:557-558 | an operator without a selector parses without an error and crashes the printer |
| `Printer.PrintSelector` | internal/dsl/format.go:130-141 | appends exactly the text of the selector |
| `Printer.PrintAssignments` | internal/dsl/format.go:143-152 | the loop appends the assignments with their separators |
| `Printer.PrintSelect` | internal/dsl/format.go:154-159 | appends the selector and any assignments |
| `Printer.PrintInsert` | internal/dsl/format.go:161-171 | appends the operator, or follows a nil selector exactly when there is none |
| `Printer.PrintDelete` | internal/dsl/format.go:173-177 | the same for deletion |
| `Printer.PrintLink` | internal/dsl/format.go:179-203 | the same for both relation operators, guard included |
| `Printer.PrintMerge` | internal/dsl/format.go:205-217 | the same for merging |
| `Printer.PrintPartition` | internal/dsl/format.go:222-233 | appends one partition |
| `Printer.PrintSplit` | internal/dsl/format.go:219-235 | the loop appends the partitions in order |
| `Printer.PrintOperator` | internal/dsl/format.go:111-128 | appends the operator its node is |
| `Printer.PrintEntity` | internal/dsl/format.go:63-72 | the loop appends the fields of an entity |
| `Printer.PrintSchema` | internal/dsl/format.go:61-81 | the loops append entities before relations |
| `Printer.PrintProfile` | internal/dsl/format.go:49-59 | the loop appends the requirements of a profile |
| `Printer.PrintRule` | internal/dsl/format.go:83-101 | appends only the annotations that are not empty |
| `Printer.PrintDecl` | internal/dsl/format.go:32-43 | appends the declaration, and fails exactly on what cannot be printed |
| `Printer.PrintFile` | internal/dsl/format.go:20-30 | the loop separates declarations by a blank line |
| `Int64.MulIsExactButOnce` | internal/semantic/evaluate_expr.go:631-640 | the check of a product is exact if and only if the operands are not the least integer and -1, in that order; for them it returns the least integer |
| `Int64.DivIsExact` | internal/semantic/evaluate_expr.go:343-356 | a quotient is refused for a zero divisor and where it does not fit, and is truncated toward zero otherwise |
| `Int64.ModIsExact` | internal/semantic/evaluate_expr.go:369-382 | a remainder is what the truncated quotient leaves, and is refused where the quotient is |
| `Lowering.DurationExactlyWhenItFits` | internal/dsl/compile.go:738-785 | a duration is its digits times its unit if and only if that fits into 64 bits |
| `Lowering.DurationInstance` | internal/dsl/compile.go:738-785 | `10000000000000000h` is a duration, and another one than it says |
| `LoweringProgress.LowersExactly` | internal/dsl/compile.go:565-963 | an expression lowers if and only if its literals are taken, its operators are among the thirteen and every call has a known name with operands of the number and form that the name asks for |
| `LoweringProgress.SignedNumbers` | internal/dsl/compile.go:701-712 | a sign before digits is the sign of their number, which has to fit with it |
| `LoweringProgress.DurationTrimmed` | internal/dsl/compile.go:738-739 | white space around a duration says nothing |
| `LoweringMeaning.LoweringKeepsMeaning` | internal/dsl/compile.go:565-963 | the lowered term evaluates to the meaning of the expression against any entity, pair or group, in every world, unless a minus sign stands directly before the least number; the meaning is given by the written name of a call and by what an operator computes of integers |
| `LoweringMeaning.KeptExactly` | internal/dsl/compile.go:617-642 | every part of an expression keeps its meaning everywhere if and only if no minus sign stands directly before the least number |
| `LoweringMeaning.LeastWraps` | internal/dsl/compile.go:619-624 | the least number under a minus sign lowers to itself, where negating it would overflow |
| `LoweringMeaning.LeastInstance` | internal/dsl/compile.go:619-624 | `-(-9223372036854775808)` does not keep its meaning |
| `LoweringMeaning.BinaryKeeps` | internal/dsl/compile.go:648-691 | the smaller language expresses `!=`, `>`, `<=`, `>=`, `&&` and `||` |
| `LoweringMeaning.SubtractNegates` | internal/dsl/compile.go:643-647 | subtracting from zero negates, and overflows where negation does |
| `LoweringMeaning.CallKeeps` | internal/dsl/compile.go:787-951 | a call keeps the meaning of its lower-cased name, `all` and `any` by the number of their operands |
| `LoweringMeaning.NamesWithoutCase` | internal/dsl/compile.go:787-788 | the name of a call is read without its case, letter by letter |
| `LoweringFormatted.FormattingKeepsValue` | internal/dsl/compile.go:565-963 | an expression that lowers still does after being formatted and read back, and its term has the same value everywhere, if no decimal is negated twice |
| `LoweringFormatted.AlikeExactly` | internal/dsl/compile.go:617-647 | every part of a printable expression that lowers keeps its value when it is formatted first, if and only if no decimal that can be negated stands under two minus signs |
| `LoweringFormatted.DoubleDecimalChanges` | internal/dsl/compile.go:626-647 | a decimal negated twice always fails to evaluate, and once it has been formatted it evaluates or does not lower |
| `LoweringFormatted.DoubleDecimalInstance` | internal/dsl/compile.go:626-647 | `-(-(5.0))` lowers either way, and not to the same value |
| `LoweringFormatted.TermsDiffer` | internal/dsl/compile.go:617-647 | the terms themselves differ for a number negated twice |
| `FieldPaths.LoweringKeepsPaths` | internal/dsl/compile.go:1128-1159 | the lowered expression reads the paths its source names, each as often, save for the bare units of `extract` |
| `RuleLowering.LowerSelectAndAssign` | internal/dsl/compile.go:344-386 | it lowers exactly when its assignments, clauses and guard do, to those; a selector without a group is completed in place by the first path of `where`, or else the first target, and then selects at least one member; a failing assignment leaves it alone |
| `RuleLowering.LowerInsertEntity` | internal/dsl/compile.go:388-425 | the same for an insertion, which is grouped by the id of its kind before anything is lowered; a missing selector is refused before it is read |
| `RuleLowering.FirstIsLeftmost` | internal/dsl/compile.go:1139-1159 | the first collected path of an expression is its leftmost one |
| `RuleLowering.LowerSelectTwice` | internal/dsl/compile.go:344-386 | lowering one tree twice yields one declaration |
| `RuleLowering.LowerInsertTwice` | internal/dsl/compile.go:388-425 | the same for an insertion |
| `RuleLowering.DefaultGuardHolds` | internal/dsl/compile.go:314-327 | an omitted guard holds of every group and reads nothing |
| `SortedTexts.BeforeMeans` | internal/dsl/compile.go:1085-1092 | a text stands before those that it begins, and before those with a greater character where they first part |
| `SortedTexts.SortedIsUnique` | internal/dsl/compile.go:1085-1092 | a set of paths has one strictly sorted list |
| `SortedTexts.SortedKeys` | internal/dsl/compile.go:1085-1092 | walking the map in any order and sorting gives that list |
| `RuleReads.DeriveRuleReads` | internal/dsl/compile.go:966-1093 | the derived reads are the strictly sorted list of exactly the paths that some clause, guard, discriminator or assignment of the rule names, with endpoint names replaced in a relation's guard |
| `RuleReads.PartsAreTerms` | internal/dsl/compile.go:966-1084 | the parts of a rule, operator by operator and field by field, are the expressions whose paths are collected |
| `RuleReads.SameFetchesSameValue` | internal/semantic/group_expr.go:552-1252 | an expression can tell two scopes apart only by the fields it fetches |
| `RuleReads.ReadsSuffice` | internal/dsl/compile.go:966-1093 | states that agree on the derived reads evaluate every where, group-by, guard, discriminator and assignment of any operator alike |
| `RuleReads.GuardReadsSuffice` | internal/dsl/compile.go:976-990 | pairs of endpoints that agree on the derived reads satisfy the guard of a relation alike, however the guard names them |
| `Spine.SpineRun.Run` | internal/app/progressive.go:60-145 | for all operations and cancellation points: one bracketed spine of events, whose end says how it ended; everything sealed or assessed is the answer to the state, journal and invariants accepted behind its rule, its declared key and what came before it; the result retains all of that, or all but what a failed assessment did not verify, is dependency-closed, and reflects accepted transitions only; it succeeds if and only if the request is complete, the context was never done and every operation accepts what it is asked to the end, and then it has asked the context once for each step |
| `Spine.SpineRun.SealAndAssess` | internal/app/progressive.go:182-240 | seals the declared key over the state, journal and invariants just accepted, knowing what was sealed before, and assesses the answer; what ends the run is a context that is done or an operation that did not accept |
| `Spine.SpineRun.AssessAll` | internal/app/progressive.go:214-239 | the new checkpoint is assessed under every profile in order over the state it was sealed for, each time knowing the assessments before, and each answer is told to the observer as ready or not; or what the failure did not verify is dropped |
| `Spine.SpineRun.SealDeclared` | internal/app/progressive.go:182-212 | one seal phase: it retains the answer of the request, or ends the run because the context is done or there is none |
| `Spine.SpineRun.AssessUnder` | internal/app/progressive.go:214-239 | one assessment phase: it retains the answer for the checkpoint, its state, one profile and the assessments before, or ends the run |
| `Spine.SpineRun.ExecuteRules` | internal/app/progressive.go:101-136 | the loop accepts transitions in plan order and seals behind each, and stops only where the context is done or an operation does not accept |
| `Spine.ThroughIsNotHalted` | internal/app/progressive.go:101-136 | where some answers lead to the end of the plan, no run whose answers came in turn is halted on the way |
| `Spine.SealedAlike` | internal/app/progressive.go:182-212 | what was sealed in turn is determined by the operations: of two such lists one begins the other |
| `Spine.OnePlace` | internal/app/progressive.go:128-135 | each sealed checkpoint stands for one declaration behind one rule |
| `Spine.SpineRun.Establish` | internal/app/progressive.go:60-99 | what ends a run before it is bound retains nothing; it is bound exactly when the request is complete, the context is not done, and it compiles and binds |
| `Spine.SpineRun.CompilePlan` | internal/app/progressive.go:71-84 | the four ways compilation can answer |
| `Spine.SpineRun.Machinery` | internal/app/progressive.go:279-288 | closes the open phase and the spine with one classification, and returns the frontier |
| `Spine.SpineRun.SemanticRejection` | internal/app/progressive.go:257-274 | closes the open phase and the spine as the failure is classified, and returns the frontier with it |
| `Spine.SpineRun.FrontierResult` | internal/app/progressive.go:292-309 | nothing before there is a plan, and the frontier after |
| `Spine.SpineRun.RetainedProfiles` | internal/app/progressive.go:324-336 | keeps the profiles some assessment names, in compiled order |
| `Spine.SpineRun.ExcludeUnverifiedCheckpoint` | internal/app/progressive.go:343-363 | removes the checkpoint and its assessments unless the report verified it |
| `Spine.SpineRun.ExclusionRetains` | internal/app/progressive.go:343-363 | without repeated identities exclusion leaves exactly the earlier boundaries, fully assessed |
| `Spine.KeptCheckpoints` | internal/app/progressive.go:350-356 | exclusion removes one identity and no other |
| `Phases.RunIsBalanced` | internal/app/progressive.go:60-145 | what a run emits is balanced, nests no deeper than two, and holds one spine |
| `Observer.SemanticObserver.BeginPhase` | internal/observability/semantic.go:79-96 | pushes one span on the stack of its run |
| `Observer.SemanticObserver.EndPhase` | internal/observability/semantic.go:100-149 | ends the innermost span of the phase and those inside it, and forgets a run with an empty stack |
| `Observer.NoSpanEndsTwice` | internal/observability/semantic.go:79-149 | after any events whatever, every span is open in one place or has ended once |
| `Observer.ObservesFaithfully` | internal/observability/semantic.go:79-149 | while ends match, every stack is the open phases of its run and nothing is abandoned |
| `Observer.FinishedRunsLeaveNothing` | internal/observability/semantic.go:79-157 | any interleaving of finished runs ends each span exactly once, abandons none and leaves no entry |
| `Publications.PublicationStore.Publish` | internal/ports/publications.go:79-93 | appends exactly the next version with everything named, accepts a repeat, refuses a rewrite, said of the record and the number of records |
| `Publications.PublicationStore.CurrentPublication` | internal/ports/publications.go:95-101 | the highest version, or none |
| `Publications.AdvancePointer` | internal/app/publish.go:176-231 | in a well-kept history, without faults: the content recorded last is reported unchanged, another expected version is stale, and anything else whose record names everything is recorded as the next version; otherwise the read, the decision and the swap, whether or not the store can be read, written or heard; no other target is touched |
| `Publications.RetryIsUnchanged` | internal/app/publish.go:190-208 | repeating a request that was recorded, whether or not its publisher learned of that, changes nothing and reports the record |
| `Publications.ReaderInTurnIsRecorded` | internal/app/publish.go:176-231 | in the interleaved system a publisher that read the latest record, expects its version and swaps before any other is recorded as the next one |
| `Publications.ReadingReadsTheLatest` | internal/app/publish.go:183-189 | a publisher that can read reads the latest record |
| `Publications.StepKeeps` | internal/app/publish.go:176-231 | no step of any publisher rewrites a record or breaks a history |
| `Publications.PublishersAgree` | internal/app/publish.go:176-231 | under every interleaving histories are versioned without gaps, never rewritten, never repeat a decision, and hold every recorded outcome at its version |
| `Publications.OneWinner` | internal/app/publish.go:212-226 | publishers that expected the same version and were all told it was recorded published the same |
| `Comparability.SideCovers` | internal/promotion/comparability.go:115-167 | passes exactly when every artifact has an identity, the declaration and the world of its side, and an assessment of it under the profile, and their states in order identify the corpus |
| `Comparability.ComparisonCorpus` | internal/promotion/comparability.go:53-108 | passes exactly when both sides do, under the comparison and profile the candidate is promoted under, neither side being empty |
| `ComparisonAssembling.AssembleCase` | internal/app/comparisonassembly.go:304-353 | what the execution shows: its integrity, that it is absent, pending or unattempted, or the first artifact of the declaration and the first assessment of it under the profile, each where it is there |
| `ComparisonAssembling.AssembleSide` | internal/app/comparisonassembly.go:243-297 | fails exactly when a case cannot be bound or fails its integrity; otherwise each case and each missing entry is what the execution bound to a digest of the corpus shows, and there are as many as the corpus has |
| `ComparisonAssembling.AssembleComparison` | internal/app/comparisonassembly.go:168-235 | there is an assembly exactly when both sides are bound and sound; it is complete exactly when nothing is missing, and then its evidence accounts for both sides |
| `ComparisonAssembling.OneOutcome` | internal/app/comparisonassembly.go:304-353 | an execution shows one outcome for a declaration under a profile, and the case is that |
| `ComparisonAssembling.SidePartitionsCorpus` | internal/app/comparisonassembly.go:263-296 | cases and missing entries of a side partition the corpus and keep its order |
| `ComparisonAssembling.CompleteEvidenceCovers` | internal/app/comparisonassembly.go:226-234 | complete evidence has one case per corpus case in corpus order and passes the coverage clause |
| `MetricRegression.NoMetricRegression` | internal/promotion/metric_regression.go:25-107 | passes exactly when the sides are as long, their cases are verified under the profile, each candidate case stays ready where the last baseline case of its state is, and no fewer cases are ready |
| `MetricRegression.PassingIsBijection` | internal/promotion/metric_regression.go:46-106 | over distinct initial states passing pairs the cases one to one and never goes from ready to not ready |
| `MetricRegression.AggregateIsRedundant` | internal/promotion/metric_regression.go:102-104 | over distinct initial states the counts can never be what refuses |
| `RegressionExactly.CountsRedundantExactly` | internal/promotion/metric_regression.go:102-104 | over sides as long, of which the baseline knows every state of the candidate, the counts refuse nothing of their own, whatever is ready, if and only if neither side repeats a state |
| `RegressionExactly.PairedExactly` | internal/promotion/metric_regression.go:46-106 | over such sides passing pairs the cases one to one with nothing becoming unready, whatever is ready, if and only if neither side repeats a state or all states are one |
| `RegressionExactly.ClausesTogether` | internal/promotion/comparability.go:152-165 | comparable evidence that does not regress pairs the cases of a corpus that repeats none or is all one, and need not over any other corpus |
| `Queue.ExecutionStore.Enqueue` | internal/adapters/memory/store.go:194-218 | adds a pending execution once |
| `Queue.ExecutionStore.Claim` | internal/adapters/memory/store.go:225-265 | leaves a running lease that has not ended and what is over alone; the first execution in order that is pending, or whose lease has ended, and no other, runs under a new lease and generation and is returned; if there is none, nothing changes |
| `Queue.ExecutionStore.Complete` | internal/adapters/memory/store.go:268-312 | stores a terminal result for the attempt that holds the execution, and changes nothing else |
| `Queue.ExecutionStore.Fail` | internal/adapters/memory/store.go:319-355 | the same for an execution that could not be attempted |
| `Queue.ExecutionStore.Reattempt` | internal/adapters/memory/store.go:363-404 | reopens only a failure without a result, under a new generation, and rewinds the cursor to it |
| `Queue.ExecutionStore.Get` | internal/adapters/memory/store.go:407-435 | reads the entry, whose status and result can both be true |
| `Queue.LifecyclesStayConsistent` | internal/app/rehydrate.go:441-473 | in every reachable state no execution is classified as inconsistent |
| `Queue.ResultsStay` | internal/ports/storage.go:322-333 | a stored result is never replaced and its execution never reopened |
| `Queue.SupersededChangesNothing` | internal/ports/storage.go:117-134 | what a superseded attempt reports changes nothing, then or later |
| `Queue.EarlierHoldersChangeNothing` | internal/ports/storage.go:313-320 | whoever held an execution before it was claimed again or reopened can change nothing any more, whatever happens later |
| `Queue.HolderIsHeard` | internal/ports/storage.go:296-312 | a holder that reports before its lease ends and was not reopened has its result stored, whatever is enqueued, claimed or reported in between |
| `Rehydration.Project` | internal/app/project.go:21-109 | the stored record is the projection of the result, field by field, unless the claimed identities contradict it |
| `Rehydration.MissingRequirements` | internal/app/project.go:114-128 | the unsatisfied codes, each once, sorted |
| `Rehydration.ProjectionIsUnique` | internal/app/project.go:21-128 | a result has one projection |
| `Rehydration.DivergenceIsEquality` | internal/app/rehydrate.go:321-432 | no divergence is reported exactly when the two results are equal |
| `Rehydration.DivergenceDiffers` | internal/app/rehydrate.go:321-432 | a reported divergence is one, of the field that it names |
| `Rehydration.Rehydrate` | internal/app/rehydrate.go:164-242 | which of its twelve answers there is: verified exactly when the context is not done, both stores answer, the execution is finished and the stored inputs reproduce the claimed identities and the stored projection; a divergence names a field that differs |
| `Rehydration.FaithfulIsWhatWasWritten` | internal/app/rehydrate.go:164-242 | a finished execution is verified if and only if the store holds what its projection was |
| `Rehydration.ReceiptFor` | internal/app/result.go:254-268 | a receipt exists exactly for a retained checkpoint of an established execution |
| `Rehydration.PublishableOf` | internal/app/rehydrate.go:258-307 | the evidence is the first checkpoint of the key, its first assessment under the profile and the execution behind them, and there is some exactly when all three are there with an identity |
| `Rehydration.ExcludedIsNeverPublished` | internal/app/publish.go:277-306 | what a run sealed and its result does not retain is in no valid publish request with a receipt of that execution |
| `Wire.ExprRoundTrips` | internal/httpapi/expression_wire.go:72-131 | an expression tree of representable kinds comes back as it was |
| `Wire.ReadIsRepresentable` | internal/httpapi/expression_wire.go:72-131 | every expression the boundary accepts is representable |
| `Wire.SelectAssignRoundTrip` | internal/httpapi/expression_wire.go:133-275 | a select-and-assign payload, its cardinality included, comes back as it was |
| `Wire.AcceptedIsReadable` | internal/httpapi/expression_wire.go:203-275 | nothing is authorable and unreadable |

## Left out

- Source positions, error message texts and non-ASCII letters, digits and white space: characters are
  classified as in ASCII, and an error is what was wanted and what was there.
- SourceRoundTrip.SourceIsIdempotent: an accepted source with a `dec` or `atom` of anything but a number or a
  word, or with a relation named by a string of several words, is not covered: that text is printed bare, and is
  whatever phrase it is.  A printed text that is not accepted may be refused or crash the parser.
- Spine.SpineRun.Run: observation payloads other than phase and result are not modelled, nor are observer
  panics, which the dispatcher discards.
- Observer.SemanticObserver.EndPhase: attributes, durations and metric points are not modelled; the mutex is
  modelled by taking the events one after another.
- Queue.ExecutionStore.Claim: generations are unbounded numbers; after 2^64 claims of one execution the
  original's would wrap around.
- The promotion gate that runs before a publication, but for the two clauses above: straight-line checks.
- Rehydration.Rehydrate: the stored execution, the stored plan and the result of running it again are
  parameters; the canonical encodings and SHA-256 identities behind them are not part of this model.
- Wire.ExprRoundTrips: the inverse token table is written down rather than built by inverting a map.
- Lowering of schemas, profiles and the five operators without in-place changes, and the derived writes: they
  copy fields and would add only easy members.
- Type checking of expressions, relation guards and depth budgets in the kernel.
- HTTP handlers, other wire payloads, telemetry configuration, the PostgreSQL adapter, the worker and the
  SQL transpilers.
