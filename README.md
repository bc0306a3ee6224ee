# A verified model of a small Monkey-style interpreter

This project models the core of a small interpreter written in Go. It covers
four parts:

- the byte scanner (`lexer`);
- the Pratt parser that builds the syntax tree;
- the tree and its canonical text (`String()`);
- the tree-walking evaluator.

Each imperative part is modelled twice:

- as functions over an explicit state, the specification;
- as Dafny classes and methods that update their fields step by step, as
  the Go code does.

Each method is proved to compute exactly what its specification function
computes. The properties the source promises are proved as lemmas about
those functions.

Files and modules:

| file | module | models |
|---|---|---|
| `wrappers.dfy` | `Wrappers` | `Option`, Go's nil for pointer-valued results |
| `goints.dfy` | `GoInts` | 64-bit wrap-around arithmetic, Go's truncating `/`, `strconv.ParseInt(s, 0, 64)` on digit strings |
| `token.dfy` | `Tokens` | token kinds, the keyword table and `DetermineTokenType` |
| `lexer.dfy` | `Lexing` | the scanner: `Scan` (one `GetToken` call) and the class `Lexer` |
| `ast.dfy` | `Ast` | the node types, their `String()` and `TokenLexeme()` |
| `parser_spec.dfy` | `ParserSpec` | every parse routine as a function over `PState` (the cursor and the error list) |
| `parser.dfy` | `Parsing` | the class `Parser`, its methods proved equal to `ParserSpec` |
| `parser_lemmas.dfy` | `ParserProperties` | precedence, grouping, statement shapes, lists, error messages |
| `eval_spec.dfy` | `EvaluatorSpec` | `Eval` and its helpers as functions over a `Store` of environments |
| `evaluator.dfy` | `Evaluating` | the class `Heap` (environments updated in place) and the evaluation methods |
| `eval_lemmas.dfy` | `EvaluatorProperties` | the operator tables, error propagation, statements, calls and closures |

Modelling choices:

- **Bytes.** A Go string is a `string` whose `char`s stand for its bytes.
  NUL stands for the 0 that `readChar` yields past the end. A one-byte
  lexeme is built as Go's `string(byte)` builds it (`ByteString`): a byte
  from 0x80 on becomes its two-byte UTF-8 encoding.
- **Tokens.** The parser reads the sequence of tokens the lexer produces.
  Past its end it sees `EOF`, which is what the lexer keeps returning.
  `Parsing.ParseSource` joins the two parts.
- **Environments and object identity.** `*object.Environment` is a handle
  into a `Store`, which is a sequence of frames. Each frame is a map with an
  optional enclosing frame. `Get` walks outward and `Set` writes the
  innermost frame. The `object` package is not part of this model; its
  environment is modelled from how the evaluator uses it. Function and
  Return objects carry the number of their allocation, so equality of
  values is Go's pointer identity.
- **Panics and fuel.** A Go run-time panic in the evaluator is the outcome
  `Panic`:
  - a nil `Type()`;
  - a division by zero;
  - a missing argument;
  - evaluating a `let` whose parse failed, which dereferences the nil
    `*LetStatement` the parser stored.

  The outcome `OutOfFuel` bounds the depth of nested calls, since a
  recursive Monkey program need not terminate.

## Model

| member | source | states |
|---|---|---|
| GoInts.Wrap | Evaluation4/evaluator/evaluator.go:197-204 | the 64-bit result is congruent to the exact one modulo 2^64, and equal to it when it fits |
| GoInts.QuoExamples | Evaluation4/evaluator/evaluator.go:201-202 | Go's `/` truncates toward zero; MIN_INT64 / -1 wraps to MIN_INT64 |
| GoInts.ParseInt | PolishingTheParser/parser/parser.go:225-237 | a result exists only for a non-empty digit string; a leading 0 means octal; the value is the digits' value |
| GoInts.ParseIntDecimal | PolishingTheParser/parser/parser.go:225-237 | a decimal literal converts iff its value is at most MAX_INT64, and then to that value |
| GoInts.ParseIntOctal | PolishingTheParser/parser/parser.go:225-237 | a literal with a leading 0 converts iff the rest is octal and fits |
| GoInts.ParseIntExamples | PolishingTheParser/parser/parser.go:225-237 | "0", "42" and "017" convert to 0, 42 and 15; "09" is refused |
| Tokens.DetermineTokenType | Ep7_Parser2/token/token.go:50-55 | the result is a keyword kind exactly for the seven reserved words, ID otherwise |
| Tokens.KeywordKinds | Ep7_Parser2/token/token.go:40-48 | each reserved word maps to its own kind |
| Tokens.LookupIsCaseSensitive | Ep7_Parser2/token/token.go:40-55 | differently capitalised words are identifiers |
| Tokens.KeywordKindsAreDistinct | Ep7_Parser2/token/token.go:40-48 | two words with the same keyword kind are the same word |
| Lexing.SkipWhitespace | PolishingTheParser/lexer/lexer.go:150-154 | the first non-blank position at or after the cursor; everything skipped is blank |
| Lexing.LetterRunEnd | PolishingTheParser/lexer/lexer.go:126-132 | the end of the longest run of letters and `_` |
| Lexing.DigitRunEnd | PolishingTheParser/lexer/lexer.go:134-140 | the end of the longest run of digits |
| Lexing.Scan | PolishingTheParser/lexer/lexer.go:40-111 | one `GetToken` never moves the cursor back and always moves it while input is left |
| Lexing.ByteStringDecodes | PolishingTheParser/lexer/lexer.go:156-158 | `string(byte)` is the byte itself below 0x80, and otherwise a two-byte UTF-8 sequence (lead 0xC2 or 0xC3, one continuation byte) that decodes back to the byte |
| Lexing.NonAsciiIllegal | PolishingTheParser/lexer/lexer.go:105-107 | the byte 0xC3 alone lexes to ILLEGAL with the two-byte lexeme C3 83 |
| Lexing.ExhaustedInputGivesEof | PolishingTheParser/lexer/lexer.go:93-95 | with only blanks left, the token is EOF with an empty lexeme and the cursor ends at the end |
| Lexing.TwoByteOperators | PolishingTheParser/lexer/lexer.go:54-69 | `==` and `!=` are one two-byte token; a lone `=` or `!` is ASSIGN or EXCLAM |
| Lexing.WhitespaceIsSkipped | PolishingTheParser/lexer/lexer.go:43 | a blank before a token changes nothing about the token |
| Lexing.IdentifierMaximalMunch | PolishingTheParser/lexer/lexer.go:96-100 | a letter starts the longest letter run, with the kind given by keyword lookup |
| Lexing.DigitEndsIdentifier | PolishingTheParser/lexer/lexer.go:142-148 | digits are not letters |
| Lexing.NumberMaximalMunch | PolishingTheParser/lexer/lexer.go:101-104 | a digit starts the longest digit run, a DIGIT token |
| Lexing.IllegalByte | PolishingTheParser/lexer/lexer.go:105-107 | any other byte is one ILLEGAL token whose lexeme is `string(byte)`: the byte when it is ASCII, two bytes otherwise |
| Lexing.CursorStaysAtEnd | PolishingTheParser/lexer/lexer.go:20-24 | at the end of the input, further calls leave the cursor there |
| Lexing.TokenizeAgrees | PolishingTheParser/lexer/lexer.go:40-111 | the n-th token of the stream is what the n-th `GetToken` call returns |
| Lexing.DigitTokensAreDigitRuns | PolishingTheParser/lexer/lexer.go:101-104 | every DIGIT lexeme is a non-empty digit string, which is what `ParseInt` covers |
| Lexing.Lexer.constructor | PolishingTheParser/lexer/lexer.go:14-18 | a new lexer is valid, on byte 0 |
| Lexing.Lexer.ReadChar | PolishingTheParser/lexer/lexer.go:20-30 | advances both cursors by one, or at the end sets ch to NUL with position == readPosition |
| Lexing.Lexer.PeekChar | PolishingTheParser/lexer/lexer.go:32-38 | the byte after the current one, NUL past the end |
| Lexing.Lexer.Advance | PolishingTheParser/lexer/lexer.go:20-30 | `readChar` on a valid lexer is one `Step` |
| Lexing.Lexer.EatWhitespace | PolishingTheParser/lexer/lexer.go:150-154 | leaves the cursor at `SkipWhitespace` of where it was |
| Lexing.Lexer.ReadId | PolishingTheParser/lexer/lexer.go:126-132 | returns exactly the letter run and leaves the cursor after it |
| Lexing.Lexer.ReadNumber | PolishingTheParser/lexer/lexer.go:134-140 | returns exactly the digit run and leaves the cursor after it |
| Lexing.Lexer.ReadString | PolishingTheParser/lexer/lexer.go:113-124 | as written, the loop exits after one `readChar`: the cursor moves one byte and the lexeme is the quote alone |
| Lexing.Lexer.GetToken | PolishingTheParser/lexer/lexer.go:40-111 | the token and the new cursor are those of `Scan` |
| Lexing.Lexer.ReadTokens | PolishingTheParser/lexer/lexer.go:40-111 | calling `GetToken` until the input is used up yields `Tokenize` |
| Ast.Join | Evaluation4/ast/ast.go:225-240 | `strings.Join` of no parts is "", of one part is that part, and otherwise starts with the first part |
| Ast.JoinAppend | Evaluation4/ast/ast.go:225-240 | one more part adds the separator and then that part at the end |
| Ast.ParameterStrings | Evaluation4/ast/ast.go:225-240 | the i-th string is the i-th parameter's name |
| Ast.ExpressionString | Evaluation4/ast/ast.go:141-168 | prefix and infix expressions always render parenthesised |
| Ast.ListStrings | Evaluation4/ast/ast.go:250-261 | one string per argument |
| Ast.ListStringsItems | Evaluation4/ast/ast.go:250-261 | the i-th string is the text of the i-th argument |
| Ast.ProgramLexeme | Evaluation4/ast/ast.go:28-34 | "" for an empty program, else the first statement's lexeme |
| Ast.WholeIsRenderable | Evaluation4/ast/ast.go:130-261 | a tree with no nil sub-expression can be rendered without a nil dereference |
| Ast.OptWholeIsRenderable | Evaluation4/ast/ast.go:130-261 | the same for an optional expression |
| Ast.ListWholeIsRenderable | Evaluation4/ast/ast.go:250-261 | the same for argument lists |
| Ast.StmtWholeIsRenderable | Evaluation4/ast/ast.go:55-120 | the same for statements |
| Ast.StmtsWholeIsRenderable | Evaluation4/ast/ast.go:36-44 | the same for statement lists |
| Ast.OptBlockWholeIsRenderable | Evaluation4/ast/ast.go:189-199 | the same for an if's alternative |
| Ast.BlockWholeIsRenderable | Evaluation4/ast/ast.go:209-214 | the same for blocks |
| Ast.StatementsStringAppend | Evaluation4/ast/ast.go:36-44 | the text of two statement lists joined is the two texts joined |
| Ast.ProgramStringIsConcatenation | Evaluation4/ast/ast.go:36-44 | a program's text is its statements' texts in order, with no separators |
| Ast.SplitRenderable | Evaluation4/ast/ast.go:36-44 | both parts of a renderable statement list are renderable |
| Ast.StatementRenderings | Evaluation4/ast/ast.go:55-120 | `let name = value;`, `return value;` and the bare expression, with an absent value left out |
| Ast.FunctionLiteralRendering | Evaluation4/ast/ast.go:225-240 | for any parameter list: lexeme, `(`, the names in order with `, ` before each one after the first, `) `, body |
| Ast.CallRendering | Evaluation4/ast/ast.go:250-261 | for any argument list: callee, `(`, the arguments' texts in order with `, ` before each one after the first, `)` |
| Ast.OperatorRenderings | Evaluation4/ast/ast.go:141-168 | `(l op r)` with a space on each side of the operator, and `(op x)` with none |
| ParserSpec.Precedence | PolishingTheParser/parser/parser.go:23-34 | the level is NONE exactly for tokens without an infix routine |
| ParserSpec.Messages | PolishingTheParser/parser/parser.go:300-302 | one message per recorded error, in order |
| ParserSpec.ParseExpression | PolishingTheParser/parser/parser.go:402-421 | the cursor never moves back; errors are only appended; with no new error the tree is complete; the loop stops at `;` or a looser token |
| ParserSpec.ExpressionLoop | PolishingTheParser/parser/parser.go:410-420 | the same, and it always stops where `Stopped` holds |
| ParserSpec.ParsePrefix | PolishingTheParser/parser/parser.go:60-95 | the prefix routine registered for a token keeps the state growing and completes the tree when error-free |
| ParserSpec.ParseInfix | PolishingTheParser/parser/parser.go:60-95 | the same for the infix routines |
| ParserSpec.ParsePrefixExpression | PolishingTheParser/parser/parser.go:423-434 | grows the state and yields a complete tree when error-free |
| ParserSpec.ParseInfixExpression | PolishingTheParser/parser/parser.go:436-448 | the same, given a complete left operand |
| ParserSpec.ParseGroupedExpression | PolishingTheParser/parser/parser.go:243-253 | the same |
| ParserSpec.ParseIfExpression | PolishingTheParser/parser/parser.go:176-204 | the same |
| ParserSpec.ParseIfBranches | PolishingTheParser/parser/parser.go:190-204 | the same for the consequence and the optional `else` |
| ParserSpec.ParseFunctionLiteral | PolishingTheParser/parser/parser.go:255-272 | the same |
| ParserSpec.ParseFunctionParameters | PolishingTheParser/parser/parser.go:274-298 | an error-free parse yields a parameter list |
| ParserSpec.ParameterLoop | PolishingTheParser/parser/parser.go:285-297 | the same for the loop over `, name` |
| ParserSpec.ParseArrayLiteral | PolishingTheParser/parser/parser.go:124-130 | grows the state and yields a complete tree when error-free |
| ParserSpec.ParseCallExpression | PolishingTheParser/parser/parser.go:170-174 | the same, given a complete callee |
| ParserSpec.ParseIndexExpression | PolishingTheParser/parser/parser.go:132-144 | the same, given a complete left operand |
| ParserSpec.ParseExpressionList | PolishingTheParser/parser/parser.go:146-168 | a list ends on its closing token; nil only after a recorded error |
| ParserSpec.ListLoop | PolishingTheParser/parser/parser.go:155-167 | the same, and the items collected so far are kept as a prefix |
| ParserSpec.ParseStatementBlock | PolishingTheParser/parser/parser.go:206-219 | a block ends on `}` or EOF and is complete when error-free |
| ParserSpec.BlockLoop | PolishingTheParser/parser/parser.go:210-217 | the same, with earlier statements kept as a prefix |
| ParserSpec.ParseStatement | PolishingTheParser/parser/parser.go:339-348 | grows the state; an error-free statement is complete |
| ParserSpec.ParseLetStatement | PolishingTheParser/parser/parser.go:350-372 | the same |
| ParserSpec.ParseReturnStatement | PolishingTheParser/parser/parser.go:375-388 | the same |
| ParserSpec.ParseExpressionStatement | PolishingTheParser/parser/parser.go:390-400 | the same |
| ParserSpec.ParseProgram | PolishingTheParser/parser/parser.go:324-337 | at most one statement per token; an error-free program is renderable; parsing stops on EOF |
| ParserSpec.ProgramLoop | PolishingTheParser/parser/parser.go:328-334 | grows the state, keeps earlier statements as a prefix and stops on EOF |
| ParserSpec.ListWholeAppend | PolishingTheParser/parser/parser.go:155-167 | appending a complete item to a complete list keeps it complete |
| ParserSpec.StmtsWholeAppend | PolishingTheParser/parser/parser.go:328-334 | the same for statements |
| ParserSpec.ExpressionStep | PolishingTheParser/parser/parser.go:410-420 | one iteration of the loop of `parseExpression` |
| ParserSpec.ListEntry | PolishingTheParser/parser/parser.go:146-154 | the first item of a list |
| ParserSpec.ListStep | PolishingTheParser/parser/parser.go:155-160 | one `, item` iteration |
| ParserSpec.ListExit | PolishingTheParser/parser/parser.go:162-167 | the closing `expect` |
| Parsing.Parser.constructor | PolishingTheParser/parser/parser.go:60-95 | no errors, the first token current and the second next |
| Parsing.Parser.GetToken | PolishingTheParser/parser/parser.go:98-101 | the next token becomes current |
| Parsing.Parser.Errors | PolishingTheParser/parser/parser.go:300-302 | the messages of the recorded errors, oldest first |
| Parsing.Parser.PeekError | PolishingTheParser/parser/parser.go:304-311 | appends exactly one error |
| Parsing.Parser.NoPrefixParseFnError | PolishingTheParser/parser/parser.go:313-319 | appends exactly one error naming the token kind |
| Parsing.Parser.Expect | PolishingTheParser/parser/parser.go:104-112 | equals `ParserSpec.Expect` |
| Parsing.Parser.ParseExpression | PolishingTheParser/parser/parser.go:402-421 | equals `ParserSpec.ParseExpression` |
| Parsing.Parser.ExtendExpression | PolishingTheParser/parser/parser.go:410-420 | the while loop equals `ParserSpec.ExpressionLoop` |
| Parsing.Parser.ParsePrefix | PolishingTheParser/parser/parser.go:60-95 | the prefix routine table equals `ParserSpec.ParsePrefix` |
| Parsing.Parser.ParseInfix | PolishingTheParser/parser/parser.go:60-95 | the infix routine table equals `ParserSpec.ParseInfix` |
| Parsing.Parser.ParseIdentifier | PolishingTheParser/parser/parser.go:221-223 | equals `ParserSpec.ParseIdentifier`, with no state change |
| Parsing.Parser.ParseIntegerLiteral | PolishingTheParser/parser/parser.go:225-237 | equals `ParserSpec.ParseIntegerLiteral` |
| Parsing.Parser.ParseBoolean | PolishingTheParser/parser/parser.go:239-241 | equals `ParserSpec.ParseBoolean` |
| Parsing.Parser.ParsePrefixExpression | PolishingTheParser/parser/parser.go:423-434 | equals `ParserSpec.ParsePrefixExpression` |
| Parsing.Parser.ParseInfixExpression | PolishingTheParser/parser/parser.go:436-448 | equals `ParserSpec.ParseInfixExpression` |
| Parsing.Parser.ParseGroupedExpression | PolishingTheParser/parser/parser.go:243-253 | equals `ParserSpec.ParseGroupedExpression` |
| Parsing.Parser.ParseIfExpression | PolishingTheParser/parser/parser.go:176-204 | equals `ParserSpec.ParseIfExpression` |
| Parsing.Parser.ParseIfBranches | PolishingTheParser/parser/parser.go:190-204 | equals `ParserSpec.ParseIfBranches` |
| Parsing.Parser.ParseFunctionLiteral | PolishingTheParser/parser/parser.go:255-272 | equals `ParserSpec.ParseFunctionLiteral` |
| Parsing.Parser.ParseFunctionParameters | PolishingTheParser/parser/parser.go:274-298 | the loop equals `ParserSpec.ParseFunctionParameters` |
| Parsing.Parser.ParseArrayLiteral | PolishingTheParser/parser/parser.go:124-130 | equals `ParserSpec.ParseArrayLiteral` |
| Parsing.Parser.ParseCallExpression | PolishingTheParser/parser/parser.go:170-174 | equals `ParserSpec.ParseCallExpression` |
| Parsing.Parser.ParseIndexExpression | PolishingTheParser/parser/parser.go:132-144 | equals `ParserSpec.ParseIndexExpression` |
| Parsing.Parser.ParseExpressionList | PolishingTheParser/parser/parser.go:146-168 | equals `ParserSpec.ParseExpressionList` |
| Parsing.Parser.ParseListRest | PolishingTheParser/parser/parser.go:155-167 | the loop equals `ParserSpec.ListLoop` |
| Parsing.Parser.ParseStatementBlock | PolishingTheParser/parser/parser.go:206-219 | the loop equals `ParserSpec.ParseStatementBlock` |
| Parsing.Parser.ParseStatement | PolishingTheParser/parser/parser.go:339-348 | equals `ParserSpec.ParseStatement` |
| Parsing.Parser.ParseLetStatement | PolishingTheParser/parser/parser.go:350-372 | equals `ParserSpec.ParseLetStatement` |
| Parsing.Parser.ParseReturnStatement | PolishingTheParser/parser/parser.go:375-388 | equals `ParserSpec.ParseReturnStatement` |
| Parsing.Parser.ParseExpressionStatement | PolishingTheParser/parser/parser.go:390-400 | equals `ParserSpec.ParseExpressionStatement` |
| Parsing.Parser.ParseProgram | PolishingTheParser/parser/parser.go:324-337 | the loop equals `ParserSpec.ProgramLoop`, and from a new parser it equals `ParserSpec.ParseProgram` |
| Parsing.ParseSource | PolishingTheParser/parser/parser.go:60-95 | lexing and then parsing a text gives exactly the program and messages of `ParseProgram(Tokenize(text))` |
| ParserProperties.PrecedenceLevels | PolishingTheParser/parser/parser.go:11-34 | the levels of the table, their strict order, and NONE for every other token |
| ParserProperties.NoPrefixRoutine | PolishingTheParser/parser/parser.go:402-408 | with no prefix routine, exactly one error "no prefix parse function for T found" and nil |
| ParserProperties.LoopStops | PolishingTheParser/parser/parser.go:410 | the loop stops at `;` or at a token binding no tighter than the bound |
| ParserProperties.LoopTakesOperator | PolishingTheParser/parser/parser.go:410-420 | a tighter operator takes the left operand and parses its right operand at its own level |
| ParserProperties.AtomAlone | PolishingTheParser/parser/parser.go:402-421 | an operand followed by a looser token is the whole expression |
| ParserProperties.BinaryGrouping | PolishingTheParser/parser/parser.go:402-448 | `a o1 b o2 c` groups left exactly when o1 binds at least as tightly as o2 |
| ParserProperties.LeftPairFirst | PolishingTheParser/parser/parser.go:410-448 | the left-grouping case of `BinaryGrouping` |
| ParserProperties.RightPairFirst | PolishingTheParser/parser/parser.go:410-448 | the right-grouping case of `BinaryGrouping` |
| ParserProperties.PrefixBindsTighter | PolishingTheParser/parser/parser.go:423-434 | `-a o b` is `((-a) o b)` for every binary operator |
| ParserProperties.SingleExpressionProgram | PolishingTheParser/parser/parser.go:324-337 | a lone expression up to EOF is a one-statement program with no errors |
| ParserProperties.OneExpressionProgram | PolishingTheParser/parser/parser.go:324-337 | that program's text is the expression's text |
| ParserProperties.MinusText | Evaluation4/ast/ast.go:161-168 | `((a - b) - c)` |
| ParserProperties.SumText | Evaluation4/ast/ast.go:161-168 | `(1 + (2 * 3))` |
| ParserProperties.NegationText | Evaluation4/ast/ast.go:141-168 | `((-a) * b)` |
| ParserProperties.LeftAssociativeMinus | PolishingTheParser/parser/parser.go:402-448 | `a - b - c` parses, without errors, to `((a - b) - c)` |
| ParserProperties.SmallNumerals | PolishingTheParser/parser/parser.go:225-237 | the converted values of "1", "2", "3" |
| ParserProperties.ProductBindsTighter | PolishingTheParser/parser/parser.go:402-448 | `1 + 2 * 3` parses to `(1 + (2 * 3))` |
| ParserProperties.NegationBindsTighter | PolishingTheParser/parser/parser.go:402-448 | `-a * b` parses to `((-a) * b)` |
| ParserProperties.ExpectAdvancesOrReports | PolishingTheParser/parser/parser.go:104-112 | success iff the next token has the kind, then one step on; else no move and one "expected next token to be …" error |
| ParserProperties.LetRequirements | PolishingTheParser/parser/parser.go:350-372 | a `let` fails exactly when the name or the `=` is missing, with the error each case records; else its value is parsed after `=` |
| ParserProperties.SemicolonIsOptional | PolishingTheParser/parser/parser.go:366-368 | a trailing `;` is consumed iff present, with no error either way |
| ParserProperties.ReturnStatementShape | PolishingTheParser/parser/parser.go:375-388 | `return` is followed by its value, parsed from the next token |
| ParserProperties.ExpressionStatementShape | PolishingTheParser/parser/parser.go:390-400 | any other token starts an expression statement |
| ParserProperties.Atoms | PolishingTheParser/parser/parser.go:146-168 | `n` operands, the i-th at every other token |
| ParserProperties.EmptyList | PolishingTheParser/parser/parser.go:149-152 | a list whose next token is its end is empty and consumes it |
| ParserProperties.UnclosedList | PolishingTheParser/parser/parser.go:162-166 | a list not closed by its end token is nil, recording one error |
| ParserProperties.AtomListLoop | PolishingTheParser/parser/parser.go:155-167 | the list loop over the comma layout collects every operand in order |
| ParserProperties.AtomList | PolishingTheParser/parser/parser.go:146-168 | `(a0, …, an-1)` parses to the n operands in order, ending on the closing token |
| ParserProperties.ProgramLoopAccumulates | PolishingTheParser/parser/parser.go:328-334 | what the loop collects does not depend on what came before it |
| ParserProperties.ProgramInSourceOrder | PolishingTheParser/parser/parser.go:328-334 | the statement at the cursor comes first, then the rest |
| ParserProperties.ErrorFreeProgramRenders | PolishingTheParser/parser/parser.go:324-337 | a program parsed without error renders |
| ParserProperties.LetNoNameFirst | PolishingTheParser/parser/parser.go:350-356 | `let = 5;`: the first statement fails with an "expected ID" error |
| ParserProperties.LetNoNameSecond | PolishingTheParser/parser/parser.go:402-408 | then `=` has no prefix routine |
| ParserProperties.LetNoNameThird | PolishingTheParser/parser/parser.go:390-400 | then `5;` is an expression statement |
| ParserProperties.LetNoNameFromThird | PolishingTheParser/parser/parser.go:328-334 | the loop from the third statement on |
| ParserProperties.LetNoNameFromSecond | PolishingTheParser/parser/parser.go:328-334 | the loop from the second statement on |
| ParserProperties.LetWithoutName | PolishingTheParser/parser/parser.go:324-372 | `let = 5;` gives three statements and exactly the two errors, in order, with their texts |
| ParserProperties.LetNoNameMessages | PolishingTheParser/parser/parser.go:304-319 | the two message texts |
| ParserProperties.ExpectedIdMessage | PolishingTheParser/parser/parser.go:304-311 | "expected next token to be ID, got LET instead" |
| ParserProperties.NoPrefixAssignMessage | PolishingTheParser/parser/parser.go:313-319 | "no prefix parse function for = found" |
| Evaluating.Heap.constructor | Evaluation4/evaluator/evaluator.go:15 | one empty global environment |
| Evaluating.Heap.Get | Evaluation4/evaluator/evaluator.go:134-140 | the loop walking outward equals `EvaluatorSpec.Get` |
| Evaluating.Heap.Set | Evaluation4/evaluator/evaluator.go:65 | writes the frame of the current environment only |
| Evaluating.Heap.NewEnclosedEnvironment | Evaluation4/evaluator/evaluator.go:111 | a new frame at the end, enclosed by the given one |
| Evaluating.Heap.Allocate | Evaluation4/evaluator/evaluator.go:58 | a fresh object number |
| Evaluating.Eval | Evaluation4/evaluator/evaluator.go:15-87 | outcome and new store are those of `EvaluatorSpec.Eval` |
| Evaluating.EvalIdentifier | Evaluation4/evaluator/evaluator.go:134-140 | equals `EvaluatorSpec.EvalIdentifier` |
| Evaluating.EvalPrefix | Evaluation4/evaluator/evaluator.go:23-28 | equals `EvaluatorSpec.EvalPrefix` |
| Evaluating.EvalInfix | Evaluation4/evaluator/evaluator.go:30-39 | equals `EvaluatorSpec.EvalInfix` |
| Evaluating.EvaluateIfExpression | Evaluation4/evaluator/evaluator.go:149-161 | equals `EvaluatorSpec.EvaluateIfExpression` |
| Evaluating.EvalCall | Evaluation4/evaluator/evaluator.go:75-84 | equals `EvaluatorSpec.EvalCall` |
| Evaluating.EvaluateExpressions | Evaluation4/evaluator/evaluator.go:120-132 | the loop equals `EvaluatorSpec.EvaluateExpressions` |
| Evaluating.ApplyFunction | Evaluation4/evaluator/evaluator.go:89-98 | equals `EvaluatorSpec.ApplyFunction`, whose unwrapping of the body's Return `CallUnwrapsBody` states |
| Evaluating.ExtendedFunctionEnv | Evaluation4/evaluator/evaluator.go:107-118 | the loop equals `EvaluatorSpec.ExtendedFunctionEnv` |
| Evaluating.EvalStatement | Evaluation4/evaluator/evaluator.go:44-65 | equals `EvaluatorSpec.EvalStatement` |
| Evaluating.EvaluateStatements | Evaluation4/evaluator/evaluator.go:263-275 | the loop equals `EvaluatorSpec.EvaluateStatements` |
| Evaluating.EvalProgram | Evaluation4/evaluator/evaluator.go:41-42 | equals `EvaluatorSpec.EvalProgram` |
| Evaluating.EvaluateStatementBlock | Evaluation4/evaluator/evaluator.go:277-289 | the loop equals `EvaluatorSpec.EvaluateStatementBlock` |
| EvaluatorProperties.IntegerArithmetic | Evaluation4/evaluator/evaluator.go:197-204 | `+`, `-`, `*` give a new Integer, the exact result modulo 2^64, and exact when it fits |
| EvaluatorProperties.IntegerDivision | Evaluation4/evaluator/evaluator.go:201-202 | `/` panics iff the divisor is 0, else it gives Go's truncated quotient |
| EvaluatorProperties.IntegerComparisons | Evaluation4/evaluator/evaluator.go:205-216 | the six comparisons give the TRUE or FALSE singleton, TRUE exactly when the comparison holds |
| EvaluatorProperties.IntegerUnknownOperator | Evaluation4/evaluator/evaluator.go:217-219 | the result is "unknown operator: INTEGER op INTEGER" iff op is none of the ten |
| EvaluatorProperties.NilOperandPanics | Evaluation4/evaluator/evaluator.go:176-178 | the result is a panic iff an operand is nil |
| EvaluatorProperties.TypeMismatch | Evaluation4/evaluator/evaluator.go:180-182 | operands of different types give "type mismatch: L op R" |
| EvaluatorProperties.SameTypeOperators | Evaluation4/evaluator/evaluator.go:183-189 | same-type non-integers: `==`/`!=` by identity, anything else "unknown operator: L op R" |
| EvaluatorProperties.FunctionsCompareByIdentity | Evaluation4/evaluator/evaluator.go:184 | two function objects from separate evaluations are unequal |
| EvaluatorProperties.NotEqualIsNegatedEqual | Evaluation4/evaluator/evaluator.go:176-216 | on one type, `!=` is `!` applied to `==` |
| EvaluatorProperties.EqualityIsSymmetric | Evaluation4/evaluator/evaluator.go:176-216 | on one type, `==` and `!=` are symmetric |
| EvaluatorProperties.Truthiness | Evaluation4/evaluator/evaluator.go:163-174 | truthy iff neither NULL nor FALSE; Integer 0 and nil are truthy |
| EvaluatorProperties.NotTable | Evaluation4/evaluator/evaluator.go:243-254 | TRUE→FALSE, FALSE→TRUE, NULL→TRUE, everything else→FALSE |
| EvaluatorProperties.NotNegatesTruthiness | Evaluation4/evaluator/evaluator.go:163-174 | `!x` is the negation of x's truthiness; `!!x` is its truthiness |
| EvaluatorProperties.MinusOnNonInteger | Evaluation4/evaluator/evaluator.go:234-237 | "unknown operator: -T" iff the operand is not an Integer |
| EvaluatorProperties.MinusTwice | Evaluation4/evaluator/evaluator.go:239-240 | `-` negates with wrap-around and undoes itself; MIN_INT64 is its own negation |
| EvaluatorProperties.UnknownPrefixOperator | Evaluation4/evaluator/evaluator.go:229-230 | other operators give "unknown operator: opT"; nil panics |
| EvaluatorProperties.GetAfterSet | Evaluation4/evaluator/evaluator.go:65 | a binding is found from the environment it was written to |
| EvaluatorProperties.SetLeavesOtherNames | Evaluation4/evaluator/evaluator.go:65 | writing one name changes no other name's lookup from any environment |
| EvaluatorProperties.GetIgnoresNewerFrames | Evaluation4/evaluator/evaluator.go:111 | environments created later do not change lookups from older ones |
| EvaluatorProperties.StoreKeepsLinks | Evaluation4/evaluator/evaluator.go:107-118 | the global environment, enclosing an existing environment, writing a name and allocating all keep every enclosing link pointing to an older frame |
| EvaluatorProperties.GetWalksChain | Evaluation4/evaluator/evaluator.go:134-140 | with links pointing back, a lookup not bound in the current frame always goes on to the enclosing one, as `Environment.Get` does |
| EvaluatorProperties.InfixLeftInterrupts | Evaluation4/evaluator/evaluator.go:31-34 | an Error on the left is the result; the right operand is never evaluated |
| EvaluatorProperties.InfixEvaluatesLeftThenRight | Evaluation4/evaluator/evaluator.go:35-39 | otherwise the right operand runs after the left; its Error is the result, else the operator |
| EvaluatorProperties.PrefixOperandInterrupts | Evaluation4/evaluator/evaluator.go:24-27 | an Error operand is the result |
| EvaluatorProperties.ReturnOfError | Evaluation4/evaluator/evaluator.go:54-57 | `return` of an Error gives that Error, unwrapped |
| EvaluatorProperties.ReturnWraps | Evaluation4/evaluator/evaluator.go:58 | any other value is wrapped in a new Return, which unwraps to it |
| EvaluatorProperties.LetOfError | Evaluation4/evaluator/evaluator.go:61-64 | `let` of an Error gives it and binds nothing |
| EvaluatorProperties.LetBinds | Evaluation4/evaluator/evaluator.go:60-65 | `let` yields nil, its name is found in the current environment, and no other name changes |
| EvaluatorProperties.IdentifierLookup | Evaluation4/evaluator/evaluator.go:134-140 | the binding along the chain, else "identifier not found: name" |
| EvaluatorProperties.IfConditionInterrupts | Evaluation4/evaluator/evaluator.go:150-153 | an Error condition is the result |
| EvaluatorProperties.IfBranches | Evaluation4/evaluator/evaluator.go:154-160 | truthy → consequence, falsy → alternative, falsy with no alternative → NULL |
| EvaluatorProperties.IfZeroIsTaken | Evaluation4/evaluator/evaluator.go:154-155 | `if (0)` runs its consequence |
| EvaluatorProperties.ProgramStopsAtReturn | Evaluation4/evaluator/evaluator.go:265-269 | a Return ends the program with its value unwrapped; later statements are not run |
| EvaluatorProperties.ProgramStopsAtError | Evaluation4/evaluator/evaluator.go:270-271 | an Error ends the program |
| EvaluatorProperties.BlockStopsAtReturnOrError | Evaluation4/evaluator/evaluator.go:279-285 | a Return or an Error ends a block, the Return still wrapped |
| EvaluatorProperties.ProgramIsUnwrappedBlock | Evaluation4/evaluator/evaluator.go:263-289 | program and block over the same statements stop at the same place, and the program unwraps the Return |
| EvaluatorProperties.CalleeInterrupts | Evaluation4/evaluator/evaluator.go:76-79 | an Error callee is the result; no argument is evaluated |
| EvaluatorProperties.FirstErrorArgument | Evaluation4/evaluator/evaluator.go:123-127 | the first Error argument is returned alone, and later arguments are not evaluated |
| EvaluatorProperties.ArgumentsLeftToRight | Evaluation4/evaluator/evaluator.go:123-131 | arguments are evaluated in order, each in the store the previous one left |
| EvaluatorProperties.ArgumentValues | Evaluation4/evaluator/evaluator.go:120-132 | one non-Error value per argument, or the single Error that stopped the loop |
| EvaluatorProperties.NotAFunction | Evaluation4/evaluator/evaluator.go:89-93 | a non-function gives "not a function: T", and nil panics |
| EvaluatorProperties.BindsPositionally | Evaluation4/evaluator/evaluator.go:113-115 | each parameter gets its argument (the last of a repeated name wins), other names and frames untouched |
| EvaluatorProperties.MissingArgumentPanics | Evaluation4/evaluator/evaluator.go:114 | fewer arguments than parameters is an index-out-of-range panic |
| EvaluatorProperties.FunctionEnvironment | Evaluation4/evaluator/evaluator.go:107-118 | the body's environment is new, encloses the captured one, binds the parameters, and resolves every other name as the captured one does |
| EvaluatorProperties.CallUnwrapsBody | Evaluation4/evaluator/evaluator.go:89-98 | a call with enough arguments runs the body in the next frame and gives its result with a Return unwrapped, so `return v` gives `v`; an interrupted body interrupts the call; no fuel stops it |
| EvaluatorProperties.LiteralCapturesEnv | Evaluation4/evaluator/evaluator.go:70-73 | a function literal gives a new Function object capturing the current environment, with the literal's parameters and body; only the object counter moves |
| EvaluatorProperties.AddLetStage | Evaluation4/evaluator/evaluator.go:60-73 | `let add = func(a, b) { … };` binds a function capturing the global environment |
| EvaluatorProperties.AddBodyStage | Evaluation4/evaluator/evaluator.go:53-58 | the body returns a Return of 5 in the call's environment |
| EvaluatorProperties.AddApplyStage | Evaluation4/evaluator/evaluator.go:89-118 | applying `add` to 2 and 3 gives 5, unwrapped |
| EvaluatorProperties.AddCallStage | Evaluation4/evaluator/evaluator.go:75-84 | the statement `add(2, 3);` gives 5 |
| EvaluatorProperties.CallStatement | Evaluation4/evaluator/evaluator.go:44-45 | a call written as a statement is the call |
| EvaluatorProperties.TwoStatements | Evaluation4/evaluator/evaluator.go:263-275 | two statements that do not stop the program give the second's value |
| EvaluatorProperties.AddProgramValue | Evaluation4/evaluator/evaluator.go:15-118 | the whole program evaluates to Integer 5 |

## Left out

- In the evaluator, panics are outcomes, not preconditions. A division by
  zero, a missing argument, `Type()` on nil and a failed `let` are the
  outcome `Panic`, so every input to the evaluator is covered. The first
  three are each stated as a lemma (`IntegerDivision`,
  `MissingArgumentPanics`, `NilOperandPanics`).
- Ast.ExpressionString, Ast.StatementString, Ast.ProgramString and
  Ast.ProgramLexeme: a `String()` or `TokenLexeme()` call that would panic
  on a nil sub-node or on a failed `let` is not modelled as an outcome. It
  is excluded by the `Renderable` precondition, or, for `ProgramLexeme`,
  by the precondition that the first statement did not fail. The console
  never calls `String()`, and `ErrorFreeProgramRenders` shows that every
  error-free parse meets the precondition.
- Evaluation4/evaluator/evaluator.go has no case for array literals or index
  expressions, so `Eval` gives nil for them, following the code.
- The `object` package is not part of this model. The `Type()` strings are
  taken to be INTEGER, BOOLEAN, NULL, RETURN_VALUE, ERROR and FUNCTION, and
  `Environment` is modelled from its uses.
- `Inspect()` and the REPL are not modelled. Neither is any other consumer of
  an object's printed form.
- GoInts.ParseInt: covers `strconv.ParseInt(s, 0, 64)` only on strings of
  decimal digits. Those are the only strings the lexer produces for DIGIT,
  as `DigitTokensAreDigitRuns` states. Signs, `0x`/`0b`/`0o` prefixes and
  underscores are refused rather than converted.
- Evaluating.ApplyFunction: spends one unit of fuel per call and gives
  `OutOfFuel` when none is left. Go would instead recurse until the stack
  overflows.
- Lexing.Lexer.ReadString: modelled as written, which is not a string
  reader. Its exit test (the byte is not a quote, or it is not NUL) holds
  of every byte, so the lexeme is the opening quote alone, and `GetToken`
  then skips one more byte.
- `peekError` names the kind of the current token, not the next one, in
  its "got … instead" part. The model follows the code.
- Errors are a datatype (`ParseError`) rendered by `Message`. The
  formatting is exact for an unexpected next token and a token with no
  prefix routine. For a numeral that does not convert, Go quotes the
  lexeme with `%q`, which escapes quotes, backslashes and non-printable
  bytes; `Message` puts plain quotes around it. The two agree on every
  DIGIT lexeme the lexer produces, since those are digit strings
  (`DigitTokensAreDigitRuns`), but not on an arbitrary token sequence
  given to `ParserSpec.ParseProgram`.
- The prefix and infix routine maps that `New` registers are modelled as a
  fixed dispatch (`ParsePrefix`, `ParseInfix`) over the same tokens. The
  `addPrefixToken` and `addInfixToken` registrations are not separate
  operations.
- The parser reads the lexer's whole token sequence up front
  (`ParseSource`) instead of pulling tokens one at a time. The lexer returns
  the same tokens either way.
- `TokenType` is a closed set of kinds. `TypeName` gives the Go string of
  each kind. The token.go kept here lacks STRING, LBRACK and RBRACK, which
  the lexer and parser use; they are added.
- EvaluatorSpec.Set and EvaluatorSpec.Get: total. A handle outside the
  store is a no-op for Set and not-found for Get. `Get` also stops at a link
  that does not point to an older frame. `StoreKeepsLinks` proves that every
  store operation keeps links pointing back, and `GetWalksChain` proves that
  under that condition `Get` is Go's full walk. That `Eval` as a whole only
  captures valid handles in Function objects is not proved.
- Ast.ListStrings: its own contract gives only the count. A postcondition
  cannot call back into `ExpressionString`, so `ListStringsItems` states the
  contents.
- Ast.Join: its own contract covers no parts, one part and the first part;
  `JoinAppend` states where the separator goes.
- Evaluation4/ast/ast.go has no `ArrayLiteral` or `IndexExpression`; the
  parser builds them. Their `String()` texts, `[a, b]` and `(l[i])`, are
  this model's own choice.
- `Ast.StatementSmaller` and `Ast.ExpressionSmaller` only show that the
  evaluator's loops terminate; they model nothing in the source.
- Integer, Boolean, Null and Error objects carry no allocation number.
  Integers never reach pointer `==`, because two integers compare by value
  first. Booleans and NULL are singletons. An Error operand is returned
  before any comparison.
