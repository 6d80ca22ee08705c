# napkin: lexer, parser and tree-walking interpreter

napkin is a small interpreted language with real and complex numbers. A
source text goes through three stages:

- The lexer (`src/lexer.cpp`) turns it into tokens. The token sequence
  always ends with a NEWLINE and an EOF token.
- The recursive-descent parser (`src/parser.cpp`) turns the tokens into
  statements.
- The interpreter (`src/interpreter.cpp`) runs the statements over a chain
  of scopes (`src/environment.cpp`). Lambdas evaluate to closures over a copy
  of the current scope (`src/nclosure.cpp`), and the operators of the numeric
  tower are in `src/noperator.cpp`.

A debugging printer (`src/ASTPrinter.cpp`) renders expressions in prefix
notation.

The model follows the source's own shape:

- **Lexer.** `Lexing.Lexer` is a class with the lexer's cursor, line,
  column, token vector and error flag. Its methods carry the loops of
  `lexer.cpp`. Each is proved to leave the state exactly as a function of
  `LexerSpec` says. `Scanning` gives the extent of each lexeme as a function
  on the text. `LexerLemmas` proves what the lexer promises: the final
  NEWLINE and EOF, what each character makes, and that errors are kept.
- **Parser.** `Parsing.Parser` is a class with the cursor `current` and the
  flag `hadError`, with one method per grammar rule and `while` loops where
  the source has them. Each method is proved to return, and to leave the
  cursor and the flag, exactly as the matching function of `Grammar` says.
  `GrammarLemmas` proves the grammar's precedence, associativity, lookahead
  and error handling.
- **Operators.** `Operators` holds the operators as total functions on
  possibly-null objects. It has lemmas for the case analysis of each
  operator and for its algebraic laws.
- **Scopes and closures.** `Runtime.Environment` is a class whose name map
  is updated in place; its enclosing link never changes. `Closures` builds
  closures and binds parameters.
- **Interpreter.** `Interpreter.Interpreter` is a class holding the current
  scope, the globals, the repl flag and the console output. On the
  expressions that change no state (`Interpreter.Pure`), its visitor methods
  are proved to compute the reference semantics `Interpreter.Denote` and
  `Interpreter.DenoteBlock`. On lists of expression and output statements
  over such expressions, its statement loops are proved to compute the
  reference run `Interpreter.RunSimple`: its result and the values it
  writes to the output.
- **Printer.** `Printer` is a function. Its lemma shows that the printed
  parentheses balance.

Exceptions become values of `Errors.Error`:

- `RuntimeError`: the source's `RuntimeException`.
- `ParserError`: its `ParserException`.
- `ImplementationError`: its `ImplementationException`.
- `Crash`: undefined behaviour or a C++ library exception. This covers a
  null object being dereferenced, a read past the end of a container, and
  `std::stod` finding no number.
- `Unmodelled`: something this model does not compute, such as an IEEE
  infinity.
- `OutOfFuel`: the interpreter's evaluation budget is used up.

## Model

| member | source | states |
|---|---|---|
| Tokens.KeywordKind | src/token.h:80-82 | A lexeme missing from the keyword table reads as the enumeration's value 0 (LeftParen); a lexeme in the table reads as its entry. |
| Scanning.CharAt | src/lexer.cpp:324-329 | peek yields the character at the position, or '\0' past the end of the text. |
| Scanning.DigitRun | src/lexer.cpp:201-203 | The digit loop stops at the end of the maximal run of digits: everything before is a digit, and the character after is not. |
| Scanning.NumberEnd | src/lexer.cpp:200-212 | The end of a number literal lies between the position and the end of the text. |
| Scanning.NumberLexemeWellFormed | src/lexer.cpp:200-215 | A number lexeme is digits, optionally followed by '.' and at least one digit. It is maximal: no digit follows it, and a lexeme without a fraction is not followed by '.' and a digit. |
| Scanning.ImNumberEnd | src/lexer.cpp:220-238 | The corrected imaginary scan (an optional '-', then a number) ends within the text. |
| Scanning.ImNumberEndAsWritten | src/lexer.cpp:220-238 | The scan as written ends at least one character past the 'j', because of its extra advance. |
| Scanning.ImNumberEndOneLate | src/lexer.cpp:220-238 | The scan as written is the intended scan begun one character late: the extra advance swallows the character after the 'j'. |
| Scanning.ImNumberCounterexample | src/lexer.cpp:220-241 | On "j5-3" the code as written scans to position 4 and cuts the lexeme "5-3", while the intended scan stops after "5". |
| Scanning.ImNumberLexemeWellFormed | src/lexer.cpp:220-242 | The corrected imaginary lexeme is an optional '-' followed by a well-formed number, and no digit follows it. |
| Scanning.IdentifierEnd | src/lexer.cpp:248-250 | An identifier extends over the maximal run of letters, digits and '_'. |
| Scanning.Find | src/lexer.cpp:280-285 | The scan for a character stops at its first occurrence at or after the position, or at the end of the text. |
| Scanning.FractionValue | src/AST.h:107-109 | The value of the digits after a decimal point lies in [0, 1]. |
| Scanning.DecimalString | src/interpreter.cpp:261-263 | std::to_string of a count is a non-empty string of digits, with a leading zero exactly when the count is 0. |
| Scanning.DecimalStringRoundTrip | src/interpreter.cpp:261-263 | Reading back the digits std::to_string renders gives the count. |
| Scanning.Stod | src/AST.h:107-109 | std::stod reads a value only from text that contains a digit. |
| Scanning.StodNumber | src/AST.h:107-109 | std::stod reads a whole number lexeme as its decimal value (whole digits plus fraction digits), and the lexeme after a '-' as the negated value. |
| Scanning.StodUnsigned | src/AST.h:107-109 | std::stod reads a number lexeme as its decimal value. |
| Scanning.StodNegated | src/AST.h:107-109 | std::stod reads '-' followed by a number lexeme as the negated decimal value. |
| Scanning.NumberLexemeReads | src/lexer.cpp:200-215 | Every number literal the lexer scans has number syntax, and std::stod reads it whole as its decimal value. |
| LexerSpec.Skip | src/lexer.cpp:302-306 | Advancing n times over characters other than counted line breaks moves the position and the column by n, and nothing else. |
| LexerSpec.Emit | src/lexer.cpp:334-337 | addToken appends one token carrying the current line and column, and changes nothing else. |
| LexerSpec.PairScan | src/lexer.cpp:103-153 | A two-character operator consumes one or two characters and stays within the text. |
| LexerSpec.ColonScan | src/lexer.cpp:90-102 | ':' consumes one or two characters and stays within the text. |
| LexerSpec.CommentScan | src/lexer.cpp:159-163 | A comment moves forward and stays within the text. |
| LexerSpec.NumberScan | src/lexer.cpp:200-215 | number() moves forward and stays within the text. |
| LexerSpec.ImNumberScan | src/lexer.cpp:220-242 | The corrected imNumber (see Findings): after the 'j', an optional '-' and a number, the 'j' left out of the lexeme. It moves forward and stays within the text. |
| LexerSpec.ImNumberScanAsWritten | src/lexer.cpp:220-242 | imNumber as written: one more advance past the 'j', an optional '-', a number, and the lexeme substr(start + 1, current - start). It always moves past the character after the 'j' and stays within the text. |
| LexerSpec.IdentifierScan | src/lexer.cpp:247-263 | identifier() moves forward and stays within the text. |
| LexerSpec.Walk | src/lexer.cpp:280-285 | The string-literal loop stops at the requested position and emits no token and no error. |
| LexerSpec.StringScan | src/lexer.cpp:268-297 | A string literal fails exactly when its opening quote is the last character, by reading past the end; otherwise it stays within the text. |
| LexerSpec.LexStep | src/lexer.cpp:47-195 | One lexToken reads at least one character and emits at most one token. It keeps an error once reported. It fails only on a '"' that ends the source. |
| Lexing.Lexer.constructor | src/lexer.h:20-23 | A new lexer is at position 0, line 1, column 0, with no tokens and no error. |
| Lexing.Lexer.Advance | src/lexer.cpp:302-306 | advance returns the next character and moves past it. |
| Lexing.Lexer.Match | src/lexer.cpp:312-319 | match consumes the next character exactly when it is the expected one. |
| Lexing.Lexer.AddToken | src/lexer.cpp:334-337 | The state after addToken is LexerSpec.Emit's. |
| Lexing.Lexer.NextLine | src/lexer.cpp:342-345 | nextLine increments the line and resets the column to 0; nothing else changes. |
| Lexing.Lexer.SkipDigits | src/lexer.cpp:201-203 | The loop stops exactly at the end of the digit run. |
| Lexing.Lexer.SkipNumber | src/lexer.cpp:201-212 | The loops stop exactly where Scanning.NumberEnd says. |
| Lexing.Lexer.Number | src/lexer.cpp:200-215 | number() leaves the state LexerSpec.NumberScan gives. |
| Lexing.Lexer.ImNumber | src/lexer.cpp:220-242 | The corrected imNumber (see Findings) leaves the state LexerSpec.ImNumberScan gives. |
| Lexing.Lexer.SkipImNumber | src/lexer.cpp:226-238 | An optional '-' and then a number are consumed, ending where Scanning.ImNumberEnd says. |
| Lexing.Lexer.ImNumberAsWritten | src/lexer.cpp:220-242 | imNumber as written leaves the state LexerSpec.ImNumberScanAsWritten gives. Lexer.LexToken does not call it. |
| Lexing.Lexer.SkipImNumberAsWritten | src/lexer.cpp:222-238 | The extra advance, an optional '-' and a number are consumed, ending where Scanning.ImNumberEndAsWritten says. |
| Lexing.Lexer.AddImNumberAsWritten | src/lexer.cpp:240-241 | The token added is the clamped substr(start + 1, current - start), Scanning.ImNumberLexemeAsWritten. |
| Lexing.Lexer.SkipIdentifierChars | src/lexer.cpp:248-250 | The loop stops exactly at Scanning.IdentifierEnd. |
| Lexing.Lexer.Identifier | src/lexer.cpp:247-263 | identifier() leaves the state LexerSpec.IdentifierScan gives, keyword lookup included. |
| Lexing.Lexer.Comment | src/lexer.cpp:159-163 | A comment leaves the state LexerSpec.CommentScan gives. |
| Lexing.Lexer.StringBody | src/lexer.cpp:280-285 | The loop reads up to the next '"' or the end of the text, counting line breaks as LexerSpec.Walk does. |
| Lexing.Lexer.StringLiteral | src/lexer.cpp:268-297 | stringLiteral succeeds or crashes exactly as LexerSpec.StringScan says, leaving its state. |
| Lexing.Lexer.LexToken | src/lexer.cpp:47-195 | lexToken succeeds or crashes exactly as LexerSpec.LexStep says, leaving its state. |
| Lexing.Lexer.LexTokens | src/lexer.cpp:26-42 | lexTokens produces exactly LexerSpec.LexFrom's tokens, position and error flag, or its crash. |
| Lexing.Tokenize | src/lexer.h:20-25 | Constructing a lexer, then getTokens and safeToParse, yields exactly LexerSpec.Lex of the source. |
| LexerLemmas.LexFromEnds | src/lexer.cpp:26-42 | Lexing from any state that succeeds ends with a NEWLINE and an EOF token, both with empty lexemes. |
| LexerLemmas.LexFromKeepsTokens | src/lexer.cpp:26-42 | Lexing never removes or alters the tokens already emitted. |
| LexerLemmas.TokensEndWithNewlineAndEof | src/lexer.cpp:26-42 | Every successfully lexed source ends with NEWLINE then EOF, so every statement is terminated. |
| LexerLemmas.LexFromKeepsErrors | src/lexer.cpp:26-42 | A lexical error, once reported, is still reported when lexing ends (safeToParse is then false). |
| LexerLemmas.LexFromFailsOnTrailingQuote | src/lexer.cpp:26-42 | Lexing fails only when the source's last character is '"', and then by reading past the end. |
| LexerLemmas.QuoteAtEndReadsPastEnd | src/lexer.cpp:268-278 | A '"' as the last character does read past the end, so that failure is real. |
| LexerLemmas.LineBreakStep | src/lexer.cpp:50-81 | A line break emits a NEWLINE token and moves to the next line at column 0. |
| LexerLemmas.SemicolonStep | src/lexer.cpp:50-81 | ';' emits a NEWLINE token and stays on the same line. |
| LexerLemmas.OnlyLineBreaksChangeLine | src/lexer.cpp:47-195 | Only a line break, or a string literal spanning one, changes the line. |
| LexerLemmas.TwoCharacterOperator | src/lexer.cpp:103-153 | '==', '!=', '<=', '>=' and '**' each make one two-character token. |
| LexerLemmas.OneCharacterOperator | src/lexer.cpp:103-153 | '=', '!', '<', '>' or '*' without its second character is a token of its own. |
| LexerLemmas.ColonStep | src/lexer.cpp:90-102 | ':=' is one token. A lone ':' is an error that makes no token, and lexing goes on after it. |
| LexerLemmas.NumberStep | src/lexer.cpp:180-215 | A digit starts exactly one NUMBER token. Its lexeme is the source text it spans, well formed and maximal. |
| LexerLemmas.NumberScanToken | src/lexer.cpp:200-215 | number() adds exactly one token: the text from the first digit to the end of the number. |
| LexerLemmas.DigitDispatch | src/lexer.cpp:180-194 | lexToken hands a digit to number(). |
| LexerLemmas.ImaginaryStep | src/lexer.cpp:170-178 | With the corrected imNumber, 'j' followed by a digit or by '-' and a digit makes one IM_NUMBER token. Its lexeme is the text after the 'j': an optional '-' and a well-formed number, maximal. |
| LexerLemmas.ImNumberScanDiffers | src/lexer.cpp:220-242 | On "j5-3", once the 'j' is read, imNumber as written emits one literal "5-3" and reaches the end of the text. The corrected scan emits "5" and stops before the '-'. |
| LexerLemmas.NameStep | src/lexer.cpp:180-194 | A letter or '_' starts one token over the maximal run of letters, digits and '_'. It is the table's keyword, or an identifier when the table gives value 0. |
| LexerLemmas.StringStep | src/lexer.cpp:165-167 | A string literal's token holds exactly the text between the quotes, which contains no '"'. An unterminated one reports an error, makes no token and ends at the end of the text. |
| LexerLemmas.CommentStep | src/lexer.cpp:159-163 | '#' makes no token and skips to the next line break, which is left to be read. |
| LexerLemmas.BlankStep | src/lexer.cpp:83-88 | Spaces, tabs and carriage returns make no token and move one column. |
| LexerLemmas.UnrecognisedCharacter | src/lexer.cpp:180-194 | An unrecognised character is an error with no token, lexing continues, and the result is not safe to parse. |
| Grammar.SkipNewlines | src/parser.cpp:419-421 | ignoreNewlines stops at the first token at or after the cursor that is not a NEWLINE. |
| Grammar.Expression | src/parser.cpp:111-126 | expr always moves forward or records an error, and never lets a ParserError escape. |
| Grammar.Lambda | src/parser.cpp:131-158 | lambdaExpr never moves back and never clears hadError. |
| Grammar.LambdaBody | src/parser.cpp:153-157 | A parsed lambda keeps its parameter list. A missing '{' is the "expected '{'" error, with nothing consumed. |
| Grammar.Parameters | src/parser.cpp:135-151 | The parameter list never moves back and never sets hadError. |
| Grammar.CloseParameters | src/parser.cpp:147-150 | The list closes exactly when a ')' follows, and then yields the parameters collected. |
| Grammar.ParameterList | src/parser.cpp:138-145 | The parameter loop never moves back and never sets hadError. |
| Grammar.Assignment | src/parser.cpp:163-183 | assignExpr moves forward or records an error. |
| Grammar.Binary | src/parser.cpp:188-280 | Each binary level (_or to multiplication) moves forward, and what it builds holds no assignment, declaration or lambda. |
| Grammar.Operand | src/parser.cpp:188-280 | A level's operand comes from the next tighter level, or from exponentiation below multiplication. It builds only simple nodes. |
| Grammar.BinaryTail | src/parser.cpp:188-280 | A level's loop never moves back and builds only simple nodes. |
| Grammar.BinaryStep | src/parser.cpp:188-280 | One pass of a level's loop moves forward and builds only simple nodes. |
| Grammar.Exponentiation | src/parser.cpp:285-296 | exponentiation moves forward and builds only simple nodes. |
| Grammar.ExponentTail | src/parser.cpp:285-296 | exponentiation's loop never moves back and builds only simple nodes. |
| Grammar.ExponentStep | src/parser.cpp:285-296 | One pass of exponentiation's loop moves forward and builds only simple nodes. |
| Grammar.Unary | src/parser.cpp:301-310 | unary moves forward and builds only simple nodes. |
| Grammar.Call | src/parser.cpp:315-328 | call moves forward and builds only simple nodes. |
| Grammar.CallTail | src/parser.cpp:315-328 | call's loop never moves back and builds only simple nodes. |
| Grammar.FinishCall | src/parser.cpp:334-348 | finishCall builds a call node after consuming at least the ')'. Its own error is a RuntimeError, never a ParserError. |
| Grammar.CloseCall | src/parser.cpp:342-347 | A missing ')' after arguments is exactly the "expected ')'" RuntimeError. |
| Grammar.Arguments | src/parser.cpp:336-340 | The argument loop never lets a ParserError escape. |
| Grammar.ArgumentsRest | src/parser.cpp:336-340 | The comma test of the argument loop never lets a ParserError escape. |
| Grammar.Primary | src/parser.cpp:353-413 | primary moves forward or fails, and builds only simple nodes. |
| Grammar.Prefix | src/parser.cpp:367-373 | A prefix operator and its operand move forward and make a simple node. |
| Grammar.Literal | src/parser.cpp:376-407 | A literal or identifier moves forward and makes a simple node. |
| Grammar.Parenthesized | src/parser.cpp:390-402 | A parenthesised expression yields a grouping node. |
| Grammar.Statement | src/parser.cpp:22-38 | stmt moves forward or records an error. |
| Grammar.OtherStatement | src/parser.cpp:22-38 | The if, while and expression-statement branches of stmt move forward. |
| Grammar.Terminator | src/parser.cpp:428-432 | checkTerminator leaves the cursor within the tokens and never moves it back. |
| Grammar.ExpressionStatement | src/parser.cpp:43-47 | exprStmt moves forward or records an error. |
| Grammar.OutputStatement | src/parser.cpp:52-56 | outputStmt moves forward or records an error. |
| Grammar.Block | src/parser.cpp:61-76 | A block that parses has consumed its closing '}'. |
| Grammar.BlockItem | src/parser.cpp:66-69 | One statement of a block, followed by the rest of the block, ends on the '}'. |
| Grammar.IfStatement | src/parser.cpp:81-94 | ifStmt moves forward or records an error. |
| Grammar.ElseClause | src/parser.cpp:87-91 | The rest of ifStmt builds an if statement. |
| Grammar.ElseTest | src/parser.cpp:87-91 | The else test builds an if statement. |
| Grammar.ElseBranch | src/parser.cpp:87-91 | The else branch moves forward and builds an if statement. |
| Grammar.WhileStatement | src/parser.cpp:99-106 | whileStmt moves forward or records an error. |
| Grammar.Program | src/parser.cpp:8-17 | parse stops only at EOF and keeps the statements parsed so far, in order. |
| GrammarLemmas.OneOperand | src/parser.cpp:188-280 | An operand not followed by the level's operator is the level's whole result, unchanged. |
| GrammarLemmas.TwoOperands | src/parser.cpp:188-280 | a op b builds one node whose operands come from the tighter level, so tighter operators bind first. |
| GrammarLemmas.TailStep | src/parser.cpp:188-280 | One pass of a level's loop makes the tree so far the left operand of the new node. |
| GrammarLemmas.LeftAssociative | src/parser.cpp:188-280 | a op b op c at one level groups as (a op b) op c. |
| GrammarLemmas.OneFactor | src/parser.cpp:285-296 | A unary operand not followed by '**' is the whole exponentiation. |
| GrammarLemmas.PowerStep | src/parser.cpp:285-296 | After '**' the right operand is a whole exponentiation. |
| GrammarLemmas.RightAssociative | src/parser.cpp:285-296 | a ** b ** c groups as a ** (b ** c). |
| GrammarLemmas.TwoFactors | src/parser.cpp:285-296 | a ** b builds one binary node. |
| GrammarLemmas.AssignmentLookahead | src/parser.cpp:163-183 | An assignment is built exactly when an identifier is followed by '=' and a value that parses; likewise a declaration with ':='. Either is named by that identifier, and every other expression comes from the `or` level. |
| GrammarLemmas.LookaheadPastEnd | src/parser.cpp:163-183 | On the final EOF the second lookahead token reads past the end of the token vector. |
| GrammarLemmas.StatementTerminator | src/parser.cpp:428-432 | After an expression statement a NEWLINE is consumed and a '}' is left for the block. Anything else is the terminator ParserError. |
| GrammarLemmas.UnclosedBlock | src/parser.cpp:71-73 | A block that reaches EOF before its '}' fails with the unclosed-block error. |
| GrammarLemmas.MissingOnlyAfterError | src/parser.cpp:111-126 | expr never lets a ParserError escape, and yields a missing node only after setting hadError. |
| GrammarLemmas.OtherErrorsPropagate | src/parser.cpp:111-126 | An error other than a ParserError passes through expr unchanged. |
| GrammarLemmas.NumberPrimary | src/parser.cpp:376-387 | A number literal is a primary whose value std::stod reads from the lexeme. |
| GrammarLemmas.NumberFactor | src/parser.cpp:285-296 | A number literal followed by neither '(' nor '**' is the whole exponentiation: a number node with that value. |
| GrammarLemmas.NumberUnary | src/parser.cpp:301-310 | A number literal not followed by '(' is the whole unary operand. |
| Parsing.Parser.constructor | src/parser.cpp:8-17 | A parser starts at the first token with no error. |
| Parsing.Parser.PeekAhead | src/parser.cpp:482-484 | peek(n) yields the token n - 1 places ahead, or fails exactly when that lies past the end. |
| Parsing.Parser.Advance | src/parser.cpp:458-463 | advance moves one token forward unless at EOF, and returns the token before the cursor. |
| Parsing.Parser.Match | src/parser.cpp:437-443 | match consumes the current token exactly when check succeeds. |
| Parsing.Parser.MatchOperator | src/parser.cpp:188-280 | The chained match of a level consumes one token exactly when it is one of the level's operators. |
| Parsing.Parser.IgnoreNewlines | src/parser.cpp:419-421 | The loop stops exactly at Grammar.SkipNewlines. |
| Parsing.Parser.CheckTerminator | src/parser.cpp:428-432 | checkTerminator succeeds or fails, and moves the cursor, as Grammar.Terminator says. |
| Parsing.Parser.Parse | src/parser.cpp:8-17 | parse's statements, cursor and flag are Grammar.Program's. |
| Parsing.Parser.Statement | src/parser.cpp:22-38 | stmt's result, cursor and flag are Grammar.Statement's. |
| Parsing.Parser.OtherStatement | src/parser.cpp:22-38 | The remaining branches of stmt behave as Grammar.OtherStatement. |
| Parsing.Parser.ExpressionStatement | src/parser.cpp:43-47 | exprStmt behaves as Grammar.ExpressionStatement. |
| Parsing.Parser.OutputStatement | src/parser.cpp:52-56 | outputStmt behaves as Grammar.OutputStatement. |
| Parsing.Parser.Block | src/parser.cpp:61-76 | blockStmt's loop behaves as Grammar.Block. |
| Parsing.Parser.IfStatement | src/parser.cpp:81-94 | ifStmt behaves as Grammar.IfStatement. |
| Parsing.Parser.ElseClause | src/parser.cpp:87-91 | The rest of ifStmt behaves as Grammar.ElseClause. |
| Parsing.Parser.ElseTest | src/parser.cpp:87-91 | The else test behaves as Grammar.ElseTest. |
| Parsing.Parser.ElseBranch | src/parser.cpp:87-91 | The else branch behaves as Grammar.ElseBranch. |
| Parsing.Parser.WhileStatement | src/parser.cpp:99-106 | whileStmt behaves as Grammar.WhileStatement. |
| Parsing.Parser.Expression | src/parser.cpp:111-126 | expr, with its catch of ParserErrors, behaves as Grammar.Expression. |
| Parsing.Parser.Lambda | src/parser.cpp:131-158 | lambdaExpr behaves as Grammar.Lambda. |
| Parsing.Parser.LambdaBody | src/parser.cpp:153-157 | The lambda's body behaves as Grammar.LambdaBody. |
| Parsing.Parser.Parameters | src/parser.cpp:135-151 | The parameter list behaves as Grammar.Parameters, and hadError is unchanged. |
| Parsing.Parser.CloseParameters | src/parser.cpp:147-150 | The closing ')' behaves as Grammar.CloseParameters. |
| Parsing.Parser.ParameterList | src/parser.cpp:138-145 | The parameter loop behaves as Grammar.ParameterList. |
| Parsing.Parser.Assignment | src/parser.cpp:163-183 | assignExpr behaves as Grammar.Assignment. |
| Parsing.Parser.BinaryLevel | src/parser.cpp:188-280 | Each of the six binary levels behaves as Grammar.Binary. |
| Parsing.Parser.BinaryLoop | src/parser.cpp:188-280 | A level's while loop builds the left-leaning tree of Grammar.BinaryTail. |
| Parsing.Parser.Operand | src/parser.cpp:188-280 | A level's operand call behaves as Grammar.Operand. |
| Parsing.Parser.Exponentiation | src/parser.cpp:285-296 | exponentiation behaves as Grammar.Exponentiation. |
| Parsing.Parser.ExponentLoop | src/parser.cpp:285-296 | exponentiation's loop behaves as Grammar.ExponentTail. |
| Parsing.Parser.Unary | src/parser.cpp:301-310 | unary behaves as Grammar.Unary. |
| Parsing.Parser.Call | src/parser.cpp:315-328 | call behaves as Grammar.Call. |
| Parsing.Parser.CallLoop | src/parser.cpp:315-328 | call's loop applies finishCall per '(' as Grammar.CallTail says. |
| Parsing.Parser.FinishCall | src/parser.cpp:334-348 | finishCall behaves as Grammar.FinishCall. |
| Parsing.Parser.CloseCall | src/parser.cpp:342-347 | The ')' of finishCall behaves as Grammar.CloseCall. |
| Parsing.Parser.Arguments | src/parser.cpp:336-340 | The do-while over arguments behaves as Grammar.Arguments. |
| Parsing.Parser.Primary | src/parser.cpp:353-413 | primary behaves as Grammar.Primary. |
| Parsing.Parser.Prefix | src/parser.cpp:367-373 | A prefix operator behaves as Grammar.Prefix. |
| Parsing.Parser.Literal | src/parser.cpp:376-407 | Literals and identifiers behave as Grammar.Literal. |
| Parsing.Parser.Parenthesized | src/parser.cpp:390-402 | A grouping behaves as Grammar.Parenthesized. |
| Operators.TypePredicates | src/noperator.cpp:473-482 | areRealNumbers and areNumbers hold of two objects exactly when each operand is a real, or a number. |
| Operators.AddCases | src/noperator.cpp:11-77 | Strings concatenate, reals add as reals, and a complex operand makes the sum complex with a real read as (r, 0). Any other pair is the addition error. |
| Operators.AddCommutesOnNumbers | src/noperator.cpp:11-77 | Addition of numbers is commutative. |
| Operators.NegateInvolution | src/noperator.cpp:90-113 | Negation keeps the kind, negates both parts, and undoes itself. |
| Operators.SubtractThenAdd | src/noperator.cpp:82-84 | (a - b) + b gives a back, promoted to complex when either side is complex. |
| Operators.SubtractSelf | src/noperator.cpp:82-84 | a - a is the zero of a's kind. |
| Operators.MultiplyCases | src/noperator.cpp:119-178 | Reals multiply as reals. Otherwise the result is the complex product (ac - bd, ad + bc), a real read as (r, 0). |
| Operators.MultiplyCommutesOnNumbers | src/noperator.cpp:119-178 | Multiplication of numbers is commutative. |
| Operators.TimesJRotates | src/noperator.cpp:183-192 | j turns r into (0, r) and (a, b) into (-b, a); twice, it negates. |
| Operators.Divide | src/noperator.cpp:199-257 | A quotient that succeeds is a number. |
| Operators.DivideExample | src/noperator.cpp:199-257 | (1 + j1) / j1 = 1 - j1. |
| Operators.QuotientTimesDivisor | src/noperator.cpp:199-257 | For c² + d² nonzero, the conjugate-formula quotient of (a, b) by (c, d), multiplied back by (c, d), is (a, b). |
| Operators.RealOverReal | src/noperator.cpp:199-257 | (x / r) · r = x for a nonzero real r. |
| Operators.ComplexOverReal | src/noperator.cpp:199-257 | (re / r, im / r) · r = (re, im) for a nonzero real r. |
| Operators.RealDivisor | src/noperator.cpp:199-257 | Dividing any number by a nonzero real succeeds, and multiplying the quotient back by the divisor gives the dividend. |
| Operators.DivideThenMultiply | src/noperator.cpp:199-257 | Division inverts multiplication: for every number a and every nonzero divisor b, a / b succeeds and (a / b) · b is a again, as a complex unless both are reals. |
| Operators.DivideByZero | src/noperator.cpp:199-257 | A quotient of two numbers fails exactly when the divisor is zero (0, or c² + d² = 0), and then it is not finite. |
| Operators.IntPower | src/noperator.cpp:263-276 | A non-zero base raised to a natural exponent stays non-zero, so negative integral exponents are defined. |
| Operators.PowerGuards | src/noperator.cpp:263-276 | Only two reals can be raised; 0 ** 0 is an error, not 1. |
| Operators.PowerExample | src/noperator.cpp:263-276 | 2 ** 10 = 1024 and 2 ** -1 = 0.5. |
| Operators.IsTruthyNeverRuntimeError | src/noperator.cpp:289-344 | isTruthy fails exactly on null or a callable, and never with a RuntimeException, so the handlers in `or` and `and` are dead. |
| Operators.LogicTables | src/noperator.cpp:282-344 | On operands with a truthiness, not, or and and are boolean negation, disjunction and conjunction of it. |
| Operators.Equal | src/noperator.cpp:349-369 | == yields a boolean whenever it succeeds. |
| Operators.EqualSymmetric | src/noperator.cpp:349-369 | == is symmetric, errors included. |
| Operators.NotEqualNegatesEqual | src/noperator.cpp:374-384 | != succeeds exactly when == does and yields its negation. It fails as == does, except for the message. |
| Operators.EqualComparesTruthiness | src/noperator.cpp:353-363 | With a boolean operand, == is true exactly when both operands are truthy or both are falsy, and it succeeds exactly when neither operand is a callable; a callable operand crashes in isTruthy. |
| Operators.EqualNeedsBoolean | src/noperator.cpp:349-384 | Two non-boolean operands cannot be compared: both == and != report their invalid-operands error. |
| Operators.CompareErrors | src/noperator.cpp:390-468 | A complex operand of >, <, >= or <= is reported first, naming the operator. Any other non-real operand gets the invalid-operands error. |
| Operators.OrderingDualities | src/noperator.cpp:390-468 | On reals, x > y is y < x, x >= y is y <= x, and x >= y is not (x < y). |
| Runtime.Environment.Chain | src/environment.cpp:40-53 | The chain of enclosing scopes is finite: it holds this scope, and the enclosing scope's chain does not hold it again. |
| Runtime.Environment.constructor | src/nclosure.cpp:19 | A new scope is empty and encloses in the given scope, or is a root. |
| Runtime.Environment.Copy | src/nclosure.cpp:9-10 | The member-wise copy has the same bindings and the same enclosing link. |
| Runtime.Environment.Holder | src/environment.cpp:40-53 | The holder of a bound name is on the chain and maps it, and no scope inside it does. |
| Runtime.Environment.ExistsSomewhereIsSomeScope | src/environment.cpp:58-71 | existsSomewhere holds exactly when some scope on the chain maps the name. |
| Runtime.Environment.LookupIsInnermost | src/environment.cpp:40-53 | lookup yields the binding of the innermost scope that maps the name, and null when none does. |
| Runtime.Environment.DeclareVar | src/nclosure.cpp:22-23 | Declaring sets the name in this scope only, shadowing outer bindings. |
| Runtime.Environment.Target | src/environment.cpp:10-33 | The scope bind writes lies on the chain. |
| Runtime.Environment.Bind | src/environment.cpp:10-33 | After bind, the name looks up to the value and every other name as before. Of all the scopes, only the innermost holder of the name changes (or this scope, when none holds it), and only at that name. |
| Closures.MakeClosure | src/nclosure.cpp:5-11 | A closure keeps the lambda's parameters and body, and captures a fresh copy of the creating scope: equal bindings now, the same enclosing link. |
| Closures.Arity | src/nclosure.cpp:30-32 | A closure's arity is its number of parameters. |
| Closures.BindParametersKeys | src/nclosure.cpp:21-24 | The call scope binds exactly the parameter names. |
| Closures.BindParametersLast | src/nclosure.cpp:21-24 | A parameter no later parameter redeclares is bound to its own argument. |
| Closures.BindParametersPositional | src/nclosure.cpp:21-24 | Parameters bind positionally: exactly the parameter names, each to the argument of the last parameter that declares it. |
| Closures.BindArguments | src/nclosure.cpp:19-24 | The call scope is fresh, encloses in the captured copy, and holds the parameters bound positionally. |
| Closures.BindParametersValues | src/nclosure.cpp:21-24 | Every object a parameter is bound to is one of the arguments. |
| Closures.DistinctParametersBindPositionally | src/nclosure.cpp:21-24 | With distinct names, parameter i is bound to argument i. |
| Closures.SnapshotAsymmetry | src/nclosure.cpp:5-11 | After a closure is made, redeclaring x in its creating scope is invisible to it (x stays 1). Rebinding y in the enclosing scope is seen (y becomes 2). |
| Interpreter.ApplyBinary | src/interpreter.cpp:155-211 | A binary operator never yields a callable. An operator token outside the switch is the "binary operator not handled" error. |
| Interpreter.ApplyUnary | src/interpreter.cpp:217-244 | A unary operator never yields a callable. An operator token outside the switch is the "unary operator not handled" error. |
| Interpreter.KeywordValue | src/interpreter.cpp:299-317 | pi and euler evaluate to the constants of constants.h. Every other keyword is the not-handled error. |
| Interpreter.Denote | src/interpreter.cpp:125-297 | A pure expression that evaluates yields a non-null object. |
| Interpreter.EagerOperands | src/interpreter.cpp:155-160 | When the right operand fails, the binary expression fails with its error, whatever the operator. |
| Interpreter.OrDoesNotShortCircuit | src/interpreter.cpp:155-211 | `true or x` with x unbound is the undefined-variable error, not true. |
| Interpreter.ArithmeticExample | src/interpreter.cpp:155-211 | 1 + 2 * 3, as the parser groups it, evaluates to 7. |
| Interpreter.DenoteThroughEmptyScope | src/environment.cpp:40-53 | A scope with no bindings is transparent to a pure expression. |
| Interpreter.DenoteBlockErrorPersists | src/interpreter.cpp:79-98 | Once a prefix of a block fails, the whole block fails with the same error. |
| Interpreter.DenoteBlockStopsAtError | src/interpreter.cpp:79-98 | When the statements before the last fail, the last is not evaluated. |
| Interpreter.DenoteBlockIsLast | src/interpreter.cpp:79-98 | A block whose statements all succeed yields the last one's value. |
| Interpreter.DenoteBlockThroughEmptyScope | src/interpreter.cpp:67-71 | Running a pure block in the fresh empty block scope gives what it gives in the enclosing scope. |
| Interpreter.RanOkExtend | src/interpreter.cpp:90-93 | A successful statement result extends a successful run, and the run now yields it. |
| Interpreter.RanOkStop | src/interpreter.cpp:90-93 | A failing statement result ends the run in order, and the run yields that error. |
| Interpreter.RanOkAll | src/interpreter.cpp:90-93 | A successful run over every statement is a run in order. |
| Interpreter.RunResultIsFirstErrorOrLast | src/interpreter.cpp:79-98 | A run in order succeeds exactly when every statement ran and succeeded, and then yields the last statement's value (null for none). Otherwise it yields the last result, an error that only successes precede. |
| Interpreter.DenoteBlockStep | src/interpreter.cpp:90-93 | Denoting one more statement of a pure block is denoting the prefix, then that statement. |
| Interpreter.RunSimpleStep | src/interpreter.cpp:90-93 | Running one more expression or output statement is running the prefix and, unless the prefix failed, that statement: its result, and the prefix's writes followed by its own. |
| Interpreter.RunSimpleErrorPersists | src/interpreter.cpp:79-98 | Once a prefix of a simple list fails, the whole list yields that error and writes nothing more. |
| Interpreter.RunSimpleIsDenoteBlock | src/interpreter.cpp:37-49 | For pure expression statements the reference run yields DenoteBlock's result, and outside repl mode it writes nothing. |
| Interpreter.RunSimpleOutputs | src/interpreter.cpp:54-60 | Output statements whose expressions all succeed with values yield null and write exactly those values, one per statement, in order. |
| Interpreter.RunSimpleOutputsStop | src/interpreter.cpp:54-60 | When output statement k is the first whose expression fails, the run yields that error and writes only the values of the statements before k. |
| Interpreter.RunSimpleThroughEmptyScope | src/interpreter.cpp:67-71 | A scope with no bindings is transparent to the reference run of a simple list: same result, same writes. |
| Interpreter.Interpreter.ExecuteNext | src/interpreter.cpp:90-93 | One pass of the statement loop: the statement's result is one its kind allows. For a simple list it extends the reference run of the prefix by that statement, result and writes, with the scopes unchanged, and an error there is the run of the whole list. |
| Interpreter.Interpreter.EnterBlockScope | src/interpreter.cpp:67-71 | A block gets a fresh empty scope enclosing the current one, and the reference run and DenoteBlock of its statements are the same there as in the current scope. |
| Interpreter.DenoteArgumentsCollects | src/interpreter.cpp:249-253 | Evaluating the arguments left to right is taking their denotations in order and stopping at the first error. |
| Interpreter.DenoteArgumentsFirstError | src/interpreter.cpp:249-253 | Arguments evaluated left to right succeed exactly when each argument does, with argument k's value in place k. Otherwise their error is that of the first argument that fails. |
| Interpreter.DenoteArgumentsValues | src/interpreter.cpp:249-253 | The arguments succeed exactly when each one does, and then argument k's value is in place k. |
| Interpreter.DenoteArgumentsSucceed | src/interpreter.cpp:249-253 | The arguments succeed exactly when each one does. |
| Interpreter.DenoteArgumentsInPlace | src/interpreter.cpp:249-253 | When the arguments succeed, there is one value per argument, argument k's in place k. |
| Interpreter.DenoteArgumentsError | src/interpreter.cpp:249-253 | When the arguments fail, the error is that of an argument all of whose predecessors succeed. |
| Interpreter.DenoteArgumentsStopsAt | src/interpreter.cpp:249-253 | When every argument before i succeeds and argument i fails, the arguments fail with argument i's error. |
| Interpreter.DenoteArgumentsAllOk | src/interpreter.cpp:249-253 | When every argument succeeds, the arguments yield exactly their values in order. |
| Interpreter.BindRoot | src/environment.cpp:10-15 | bind on a root scope sets the name in that scope. |
| Interpreter.Interpreter.constructor | src/interpreter.cpp:5-15 | The global scope is a fresh root, the current scope, and holds exactly millis, getline, exit and exit_status. Output is empty. |
| Interpreter.Interpreter.LookupClosed | src/interpreter.cpp:269-278 | Every object a lookup yields captured only scopes the interpreter knows. |
| Interpreter.Interpreter.Assign | src/interpreter.cpp:146-153 | `=` writes the innermost scope that already binds the name, or the current scope when none does (Target). That scope's map changes only at the name, and every other known scope keeps its bindings. Afterwards the name looks up to the value and every other name as before. |
| Interpreter.Interpreter.Evaluate | src/interpreter.cpp:125-128 | On a pure expression the result is Denote's and no state changes. After any success the current scope is the same. |
| Interpreter.Interpreter.VisitBinary | src/interpreter.cpp:155-211 | On a pure expression the result is Denote's (left, then right, then the operator) and no state changes. |
| Interpreter.Interpreter.VisitUnary | src/interpreter.cpp:217-244 | On a pure expression the result is Denote's and no state changes. |
| Interpreter.Interpreter.VisitAssign | src/interpreter.cpp:146-153 | On success the name looks up to the result. With a pure value, its error propagates and changes nothing. On success the result is the value, and the scope and output are the same. Only the target scope's map changes, and only at the name; every other scope keeps its bindings and every other name looks up as before. |
| Interpreter.Interpreter.VisitVarDecl | src/interpreter.cpp:137-144 | On success the current scope binds the name to the result. With a pure value, its error propagates and changes nothing. On success the current scope's map changes only at that name, every other scope keeps its bindings, and the output is the same. |
| Interpreter.Interpreter.VisitLambda | src/interpreter.cpp:133-135 | A lambda always evaluates to a closure with its parameters and body, over a copy of the current scope's bindings and link. |
| Interpreter.Interpreter.VisitCall | src/interpreter.cpp:245-265 | For a pure callee and pure arguments: a failing callee's error comes first. Otherwise the first failing argument's error (DenoteArguments). Otherwise the argument values are the arguments' denotations, and the outcome is InvokeOutcome's: null dereferenced, "object not callable.", "expected N arguments but got M.", millis reading the clock, another native unmodelled, or a closure's pure body denoted in the fresh call scope that binds the parameters. |
| Interpreter.Interpreter.EvaluateArguments | src/interpreter.cpp:249-253 | For pure arguments the result is DenoteArguments: left to right, the first failing argument's error, or all the values in order. |
| Interpreter.Interpreter.Invoke | src/interpreter.cpp:255-264 | Once the callee and the arguments are values: null is dereferenced, a non-callable is "object not callable.", a wrong count is "expected N arguments but got M." with both counts in decimal, millis yields the clock, another native is unmodelled, and a closure with no fuel left is OutOfFuel. A closure with a pure body yields DenoteBlock of its body in a fresh scope that encloses the captured copy and binds the parameters (InvokeOutcome). |
| Interpreter.Interpreter.CallClosure | src/nclosure.cpp:17-28 | A call runs the body in a fresh scope that encloses the captured copy and binds the parameters positionally. The call yields RunResult of a ghost result sequence shaped like an in-order run (RunsInOrder: every result before the last succeeds, the run stops early only at an error, each result is one its statement's kind allows); the sequence is tied to the body's statements only for a pure expression-statement body, where the result is DenoteBlock in the call scope. After a successful call that scope is not on the current scope chain. |
| Interpreter.Interpreter.ExecStmt | src/interpreter.cpp:29-32 | Every kind of statement keeps its visitor's promise (StmtDone). Output statements, loops and empty blocks yield null. An expression or output statement over a pure expression has exactly SimpleStep's result and appends exactly SimpleStep's writes to the output, leaving the scopes unchanged. |
| Interpreter.Interpreter.VisitExprStmt | src/interpreter.cpp:37-49 | For a pure expression, the statement yields its value, in repl mode echoes a non-null value to the output, and changes nothing else. |
| Interpreter.Interpreter.VisitOutputStmt | src/interpreter.cpp:54-60 | `output e` yields null. For a pure e it appends e's value to the output, and on e's error nothing is written. |
| Interpreter.Interpreter.VisitBlock | src/interpreter.cpp:67-71 | The block yields RunResult of a ghost result sequence shaped like an in-order run (RunsInOrder); an empty block yields null. The sequence is tied to the statements only for simple blocks: for expression and output statements over pure expressions the result and the appended output are RunSimple's in the current scope, and for a pure expression-statement block the result is DenoteBlock in the current scope. For a pure block, an error leaves the current scope at the block's inner scope. |
| Interpreter.Interpreter.ExecuteBlock | src/interpreter.cpp:79-98 | The block yields RunResult of a ghost result sequence shaped like an in-order run (RunsInOrder), null when empty; the previous scope is reinstated on success. The sequence is tied to the statements only for simple blocks: for expression and output statements over pure expressions the result and the appended output are RunSimple's in the inner scope, and for a pure expression-statement block the result is DenoteBlock there. For a pure block, an error leaves the inner scope installed. |
| Interpreter.Interpreter.ExecuteStatements | src/interpreter.cpp:90-93 | The statements yield RunResult of a ghost result sequence shaped like an in-order run (RunsInOrder: every result before the last succeeds, the run stops early only at an error). The sequence is tied to the statements only for simple lists: for expression and output statements over pure expressions the result is RunSimple's and the output grows by exactly RunSimple's writes, with the scopes unchanged; for pure expression statements the result is DenoteBlock. |
| Interpreter.Interpreter.ExecuteEach | src/interpreter.cpp:90-93 | The loop runs the statements in order and yields RunResult of a ghost result sequence shaped like an in-order run (RunsInOrder). For expression and output statements over pure expressions its result is RunSimple's, the output grows by exactly RunSimple's writes, and the scopes are unchanged. |
| Interpreter.Interpreter.VisitIf | src/interpreter.cpp:103-112 | A truthy condition runs the then-branch. A falsy one runs the else-branch, or yields null when there is none. A condition error, or a condition without a truthiness, is the result. |
| Interpreter.Interpreter.VisitWhile | src/interpreter.cpp:117-123 | A loop that ends yields null. A falsy first condition runs no iteration and changes nothing. |
| Interpreter.Interpreter.Interpret | src/interpreter.cpp:20-24 | Top-level statements run in the current scope; the outcome is built from RunResult of a ghost result sequence shaped like an in-order run (RunsInOrder). It is tied to the statements only for simple lists: for expression and output statements over pure expressions the run fails exactly when RunSimple does, with its error, and the output grows by exactly RunSimple's writes (the echoes in repl mode, the printed values); for pure expression statements it fails exactly when DenoteBlock does. |
| Printer.Print | src/ASTPrinter.cpp:5-38 | An expression prints exactly when each of its nodes has a visit function. |
| Printer.BinaryCounts | src/ASTPrinter.cpp:5-10 | A printed binary node adds exactly one '(' and one ')' to those of its operator and operands. |
| Printer.UnaryCounts | src/ASTPrinter.cpp:17-21 | A printed unary node adds exactly one '(' and one ')' to those of its parts. |
| Printer.GroupingCounts | src/ASTPrinter.cpp:12-15 | A printed grouping adds exactly one '(' and one ')'. |
| Printer.ImaginaryCounts | src/ASTPrinter.cpp:31-34 | The 'j' of an imaginary number adds no parenthesis. |
| Printer.ParenthesesBalance | src/ASTPrinter.cpp:5-38 | When no leaf text holds a parenthesis, the printed form has one '(' and one ')' per binary, unary and grouping node, so its parentheses balance. |

## Left out

- I/O:
  - Console output is recorded in `output` as the values whose repr() is written; repr() itself is not modelled.
  - The parser's and lexer's diagnostics printed to the console are dropped.
  - Only the error flag and the error values remain.
- Native functions:
  - getline, exit and exit_status are not part of this model. Their arities are parameters of the interpreter's constructor, and calling them is Unmodelled.
  - millis returns the interpreter's `clock` constant, standing for the wall clock.
- Interpreter.Interpreter.VisitWhile: states nothing about a loop that runs, because its result depends on the body's effects. The loop is bounded by fuel; OutOfFuel stands for a run longer than the budget.
- Interpreter.Interpreter.VisitCall: calls to closures are bounded by the same fuel.
- Interpreter.Interpreter.VisitIf: states the branch's value only when the branch is a pure expression statement, because other branches change state.
- Interpreter.Interpreter.Evaluate: the connection to Denote is proved only for pure expressions. The impure visitors state their effect on scopes one by one.
- Doubles:
  - Numbers are exact reals.
  - An IEEE infinity or NaN (for example a zero divisor) is Unmodelled.
  - std::pow with a non-integral exponent, or a negative power of zero, is Unmodelled.
- std::to_string on a double: Printer takes it as a parameter.
- Memory: the `delete` of the call scope and the leaks of the C++ code are not modelled. Objects are values, and scopes are heap objects with no deallocation.
- Interpreter.Interpreter.CallClosure: does not promise that the call scope is unreachable after the call. A closure created during the call keeps a reference to that scope, which NClosure::call deletes on return (nclosure.cpp:26). Calling such a closure later uses freed memory in the source; the model keeps the scope alive, so it does not capture that use-after-free.
- Environment::declareVar is not part of this model. Runtime.Environment.DeclareVar assumes what its two call sites rely on: set the name in this scope.
- src/environment.h predates `declareVar` and `enclosing`; the model follows environment.cpp and nclosure.cpp.
- Interpreter.Interpreter.ExecStmt: ties a block's, an if's and a loop's result to its statements only through RunsInOrder, Yields and each kind's promise in StmtDone. A statement that changes state leaves a heap that the later statements' promises cannot name, so there is no denotation of impure statements.
- Interpreter.Interpreter.ExecuteStatements: nothing ties each ghost result to running its statement beyond Yields (the kinds of result a statement's kind allows). The result equals RunSimple's, and the output RunSimple's writes, only for expression and output statements over pure expressions; assignments, declarations, calls of closures, nested blocks, if and while statements are covered only by the shape of the run (RunsInOrder, RunResult).
- Interpreter.Interpreter.ExecuteBlock: ties its result and its output to the statements (RunSimple, DenoteBlock) only for expression and output statements over pure expressions, for the same reason.
- Interpreter.Interpreter.VisitBlock: ties its result and its output to the statements (RunSimple, DenoteBlock) only for expression and output statements over pure expressions, for the same reason.
- Interpreter.Interpreter.CallClosure: ties its result to the body only for a body of pure expression statements (DenoteBlock); nothing ties each ghost result to running its statement otherwise.
- Interpreter.Interpreter.Interpret: ties its outcome and its output to the statements (RunSimple, DenoteBlock) only for expression and output statements over pure expressions, for the same reason.
- Interpreter.Interpreter.ExecuteBlock: an empty block yields null. In the source the value is an uninitialised pointer.
- Interpreter.Interpreter.ExecuteBlock: an error leaves the inner scope installed, as in the source. The model does not restore it; only the error is passed on.
- isTruthy on a callable falls off the end of the function in the source. This is undefined behaviour, modelled as a Crash.
- A null object being dereferenced (for example `output` of a closure call that yields null) is a Crash.
- The lexer:
  - Its column starts at 0.
  - Unsigned overflow of its counters is not modelled.
  - The keyword table is a parameter; `Tokens.DefaultKeywords` holds token.h's table.
- LexerSpec.ImNumberScan: follows the corrected imNumber (see Findings), not the code as written. The code as written is LexerSpec.ImNumberScanAsWritten, and LexerLemmas.ImNumberScanDiffers shows an input where the two differ.
- Lexing.Lexer.ImNumber: is the corrected imNumber, and Lexer.LexToken calls it. The code as written is Lexing.Lexer.ImNumberAsWritten, which Lexer.LexToken does not call.
- LexerLemmas.ImaginaryStep: states the token the corrected imNumber makes. As written, the literal also swallows what follows the number (Scanning.ImNumberCounterexample).
- Lexing.Lexer.ImNumberAsWritten: requires a character after the 'j'. lexToken calls imNumber only when one follows, so the read past the end that the extra advance would make at the end of the text is not modelled.
- Lexing.Lexer.Advance: requires an unread character. The one read past the end in the source (the extra advance of stringLiteral, lexer.cpp:278) is a Crash in LexerSpec.StringScan.
- The first character of a string literal is consumed by the extra advance without the line-break check, as in the source.
- Parsing.Parser.Primary: its ImplementationError message leaves out the name of the token type.
- The "unhandled assignment operator" branch of assignExpr (parser.cpp:177-179) cannot be reached and is not modelled.
- peek(2) on the final EOF reads past the end of the token vector. This is a Crash (Grammar.ReadPastEnd).
- A std::stod failure is a Crash.
- A block with a blank line before its '}' fails, because stmt() is then called on '}'. This is modelled as written.
- Parameters are modelled as their identifier tokens, not as Identifier nodes.
- Several source functions are split into helpers with their own contracts:
  - the loop of executeBlockStmt is ExecuteStatements, which adds DenoteBlock to the loop ExecuteEach; one pass of it is ExecuteNext;
  - the scope change of visitBlockStmt is EnterBlockScope;
  - interpret's loop is the same loop, so Interpret calls ExecuteStatements in the current scope;
  - the body of lambdaExpr is LambdaBody;
  - one pass of blockStmt's loop is BlockItem;
  - the tail of ifStmt is ElseClause, ElseTest and ElseBranch;
  - the loops of the binary levels and of exponentiation are their Tail and Step functions.
- match() is written out as check and advance in some parser methods; this is equivalent.
- The AST printer's Boolean and keyword-constant nodes have no visit function in ASTPrinter.cpp, so Printer.Print yields None for them.
- main.cpp (the command line, the repl loop and file reading) is not part of this model.

## Findings

| source | as written | input that shows it | evidently intended | confidence | as-written member | corrected member |
|---|---|---|---|---|---|---|
| src/lexer.cpp:220-242 | imNumber advances once more "to consume the 'j'", which lexToken has already consumed, so the digit or '-' after the 'j' is swallowed. The lexeme is then cut with substr(start + 1, current - start), one character too long. | "j5-3" scans as one imaginary literal with lexeme "5-3" instead of the literal "5" followed by '-' and 3 | the lexeme is the optional '-' and the number after the 'j', and nothing more | not executed | Scanning.ImNumberCounterexample | Scanning.ImNumberLexemeWellFormed |
