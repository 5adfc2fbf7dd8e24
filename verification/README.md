# Espresso interpreter core in Dafny

Espresso is a small tree-walking interpreter for a toy language. This
project models its core as pure functions over immutable data and proves
what each stage promises.

- **Lexer** (`Lexer`, `LexerSpec`). A cursor over the source text hands
  out one token per call: two-character operators first, then the
  single-character switch, whitespace skipping, identifiers and keywords,
  and digit runs. An illegal character is reported as `IllegalToken`.
  The main theorem is a round trip: writing a list of tokens out with
  any whitespace between them, left empty only where the next character
  cannot extend the token before it, then lexing the text, gives the
  list back followed by one EOF.
- **Parser** (`Parser`, `ParserSpec`). The precedence-climbing parser
  works over an explicit state: the token list, a position, and the
  messages collected so far. The source can loop forever, and it can
  crash by reading the kind of a token past the end of the list. So
  every recursive routine takes `fuel`, and a parse ends in one of three
  ways: `Parsed`, `Crashed` or `OutOfFuel`. The lemmas cover:
  - the shapes that never finish, however much fuel is given;
  - the shape that crashes;
  - how operators group by precedence, associate left, and interact with
    prefix `-` and parentheses.
- **Early evaluator** (`Evaluator`, `EvaluatorSpec`). Integer and boolean
  arithmetic, comparisons, if/else, and deferred `return`. A type
  mismatch gives null, not an error, and `let` is skipped. Block and
  program evaluation are related to where a `return` sits and to which
  statements are lets.
- **Runtime pieces** (`Store`, `Objects`, `ObjectsSpec`, `Builtins`,
  `BuiltinsSpec`). These belong to the later revision:
  - a scope chain with parent lookup;
  - arrays whose length counter is kept apart from their elements, so
    `pop` lets it drift;
  - dictionaries keyed by value or by object identity;
  - the native functions `len`, `push`, `pop`, `dict` and `str`.

  Objects live in a heap and values hold their ids, so aliasing and
  identity keys are explicit.
- **Worked examples** (`ExampleTexts`, `LexExamples`, `ParseExamples`,
  `EvalExamples`, `Pipeline`). Whole programs run through lexer, parser
  and evaluator: `1 + 2 * 3` is 7, `(1 + 2) * 3` is 9, `-1 + 2` is 1,
  `1 - -2` is 3, `-1 < 2` is null, and `1 == 1` never finishes parsing.

The token kinds are the full set of the later token table
(`src/syntax/token.ts`). It includes `<=` and `>=`, which the lexer
emits and the early type file lacks. `Wrappers` holds the `Option` and
`Result` types; `Utils` holds the character classes and the operator
tables.

## Model

| member | source | states |
|---|---|---|
| Tokens.KeywordKind | src/types.ts:40-48 | a word maps to a keyword kind exactly when it is one of the seven keyword spellings, and then to the kind that word spells |
| Utils.CharClasses | src/utils.ts:5-15 | `\d` is the ten ASCII digits and `\s` the listed whitespace characters, and no character is in two of the letter, digit and whitespace classes |
| Utils.IsBinaryOperator | src/utils.ts:17-22 | false for a missing token; true exactly for the kinds `+ - * / < > == != <= >=` |
| Utils.GetPrecedence | src/utils.ts:24-29 | 1 for `+ -`, 2 for `* /`, 3 for `(`, 4 for `< >`, and 0 exactly for the kinds without a table entry |
| Utils.IsLVal | src/utils.ts:35-37 | true exactly for a present token of kind IDENT or INDEX |
| Lexer.TwoCharToken | src/lexer.ts:150-180 | a two-character operator consumes exactly two characters of the input |
| Lexer.IdentifierEnd | src/lexer.ts:121-131 | the run read starts with a letter, holds only letters, `_` and digits, and stops before the first character that cannot continue it |
| Lexer.NumberEnd | src/lexer.ts:133-140 | the run read holds only digits and stops before the first non-digit |
| Lexer.ReadWord | src/lexer.ts:90-103 | the letter branch always succeeds, consumes at least one character and yields a token other than EOF |
| Lexer.ReadNumber | src/lexer.ts:104-109 | the digit branch always succeeds with an INT token and consumes at least one character |
| Lexer.NextToken | src/lexer.ts:13-119 | at the end of input the result is EOF and the cursor stays put; every other token moves the cursor forward and stays within the input |
| Lexer.PeekChar | src/lexer.ts:142-148 | `peakChar` is what the cursor would read one step further on, NUL past the end |
| Lexer.ReadChar | src/lexer.ts:20-25 | `readChar` moves the cursor forward by exactly one inside the input and not at all at its end, so it never passes the end |
| LexerSpec.NulMarksEnd | src/lexer.ts:13-18 | `currentChar` gives the character under the cursor inside the input, and NUL exactly at the end or on a NUL character |
| Lexer.TokenizeFrom | src/parser.ts:46-55 | the drained token list ends with exactly one EOF and holds no EOF before it |
| Lexer.Tokenize | src/parser.ts:46-55 | the parser's token list for a text ends with its only EOF and has at most one token per character, plus the EOF |
| LexerSpec.SkipWhitespace | src/lexer.ts:85-88 | the first non-whitespace position at or after the cursor, with only whitespace skipped over |
| LexerSpec.SkipsWhitespace | src/lexer.ts:85-88 | whitespace before a token is skipped: reading from the cursor gives what reading from the first non-whitespace character gives |
| LexerSpec.IdentifierEndIs | src/lexer.ts:121-131 | an identifier is the longest run that starts with a letter and continues with letters, `_` or digits |
| LexerSpec.NumberEndIs | src/lexer.ts:133-140 | an INT is the maximal digit run; `.` ends it |
| LexerSpec.OperatorSpelling | src/lexer.ts:38-83 | each operator kind is spelled by one switch character, or by a two-character operator's first character followed by `=` |
| LexerSpec.ReadsTwoChar | src/lexer.ts:30-35 | `== != <= >=` are tried before any single-character rule and read as one token spelled by the two characters |
| LexerSpec.ReadsSingleChar | src/lexer.ts:38-83 | a switch character yields its own kind with no value and advances by one |
| LexerSpec.ReadsWord | src/lexer.ts:90-103 | a word is a keyword token with no value when it is one of the seven keywords, otherwise IDENT carrying its text, and it is maximal |
| LexerSpec.ReadsNumber | src/lexer.ts:104-109 | a digit run becomes one INT token whose value is exactly those digits |
| LexerSpec.LexesOneToken | src/lexer.ts:27-119 | one call on text without NUL, whitespace skipped first: EOF without moving at the end; failure exactly on an illegal character, naming it; otherwise a token whose spelling is exactly the text consumed, read as far as it can go |
| LexerSpec.KeywordSpellingIsIdentifier | src/types.ts:40-48 | every keyword spelling is an identifier that the table maps back to that keyword |
| LexerSpec.ReadsSpelling | src/lexer.ts:27-119 | a token's spelling, followed by a character that cannot extend it or by the end of the input, is read back as that token, ending right after the spelling |
| LexerSpec.TokenizeFromLayout | src/parser.ts:46-55 | the drain loop over a separated layout of tokens returns those tokens and one EOF |
| LexerSpec.LayoutRoundTrip | src/parser.ts:46-55 | lexing any lexable tokens written out with whitespace gaps, a gap left empty only where the next character cannot extend the token before it, gives them back followed by one EOF |
| LexerSpec.UnlexRoundTrip | src/parser.ts:46-55 | in particular one space after every token always separates them: the tokens come back followed by EOF |
| Parser.Match | src/parser.ts:261-271 | `match` advances by exactly one either way; on a match it returns the token with no new message, otherwise nothing and one "expected X but got Y" message |
| Parser.ParseProgram | src/parser.ts:64-72 | a finished parse is a later state over the same tokens: the position never moves back and messages only accumulate |
| Parser.ParseLoop | src/parser.ts:64-72 | the loop stops only at EOF or past the end of the list, and keeps the statements parsed so far |
| Parser.ParseStatement | src/parser.ts:74-85 | a statement parse never moves the position back or drops a message |
| Parser.ParseLetStatement | src/parser.ts:87-97 | a finished `let` parse always gives a let statement, whether or not its parts were there |
| Parser.ParseExpression | src/parser.ts:99-131 | the expression parse never moves the position back or drops a message |
| Parser.ParseInfix | src/parser.ts:113-130 | the climbing loop never moves the position back or drops a message |
| Parser.ParsePrefix | src/parser.ts:33-44 | each prefix routine never moves the position back or drops a message |
| Parser.OperandPrecedence | src/parser.ts:139-146 | a prefix operator's operand is parsed at its table precedence, or at 0 when it has none |
| Parser.ParsePrefixExpression | src/parser.ts:139-146 | the prefix expression parse never moves the position back or drops a message |
| Parser.ParseIdentifier | src/parser.ts:148-155 | the identifier parse never moves the position back or drops a message |
| Parser.ParseGroupedExpression | src/parser.ts:163-168 | the grouped parse never moves the position back or drops a message |
| Parser.ParseIfExpression | src/parser.ts:170-188 | the if parse never moves the position back or drops a message |
| Parser.ParseElse | src/parser.ts:179-187 | the else part never moves the position back or drops a message |
| Parser.ParseBlockStatement | src/parser.ts:190-203 | the block loop keeps the statements parsed so far and never moves back |
| Parser.ParseFunctions | src/parser.ts:205-215 | the function literal parse never moves the position back or drops a message |
| Parser.ParseCallExpression | src/parser.ts:217-223 | the call parse never moves the position back or drops a message |
| Parser.ParseCallArguments | src/parser.ts:225-241 | the argument loop keeps the arguments parsed so far and never moves back |
| Parser.ParseFunctionParameters | src/parser.ts:243-259 | the parameter loop ends without fuel, never moves back, and adds only IDENT tokens |
| ParserSpec.PeekIsNext | src/parser.ts:273-278 | `peekToken` is the token the position moves to next, and there is none exactly when the current token is the last |
| ParserSpec.StatementStalls | src/parser.ts:106-111 | with fuel 2 or more, a leading token with no prefix routine gives no statement, the state unmoved and exactly one new message, "Unknown prefix operator" for that token; with less fuel the parse runs out |
| ParserSpec.ProgramDiverges | src/parser.ts:64-72 | `parse` on such a token never finishes, whatever the fuel |
| ParserSpec.BlockDiverges | src/parser.ts:190-203 | `parseBlockStatement` on such a token never finishes, whatever the fuel |
| ParserSpec.ArgumentsDiverge | src/parser.ts:225-241 | the argument loop on such a token, `;` included, never finishes |
| ParserSpec.ReturnDiverges | src/parser.ts:33-44 | `return` has no prefix routine, so a program starting with it never finishes parsing |
| ParserSpec.BareLetCrashes | src/parser.ts:261-270 | `let` alone: `match` runs past the end of the list and the next expression crashes on the missing token |
| ParserSpec.LetStatementParses | src/parser.ts:87-97 | `let x = 1` then EOF gives the let statement and exactly one message, the missing `;` |
| ParserSpec.LetWithoutSemicolon | src/parser.ts:64-72 | `parse` on `let x = 1` with no `;` returns the let statement and the message "expected ; but got EOF" |
| ParserSpec.InfixStops | src/parser.ts:116-119 | the climbing loop stops at once at a token binding no tighter than the caller |
| ParserSpec.InfixStep | src/parser.ts:116-128 | one turn of the loop makes the operator the root over everything so far and its right side |
| ParserSpec.IntOperand | src/parser.ts:133-137 | an INT before a token that does not bind tighter is a whole operand |
| ParserSpec.LeftGrouping | src/parser.ts:116-128 | `a op1 b op2 c` groups as `(a op1 b) op2 c` when `op2` binds no tighter, so equal precedences associate left |
| ParserSpec.RightGrouping | src/parser.ts:116-128 | `a op1 b op2 c` groups as `a op1 (b op2 c)` when `op2` binds tighter |
| ParserSpec.Grouping | src/parser.ts:116-128 | three operands and two operators always parse to the tree the `PRECEDENCES` table and left associativity give, where `<` and `>` (4) bind tighter than `*` and `/` (2), which bind tighter than `+` and `-` (1) |
| ParserSpec.LiteralStatement | src/parser.ts:74-85 | an INT before a token that binds at 0 is a statement of its own, and the position stops at that token |
| ParserSpec.LiteralStatementShort | src/parser.ts:74-85 | with fuel below 3 a statement starting with an INT runs out of fuel |
| ParserSpec.ComparisonDiverges | src/parser.ts:113-119 | `==`, `!=`, `<=` and `>=` have no table entry, so `a == b` parses `a`, then stalls on the operator forever |
| ParserSpec.PrefixGrouping | src/parser.ts:139-146 | a prefix `-` or `+` parses its operand at precedence 1: `-a + b` is `(-a) + b`, but `-a * b` and `-a < b` put the whole product or comparison under the prefix |
| ParserSpec.SignedRightOperand | src/parser.ts:139-146 | in `a op -b` the prefix right after an operator takes just the next integer |
| ParserSpec.ParenthesizedGrouping | src/parser.ts:163-168 | `(a op1 b) op2 c` keeps `a op1 b` together whatever the two operators are |
| ParserSpec.SingleExpressionProgram | src/parser.ts:74-85 | a token list holding one expression and EOF parses to that one expression statement with no messages |
| Evaluator.ParseInt | src/evaluator.ts:53-55 | `parseInt` of a missing text is NaN, and any other result is an integer |
| Evaluator.StrictEquals | src/evaluator.ts:100-101 | `===` holds exactly for equal values that are not NaN and not return values |
| Evaluator.Numeric | src/evaluator.ts:70-99 | on two real numbers `+ - *` give the sum, difference and product and `< >` the comparison; a NaN operand makes arithmetic NaN and comparisons false; `/` is the division parameter |
| Evaluator.BinaryOp | src/evaluator.ts:64-106 | two numbers under an arithmetic or comparison operator go to `Numeric`, and any other operand gives null; `==` is strict equality, `!=` its negation; an unlisted operator gives null |
| Evaluator.UnaryOp | src/evaluator.ts:108-125 | the result is non-null exactly for `-` on a number and `!` on a boolean, and `!` negates |
| Evaluator.LiteralValue | src/evaluator.ts:53-61 | INT gives `parseInt` of its text, TRUE and FALSE the booleans, any other node undefined |
| Evaluator.EvalExpr | src/evaluator.ts:43-62 | nodes other than binary, unary and if/else evaluate by their token, and only an if/else can hand out a return value, wrapping a smaller expression |
| Evaluator.EvalOpt | src/evaluator.ts:53 | evaluating a missing expression is the crash of reading its node |
| Evaluator.EvalBlock | src/evaluator.ts:138-155 | a return value coming out of a block wraps a smaller expression than the block |
| Evaluator.Negate | src/evaluator.ts:113-117 | unary minus keeps NaN and gives the number that adds up to zero with its operand |
| EvaluatorSpec.ParseIntDigits | src/evaluator.ts:53-55 | any non-empty string of decimal digits, leading zeros included, is read whole in radix 10 |
| EvaluatorSpec.ParseIntShowNat | src/evaluator.ts:53-55 | the decimal numeral of any natural number is read back as that number |
| EvaluatorSpec.ParseIntZeroPadded | src/evaluator.ts:53-55 | leading zeros do not change the value and never select octal |
| EvaluatorSpec.ParseIntSkipsSpace | src/evaluator.ts:53-55 | a leading whitespace character (any of `\s`) is skipped |
| EvaluatorSpec.ParseIntUnsigned | src/evaluator.ts:53-55 | text that starts with neither whitespace nor a sign is read as digits with no sign |
| EvaluatorSpec.ParseIntMinus | src/evaluator.ts:53-55 | one leading `-` negates the value of what follows |
| EvaluatorSpec.ParseIntPlus | src/evaluator.ts:53-55 | one leading `+` leaves the value of what follows unchanged |
| EvaluatorSpec.ParseIntHex | src/evaluator.ts:53-55 | `0x` or `0X` followed by hex digits is read in radix 16 |
| EvaluatorSpec.ParseIntStops | src/evaluator.ts:53-55 | reading stops at the first non-digit: what follows the digits does not change the value |
| EvaluatorSpec.ParseIntSignExamples | src/evaluator.ts:53-55 | `" 7"` and `"+7"` are 7 and `"-7"` is -7 |
| EvaluatorSpec.ParseIntHexExample | src/evaluator.ts:53-55 | `"0x1F"` is 31 |
| EvaluatorSpec.ParseIntJunkExample | src/evaluator.ts:53-55 | `"12ab"` is 12 |
| EvaluatorSpec.ParseIntZerosExample | src/evaluator.ts:53-55 | `"007"` is 7 |
| EvaluatorSpec.ParseIntNaNExamples | src/evaluator.ts:53-55 | `"ab"`, `""`, `"-"`, `"0x"` and a missing text are NaN |
| EvaluatorSpec.ComparisonMirror | src/evaluator.ts:90-99 | `a < b` is `b > a` on any two numbers; on two reals at most one holds and neither exactly when they are equal; NaN makes both false |
| EvaluatorSpec.NotEqNegatesEq | src/evaluator.ts:100-103 | `!=` is always the negation of `==`, and `==` is symmetric, on values of any kinds |
| EvaluatorSpec.IfChoosesOnTrue | src/evaluator.ts:127-136 | if/else runs the consequence exactly when the condition is the boolean true |
| Evaluator.IsTruthy | src/utils.ts:31-33 | a boolean is truthy exactly when it is true, and no other value is, numbers such as 1 included |
| EvaluatorSpec.DoubleNegation | src/evaluator.ts:108-125 | two prefix `-` give the number back and two `!` give the boolean back |
| EvaluatorSpec.IfSwap | src/evaluator.ts:127-136 | on a boolean condition, negating it with `!` and swapping the branches gives the same result |
| EvaluatorSpec.BlockStopsAtReturn | src/evaluator.ts:142-147 | in a block, `return` stops the block with a return value wrapping its expression unevaluated; later statements do not run |
| EvaluatorSpec.ProgramStopsAtReturn | src/evaluator.ts:31-32 | at top level, `return` evaluates its expression and ends the program |
| EvaluatorSpec.NestedReturnUnwrapped | src/evaluator.ts:148-151 | a return value out of a nested construct is evaluated and is the block's or program's value at once |
| EvaluatorSpec.ProgramIgnoresLets | src/evaluator.ts:28-30 | removing every `let` leaves a program's result unchanged |
| EvaluatorSpec.BlockIgnoresLets | src/evaluator.ts:142-144 | removing every `let` leaves a block's result unchanged |
| EvaluatorSpec.ProgramValueIsLast | src/evaluator.ts:26-41 | without a return, a program's result is the value of its last expression statement |
| Evaluator.EvalProgram | src/evaluator.ts:26-41 | a program made only of `let` statements, or empty, evaluates to null |
| Evaluator.EvalStatementsFrom | src/evaluator.ts:26-41 | `let` statements leave the value so far as it is: a run of them ends with that value |
| Store.NewStore | src/store.ts:5-7 | a new store has the given parent and no bindings of its own |
| Store.Set | src/store.ts:9-11 | `set` binds the key in the own frame, changes no other key and keeps the parent |
| Store.GetLocal | src/store.ts:23-28 | `getLocal` finds a value exactly when the own frame binds the key |
| Store.Get | src/store.ts:13-21 | `get` finds a value exactly when some frame of the chain binds the key, and the own frame's binding shadows the rest |
| Store.SetThenGet | src/store.ts:9-16 | after `set(k, v)` both `get(k)` and `getLocal(k)` give `v` |
| Store.GetDelegates | src/store.ts:17-19 | a key the own frame lacks is whatever the parent's `get` returns |
| Store.SetKeepsOthers | src/store.ts:9-11 | `set` leaves every other key's lookup and the parent chain unchanged |
| Store.GetLocalIgnoresParents | src/store.ts:23-28 | `getLocal` never consults the parent |
| Objects.NewArray | src/syntax/objects.ts:44-48 | the constructor's counter equals the element count |
| Objects.ToPositiveIndex | src/syntax/objects.ts:104-109 | a negative index counts back from the recorded length |
| Objects.CheckIndex | src/syntax/objects.ts:62-65 | the bound check passes exactly when the normalised index lies in [0, element count), and fails with the original index and the recorded length |
| Objects.At | src/syntax/objects.ts:58-67 | a non-number index raises; out of range raises with index and length; while the counter is honest, `at(i)` is the element at i, counted from the end when negative; whenever it succeeds the value is the element the normalised index reads, undefined past the end |
| Objects.SetAt | src/syntax/objects.ts:69-79 | a valid `set` replaces only the element at the normalised index; a non-number or out-of-range index raises |
| Objects.Push | src/syntax/objects.ts:81-84 | `push` appends the value and raises the counter by one |
| Objects.Pop | src/syntax/objects.ts:86-102 | `pop` raises on a zero counter, on a non-number index and out of range; with a non-zero counter `pop()` always succeeds, removing the last element, or giving undefined and the array unchanged once the elements are gone; `pop(i)` removes the one at the normalised index; the counter never changes |
| Objects.DictAt | src/syntax/objects.ts:27-29 | an absent key, and a stored undefined, read as null; any other stored value reads back |
| Objects.DictSet | src/syntax/objects.ts:31-33 | `set` adds the key if it was absent, maps it to the value, and keeps every other key's value |
| Objects.CheckArrayIndexAccess | src/utils.ts:39-50 | passes exactly for an array and a number index in [0, element count), with no negative indices; otherwise raises the matching error |
| ObjectsSpec.CheckedIndexReads | src/utils.ts:39-50 | once the evaluator's index check passes on an array whose counter is honest, `at` reads the element at that index |
| ObjectsSpec.ConsistencyKept | src/syntax/objects.ts:69-84 | `push` and `set` keep the counter equal to the element count |
| ObjectsSpec.CounterNeverBelowCount | src/syntax/objects.ts:81-102 | no operation lets the counter fall below the element count |
| ObjectsSpec.ReadableIndices | src/syntax/objects.ts:58-67 | while the counter is honest, exactly the indices in [-length, length) can be read |
| ObjectsSpec.IndexExamples | tests/evaluator.test.ts:849-869 | `[1, 2, 3][-1]` is 3, `[-3]` is 1, and `[3]` and `[-4]` are out of bounds |
| ObjectsSpec.PopDrift | src/syntax/objects.ts:86-102 | after `pop()` the counter is one too high, and `at(-1)` then raises instead of reading the last element |
| ObjectsSpec.DictSetThenAt | src/syntax/objects.ts:27-33 | `at` reads back the value last set for a key, and other keys read as before |
| ObjectsSpec.DictLengthAfterSet | src/syntax/objects.ts:31-37 | `_length` counts distinct keys: a new key raises it by one; setting an existing key again leaves it unchanged |
| ObjectsSpec.IdentityKeys | src/syntax/objects.ts:27-36 | two distinct objects with the same contents are different keys: setting one leaves the other's entry alone, and setting both in an empty dictionary gives it two keys |
| Builtins.Len | src/builtins.ts:26-37 | a string's length, an array's recorded length, a dictionary's key count; anything else raises "Expected iterable" |
| Builtins.PushBuiltin | src/builtins.ts:38-46 | on an array it appends the value, raises the counter by one, returns undefined and leaves every other object alone; anything else raises |
| Builtins.PopBuiltin | src/builtins.ts:48-56 | a non-array raises; otherwise it is exactly `ArrayObject.pop` with the optional index |
| Builtins.DictBuiltin | src/builtins.ts:58-63 | `dict()` allocates a new empty dictionary and leaves existing objects alone |
| Builtins.FunctionText | src/syntax/objects.ts:123-139 | a function object renders as `FUNCTION_OBJECT(` its parameter names joined by ", " `)`, so `FUNCTION_OBJECT()` with none; a native renders as `NATIVE_FUNCTION(name)` |
| Builtins.StrBuiltin | src/builtins.ts:65-83 | a string comes back unchanged, null raises, booleans render as "true"/"false", numbers render to a string, and undefined comes back undefined; a reference to a function or native gives its `asString` text, to an array or dictionary its `showObject` text |
| Builtins.CreateBuiltins | src/builtins.ts:11-85 | one parentless store that binds exactly `print`, `len`, `push`, `pop`, `dict` and `str`, each to a new native function of that name |
| Builtins.CallNative | src/builtins.ts:11-85 | `print` returns undefined and leaves the heap alone; `len` and `str` succeed, fail and return exactly as their builtins do, with the heap unchanged; `push`, `pop` and `dict` act as their builtins |
| BuiltinsSpec.PushVisibleThroughAlias | src/builtins.ts:38-46 | two names holding the same array both see a `push`, and `len` through either counts the new element |
| BuiltinsSpec.PopKeepsLen | src/builtins.ts:48-56 | `pop` never changes what `len` reports |
| BuiltinsSpec.PushLeavesOthers | src/builtins.ts:38-46 | `push` on one array leaves every other object as it was |
| BuiltinsSpec.DictsAreFresh | src/builtins.ts:58-63 | two calls of `dict()` give two different dictionaries, both still empty |
| BuiltinsSpec.StrIdempotent | src/builtins.ts:65-83 | `str` succeeds on a string, boolean or number, and `str` of its result is that result again |
| BuiltinsSpec.BuiltinLen | src/builtins.ts:26-37 | the builtins store binds `len` to a native named "len", and calling it on a string gives the string's length |
| EvalExamples.EvalArithmetic | src/evaluator.ts:70-84 | `+`, `-` and `*` on two numbers evaluate to the arithmetic result |
| EvalExamples.EvalNegation | src/evaluator.ts:113-117 | unary `-` on a number evaluates to its negation |
| LexExamples.LexPrecedence | src/parser.ts:46-55 | the text `1 + 2 * 3` lexes to INT 1, `+`, INT 2, `*`, INT 3, EOF |
| LexExamples.LexParen | src/parser.ts:46-55 | the text `(1 + 2) * 3` lexes to its eight tokens, `(` and `)` needing no space around them |
| LexExamples.LexNeg | src/parser.ts:46-55 | the text `-1 + 2` lexes to `-`, INT 1, `+`, INT 2, EOF |
| LexExamples.LexDoubleMinus | src/parser.ts:46-55 | the text `1 - -2` lexes to INT 1, `-`, `-`, INT 2, EOF |
| LexExamples.LexNegLess | src/parser.ts:46-55 | the text `-1 < 2` lexes to `-`, INT 1, `<`, INT 2, EOF |
| LexExamples.LexComparison | src/parser.ts:46-55 | the text `1 == 1` lexes to INT 1, `==`, INT 1, EOF |
| Pipeline.Run | src/index.ts:38-44 | a run fails in the lexer exactly when tokenizing fails |
| Pipeline.PrecedenceExample | tests/evaluator.test.ts:34 | the text `1 + 2 * 3`, spaces as written, lexes, parses with no messages and evaluates to 7 |
| Pipeline.ParenExample | tests/evaluator.test.ts:40 | the text `(1 + 2) * 3` runs through all three stages to 9 |
| Pipeline.NegExample | tests/evaluator.test.ts:874 | the text `-1 + 2` runs through all three stages to 1 |
| Pipeline.DoubleMinusExample | tests/evaluator.test.ts:876 | the text `1 - -2` runs through all three stages to 3 |
| Pipeline.NegLessExample | src/parser.ts:139-146 | the text `-1 < 2` parses as `-(1 < 2)` with no messages, and negating a boolean gives null |
| Pipeline.ComparisonExample | src/parser.ts:113-119 | the text `1 == 1` lexes, then never finishes parsing, whatever the fuel |

## Left out

- Console output is not modelled: the `print` builtin writes to the console (src/builtins.ts:13-25) and `CallNative` returns undefined for it. The debug dump of the statements in `Evaluator.evaluate` (src/evaluator.ts:21) is also left out.
- Division is a parameter `divide` of the evaluator: JavaScript's IEEE double division, with Infinity on division by zero, is not modelled. Other arithmetic is exact on reals with NaN kept apart, so rounding is not modelled either.
- Evaluator.ParseInt: gives the exact integer value of the digits; the precision JavaScript loses on very long digit strings is not modelled.
- Evaluator.ParseInt: `-0` is not told apart from `0`, since numbers are exact reals here; `parseInt("-0")` is `-0` in JavaScript. An explicit radix argument does not occur in the source and is not modelled.
- Builtins.StrBuiltin: states only that a number renders to some string (the decimal integer in the body), since JavaScript's number rendering is not modelled. Arrays and dictionaries render through a `showObject` parameter, because `utils.asString` is not part of this model.
- The runtime's numbers are integers, so fractional array indices are not modelled.
- LexerSpec.LexesOneToken: stated for text without NUL. The lexer functions read an embedded NUL as the end of input, as the source does (`NulMarksEnd`), but the theorem does not cover text after one.
- Keyword lookup in the source indexes a plain object, so a word such as `constructor` finds an inherited property; the model's keyword table has only the seven keywords.
- JavaScript strings are UTF-16 code units and Dafny's `char` is a Unicode scalar value, so text with characters outside the Basic Multilingual Plane is not modelled unit for unit.
- Tokens carry no line number. The early type file has none, and the lexer shown sets none.
- Function objects keep their parameter names but not their bodies or captured stores; the shown evaluator never calls them.
- Store: parent frames are held by value. A binding added to a parent after a child store was made is not visible through the child, while in the source the child shares the parent object.
- src/index.ts, src/repl.ts and src/main.ts are command-line and REPL glue. They are not part of this model; `Pipeline.Run` composes the three stages the way they do.
- src/syntax/expressions.ts and src/syntax/statements.ts declare the later revision's tree, which the shown parser and evaluator do not consume. Only the token-kind list of src/syntax/token.ts is used.
- src/errors.ts only formats messages. Errors are datatype constructors here (`LexError`, `ParseMessage`, `EvalError`, `ObjError`).
- String length in `len` counts characters, not UTF-16 code units.
- The parser's divergence is exposed through fuel, not a termination proof. The grouping, statement and example lemmas state their results from a stated minimum fuel upward and say nothing below it, except `BareLetCrashes`, `LiteralStatementShort` and `StatementStalls`, which also state what happens with less fuel.
