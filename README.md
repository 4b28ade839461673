# A verified model of a one-line calculator

The program reads a line such as `(2+3)*4` and evaluates it in three stages.

- **Scanner.** `TokenStream` moves a one-character-lookahead cursor over the line, skips spaces and produces the tokens `+ - * / ^ ( )`, `Int` (an `i32`) and `Float` (an `f64`).
- **Converter.** `ShuntingYard::get_stack` pulls tokens from the scanner one at a time. It reorders them into postfix with an output vector and an operator stack.
- **Reducer.** `run_stack` reduces the postfix sequence on a value stack. `operation_result` and `pow` apply each operator.

In the program every failure is a panic. The model returns it as a value of the `Error` datatype instead: unexpected character, `i32` overflow while parsing, unmatched `)`, unmatched `(`, too few operands, too many values left.

## Layout

| file | module | contents |
|---|---|---|
| `tokens.dfy` | `Tokens` | `Token` with `Prec`/`IsOp`/`IsNum`, the `Error` and `Result` types, `I32`, symbolic `F64` values, and the sequence helpers `Sift` and `Reverse` |
| `arithmetic.dfy` | `Arithmetic` | `Pow`, truncating division, the saturating `as i32` cast, `IntOperation` and `OperationResult` |
| `scanner.dfy` | `Scanner` | `Lex`, the specification of one `read` call; the class `TokenStream`, whose methods are proved to follow `Lex`; lemmas about what `Lex` accepts |
| `shunting_yard.dfy` | `ShuntingYard` | `Shunt`, the specification of `get_stack`, with scanning and conversion interleaved as in the program; `Steps`/`ShuntTokens` over tokens scanned ahead of time; the class `ShuntingYard` with `GetStack`; invariants, content and parenthesis lemmas |
| `reducer.dfy` | `Reducer` | `Reduce`/`RunPostfix`, the specification of `run_stack`; the method `RunStack`; a characterisation of every outcome |
| `calculator.dfy` | `Calculator` | a whole line end to end (`Evaluate`, `EvaluateLine`), and the theorem that a well-formed expression tree, written in infix, evaluates to the value of the tree, grouping to the left |
| `sample_lines.dfy` | `SampleLines` | the calculator on particular lines |

The model follows the program's own behaviour in two places where a natural reading of its intent differs.

- **Integer division by zero** does not fail. `7/0` computes `7.0 / 0.0 = inf`, and `as i32` saturates it to `i32::MAX`. A negative dividend gives `i32::MIN`, and `0/0` (NaN) gives `0`. See the `Div` case of `IntOperation` and `DivisionLines`.
- **`5^-1`** does not give `1`. There is no unary minus, so `-` is a binary operator: `^` is popped by `-` and finds only one value, and the line fails with too few operands. See `NegativeExponentLine`. `pow` does return 1 for every exponent `<= 0` (the first case of `Pow`), but no line can hand it a negative `Int` exponent written as a literal.

How arithmetic is modelled:

- `Int ⊗ Int` is computed with exact integers, then passed through a saturating cast. This is argued to be what `operation(x as f64, y as f64) as i32` gives for `i32` operands:
  - sums, differences and products are exact in `f64` until they are far beyond the `i32` range;
  - a quotient of two `i32` values never rounds across an integer;
  - a power that rounds is already beyond the saturation bound.
- `Float` values are kept as symbolic terms (`F64`). Only the shape of the result is claimed: `Int` with `Int` gives `Int`, and any `Float` operand gives `Float`. No claim is made about IEEE-754 rounding.

## Model

| member | source | states |
|---|---|---|
| Tokens.Token.IsOp | src/main.rs:37-47 | defines which tokens are operators: `+ - * / ^` |
| Tokens.Token.IsNum | src/main.rs:49-54 | defines which tokens are numbers: `Int` and `Float` |
| Tokens.Token.Prec | src/main.rs:28-35 | an operator has precedence 1, 2 or 3 and every other token has none; precedence 3 belongs to `^` alone |
| Tokens.PrecedenceOrder | src/main.rs:28-35 | `+`/`-` bind less tightly than `*`/`/`, which bind less tightly than `^` |
| Arithmetic.SaturatingCast | src/main.rs:239-240 | defines `as i32` on an integer-valued result: kept when in range, otherwise clamped to `i32::MAX` / `i32::MIN` |
| Arithmetic.SaturatingCastNearest | src/main.rs:239-240 | the cast gives the `i32` value nearest to the result, so it keeps every in-range value, and it never reverses the order of two results |
| Arithmetic.TruncDivRemainder | src/main.rs:231-240 | truncating division is exact with a remainder smaller than the divisor that has the dividend's sign, and the quotient is never larger in magnitude than the dividend |
| Arithmetic.TruncDivInRange | src/main.rs:239-240 | the truncated quotient of two `i32` values fits in `i32` unless it is `i32::MIN / -1` |
| Arithmetic.Pow | src/main.rs:220-223 | defines `pow`: 1 for an exponent `<= 0`, otherwise `a` times the power one lower |
| Arithmetic.PowAdd | src/main.rs:220-223 | `pow` really multiplies `b` copies of `a`: exponents add |
| Arithmetic.IntOperation | src/main.rs:226-240 | defines the `Int ⊗ Int` result: the operator's exact integer result cast to `i32`, with division by zero going to MAX, MIN or 0 |
| Arithmetic.FloatOperation | src/main.rs:226-251 | defines a `Float` result as the operator applied in floating point, and the `0_f64` fallback for a non-operator |
| Arithmetic.OperationResult | src/main.rs:225-258 | the result is a number; for numeric operands it is a `Float` exactly when either operand is; two `Int` operands give `Int` of the integer operation |
| Arithmetic.IntDivision | src/main.rs:231-240 | `Int / Int` with a non-zero divisor truncates toward zero; only `i32::MIN / -1` saturates to `i32::MAX` |
| Scanner.ParseInt | src/main.rs:6-8 | defines `int`: the value of the digit string, or the overflow error above `i32::MAX` |
| Scanner.RunEnd | src/main.rs:132-144 | the end of the longest run of characters satisfying the condition: every character before it satisfies it and the one at it does not |
| Scanner.RunEndUnique | src/main.rs:132-144 | any run that cannot be extended ends where `RunEnd` says |
| Scanner.DecimalRoundTrip | src/main.rs:6-8 | parsing the decimal text of a number gives back the number |
| Scanner.LexNumber | src/main.rs:114-130 | a successful number consumes at least one character and is an `Int` or a `Float` |
| Scanner.Lex | src/main.rs:85-108 | no token only at the end of the line; a token always consumes at least one character |
| Scanner.TokenStream.constructor | src/main.rs:79-83 | a new stream is at the start of the line |
| Scanner.TokenStream.Peek | src/main.rs:134 | defines `peek`: the character under the cursor, or none at the end of the line, without consuming it |
| Scanner.TokenStream.ReadWhile | src/main.rs:132-144 | the loop stops at the end of the longest run satisfying the condition and returns exactly the characters it consumed |
| Scanner.TokenStream.GetDigits | src/main.rs:110-112 | consumes and returns the longest run of digits |
| Scanner.TokenStream.ReadNumber | src/main.rs:114-130 | the token and the new cursor are those of `LexNumber` |
| Scanner.TokenStream.Read | src/main.rs:85-108 | the token, or end of line, or error, and the new cursor are those of `Lex` |
| Scanner.TokenStream.Next | src/main.rs:151-153 | the same as `Read` |
| Scanner.LexSkipsSpaces | src/main.rs:86 | spaces in front of a token change nothing |
| Scanner.LexAtEnd | src/main.rs:85-89 | the scanner reports the end of the line exactly when only spaces are left |
| Scanner.LexSymbol | src/main.rs:90-97 | an operator or parenthesis token is produced exactly when its character comes first after the spaces, and it consumes that one character |
| Scanner.LexUnexpected | src/main.rs:98-104 | a character is rejected exactly when the first one after the spaces is neither a digit nor one of `+ - * / ^ ( )`; the error carries that character; the scanner fails only this way or by `i32` overflow |
| Scanner.LexInt | src/main.rs:114-130 | an `Int` is the value of a maximal non-empty digit run not followed by `.` |
| Scanner.LexFloat | src/main.rs:119-126 | a `Float` is the text of a digit run, a `.` and a possibly empty digit run, ending where the digits end |
| Scanner.LexOverflow | src/main.rs:6-8 | overflow is reported exactly for a digit run, not followed by `.`, whose value exceeds `i32::MAX` |
| Scanner.LexDecimal | src/main.rs:110-130 | round trip: the decimal text of any `i32` value in `0..i32::MAX`, after spaces and followed by a non-number character, scans back to that value |
| Scanner.LexDigit | src/main.rs:110-130 | a lone digit scans to the `Int` it denotes |
| ShuntingYard.PopHigher | src/main.rs:174-182 | defines the popping loop for an incoming operator: pop while the top is an operator of precedence `>=` the incoming one |
| ShuntingYard.Push | src/main.rs:169-205 | defines one iteration of the `for token in stream` loop: a number is output, an operator pops then is stacked, `(` is stacked, `)` pops to its `(` |
| ShuntingYard.Shunt | src/main.rs:165-216 | defines `get_stack` from a cursor: read a token, take a step, and at the end of the line drain the stack, stopping at the first scan or conversion error |
| ShuntingYard.Postfix | src/main.rs:165-216 | defines the postfix form of a whole line: `Shunt` from the start with empty output and stack |
| ShuntingYard.Steps | src/main.rs:169-206 | defines the loop over tokens scanned ahead of time: the output and stack after all of them, or the first error |
| ShuntingYard.ShuntTokens | src/main.rs:165-216 | defines the conversion of tokens scanned ahead of time: `Steps`, then the final drain |
| ShuntingYard.PopHigherPops | src/main.rs:174-182 | an incoming operator moves to the output exactly the run of top-of-stack operators of precedence `>=` its own, most recent first, and stops at a `(`, a weaker operator or the bottom |
| ShuntingYard.PopAll | src/main.rs:174-183 | conversely, operators of precedence `>=` stacked above a weaker top are all popped, in reverse order |
| ShuntingYard.PopToParen | src/main.rs:188-201 | a `)` fails exactly when there is no `(` on the stack, and then with the unmatched `)` error |
| ShuntingYard.PopToParenShape | src/main.rs:189-198 | a `)` that succeeds leaves the stack below the topmost `(` and outputs, most recent first, the tokens above it, none of which is `(` |
| ShuntingYard.ClosePops | src/main.rs:188-198 | a `)` over a `(` with operators above it outputs those operators in reverse and removes the `(` |
| ShuntingYard.Drain | src/main.rs:208-213 | the final drain fails exactly when a `(` is left, and with the unmatched `(` error; otherwise it appends the stack, most recent first |
| ShuntingYard.PushKeepsOperatorStack | src/main.rs:173-201 | every step keeps the operator stack made of operators and `(`, with strictly increasing precedence between adjacent operators |
| ShuntingYard.StepsKeepOperatorStack | src/main.rs:169-206 | that invariant holds for every stack the loop reaches |
| ShuntingYard.PushShape | src/main.rs:169-206 | a step keeps only operators and `(` on the stack and puts no parenthesis in the output |
| ShuntingYard.PushNumbers | src/main.rs:170-171 | a step appends the number it reads, if any, to the numbers already output |
| ShuntingYard.PushConserves | src/main.rs:169-206 | a step neither loses nor copies a number or operator: output plus stack grow by exactly the token read |
| ShuntingYard.StepsContent | src/main.rs:169-206 | the same accounting over any run of steps |
| ShuntingYard.StepsNumbers | src/main.rs:169-206 | numbers reach the output in the order they are read |
| ShuntingYard.ShuntTokensContent | src/main.rs:165-216 | the postfix output holds no parenthesis, holds every number and operator of the input exactly once, and keeps the numbers in input order |
| ShuntingYard.PushParens | src/main.rs:185-201 | a step fails exactly on a `)` with no `(` open, and otherwise changes the count of open `(` by the token's parenthesis weight |
| ShuntingYard.StepsParens | src/main.rs:169-206 | the loop fails exactly when some prefix closes more parentheses than it opens, and then with the unmatched `)` error |
| ShuntingYard.ShuntTokensParens | src/main.rs:185-213 | conversion succeeds exactly on balanced input; unmatched `)` exactly when some prefix closes too many; unmatched `(` exactly when none does but the whole opens more than it closes |
| ShuntingYard.ShuntMatchesScan | src/main.rs:165-216 | pulling tokens lazily agrees with scanning the line first whenever the scan succeeds; a conversion that succeeds had a successful scan; when the scan fails the conversion fails with the scan's error or with an unmatched `)` met earlier |
| ShuntingYard.PostfixContents | src/main.rs:165-216 | a line that converts has balanced parentheses, and its postfix form holds each of its numbers and operators exactly once, no parenthesis, and the numbers in written order |
| ShuntingYard.PostfixParens | src/main.rs:185-213 | on a line that scans, the parenthesis errors are exactly those of the reference count |
| ShuntingYard.SecondOperatorPops | src/main.rs:173-184 | `x op1 y op2 z` with `op1` binding at least as tightly becomes `x y op1 z op2` |
| ShuntingYard.SecondOperatorStacks | src/main.rs:173-184 | with `op2` binding tighter it becomes `x y z op2 op1` |
| ShuntingYard.ThreeOperands | src/main.rs:173-184 | the first operator is output first exactly when it binds at least as tightly as the second, so equal precedence, `^` included, groups to the left |
| ShuntingYard.ShuntingYard.constructor | src/main.rs:161-163 | the converter owns the given stream |
| ShuntingYard.ShuntingYard.GetStack | src/main.rs:165-216 | the output, or the first error in scanning or conversion, is `Shunt` of the line from the stream's cursor; on success the stream is used up |
| Reducer.Apply | src/main.rs:263-270 | defines one iteration of the reducer loop: push a number; an operator takes `b` from the top and `a` below it and pushes `operation_result(op, a, b)`, or fails with fewer than two values |
| Reducer.Reduce | src/main.rs:262-271 | defines the whole reducer loop: `Apply` token by token, stopping at the first error |
| Reducer.Finish | src/main.rs:273-286 | defines the length test: no value, the single value, or too many values |
| Reducer.RunPostfix | src/main.rs:260-287 | defines `run_stack`'s outcome: `Reduce` from an empty value stack, then `Finish` |
| Reducer.RunStack | src/main.rs:260-287 | the outcome is `RunPostfix` of the postfix sequence |
| Reducer.ReduceShape | src/main.rs:262-271 | reduction fails exactly when some operator finds fewer than two values, and only with too few operands; otherwise the value stack grows by numbers minus operators and holds only numbers |
| Reducer.ReduceAppend | src/main.rs:262-271 | reducing a concatenation is reducing its parts one after the other |
| Reducer.RunPostfixOutcome | src/main.rs:273-286 | too few operands, empty, a value, or too many values, exactly as numbers minus operators is reached early, 0, 1 or more; a value is always a number |
| Calculator.Evaluate | src/main.rs:299-302 | defines a line's outcome: `Postfix`, then `RunPostfix` |
| Calculator.EvaluateLine | src/main.rs:299-302 | one line through the stream, the converter and the reducer gives `Evaluate` of the line |
| Calculator.EvaluateScanned | src/main.rs:165-216 | on a line that scans, evaluating it is evaluating its tokens; a line that does not scan fails with the scanner's error, or with an unmatched `)` reported before the bad character |
| Calculator.Convert | src/main.rs:169-206 | converting a well-formed expression outputs its postfix form except for pending operators, which sit above the old stack and bind at least as tightly as the expression |
| Calculator.ShuntInfix | src/main.rs:165-216 | the conversion of a well-formed expression is its postfix form |
| Calculator.ReducePostfix | src/main.rs:262-271 | reducing the postfix form of an expression pushes exactly its value |
| Calculator.EvaluateInfix | src/main.rs:299-302 | the tokens of a well-formed expression evaluate to its value, each operator applied by `operation_result`, grouping to the left |
| Calculator.LineValue | src/main.rs:299-302 | a line that scans to the tokens of a well-formed expression evaluates to the expression's value |
| SampleLines.PrecedenceLine | src/main.rs:28-35 | `2+3*4` is 14 |
| SampleLines.GroupingLine | src/main.rs:185-201 | `(2+3)*4` is 20 |
| SampleLines.PowersLine | src/main.rs:173-184 | `2^3^2` is `(2^3)^2 = 64` |
| SampleLines.DivisionLines | src/main.rs:231-240 | `7/2` is 3 and `7/0` is `i32::MAX` |
| SampleLines.BlankLines | src/main.rs:273-276 | an empty line and a line of spaces have no value |
| SampleLines.TwoNumbersLine | src/main.rs:284-286 | `1 2` leaves too many values |
| SampleLines.NegativeExponentLine | src/main.rs:266-268 | `5^-1` fails with too few operands |
| SampleLines.UnclosedLine | src/main.rs:208-211 | `(1+2` fails with an unmatched `(` |
| SampleLines.UnopenedLine | src/main.rs:199-201 | `1+2)` fails with an unmatched `)` |
| SampleLines.FloatLine | src/main.rs:119-126 | `12.` is the `Float` written `12.` |
| SampleLines.SecondDotLine | src/main.rs:98-104 | `1.2.3` fails on the second `.` |
| SampleLines.LetterLine | src/main.rs:98-104 | `2 x` fails on the `x` |

## Left out

- `main` (src/main.rs:289-305) is terminal I/O: reading a line, `trim_end`, the `exit` command, and printing. `EvaluateLine` models one iteration from the trimmed line onward, and the reducer returns an `Outcome` instead of printing it.
- Every `Error` outcome is a panic that ends the program. The model returns it and makes no claim about later lines.
- `fmt::Display for Token` (src/main.rs:57-71) only formats messages; errors are kept as kinds, not strings.
- Floating-point arithmetic and `float` parsing (src/main.rs:10-12) are not modelled. A `Float` is a symbolic term, and parsing a `Float` literal is taken never to fail, which holds for the digit-dot-digit text the scanner produces.
- Arithmetic.OperationResult: the `Int ⊗ Int` result is exact integer arithmetic plus a saturating cast. That this equals the `f64` computation followed by `as i32` is argued above, not proved. The `b as i32` truncation of a `Float` exponent is inside the symbolic `Compute` term.
- `pow`'s recursion depth is not modelled: a huge exponent overflows the program's call stack, while the model simply computes.
- The defensive fallbacks are kept only as totality cases: the `0_f64` operation at src/main.rs:233 and the `Int(0)` results at src/main.rs:243, 252 and 255. The "Unexpected token" panic at src/main.rs:203-205 cannot happen, because every token is a number, an operator or a parenthesis, so `Push` has no such branch.
- Which error comes first is modelled exactly by `Shunt`, which interleaves scanning and conversion. `ShuntMatchesScan` relates it to scanning first: equal results when the scan succeeds, and otherwise the scan's error or an unmatched `)`; it does not say which of the two when both occur.
