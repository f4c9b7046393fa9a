# Formula: tokenizer, validating constructor and two-stack evaluator

This project is a Dafny model of the `Formula` class of the spreadsheet's formula library (`Spreadsheet/Formula/Formula.cs`). The class has three parts.

- **`GetTokens`** cuts a text into tokens. It uses `Regex.Split` over a six-way alternation: `(`, `)`, an operator, a variable, a double literal, and whitespace. It then drops the pieces that are only whitespace.
- **The constructor `Formula(String)`** rejects the empty text. It checks every token but the last against five anchored patterns. It checks that the first token is `(`, a variable or a double, and that the last is `)`, a variable or a double. It checks every token but the last against its successor while counting parentheses, and then counts a final `)` on its own. Each failure raises a `FormulaFormatException`, with one exception. A text of whitespace only has no tokens, and reading its first token throws an `IndexOutOfRangeException`. On success the constructor keeps the token array.
- **`Evaluate(Lookup)`** makes one pass over the tokens with a value stack and an operator stack.
  - `*` and `/` are applied as soon as their right operand arrives.
  - A pending `+` or `-` is applied when the next `+`, `-` or `)` arrives.
  - Whatever is left is finished after the last token.
  - An undefined variable or a division by zero raises a `FormulaEvaluationException`.

What the model proves:

- **Tokens.**
  - The tokens are the formula's non-whitespace characters, in order.
  - No token is empty or contains whitespace.
  - Every token is in one of the five classes or is an opaque run that the constructor rejects.
- **Constructor.** It succeeds exactly on the non-empty texts whose tokens are well formed. It reports which error it raises otherwise.
- **Grammar.** The token sequences the constructor accepts are exactly the prints of the expressions of the precedence grammar (sums of terms of factors).
- **Evaluation.**
  - On every token sequence the constructor accepts, the evaluation loop computes the value of the expression with the standard precedence and left-associative operators.
  - It never pops or peeks an empty stack (`Evaluator.FormulaEvaluation`).
  - It fails only with an evaluation error.

The model is split into these modules:

| module | file | what it holds |
|---|---|---|
| `Results` | `results.dfy` | `Option`, `Result` and `Error`. `Error` lists the two exception classes of the library, plus the index error and the empty-stack error of the .NET runtime. |
| `TokenClasses` | `token_classes.dfy` | The anchored token patterns, and the exact value of a double literal. |
| `Lexer` | `lexer.dfy` | `Regex.Split` with the alternation, `GetTokens`, and what it guarantees. |
| `Validator` | `validator.dfy` | The `Formula` value, the grammar the constructor checks (`WellFormed`), and the constructor as a method with its two loops. |
| `Syntax` | `syntax.dfy` | Expression trees with precedence, and their reference value `Value`. |
| `Parser` | `parser.dfy` | `Parse`, a reference parse. A well-formed sequence parses to a grammatical tree that prints back as the same sequence. |
| `Machine` | `machine.dfy` | The loop body of `Evaluate` as a step function on the two stacks (`Step`, `Run`, `Finish`), and the lemmas that tie it to `Value`. |
| `Evaluator` | `evaluator.dfy` | `Evaluate` as the imperative loop it is, proved against `Machine`. |
| `Examples` | `examples.dfy` | Test formulas of the project, worked through from their tokens. |

The stacks are sequences whose top is the last element. A `Stack.Pop` or `Stack.Peek` on an empty stack is modelled as the error `EmptyStack`. An exception thrown anywhere ends the run with its `Error`.

## Model

| member | source | states |
|---|---|---|
| Lexer.MantissaLength | Spreadsheet/Formula/Formula.cs:390 | Definition: the length of the greedy mantissa match at a position, its alternatives tried in order: digits, a point and optional digits; then optional digits, a point and digits; then digits alone. It is 0 when none matches. |
| Lexer.ExponentLength | Spreadsheet/Formula/Formula.cs:390 | Definition: the length of the match of `e[\+-]?\d+` at a position, and 0 when it does not match. |
| Lexer.DoubleLength | Spreadsheet/Formula/Formula.cs:390 | Definition: the length of the unanchored double alternative at a position: a mantissa, then an exponent when one matches. It is 0 when no mantissa matches. |
| Lexer.MatchLength | Spreadsheet/Formula/Formula.cs:386-395 | Definition: the length of the match of the six-way alternation at one position, the first alternative that matches winning, and 0 when none matches. |
| Lexer.Split | Spreadsheet/Formula/Formula.cs:398 | Definition: `Regex.Split` with the alternation, scanning left to right; each stretch of unmatched text (possibly empty) is followed by the match after it. |
| Lexer.IsBlank | Spreadsheet/Formula/Formula.cs:400 | Definition: `^\s*$`, a piece that is empty or made only of whitespace. |
| Lexer.RemoveBlank | Spreadsheet/Formula/Formula.cs:399-403 | Definition: the pieces that are not blank, in their order. |
| Lexer.GetTokens | Spreadsheet/Formula/Formula.cs:383-405 | Definition: the pieces of the split, without those that are only whitespace. |
| Lexer.TokensInOrder | Spreadsheet/Formula/Formula.cs:383-405 | Joining the tokens of any text gives back that text with its whitespace deleted, so nothing is lost, added or reordered except whitespace. |
| Lexer.TokensNonEmpty | Spreadsheet/Formula/Formula.cs:377-405 | No token is empty and no token contains a whitespace character, as the method's documentation promises. |
| Lexer.TokenKinds | Spreadsheet/Formula/Formula.cs:377-405 | Each token is a `(`, a `)`, an operator, a variable, a double literal, or an opaque run of characters that no alternative can start. |
| Lexer.OpaqueUnclassified | Spreadsheet/Formula/Formula.cs:70-74 | An opaque token matches none of the five anchored patterns, so the constructor rejects it. |
| Lexer.MatchCases | Spreadsheet/Formula/Formula.cs:386-394 | The alternation tried in order is: a one-character token, else a variable, else the greedy match of the double pattern (`DoubleLength`), else a run of whitespace. |
| Lexer.MatchClass | Spreadsheet/Formula/Formula.cs:386-394 | A match of a non-whitespace alternative is a token of the anchored class of the same name. |
| Lexer.DoubleMatch | Spreadsheet/Formula/Formula.cs:390 | A match of the unanchored double pattern satisfies the anchored double pattern. |
| Lexer.SplitConcat | Spreadsheet/Formula/Formula.cs:398 | The pieces of `Regex.Split` (unmatched stretches and matches, alternately) joined together give back the input. |
| Lexer.SplitPieces | Spreadsheet/Formula/Formula.cs:398-404 | Every piece of the split is all whitespace, or has no whitespace and is classified or opaque. |
| TokenClasses.IsLeftParen | Spreadsheet/Formula/Formula.cs:47 | Definition: the token is exactly `(`. |
| TokenClasses.IsRightParen | Spreadsheet/Formula/Formula.cs:48 | Definition: the token is exactly `)`. |
| TokenClasses.IsOperator | Spreadsheet/Formula/Formula.cs:49 | Definition: the token is one character among `+ - * /`. |
| TokenClasses.IsVariable | Spreadsheet/Formula/Formula.cs:50 | Definition: a letter followed by letters and digits. |
| TokenClasses.IsDouble | Spreadsheet/Formula/Formula.cs:51 | Definition: a mantissa of digits with at most one point and at least one digit, then optionally a lower-case `e`, an optional sign and digits. |
| TokenClasses.IsClassified | Spreadsheet/Formula/Formula.cs:70-71 | Definition: the token matches one of the five anchored patterns. |
| TokenClasses.OpensOperand | Spreadsheet/Formula/Formula.cs:78 | Definition: the token is `(`, a variable or a double, the tokens allowed first. |
| TokenClasses.ClosesOperand | Spreadsheet/Formula/Formula.cs:84-85 | Definition: the token is `)`, a variable or a double, the tokens allowed last. |
| Validator.Count | Spreadsheet/Formula/Formula.cs:92-139 | Definition: how often a token occurs among the first n tokens, as the counters `nOpenParen` and `nCloseParen` count them. |
| Validator.Depth | Spreadsheet/Formula/Formula.cs:92-139 | Definition: opening minus closing parentheses among the first n tokens, the difference of the two counters. |
| Validator.FollowsAllowed | Spreadsheet/Formula/Formula.cs:109-129 | Definition: after `(` or an operator comes a double, a variable or `(`. After a double, a variable or `)` comes an operator or `)`. Any other token puts no condition on its successor. |
| Validator.WellFormed | Spreadsheet/Formula/Formula.cs:58-143 | Definition: the rules the constructor checks. The sequence is not empty, and every token is in a class. The first token opens an operand and the last closes one. Neighbours are allowed pairs. No prefix closes more parentheses than it opens, and the totals are equal. |
| Validator.Construct | Spreadsheet/Formula/Formula.cs:44-147 | Succeeds exactly when the text is not empty and its tokens are well formed, and then keeps those tokens. Otherwise the error is an index error for a non-empty whitespace-only text and a format error in every other case. |
| Validator.Validate | Spreadsheet/Formula/Formula.cs:64-143 | The checks on the token array report nothing exactly when the tokens are well formed. An empty array is an index error (line 78 reads the first token); every other failure is a format error. |
| Validator.AllButLastClassified | Spreadsheet/Formula/Formula.cs:67-75 | The first loop passes exactly when every token but the last is in one of the five classes. |
| Validator.BalancedAndAdjacent | Spreadsheet/Formula/Formula.cs:90-143 | Given a last token that closes an operand, the second loop and the final count pass exactly when three things hold: every neighbour pair is allowed, no prefix closes more parentheses than it opens, and the totals are equal. |
| Validator.NoTokensIffBlank | Spreadsheet/Formula/Formula.cs:397-404 | A text has no tokens exactly when it is all whitespace. |
| Validator.WhitespaceOnlyIsIndexError | Spreadsheet/Formula/Formula.cs:64-78 | The text `" "` is non-empty and blank, has no tokens, and is not a formula. By `Construct`'s contract it is therefore an index error. |
| Validator.UppercaseExponent | Spreadsheet/Formula/Formula.cs:383-404 | The text `2E5` splits into the number `2` and the variable `E5`, because only a lower-case `e` opens an exponent. `2E5` as a whole is not a double, and the two tokens are not a well-formed formula, because an operand cannot follow an operand. |
| Validator.ConstructChecked | Spreadsheet/Formula/Formula.cs:40-147 | The same acceptance and the same kept tokens as `Construct`, but every rejection is a format error, as the constructor's documentation says. |
| Syntax.Value | Spreadsheet/Formula/Formula.cs:15-19 | Definition: the reference value of an expression tree. The left operand is valued before the right one, and the first failure is the result. An undefined variable is an evaluation error. |
| Syntax.Apply | Spreadsheet/Formula/Formula.cs:183-190 | Applying an operator fails exactly for a division by exactly zero, and that failure is an evaluation error. |
| Syntax.FailureIsEvaluationError | Spreadsheet/Formula/Formula.cs:149-157 | The value of any grammatical expression either exists or is an evaluation error. |
| Syntax.UndefinedVariableFails | Spreadsheet/Formula/Formula.cs:209-217 | An expression that prints a variable which `lookup` leaves undefined has no value. |
| Parser.ParseSum | Spreadsheet/Formula/Formula.cs:44-147 | A token sequence the constructor accepts parses to a sum-of-terms-of-factors tree that prints back as exactly that sequence. |
| Parser.Unparenthesized | Spreadsheet/Formula/Formula.cs:77-143 | A well-formed sequence with no operator outside parentheses is a single literal or variable, or a well-formed sequence inside one pair of parentheses. |
| Parser.GrammarIsWellFormed | Spreadsheet/Formula/Formula.cs:24-29 | Every sum-of-terms-of-factors tree prints as a token sequence the constructor accepts: the documentation promises a Formula for every standard infix expression. |
| Parser.WellFormedIffGrammar | Spreadsheet/Formula/Formula.cs:24-143 | A token sequence passes the constructor's checks if and only if it is the print of a tree of the precedence grammar. |
| Parser.JoinWellFormed | Spreadsheet/Formula/Formula.cs:90-143 | Two accepted sequences joined by an operator are accepted. |
| Parser.GroupWellFormed | Spreadsheet/Formula/Formula.cs:90-143 | An accepted sequence in one pair of parentheses is accepted. |
| Parser.OperandWellFormed | Spreadsheet/Formula/Formula.cs:77-88 | A single number or variable is accepted. |
| Machine.Step | Spreadsheet/Formula/Formula.cs:169-351 | Definition: one iteration of the loop, with the token's class choosing the branch in the source's order. A halted machine stays halted. |
| Machine.CloseParen | Spreadsheet/Formula/Formula.cs:293-312 | Definition: a `)` applies a pending `+` or `-`, then hands over to `PopParen`. Peeking an empty operator stack is an error. |
| Machine.PopParen | Spreadsheet/Formula/Formula.cs:314-349 | Definition: pops the `(`, then applies a `*` or `/` below it to the two values on top. The divisor is checked for zero before it is popped. |
| Machine.Run | Spreadsheet/Formula/Formula.cs:169-351 | Definition: the loop over the tokens, one `Step` per token from the left, from the given stacks. |
| Machine.Evaluation | Spreadsheet/Formula/Formula.cs:158-375 | Definition: `Evaluate` as a function. It runs the loop from two empty stacks, then takes the final step. |
| Machine.Finish | Spreadsheet/Formula/Formula.cs:353-374 | Definition: with no operator left, the value on top is the result. Otherwise the remaining `+` or `-` is applied to the two values on top. |
| Machine.Operand | Spreadsheet/Formula/Formula.cs:171-256 | When an operand arrives, the machine halts only under a pending `*` or `/`. If it runs on, at least one value is on the stack and the operator stack has not grown. |
| Machine.ApplyAdditive | Spreadsheet/Formula/Formula.cs:266-280 | Applying a pending `+` or `-` halts exactly when fewer than two values are stacked, with an empty-stack error. Otherwise it leaves one value fewer and pops the operator. |
| Machine.AddOperator | Spreadsheet/Formula/Formula.cs:258-285 | After a `+` or `-` arrives, that operator is on top of the operator stack. |
| Machine.FactorRun | Spreadsheet/Formula/Formula.cs:171-350 | The tokens of a literal, a variable or a parenthesized sum act on the stacks like one operand carrying the factor's value. |
| Machine.TermRun | Spreadsheet/Formula/Formula.cs:171-291 | From stacks with no pending `*` or `/`, the tokens of a term push its value, or fail as its value fails. |
| Machine.SumRun | Spreadsheet/Formula/Formula.cs:168-351 | From the start or just after a `(`, the tokens of a sum leave its value. If its last top-level operator is `+` or `-`, that operator is left pending over the values of its two operands. |
| Machine.CloseGroup | Spreadsheet/Formula/Formula.cs:293-350 | The `)` of a group applies the pending `+` or `-`, pops the `(`, and feeds the group's value to a `*` or `/` below it. |
| Machine.SumEvaluation | Spreadsheet/Formula/Formula.cs:168-374 | Running the loop over the tokens of a sum and finishing gives the sum's value. |
| Machine.EvaluationIsValue | Spreadsheet/Formula/Formula.cs:149-375 | On every well-formed token sequence, evaluation gives the value of the parsed expression with standard precedence and left associativity. |
| Machine.FinalStacks | Spreadsheet/Formula/Formula.cs:353-374 | After the last token of a well-formed formula, the stacks hold either one value and no operator, or two values under one `+` or `-`. These are the two shapes the final step expects. |
| Evaluator.Evaluate | Spreadsheet/Formula/Formula.cs:158-375 | The loop returns what the machine computes on the formula's tokens. On a formula the constructor returned, that is the value of its expression, and the only possible failure is an evaluation error. |
| Evaluator.PushOperand | Spreadsheet/Formula/Formula.cs:171-256 | The number and variable branches give the machine's `Operand` step. |
| Evaluator.ApplyTop | Spreadsheet/Formula/Formula.cs:264-280 | Applying the `+` or `-` on top gives the machine's `ApplyAdditive` step, with the second value popped as the left operand. |
| Evaluator.PushAdditive | Spreadsheet/Formula/Formula.cs:258-285 | The `+`/`-` branch gives the machine's `AddOperator` step. |
| Evaluator.CloseParenthesis | Spreadsheet/Formula/Formula.cs:293-350 | The `)` branch gives the machine's `CloseParen` step. It peeks an empty operator stack as an error, and checks the divisor before popping it. |
| Evaluator.FormulaEvaluation | Spreadsheet/Formula/Formula.cs:149-157 | For a valid formula, evaluation is the value of the parsed expression, and a failure is an evaluation error. So on a valid formula the loop never pops or peeks an empty stack. |
| Evaluator.UndefinedVariableEvaluation | Spreadsheet/Formula/Formula.cs:209-217 | Suppose a constructed formula contains a variable that `lookup` leaves undefined. Then evaluating it fails with an evaluation error. |
| TokenClasses.ClassesDisjoint | Spreadsheet/Formula/Formula.cs:47-51 | No token is both a variable and a double, and neither is a parenthesis or an operator. |
| TokenClasses.NumberValue | Spreadsheet/Formula/Formula.cs:177 | The value of a double literal is never negative. |
| Examples.PrecedenceExample | Spreadsheet/FormulaSimpleTests/FormulaSimpleTests.cs:366-369 | The tokens of `2 + 3*(3 - 5)` evaluate to -4. |
| Examples.ExponentExample | Spreadsheet/FormulaSimpleTests/FormulaSimpleTests.cs:298-301 | The tokens of `3 + 1e-3 + 14` evaluate to 17.001. |
| Examples.ThousandthLiteral | Spreadsheet/FormulaSimpleTests/FormulaSimpleTests.cs:300 | `1e-3` is a double literal with value 0.001. |
| Examples.DivisionByZeroExample | Spreadsheet/FormulaSimpleTests/FormulaSimpleTests.cs:261-264 | The tokens of `7/0` fail with an evaluation error. |
| Examples.UndefinedVariableExample | Spreadsheet/FormulaSimpleTests/FormulaSimpleTests.cs:182-185 | The tokens of `x + y` fail with an evaluation error when no variable is defined. |

## Left out

- Floating point. Values are exact reals, so the model has no rounding, infinities or NaN. A double literal is read exactly as its mantissa times ten to its exponent. A literal beyond the range of a double, such as `1e400`, passes the constructor. `Convert.ToDouble` then throws an `OverflowException` for it under .NET Framework (or gives infinity on newer runtimes). The model gives it its exact value instead.
- The value stack in the source holds strings. Each value goes through `Convert.ToString` and back through `Convert.ToDouble`, and that round trip is not modelled: the stack holds reals.
- The .NET regular-expression engine. The patterns are written out by hand: `\s` is the .NET whitespace set, and `\d` is restricted to the ASCII digits.
  - The `$` anchor also accepts a final line feed. This cannot matter here, because no token contains whitespace (`Lexer.TokensNonEmpty`).
- Exception messages, including the message at `Formula.cs:87`, which says "opening parenthesis" where it means a closing one. Only the kind of each error is modelled.
- The `tokens` field (`Formula.cs:23`) is a public, mutable `string[]`. Any caller can overwrite it after construction, so a Formula in the source need not satisfy `Valid()`. The model's `Formula` is an immutable value. `Evaluator.Evaluate` therefore has no precondition on the tokens, and its first `ensures` covers any stored token sequence. Its value and error promises hold only for a Formula as the constructor returned it.
- `Convert.ToDouble` and `Convert.ToString` use the current culture. `TokenClasses.NumberValue` reads a literal with `.` as the decimal point and no group separator, which is what the invariant culture does. Under a culture whose decimal separator is `,`, the source reads `2.5` differently or fails, and the model does not capture that.
- The `Lookup` delegate is a function `string -> Option<real>`, where `None` stands for throwing `UndefinedVariableException`. Any other exception thrown by a delegate is not modelled.
- `GetTokens` is lazy in the source. Here it returns the whole token sequence.
- Examples.PrecedenceExample and the other example lemmas start from the token sequences of the test formulas. They do not tokenize the test strings themselves.
- The unit-test harness itself.

## Findings

| source | as written | input that shows it | evidently intended | confidence | as-written member | corrected member |
|---|---|---|---|---|---|---|
| Spreadsheet/Formula/Formula.cs:64-78 | A non-empty text of whitespace only has no tokens, and the check of the first token at line 78 indexes the empty array, throwing `IndexOutOfRangeException`. | `" "` | A `FormulaFormatException`: the constructor's documentation (lines 41-42) promises one for every syntactically invalid formula. | high, not executed | Validator.Construct, Validator.WhitespaceOnlyIsIndexError | Validator.ConstructChecked |
