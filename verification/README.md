# Currency converter core, modelled in Dafny

This project models the deterministic core of a command-palette currency
converter. The user types a query such as `12.5*2 usd to eur`. The page
matches it against a pattern, evaluates the arithmetic amount, expands the
query into (from, to) conversion tasks, and resolves each currency token
through a user-editable alias table. Each task is then converted against a
time-limited, case-insensitive rate cache that is filled in bulk from a rate
provider, and the resulting list items are shown de-duplicated.

Modules, one per source class:

| module | covers |
|---|---|
| `Results` | `Option` and `Result` |
| `Chars` | the character classes and string helpers the source relies on: digits, `char.IsWhiteSpace`, letters, currency symbols, invariant case mapping, `Trim`, `Replace`, `IndexOf` |
| `CalculateEngine` | the two-stack evaluator (`HasPrecedence`, `ApplyOp`, `Evaluate`), as pure functions over an explicit pair of stacks and as imperative methods with loop invariants proved equal to them |
| `EvaluatorCorrectness` | a token view of the same evaluation, a reference semantics for well-formed arithmetic trees, and the theorem that the evaluator computes it |
| `OperatorStack` | invariants of the operator stack: its layering by precedence, its parenthesis depth, and white-space insensitivity |
| `EvaluatorExamples` | the worked examples `2+3*4`, `(2+3)*4`, `10-3-2`, `8/2/2`, `10/0`, `-5` and `1)`, and the single literals `1 000`, `1,234.56` (separator setting 1) and `1.234,56` (setting 2) |
| `Precision` | `CalculateConvertedAmount`: banker's rounding, the ten-digit fixed rendering, and the small-amount precision expansion |
| `RateCache` | `CaseInsensitiveTupleComparer` and `GetConversionRateAsync`: cache freshness, primary and fallback requests, and bulk fill |
| `AliasManager` | the alias map, its key validator and load-as-merge |
| `CreateAliasForm` | the validation chain of `SubmitForm` |
| `CurrencyConverter` | task expansion, alias resolution, the skip rule, one conversion per task, and index-ordered assembly |
| `ExtensionPage` | the separator table, `ParseQuery` and `GetItems` with de-duplication |

Modelling choices:

- **Numbers.** C# `decimal` is modelled as an exact `real`.
- **Literals.** A literal is digits with at most one decimal separator. Its value is the digits before the separator plus the digits after it divided by the matching power of ten. Anything else is a parse failure.
- **Failures.** Every exception the evaluator can throw becomes an `EvalError`:
  - a divide-by-zero becomes `DivideByZero`;
  - a pop from an empty stack becomes `StackEmpty`;
  - an unparsable literal becomes `BadLiteral`;
  - a `(` still on the operator stack at the final drain is handed to `ApplyOp`, which rejects it: `InvalidOperator`.
- **Network.** The network is a pair of total functions, primary and fallback, from a currency pair to a response. A response is a status plus the provider's rate table. The status `Thrown(message)` stands for a request that throws instead of answering (a transport failure or a time-out): the lookup stops there, with no fallback request, and the item shows that message. The table is an ordered list of (target, rate) rows, so a repeated target is overwritten by its last row, as in the source's loop. Every request made is recorded in a list of calls.
- **Clock.** The clock is an integer number of seconds passed in. The cache duration is counted in the same unit, so a fractional number of hours (half an hour is 1800) is expressed exactly: the source's duration setting is in hours, and the model takes it already multiplied by 3600.
- **Cache.** The cache is a map keyed by the upper-cased pair. This is how the case-insensitive comparer is represented, and the model proves the two agree.
- **Concurrency.** Conversion tasks run one after another in index order, each seeing the cache the previous ones left.
- **Regex match.** The page's regular-expression match of the trimmed search text is handed to `ParseQuery` and `GetItems` as a value. Their preconditions tie it to the text: it is a match when present (`ExtensionPage.Matches`), and it is absent only when no match of the pattern exists.

Behaviour of the code that the model keeps as written:

- **Characters outside a literal.** A character that is not a space, digit, parenthesis or operator is skipped, so `.5` evaluates to 5. Any other white-space character falls under the same rule.
- **Values left over.** At the end the top value is returned, even if more than one value is left. So `(1)(2)` evaluates to 2. A leading `-` fails only when a value is missing at the moment the operator is applied.
- **Stale cache entry.** A fetch whose table lacks the target currency still succeeds with the stale cached rate for the pair, if one exists. The source only checks for presence after the fill.
- **Small amounts that render as one.** A raw amount below 1 whose ten-digit rendering rounds up to `1.0000000000` counts ten leading fractional zeros. Its precision is then the base plus 10 (`Precision.NoFractionGivesTenExtraDigits`).
- **Key validator.** The key pattern `[\p{L}\p{Sc}_]*` is unanchored and matches the empty string. So `ValidateKeyFormat` only rejects a null or all-white-space key (`AliasManager.ValidateKeyFormatMeansNotBlank`).

## Model

Some definitions carry no contract of their own; the lemmas named here state what they mean:
- `CalculateEngine.Evaluate`: `EvaluatorCorrectness.EvaluateMatchesReference` and `EvaluatorCorrectness.LexedEvaluation`.
- `CalculateEngine.HasPrecedence`: `OperatorStack.IncomingOperatorPops` and `EvaluatorCorrectness.PopPendingIsReduce`.
- `CalculateEngine.ApplyOp`: `EvaluatorCorrectness.ApplyPending`.
- `CalculateEngine.LiteralValue`: `EvaluatorCorrectness.MalformedLiteralFails` and `EvaluatorExamples.SingleLiteral`.
- `RateCache.Fresh`: `RateCache.GetConversionRate` and `CurrencyConverter.SkipRule`.
- `AliasManager.ValidateKeyFormat`: `AliasManager.ValidateKeyFormatMeansNotBlank`.

| member | source | states |
|---|---|---|
| CalculateEngine.ApplyTop | CurrencyConverterExtension/Converter/CalculateEngine.cs:68 | applying the top operator consumes one operator and two values and pushes one; with fewer than two values it fails with a stack underflow |
| CalculateEngine.PopPending | CurrencyConverterExtension/Converter/CalculateEngine.cs:67-68 | an incoming operator only pops a suffix of the operator stack, and afterwards the new top is not one it has precedence over |
| CalculateEngine.CloseParen | CurrencyConverterExtension/Converter/CalculateEngine.cs:58-63 | `)` pops operators back to and including a `(`, and leaves a prefix of the operator stack |
| CalculateEngine.Drain | CurrencyConverterExtension/Converter/CalculateEngine.cs:73-74 | after the final drain the operator stack is empty |
| CalculateEngine.Finish | CurrencyConverterExtension/Converter/CalculateEngine.cs:73-76 | with no values the final pop fails with a stack underflow |
| CalculateEngine.ScanLiteral | CurrencyConverterExtension/Converter/CalculateEngine.cs:44-49 | the literal scan consumes only digits, separators and white space and stops at the first other character; the text it keeps is exactly the consumed text with its white space removed, in order |
| CalculateEngine.NextStep | CurrencyConverterExtension/Converter/CalculateEngine.cs:38-70 | a token produced by one outer iteration consumes at least one and at most the remaining characters |
| CalculateEngine.ScanLiteralLoop | CurrencyConverterExtension/Converter/CalculateEngine.cs:43-49 | the imperative literal loop builds the same buffer and stops at the same index as the functional scan |
| CalculateEngine.ApplyTopOfStacks | CurrencyConverterExtension/Converter/CalculateEngine.cs:61 | one application of `ApplyOp(ops.Pop(), values.Pop(), values.Pop())` on explicit stacks agrees with the functional model |
| CalculateEngine.PopPendingLoop | CurrencyConverterExtension/Converter/CalculateEngine.cs:67-68 | the operator loop on explicit stacks agrees with the functional model |
| CalculateEngine.CloseParenLoop | CurrencyConverterExtension/Converter/CalculateEngine.cs:58-63 | the `)` loop on explicit stacks agrees with the functional model |
| CalculateEngine.FinishLoop | CurrencyConverterExtension/Converter/CalculateEngine.cs:73-76 | the final drain and pop on explicit stacks agree with the functional model |
| CalculateEngine.NextStepAt | CurrencyConverterExtension/Converter/CalculateEngine.cs:38-70 | the dispatch on the character at an index agrees with one functional step |
| CalculateEngine.FeedStacks | CurrencyConverterExtension/Converter/CalculateEngine.cs:41-70 | pushing a number or `(`, closing a `)`, or pushing an operator after popping, all agree with the functional model |
| CalculateEngine.EvalRestFeeds | CurrencyConverterExtension/Converter/CalculateEngine.cs:36-71 | after a token is consumed, evaluation continues from the index past it with the new stacks |
| CalculateEngine.EvalRestSkips | CurrencyConverterExtension/Converter/CalculateEngine.cs:38-39 | a skipped character leaves the stacks and the remaining outcome unchanged |
| CalculateEngine.EvaluateWithStacks | CurrencyConverterExtension/Converter/CalculateEngine.cs:30-77 | the whole two-stack loop returns exactly the value or error of the functional evaluator |
| EvaluatorCorrectness.LexedEvaluation | CurrencyConverterExtension/Converter/CalculateEngine.cs:36-76 | when every literal parses, evaluating the text equals running its token sequence through the stacks and popping the result |
| EvaluatorCorrectness.MalformedLiteralFails | CurrencyConverterExtension/Converter/CalculateEngine.cs:51 | a literal that does not parse makes the whole evaluation fail |
| EvaluatorCorrectness.RunAppend | CurrencyConverterExtension/Converter/CalculateEngine.cs:36-71 | running two token sequences in turn is running their concatenation; an error stops the run |
| EvaluatorCorrectness.PopPendingIsReduce | CurrencyConverterExtension/Converter/CalculateEngine.cs:10-18 | an incoming operator pops exactly the pending operators whose precedence level is at least its own, down to a `(` |
| EvaluatorCorrectness.CloseParenIsReduce | CurrencyConverterExtension/Converter/CalculateEngine.cs:58-63 | `)` reduces every pending operator down to the nearest `(`, then removes it, and fails if there is none |
| EvaluatorCorrectness.DrainIsReduce | CurrencyConverterExtension/Converter/CalculateEngine.cs:73-74 | the final drain reduces every pending operator |
| EvaluatorCorrectness.ReduceCompose | CurrencyConverterExtension/Converter/CalculateEngine.cs:67-68 | reducing to a low level equals reducing to a higher level and then to the low one |
| EvaluatorCorrectness.ApplyPending | CurrencyConverterExtension/Converter/CalculateEngine.cs:20-28 | a pending operator with operands pushed `a` then `b` yields `a op b`, never `b op a` |
| EvaluatorCorrectness.FlattenRun | CurrencyConverterExtension/Converter/CalculateEngine.cs:36-74 | the tokens of any well-formed tree, once reduced, leave exactly the tree's reference value on the value stack |
| EvaluatorCorrectness.FlattenRunGroup | CurrencyConverterExtension/Converter/CalculateEngine.cs:55-63 | a parenthesised tree evaluates to its inner tree's value |
| EvaluatorCorrectness.FlattenRunBin | CurrencyConverterExtension/Converter/CalculateEngine.cs:65-70 | a binary tree evaluates to its operator applied to its two operands' values, left operand first |
| EvaluatorCorrectness.FlattenRunRight | CurrencyConverterExtension/Converter/CalculateEngine.cs:65-70 | after a left operand and its operator are pushed, the right operand's tokens yield the operator applied to both |
| EvaluatorCorrectness.ShuntingYardMatchesReference | CurrencyConverterExtension/Converter/CalculateEngine.cs:30-77 | for any well-formed tree, the stack machine computes the reference value, including its divide-by-zero error |
| EvaluatorCorrectness.EvaluateMatchesReference | CurrencyConverterExtension/Converter/CalculateEngine.cs:30-77 | any text whose tokens spell a well-formed tree evaluates to that tree's reference value: `*` and `/` bind tighter, and equal levels associate to the left |
| OperatorStack.LexIsArithmetic | CurrencyConverterExtension/Converter/CalculateEngine.cs:65-70 | every operator token read from text is one of `+ - * /` |
| OperatorStack.LayeredPrefix | CurrencyConverterExtension/Converter/CalculateEngine.cs:67-68 | popping operators off a layered stack leaves it layered |
| OperatorStack.LayeredPush | CurrencyConverterExtension/Converter/CalculateEngine.cs:69 | pushing `(` or an operator that binds tighter than the top keeps the stack layered |
| OperatorStack.FeedKeepsLayered | CurrencyConverterExtension/Converter/CalculateEngine.cs:55-70 | every token keeps the operator stack layered: each operator sits on a `(` or on a looser operator |
| OperatorStack.RunKeepsLayered | CurrencyConverterExtension/Converter/CalculateEngine.cs:36-71 | the operator stack stays layered over a whole run |
| OperatorStack.ScanKeepsLayered | CurrencyConverterExtension/Converter/CalculateEngine.cs:36-71 | at every point of an evaluation the operator stack is layered |
| OperatorStack.IncomingOperatorPops | CurrencyConverterExtension/Converter/CalculateEngine.cs:10-18 | an incoming `+`/`-` pops a pending `*`/`/`, but an incoming `*`/`/` never pops a pending `+`/`-` |
| OperatorStack.ApplyTopKeepsParens | CurrencyConverterExtension/Converter/CalculateEngine.cs:60-61 | applying an operator that is not `(` keeps the number of open parentheses |
| OperatorStack.PopPendingKeepsParens | CurrencyConverterExtension/Converter/CalculateEngine.cs:12-13 | an incoming operator never pops a `(` |
| OperatorStack.CloseParenRemovesOne | CurrencyConverterExtension/Converter/CalculateEngine.cs:58-63 | a successful `)` removes exactly one `(` |
| OperatorStack.UnmatchedCloseFails | CurrencyConverterExtension/Converter/CalculateEngine.cs:58-63 | `)` with no open parenthesis fails |
| OperatorStack.UnclosedOpenFails | CurrencyConverterExtension/Converter/CalculateEngine.cs:73-76 | an unclosed `(` makes the final drain, and so the evaluation, fail |
| OperatorStack.ParensPush | CurrencyConverterExtension/Converter/CalculateEngine.cs:55-56 | pushing `(` adds one open parenthesis and pushing anything else adds none |
| OperatorStack.FeedTracksDepth | CurrencyConverterExtension/Converter/CalculateEngine.cs:55-70 | each token changes the open-parenthesis count by its own depth change, and `)` needs one open |
| OperatorStack.DepthStep | CurrencyConverterExtension/Converter/CalculateEngine.cs:55-63 | the nesting depth of a token sequence is computed one token at a time |
| OperatorStack.RunTracksDepth | CurrencyConverterExtension/Converter/CalculateEngine.cs:36-71 | a successful run never closes more parentheses than are open, and ends with the tokens' final depth |
| OperatorStack.SuccessNeedsBalancedParens | CurrencyConverterExtension/Converter/CalculateEngine.cs:30-77 | a successful evaluation has balanced parentheses |
| OperatorStack.ScanIgnoresWhiteSpace | CurrencyConverterExtension/Converter/CalculateEngine.cs:44-49 | white space inside a literal is dropped: the literal read with it equals the literal read without it |
| OperatorStack.FirstStepIgnoresWhiteSpace | CurrencyConverterExtension/Converter/CalculateEngine.cs:38-53 | the first token read is the same with or without the text's white space |
| OperatorStack.FirstLiteralIgnoresWhiteSpace | CurrencyConverterExtension/Converter/CalculateEngine.cs:41-53 | a literal token read is the same with or without the white space in and after it |
| OperatorStack.WhiteSpaceIsIgnored | CurrencyConverterExtension/Converter/CalculateEngine.cs:38-52 | removing every white-space character never changes the result, so `1 000` reads as 1000 |
| EvaluatorExamples.PrecedenceExample | CurrencyConverterExtension/Converter/CalculateEngine.cs:10-18 | `2+3*4` evaluates to 14 |
| EvaluatorExamples.ParenthesesExample | CurrencyConverterExtension/Converter/CalculateEngine.cs:55-63 | `(2+3)*4` evaluates to 20 |
| EvaluatorExamples.SubtractionExample | CurrencyConverterExtension/Converter/CalculateEngine.cs:65-70 | `10-3-2` evaluates to 5 |
| EvaluatorExamples.DivisionExample | CurrencyConverterExtension/Converter/CalculateEngine.cs:65-70 | `8/2/2` evaluates to 2 |
| EvaluatorExamples.DivideByZeroExample | CurrencyConverterExtension/Converter/CalculateEngine.cs:25-26 | `10/0` fails with divide-by-zero |
| EvaluatorExamples.LeadingMinusExample | CurrencyConverterExtension/Converter/CalculateEngine.cs:73-74 | `-5` fails with a stack underflow |
| EvaluatorExamples.UnmatchedCloseExample | CurrencyConverterExtension/Converter/CalculateEngine.cs:58-63 | `1)` fails with a stack underflow |
| EvaluatorExamples.SingleLiteral | CurrencyConverterExtension/Converter/CalculateEngine.cs:40-51 | a text made of one literal (digits and the decimal separator) evaluates to that literal's value |
| EvaluatorExamples.SpacedThousandsExample | CurrencyConverterExtension/Converter/CalculateEngine.cs:43-49 | white space inside a literal is skipped: `1 000` evaluates to 1000 |
| EvaluatorExamples.DecimalValue | CurrencyConverterExtension/Converter/CalculateEngine.cs:40-51 | the digits 1234, the decimal separator and the digits 56 evaluate to 1234.56 for either separator |
| EvaluatorExamples.DecimalPointExample | CurrencyConverterExtension/Pages/CurrencyConverterExtensionPage.cs:87 | under separator setting 1 the amount `1,234.56`, with its group separator removed, evaluates to 1234.56 |
| EvaluatorExamples.DecimalCommaExample | CurrencyConverterExtension/Pages/CurrencyConverterExtensionPage.cs:87 | under separator setting 2 the amount `1.234,56`, with its group separator removed, evaluates to 1234.56 |
| Chars.Lower | CurrencyConverterExtension/Converter/CurrencyConverter.cs:121-122 | lower-casing keeps the length and maps each character on its own |
| Chars.Upper | CurrencyConverterExtension/Converter/CurrencyConverter.cs:137-143 | upper-casing keeps the length and maps each character on its own |
| Chars.TrimStart | CurrencyConverterExtension/Pages/CurrencyConverterExtensionPage.cs:101-102 | the result is a suffix of the input, does not start with white space, and only white space was removed |
| Chars.TrimEnd | CurrencyConverterExtension/Pages/CurrencyConverterExtensionPage.cs:101-102 | the result is a prefix of the input, does not end with white space, and only white space was removed |
| Chars.TrimWithoutWhiteSpace | CurrencyConverterExtension/Pages/CurrencyConverterExtensionPage.cs:101-102 | trimming text without white space returns it unchanged |
| Chars.RemoveChar | CurrencyConverterExtension/Pages/CurrencyConverterExtensionPage.cs:87 | removing a character leaves no occurrence of it, keeps every other character with its multiplicity, and leaves a text without it unchanged |
| Chars.RemoveCharAppend | CurrencyConverterExtension/Pages/CurrencyConverterExtensionPage.cs:87 | removal works piecewise over a concatenation, so the kept characters stay in their original order |
| Chars.IndexOf | CurrencyConverterExtension/Converter/CurrencyConverter.cs:229 | the index found is the first occurrence, and there is none exactly when the character is absent |
| Precision.Abs | CurrencyConverterExtension/Converter/CurrencyConverter.cs:223 | the magnitude is non-negative and equals the value or its negation |
| Precision.HalfEvenUnits | CurrencyConverterExtension/Converter/CurrencyConverter.cs:224 | the nearest integer: within one half, exact on integers, and even on a tie |
| Precision.RoundHalfEven | CurrencyConverterExtension/Converter/CurrencyConverter.cs:224 | the result has at most `d` fraction digits, lies within half a unit of the input, and is not negative for a non-negative input |
| Precision.RoundExact | CurrencyConverterExtension/Converter/CurrencyConverter.cs:224 | a value that already has at most `d` fraction digits is not changed by rounding |
| Precision.TieGoesToEven | CurrencyConverterExtension/Converter/CurrencyConverter.cs:224 | a value exactly halfway rounds to the even last digit |
| Precision.RoundHalfAwayUnits | CurrencyConverterExtension/Converter/CurrencyConverter.cs:228 | the ten-digit rendering rounds to within half a unit, a tie going up |
| Precision.NatDigits | CurrencyConverterExtension/Converter/CurrencyConverter.cs:228 | the integer part renders as a non-empty digit string whose value is the number |
| Precision.PadDigits | CurrencyConverterExtension/Converter/CurrencyConverter.cs:228 | the fraction renders as exactly the requested number of digits |
| Precision.LeadingZeros | CurrencyConverterExtension/Converter/CurrencyConverter.cs:232 | counts the run of `0` at the start of the text, stopping at the first other character |
| Precision.F10Point | CurrencyConverterExtension/Converter/CurrencyConverter.cs:228-229 | the rendering always has a decimal point, and exactly the ten rounded fraction digits follow it |
| Precision.LeadingZerosMagnitude | CurrencyConverterExtension/Converter/CurrencyConverter.cs:232 | the number of leading zeros of a ten-digit fraction fixes its order of magnitude, and all ten are zero exactly when it is zero |
| Precision.CalculateConvertedAmount | CurrencyConverterExtension/Converter/CurrencyConverter.cs:220-239 | the converted amount is non-negative and is the magnitude of amount times rate rounded half-to-even at the returned precision, so it is within half a unit of the last kept digit; the precision is the base when the magnitude is at least 1 and never exceeds base + 10 |
| Precision.SmallAmountPrecision | CurrencyConverterExtension/Converter/CurrencyConverter.cs:226-235 | below 1, the extra precision is the number of leading fractional zeros of the ten-digit rendering, i.e. it fixes the magnitude of the first significant digit |
| Precision.NoFractionGivesTenExtraDigits | CurrencyConverterExtension/Converter/CurrencyConverter.cs:226-235 | below 1, a value whose ten-digit fraction is all zeros gets base + 10 digits |
| RateCache.Key | CurrencyConverterExtension/Converter/CurrencyConverter.cs:15-27 | the normalised key keeps the lengths of both codes |
| RateCache.SameUpper | CurrencyConverterExtension/Converter/CurrencyConverter.cs:19-20 | two codes upper-case to the same text exactly when they are equal ignoring case |
| RateCache.KeyMatchesComparer | CurrencyConverterExtension/Converter/CurrencyConverter.cs:17-21 | two pairs have the same cache key exactly when the comparer calls them equal |
| RateCache.HashAgreesWithComparer | CurrencyConverterExtension/Converter/CurrencyConverter.cs:23-27 | pairs the comparer calls equal have the same hash |
| RateCache.Lookup | CurrencyConverterExtension/Converter/CurrencyConverter.cs:160-162 | a lookup finds an entry exactly when the pair's normalised key is cached, and returns that entry |
| RateCache.LookupIgnoresCase | CurrencyConverterExtension/Converter/CurrencyConverter.cs:160-162 | pairs equal ignoring case look up the same entry |
| RateCache.Fetch | CurrencyConverterExtension/Converter/CurrencyConverter.cs:168-190 | the primary request is always made first, and the fallback request is made exactly when the primary answers with a failure status other than not-found; a request that throws ends the fetch with its own message |
| RateCache.Fill | CurrencyConverterExtension/Converter/CurrencyConverter.cs:195-200 | bulk fill keeps the cache keys normalised |
| RateCache.GetConversionRate | CurrencyConverterExtension/Converter/CurrencyConverter.cs:158-208 | no request is made exactly when the cached entry is strictly fresher than now minus the duration; a cached answer returns that rate and leaves the cache alone; otherwise the primary request comes first and at most two are made |
| RateCache.FillAppend | CurrencyConverterExtension/Converter/CurrencyConverter.cs:196-200 | filling one more row writes that row's key after the others |
| RateCache.FillStoresLastRate | CurrencyConverterExtension/Converter/CurrencyConverter.cs:196-200 | every key in the table gets its last rate with the one fetch time; every other key is untouched |
| RateCache.FillKeepsOtherBases | CurrencyConverterExtension/Converter/CurrencyConverter.cs:196-200 | entries for other base currencies are untouched by a fill |
| RateCache.NoRateForOtherBase | CurrencyConverterExtension/Converter/CurrencyConverter.cs:196-200 | a table for one base currency supplies no rate for another |
| RateCache.FetchFailures | CurrencyConverterExtension/Converter/CurrencyConverter.cs:171-190 | a primary not-found fails with "FROM is not a valid currency" and makes no fallback request; any other primary failure makes exactly one fallback request, whose not-found gives the same message and whose other failure gives the generic error; a primary request that throws fails with its message and makes no fallback request, and a throwing fallback fails with its message; failures leave the cache alone |
| RateCache.FetchedRate | CurrencyConverterExtension/Converter/CurrencyConverter.cs:195-205 | after a successful fetch, every row is cached with the fetch time, other keys keep their entries, nothing else is added, and the rate is the fetched one, else a still-cached one, else "TO is not a valid currency" |
| RateCache.RepeatedLookupIsCached | CurrencyConverterExtension/Converter/CurrencyConverter.cs:160-166 | right after a fetch that supplied the pair, asking again returns the same rate with no request |
| AliasManager.TokenRun | CurrencyConverterExtension/Helpers/AliasManager.cs:14 | the run of key characters from an index is maximal |
| AliasManager.KeyPatternAlwaysFound | CurrencyConverterExtension/Helpers/AliasManager.cs:14 | the unanchored key pattern matches every text, if only with the empty match |
| AliasManager.ValidateKeyFormatMeansNotBlank | CurrencyConverterExtension/Helpers/AliasManager.cs:24 | a key is valid exactly when it is present and not all white space |
| AliasManager.GetAlias | CurrencyConverterExtension/Helpers/AliasManager.cs:58-67 | the stored value is returned exactly when the code is a key, and nothing otherwise |
| AliasManager.SetAlias | CurrencyConverterExtension/Helpers/AliasManager.cs:71-75 | afterwards the code maps to the alias and every other code maps as before |
| AliasManager.RemoveAlias | CurrencyConverterExtension/Helpers/AliasManager.cs:77-83 | afterwards the code is absent, every other code maps as before, and a save is due exactly when the code was present |
| AliasManager.KeysAreCaseSensitive | CurrencyConverterExtension/Helpers/AliasManager.cs:17-21 | keys that differ only in case are different entries |
| AliasManager.LoadAliases | CurrencyConverterExtension/Helpers/AliasManager.cs:45-56 | loading never drops a key |
| AliasManager.LoadAppend | CurrencyConverterExtension/Helpers/AliasManager.cs:52-55 | loading one more row overwrites that row's key |
| AliasManager.LoadMerges | CurrencyConverterExtension/Helpers/AliasManager.cs:52-55 | a loaded key takes its last loaded value and every other key keeps its current value |
| AliasManager.ResetToDefault | CurrencyConverterExtension/Helpers/AliasManager.cs:105-111 | resetting never drops a key |
| AliasManager.ResetKeepsUserAliases | CurrencyConverterExtension/Helpers/AliasManager.cs:105-111 | resetting restores the default keys and keeps the user's other aliases, because the map is not cleared |
| CreateAliasForm.SubmitForm | CurrencyConverterExtension/Forms/CreateAliasForm.cs:59-97 | every parsed payload gives KeepOpen and an unparsable one gives no result; the map changes only when an alias is created, and then by inserting that alias |
| CreateAliasForm.ChecksInOrder | CurrencyConverterExtension/Forms/CreateAliasForm.cs:70-92 | the first failing check decides the message: required fields, then alias format, then existence, then currency format |
| CreateAliasForm.CreatedExactlyWhen | CurrencyConverterExtension/Forms/CreateAliasForm.cs:70-96 | an alias is created exactly when both fields are present and not blank and the alias is new; it then adds exactly that one entry and keeps all others |
| CreateAliasForm.ExistingAliasKept | CurrencyConverterExtension/Forms/CreateAliasForm.cs:82-86 | an existing alias is never overwritten |
| CurrencyConverter.FromLocal | CurrencyConverterExtension/Converter/CurrencyConverter.cs:62-72 | one local-to-currency task per configured currency, in configured order |
| CurrencyConverter.ToLocal | CurrencyConverterExtension/Converter/CurrencyConverter.cs:74-84 | one currency-to-local task per configured currency, in configured order |
| CurrencyConverter.PlanTasks | CurrencyConverterExtension/Converter/CurrencyConverter.cs:60-106 | no base gives twice as many tasks as currencies; a base alone gives one per currency plus one for directions 0 and 1; a base and target give exactly that one task |
| CurrencyConverter.PlanWithoutFrom | CurrencyConverterExtension/Converter/CurrencyConverter.cs:60-85 | without a base the target is ignored; with direction 0 the first half is local to each currency and the second each currency to local, and the other way round otherwise |
| CurrencyConverter.DirectionSwapsHalves | CurrencyConverterExtension/Converter/CurrencyConverter.cs:60-85 | any direction other than 0 swaps the two halves of the plan |
| CurrencyConverter.PlanWithoutTo | CurrencyConverterExtension/Converter/CurrencyConverter.cs:86-102 | with only a base, the base-to-local task comes first for direction 0, last for direction 1, and is absent otherwise |
| CurrencyConverter.GetCurrencyFromAlias | CurrencyConverterExtension/Converter/CurrencyConverter.cs:210-218 | a known alias resolves to its stored value and an unknown token passes through unchanged |
| CurrencyConverter.ShownAmount | CurrencyConverterExtension/Converter/CurrencyConverter.cs:135 | the shown amount has the converted magnitude and the sign of the typed amount |
| CurrencyConverter.ConversionItem | CurrencyConverterExtension/Converter/CurrencyConverter.cs:132-145 | the subtitle names both resolved currencies upper-cased |
| CurrencyConverter.FailureItem | CurrencyConverterExtension/Converter/CurrencyConverter.cs:147-155 | a failed lookup shows the error message and opens the currency list |
| CurrencyConverter.Convert | CurrencyConverterExtension/Converter/CurrencyConverter.cs:119-156 | a task yields no item exactly when it is skipped; any item copies the result or opens the currency list; the cache stays normalised; a task that is not skipped looks up the rate for its resolved pair, returns that lookup's cache and network calls, and yields the conversion item on success and the failure item carrying the lookup's error otherwise |
| CurrencyConverter.SkipRule | CurrencyConverterExtension/Converter/CurrencyConverter.cs:121-127 | after lower-casing and alias resolution, equal or empty sides give no item, no request and an unchanged cache; other tasks make a request exactly when the cache has no fresh rate |
| CurrencyConverter.SameCurrencyIsSkipped | CurrencyConverterExtension/Converter/CurrencyConverter.cs:124 | a currency converted to itself is always skipped |
| CurrencyConverter.RunTasks | CurrencyConverterExtension/Converter/CurrencyConverter.cs:108-114 | one result slot per task, and the cache stays normalised |
| CurrencyConverter.SlotOfTask | CurrencyConverterExtension/Converter/CurrencyConverter.cs:110-114 | the slot at a task's index holds that task's own conversion, run on the cache the tasks before it left; so it is empty exactly when that task is skipped |
| CurrencyConverter.RunTasksSlots | CurrencyConverterExtension/Converter/CurrencyConverter.cs:110-114 | every slot holds its own task's conversion on the cache the earlier tasks left, is empty exactly when its task is skipped, and every item copies or opens the list |
| CurrencyConverter.Compact | CurrencyConverterExtension/Converter/CurrencyConverter.cs:116 | dropping empty slots keeps exactly as many items as there are filled slots: every filled slot's item, and nothing else |
| CurrencyConverter.CompactKeepsOrder | CurrencyConverterExtension/Converter/CurrencyConverter.cs:116 | a filled slot lands at the position given by the number of filled slots before it |
| CurrencyConverter.CountSomeMonotone | CurrencyConverterExtension/Converter/CurrencyConverter.cs:116 | later filled slots land at strictly later positions |
| CurrencyConverter.CompactSlots | CurrencyConverterExtension/Converter/CurrencyConverter.cs:116 | the imperative filter produces the same items as dropping empty slots |
| CurrencyConverter.CountSomeBound | CurrencyConverterExtension/Converter/CurrencyConverter.cs:116 | there are never more items than slots |
| CurrencyConverter.GetConversionResults | CurrencyConverterExtension/Converter/CurrencyConverter.cs:55-117 | there are never more results than planned tasks; the item of every planned task that is not skipped, converted on the cache the earlier tasks left, is among the results, and every result is some task's item; every result copies or opens the list, and the cache stays normalised |
| CurrencyConverter.ResultsInTaskOrder | CurrencyConverterExtension/Converter/CurrencyConverter.cs:108-116 | the item of every task that is not skipped is its own conversion on the cache the earlier tasks left, and it appears at the position given by the number of earlier filled slots, before the items of all later tasks |
| ExtensionPage.GetNumberFormatInfo | CurrencyConverterExtension/Pages/CurrencyConverterExtensionPage.cs:107-127 | setting 1 gives decimal `.` and group `,`, setting 2 gives decimal `,` and group `.`, and anything else gives the culture's separators |
| ExtensionPage.FixedSettingsMirror | CurrencyConverterExtension/Pages/CurrencyConverterExtensionPage.cs:111-120 | the two fixed settings swap the decimal and group separators, which differ |
| ExtensionPage.ParseQuery | CurrencyConverterExtension/Pages/CurrencyConverterExtensionPage.cs:66-105 | the match is taken of the trimmed search text; when the pattern cannot match there are no items and no requests; the single invalid-expression item appears exactly when the amount, without group separators, does not evaluate, and then nothing is converted |
| ExtensionPage.TokenCharIsNotWhiteSpace | CurrencyConverterExtension/Pages/CurrencyConverterExtensionPage.cs:73-74 | no character a currency token may hold is white space |
| ExtensionPage.LowerKeepsTokenChar | CurrencyConverterExtension/Pages/CurrencyConverterExtensionPage.cs:101-102 | lower-casing keeps a token character a token character |
| ExtensionPage.TokenString | CurrencyConverterExtension/Pages/CurrencyConverterExtensionPage.cs:101-102 | a captured token is unchanged by trimming and stays a token when lower-cased |
| ExtensionPage.RemoveGroupKeepsAmountChars | CurrencyConverterExtension/Pages/CurrencyConverterExtensionPage.cs:87 | removing group separators keeps the amount within the amount characters |
| ExtensionPage.MatchedTokens | CurrencyConverterExtension/Pages/CurrencyConverterExtensionPage.cs:72-76 | in any match the tokens need no trimming and stay tokens when lower-cased, and the amount without group separators holds no group separator and only amount characters |
| ExtensionPage.ParseQueryConverts | CurrencyConverterExtension/Pages/CurrencyConverterExtensionPage.cs:84-104 | when the amount evaluates, the page converts that value from the lower-cased base to the lower-cased target |
| ExtensionPage.KeepFirstsKeys | CurrencyConverterExtension/Pages/CurrencyConverterExtensionPage.cs:57-60 | keeping first occurrences keeps every (title, subtitle) key and adds none |
| ExtensionPage.DedupFromKeepsFirsts | CurrencyConverterExtension/Pages/CurrencyConverterExtensionPage.cs:57-60 | the one-pass de-duplication equals keeping each key's first occurrence |
| ExtensionPage.KeepFirstsDistinct | CurrencyConverterExtension/Pages/CurrencyConverterExtensionPage.cs:57-60 | after keeping first occurrences no key repeats |
| ExtensionPage.DedupSpec | CurrencyConverterExtension/Pages/CurrencyConverterExtensionPage.cs:57-60 | de-duplication keeps the first item of each key, in order of first appearance, loses no key and repeats none |
| ExtensionPage.GetItems | CurrencyConverterExtension/Pages/CurrencyConverterExtensionPage.cs:34-64 | an empty search gives no items, a rejected API setting gives only its error item, and a search the pattern cannot match gives no items |
| ExtensionPage.GetItemsDeduplicates | CurrencyConverterExtension/Pages/CurrencyConverterExtensionPage.cs:57-63 | otherwise the page shows the parsed items with the first item of each (title, subtitle) key kept, in order, without repeats |

## Left out

- HTTP: the client, the proxy set-up and the provider's JSON shapes are left out. `GetRootJsonElementFor` and `GetRateFor` are not part of this model. A response is an abstract status with a table of rates. A request that throws is modelled; a failure while reading or parsing a successful response's body is not.
- Concurrency: `Task.WhenAll` and the concurrent dictionary are modelled as a sequential run in task order. Results are placed by index in the source anyway. In the source every task runs synchronously up to its first incomplete await, so all tasks read the cache before any fetch fills it, and a cold cache costs one request per task. In the model a later task can be answered by an entry an earlier task stored, so the model's `calls` for a whole query can be shorter than the source's requests, and such a task's rate can come from the earlier task's table.
- Clock: `DateTime.UtcNow` is a parameter read once per lookup. The source reads it again for each cache write, which within one fill differs by at most the time the loop takes.
- `decimal` arithmetic: the 28-digit precision, its rounding and its overflow are not modelled. Numbers are exact reals.
- `decimal.Parse`: it is reduced to the literal grammar above. The currency number style's other allowances (currency symbol, signs, group separators inside a literal) cannot occur, because the scanner only collects digits and the decimal separator.
- Culture formatting: `ToString("N")`, `ToString("N<digits>")` and the culture's currency decimal digits are parameters (`Formatting`). The title wording built from them is not stated in a contract.
- CurrencyConverter.ConversionItem: the contract states only the subtitle, because the title and the copied text come from the culture formatter, which is a parameter.
- Regular expressions: the .NET engine's choice among valid splits of a query is not modelled. The match is a parameter; the preconditions of `ParseQuery` and `GetItems` only require it to be some match of the trimmed search text, or absent when none exists.
- Character classes: `\p{L}` is approximated by the Latin, Latin-1, Greek and Cyrillic letter ranges. `\p{Sc}` is approximated by the currency symbols of the Basic Multilingual Plane. `\d` is the ASCII digits.
- Chars.Lower: case mapping is ASCII only. Invariant and culture case mapping of other scripts is not modelled, and neither is a culture whose `ToLower` (used on the currency tokens of a query) maps ASCII letters differently, such as Turkish, where `I` lower-cases to dotless `ı`.
- Chars.Upper: case mapping is ASCII only, for the same reason.
- Separators: the decimal separator is one character. The two fixed settings use one character, but a culture's separator may be longer; the evaluator's `Substring` comparison against a longer separator is not modelled.
- `ValidateConversionAPI`: this lives in the settings class, which is not part of this model. Its outcome is the `apiError` parameter of `GetItems`.
- Hashing: `StringComparer.OrdinalIgnoreCase.GetHashCode` is a parameter `h` applied to the upper-cased text.
- Storage: the alias file on disk (ensure, save, export, JSON stringify) and settings persistence are left out. A load is a list of (key, value) rows; a failed JSON parse of the form payload is the `Malformed` payload.
- UI and registration: the alias list page, the clear and open-page commands, the create-alias page, icons, toast display and extension registration contain no logic beyond calls into the core.
- CurrencyConverter.RunTasks: the contract states only the slot count and normalisation. The per-slot facts, including that slot `i` holds task `i`'s own conversion, are in `CurrencyConverter.SlotOfTask` and `CurrencyConverter.RunTasksSlots`.
