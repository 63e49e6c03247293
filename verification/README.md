# expression-evaluator, modelled in Dafny

The system parses boolean expressions over numbered propositions, such as
`(1 & 2) || (3 & (4 || 5))`, into a tree of `EqualExpression`, `AndExpression`
and `OrExpression` nodes. It evaluates such a tree against a `java.util.BitSet`
of the propositions that hold. An evaluation returns whether the tree matched and
which propositions justify the match. A static helper `Expression.mask` folds a
list of proposition ids into a 32-bit mask.

The model has these parts:

- `ast.dfy` (module `Ast`): the tree as a datatype. The node getters are its
  destructors. `Evaluate` is the short-circuit evaluator over a `set<nat>`; it
  returns the same results as the Java nodes. `Holds` gives ordinary boolean
  semantics, and lemmas relate the two.
- `bitset.dfy` (module `BitSetEvaluation`): the same evaluation over mutable
  `BitSet` objects. A failure returns the one shared empty set. A conjunction
  updates the left child's set in place. This part proves that neither the input
  nor the shared empty set is ever changed.
- `mask.dfy` (module `Masks`): `Expression.mask` as a loop over a `bv32`. Java's
  `1 << v` uses only the low five bits of `v`, and the model does the same.
- `grammar.dfy` (module `Grammar`): input bytes, parse errors, Java `int`
  arithmetic, and one reference function per parsing routine. Each function
  takes a start position and gives the routine's tree and end position, or its
  error. `isDigit` is `Grammar.IsDigit`.
- `parser.dfy` (module `Parser`): the class `ExpressionParser`. It holds the
  stripped input and the mutable cursor `pos`. Each method is proved against its
  reference function.
- `grammar_properties.dfy`, `roundtrip.dfy`, `examples.dfy`: lemmas about the
  reference functions. These cover number values, whitespace, the grammar's
  quirks, a parse-after-print round trip, and the repository's unit-test
  scenarios.

The parser is recursive descent with this grammar:

- `or := and ("||" operand)*`
- `and := operand ("&" operand)*`
- `operand := "(" or ")" | digits`

Documentation of this system describes a different parser: a shunting-yard parser
that accepts a single `|` as OR, checks for end of input, and reports
unexpected-character and unmatched-`)` errors. The code does none of this, and
this model follows the code:

- OR is only two consecutive bars.
- The right side of `||` is a single operand, not an and-chain.
- `parse` ignores anything left after the first or-expression. For example,
  `1 || 2 & 3` parses to `Or(1, 2)`. The `||` test looks at the `&` and stops,
  and the `& 3` is never consumed.
- The only failures are "expected byte b at position i" and "expected number at
  position i".
- AND is a single `&`. The test documentation speaks of `&&`, but `1&&2` fails
  with "expected number at position 2" (`Examples.DoubleAmpersandFails`).

The same documentation calls the used set of a match the minimal set of
propositions whose truth was necessary. The code's used set is sufficient
(`Ast.UsedValuesSuffice`) but not always minimal. Against `{1, 2}`, the tree
`(1 || 2) & (2 || 1)` uses both ids, although `{1}` alone makes it true
(`Ast.UsedValuesNotMinimal`). The model follows the code here too.

## Model

| member | source | states |
|---|---|---|
| Ast.Evaluate | src/main/java/com/toannq/expressionevaluator/AndExpression.java:23-34 | A failed evaluation carries the empty set. The used set is always a subset of the input and of the ids the tree mentions. |
| Ast.EqualSemantics | src/main/java/com/toannq/expressionevaluator/EqualExpression.java:17-24 | A leaf matches exactly when its id is in the input. It then uses exactly that id. Its used set never has more than one element. |
| Ast.AndSemantics | src/main/java/com/toannq/expressionevaluator/AndExpression.java:23-34 | A conjunction matches exactly when both children match. A failing left child gives `(false, {})` whatever the right child is. A match uses the union of both children's used sets. |
| Ast.OrSemantics | src/main/java/com/toannq/expressionevaluator/OrExpression.java:23-33 | A disjunction matches exactly when some child matches. A matching left child's result is returned unchanged whatever the right child is, even when the right child would match too. Otherwise the right child's result is returned. |
| Ast.EvaluateAgreesWithHolds | src/main/java/com/toannq/expressionevaluator/OrExpression.java:23-33 | For every tree and input, `matched` equals ordinary boolean truth. |
| Ast.UsedValuesSuffice | src/main/java/com/toannq/expressionevaluator/AndExpression.java:23-34 | The used set justifies a match. Evaluating against any set between the used set and the input gives the same result. |
| Ast.UsedValuesNotMinimal | src/main/java/com/toannq/expressionevaluator/AndExpression.java:32-33 | The used set is not always minimal: `And(Or(1, 2), Or(2, 1))` against `{1, 2}` gives `(true, {1, 2})`, while `{1}` alone already makes the tree true. |
| BitSetEvaluation.BitSet.constructor | src/main/java/com/toannq/expressionevaluator/EqualExpression.java:19 | A new BitSet is empty. |
| BitSetEvaluation.BitSet.Get | src/main/java/com/toannq/expressionevaluator/EqualExpression.java:18 | `get(i)` is true exactly when `i` is a member, and changes nothing. |
| BitSetEvaluation.BitSet.Set | src/main/java/com/toannq/expressionevaluator/EqualExpression.java:20 | `set(i)` adds `i` and changes nothing else. |
| BitSetEvaluation.BitSet.Or | src/main/java/com/toannq/expressionevaluator/AndExpression.java:32 | `or(other)` makes this set the union of the two sets' old contents. |
| BitSetEvaluation.EvaluateInPlace | src/main/java/com/toannq/expressionevaluator/AndExpression.java:23-34 | The in-place evaluation agrees with `Ast.Evaluate`. A match returns a set allocated by this call, and a failure returns the shared empty set. The input and the shared empty set are unchanged, even though a conjunction updates a child's result in place. |
| Masks.Distance | src/main/java/com/toannq/expressionevaluator/Expression.java:10 | The shift distance of `v` is congruent to `v` modulo 32. |
| Masks.Bit | src/main/java/com/toannq/expressionevaluator/Expression.java:10 | `1 << v` has exactly one bit set: the one at `v`'s shift distance. |
| Masks.Mask | src/main/java/com/toannq/expressionevaluator/Expression.java:7-13 | The loop computes `MaskOf(values)`. An empty list gives 0. Bit `k` is set exactly when some id's shift distance (the id modulo 32) is `k`. |
| Masks.MaskBit | src/main/java/com/toannq/expressionevaluator/Expression.java:9-11 | Bit `k` of the mask is set exactly when some id in the list selects bit `k`. |
| Masks.MaskMembership | src/main/java/com/toannq/expressionevaluator/Expression.java:9-11 | For ids in `[0, 32)`, bit `v` is set exactly when `v` occurs in the list. |
| Masks.MaskHoldsListIds | src/main/java/com/toannq/expressionevaluator/Expression.java:7-13 | For ids in `[0, 32)`, the ids whose bits the mask has set are exactly the list's ids. This links the mask to the set that evaluation uses. |
| Masks.MaskIgnoresOrderAndDuplicates | src/main/java/com/toannq/expressionevaluator/Expression.java:9-11 | Two lists with the same ids have the same mask, whatever their order and repetitions. |
| Masks.MaskConcat | src/main/java/com/toannq/expressionevaluator/Expression.java:9-11 | The mask of a concatenation is the bitwise OR of the two lists' masks. |
| Masks.ShiftDistanceWraps | src/main/java/com/toannq/expressionevaluator/Expression.java:10 | An id and the same id plus 32 set the same bit. |
| Grammar.Strip | src/main/java/com/toannq/expressionevaluator/ExpressionParser.java:14 | The result is no longer than the input. `GrammarProperties.StripRemovesExactlyWhitespace` states what it keeps and drops. |
| Grammar.IsDigit | src/main/java/com/toannq/expressionevaluator/ExpressionParser.java:92-94 | A byte is a digit exactly when its value minus `'0'` is between 0 and 9. |
| Grammar.AccumulatedValue | src/main/java/com/toannq/expressionevaluator/ExpressionParser.java:81-84 | The accumulated value is always a Java `int`, and 0 for no digits. `GrammarProperties.AccumulatedIsReducedDecimal` gives its value. |
| Grammar.Int32 | src/main/java/com/toannq/expressionevaluator/ExpressionParser.java:82 | Java `int` reduction stays in `[-2^31, 2^31)` and keeps every value already in range. |
| Grammar.RunEnd | src/main/java/com/toannq/expressionevaluator/ExpressionParser.java:79-84 | The scan stops at the end of the maximal digit run. Every byte before that point is a digit, and the byte there is not a digit (or the input has ended). |
| Grammar.NumberAt | src/main/java/com/toannq/expressionevaluator/ExpressionParser.java:78-90 | A number fails exactly when no digit is at `p`, with "expected number at `p`". A success consumes at least one byte. |
| Grammar.OrAt | src/main/java/com/toannq/expressionevaluator/ExpressionParser.java:40-46 | A successful or-expression consumes at least one byte and stays within the input. A failure is reported at a position between the start and the end of the input. At the end of the input it fails with "expected number". |
| Grammar.OrChain | src/main/java/com/toannq/expressionevaluator/ExpressionParser.java:42-44 | The OR loop never moves backwards and stays within the input. A failure is reported after the loop's start. |
| Grammar.AndAt | src/main/java/com/toannq/expressionevaluator/ExpressionParser.java:57-63 | A successful and-expression consumes at least one byte and stays within the input. A failure is reported at a position between the start and the end of the input. At the end of the input it fails with "expected number". |
| Grammar.AndChain | src/main/java/com/toannq/expressionevaluator/ExpressionParser.java:59-61 | The `&` loop never moves backwards and stays within the input. A failure is reported after the loop's start. |
| Grammar.OperandAt | src/main/java/com/toannq/expressionevaluator/ExpressionParser.java:69-76 | A successful operand consumes at least one byte. This is what makes the recursion terminate. A failure is reported between the start and the end of the input. At the end of the input it fails with "expected number". |
| Grammar.Parse | src/main/java/com/toannq/expressionevaluator/ExpressionParser.java:18-20 | A failure is reported at a position within the stripped input. An empty or blank input fails with "expected number at position 0". |
| Parser.ExpressionParser.constructor | src/main/java/com/toannq/expressionevaluator/ExpressionParser.java:13-16 | The parser holds the input with its whitespace removed, and the cursor starts at 0. |
| Parser.ExpressionParser.ParseText | src/main/java/com/toannq/expressionevaluator/ExpressionParser.java:18-20 | `parse(String)` returns exactly `Grammar.Parse(text)`. |
| Parser.ExpressionParser.Parse | src/main/java/com/toannq/expressionevaluator/ExpressionParser.java:22-24 | `parse()` returns one or-expression from the cursor and leaves the cursor after it, with no end-of-input check. |
| Parser.ExpressionParser.Match | src/main/java/com/toannq/expressionevaluator/ExpressionParser.java:26-32 | The result is true exactly when `b` is the next byte. The cursor then advances by one, and otherwise stays put. It always stays within the input. |
| Parser.ExpressionParser.Expect | src/main/java/com/toannq/expressionevaluator/ExpressionParser.java:34-38 | Consumes `b` if it is next. Otherwise it fails with "expected `b`" at the unchanged cursor. |
| Parser.ExpressionParser.ParseOrExpression | src/main/java/com/toannq/expressionevaluator/ExpressionParser.java:40-46 | Gives `OrAt`'s tree and end position, or its error. The loop invariant keeps the remaining chain equal to `OrAt` from the start. |
| Parser.ExpressionParser.MatchOrOperator | src/main/java/com/toannq/expressionevaluator/ExpressionParser.java:48-55 | The result is true exactly when two bars are next. Both are then consumed; a single bar is left alone. |
| Parser.ExpressionParser.ParseAndExpression | src/main/java/com/toannq/expressionevaluator/ExpressionParser.java:57-63 | Gives `AndAt`'s tree and end position, or its error. |
| Parser.ExpressionParser.MatchAndOperator | src/main/java/com/toannq/expressionevaluator/ExpressionParser.java:65-67 | Consumes one `&` exactly when it is next. |
| Parser.ExpressionParser.ParseOperand | src/main/java/com/toannq/expressionevaluator/ExpressionParser.java:69-76 | Gives `OperandAt`'s result. A parenthesised operand must be closed, and otherwise fails with "expected `)`". |
| Parser.ExpressionParser.ParseNumber | src/main/java/com/toannq/expressionevaluator/ExpressionParser.java:78-90 | Gives `NumberAt`'s result. The loop accumulates the digit run's value in a Java `int` and moves the cursor past the run. |
| GrammarProperties.AccumulatedIsReducedDecimal | src/main/java/com/toannq/expressionevaluator/ExpressionParser.java:81-84 | Reducing to a Java `int` after every digit gives the decimal value reduced once, modulo 2^32. |
| GrammarProperties.NumberValue | src/main/java/com/toannq/expressionevaluator/ExpressionParser.java:78-90 | A number succeeds exactly when a digit is at `p`. It consumes the maximal run, and its value is the run's decimal value as a Java `int`. That value is exact for runs of up to nine digits. |
| GrammarProperties.StripRemovesExactlyWhitespace | src/main/java/com/toannq/expressionevaluator/ExpressionParser.java:14 | The stripped input has no whitespace. Every byte of the input that is not whitespace occurs in it, and it holds no byte that was not in the input. |
| GrammarProperties.StripConcat | src/main/java/com/toannq/expressionevaluator/ExpressionParser.java:14 | Stripping a concatenation strips each part. |
| GrammarProperties.StripKeepsClean | src/main/java/com/toannq/expressionevaluator/ExpressionParser.java:14 | An input without whitespace is kept as it is. |
| GrammarProperties.StripBlank | src/main/java/com/toannq/expressionevaluator/ExpressionParser.java:14 | An all-whitespace input strips to nothing. |
| GrammarProperties.WhitespaceIgnored | src/main/java/com/toannq/expressionevaluator/ExpressionParser.java:13-16 | Inserting a whitespace byte anywhere does not change the parse result. |
| GrammarProperties.ParseOfStripped | src/main/java/com/toannq/expressionevaluator/ExpressionParser.java:13-16 | Parsing already-stripped text gives the same result. |
| GrammarProperties.BlankInputFails | src/main/java/com/toannq/expressionevaluator/ExpressionParser.java:85-89 | An empty or blank input fails with "expected number at position 0". |
| GrammarProperties.SingleBarEndsOrChain | src/main/java/com/toannq/expressionevaluator/ExpressionParser.java:48-55 | Anything other than two bars, including a single bar, ends the OR loop unconsumed. |
| GrammarProperties.AndChainNestsLeft | src/main/java/com/toannq/expressionevaluator/ExpressionParser.java:59-61 | For every input and start, the `&` loop's tree nests to the left. It is the tree it started from, followed by one operand per `&`: each right child on the left spine is exactly the operand parsed just after an `&` in the text, and the spine's positions increase. A right-nested tree does not have this form (`Examples.RightNestingIsNoAndChain`). |
| GrammarProperties.OrChainNestsLeft | src/main/java/com/toannq/expressionevaluator/ExpressionParser.java:42-44 | For every input and start, the OR loop's tree nests to the left. It is the tree it started from, followed by one operand per pair of bars: each right child on the left spine is exactly the operand parsed just after two bars in the text, and the spine's positions increase. |
| GrammarProperties.AndExpressionNestsLeft | src/main/java/com/toannq/expressionevaluator/ExpressionParser.java:57-63 | A successful and-expression is its first operand followed by one operand per `&`, nested to the left, with each right child the operand parsed after its `&`. |
| GrammarProperties.OrExpressionNestsLeft | src/main/java/com/toannq/expressionevaluator/ExpressionParser.java:40-46 | A successful or-expression is its leading and-expression followed by one operand per pair of bars, nested to the left, with each right child the operand parsed after its bars. |
| GrammarProperties.OrTakesOneOperand | src/main/java/com/toannq/expressionevaluator/ExpressionParser.java:42-44 | The right side of an OR (two bars) is one operand. An `&` after it is not part of the disjunction. |
| RoundTrip.NumberRoundTrip | src/main/java/com/toannq/expressionevaluator/ExpressionParser.java:78-90 | The decimal digits of any non-negative Java `int`, followed by a non-digit, are read back as that number. |
| RoundTrip.OperandRoundTrip | src/main/java/com/toannq/expressionevaluator/ExpressionParser.java:69-76 | A fully parenthesised printed tree is read back as an operand wherever it occurs. It consumes exactly the printed bytes. |
| RoundTrip.ParsePrintRoundTrip | src/main/java/com/toannq/expressionevaluator/ExpressionParser.java:18-20 | For every tree with ids in `[0, 2^31)`, parsing its printed form gives the tree back. |
| Examples.ParsesNumber | src/test/java/com/toannq/expressionevaluator/ExpressionParserTest.java:15-26 | `42` parses to `Equal(42)`. |
| Examples.ParsesSpacedOr | src/test/java/com/toannq/expressionevaluator/ExpressionParserTest.java:29-46 | The test's spaced text, 1, blank, two bars, blank, 2, parses to `Or(Equal(1), Equal(2))`. |
| Examples.ParsesAnd | src/test/java/com/toannq/expressionevaluator/ExpressionParserTest.java:49-66 | `1&2` parses to `And(Equal(1), Equal(2))`. |
| Examples.AndChainsNestLeft | src/main/java/com/toannq/expressionevaluator/ExpressionParser.java:57-63 | `1&2&3` parses to `And(And(1, 2), 3)`. |
| Examples.RightNestingIsNoAndChain | src/main/java/com/toannq/expressionevaluator/ExpressionParser.java:59-61 | For `1&2&3`, `And(1, 2)` is a left chain from `1`, but the right-nested `And(1, And(2, 3))` is not: no operand after an `&` parses to `And(2, 3)`. |
| Examples.OrChainsNestLeft | src/main/java/com/toannq/expressionevaluator/ExpressionParser.java:40-46 | 1, two bars, 2, two bars, 3 parses to `Or(Or(1, 2), 3)`. |
| Examples.ParsesOrWithOneRightOperand | src/test/java/com/toannq/expressionevaluator/ExpressionParserTest.java:69-79 | 1, two bars, 2, `&3` parses to `Or(Equal(1), Equal(2))`. The root is a disjunction. The `&` is looked at by the OR test but never consumed. |
| Examples.SingleBarIsNoOperator | src/main/java/com/toannq/expressionevaluator/ExpressionParser.java:48-55 | 1, one bar, 2 parses to `Equal(1)`: a single bar is no operator and parsing stops before it. |
| Examples.DoubleAmpersandFails | src/main/java/com/toannq/expressionevaluator/ExpressionParser.java:65-76 | `1&&2` fails with "expected number at position 2": a doubled `&` is no operator. |
| Examples.UnclosedParenthesisFails | src/test/java/com/toannq/expressionevaluator/ExpressionParserTest.java:82-91 | An opening parenthesis, 1, two bars, 2 and no closing parenthesis fails with "expected `)` at position 5". |
| Examples.EmptyInputFails | src/test/java/com/toannq/expressionevaluator/ExpressionParserTest.java:94-103 | The empty text fails with "expected number at position 0". |
| Examples.ParsesNested | src/test/java/com/toannq/expressionevaluator/ExpressionParserTest.java:106-116 | The nested test text, without blanks, parses to `Or(And(1, 2), And(3, Or(4, 5)))`. |
| Examples.EvaluatesOr | src/test/java/com/toannq/expressionevaluator/ExpressionTest.java:17-50 | `Or(1, 2)` gives `(true, {1})` against `{1}` and `(false, {})` against `{}`. |
| Examples.ParsesGroupedAnd | src/test/java/com/toannq/expressionevaluator/ExpressionTest.java:55 | The grouped test text, without blanks, parses to `And(Or(1, 2), 3)`. |
| Examples.EvaluatesGroupedAnd | src/test/java/com/toannq/expressionevaluator/ExpressionTest.java:53-88 | `And(Or(1, 2), 3)` gives `(true, {1, 3})` against `{1, 3}` and `(false, {})` against `{2}`. |
| Examples.EvaluatesLeaf | src/test/java/com/toannq/expressionevaluator/ExpressionTest.java:91-121 | `1` parses to `Equal(1)`. It gives `(true, {1})` against `{1}` and `(false, {})` against `{2}`. |

## Left out

- Character encoding: the model takes the input as Latin-1 bytes. The
  `String`-to-bytes conversion and its replacement of non-Latin-1 characters by
  `?` are not modelled.
- Regular-expression semantics: `replaceAll("\\s+", "")` is modelled as dropping
  the six bytes Java's `\s` matches (tab, line feed, vertical tab, form feed,
  carriage return, space).
- Exception text: failures are a `ParseError` value holding the expected byte (or
  "number") and the position. The message string is not modelled.
- `Ast.Evaluate`: an `EqualExpression` with a negative id never matches in the
  model. Java's `BitSet.get` throws `IndexOutOfBoundsException` instead. Such an
  id only arises, within the parser, from a digit run that overflows a Java `int`;
  other callers can build one with the public `EqualExpression(int)` constructor.
- `BitSetEvaluation.EvaluateInPlace`: the same negative-id case returns a failure
  where Java throws.
- The `BitSet(8)` capacity hint, which affects performance only.
- `evaluate(int caseMask)`, declared in `Expression.java` without an
  implementation. Evaluation is over sets. `Masks.MaskHoldsListIds` relates a
  mask to the set of the list's ids.
- `null` elements in the list given to `mask`; Java throws when unboxing them.
- `parse(null)`: Java throws `NullPointerException` when stripping the input.
  The model's input is always a byte sequence.
- Stack depth: the Java parser recurses once per `(`, so very deep nesting throws
  `StackOverflowError`. The model always returns a result.
- `AbstractExpression`, `EvaluatedResult` and the `EMPTY` constant are not part
  of this model. `EvaluatedResult` is a pair `(matched, usedValues)`, and `EMPTY`
  is the empty set.
- The JUnit harness. The test scenarios are lemmas in `examples.dfy`, most of them
  on the texts without blanks. `GrammarProperties.WhitespaceIgnored` shows that
  the blanks make no difference, as `Examples.SpacedOr` does for `1 || 2`.
- Concurrency: the code has none.
