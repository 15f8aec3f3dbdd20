# Conlangr in Dafny

Conlangr generates words for constructed languages. A script names productions:

- literals;
- references to other productions;
- weighted choices (`select`);
- spreads (`*ai`, one choice per character);
- concatenations (`concat`) whose items repeat a random number of times.

A concatenation may carry rewrite rules. A skip rule rejects a finished word, which is then rebuilt from scratch. A substitution rule rewrites part of the word.

Normalization lowers the parsed script to a `Generator`. In the generator, a `select` becomes a pool of weights plus one bucket of alternatives per weight. The evaluator then draws words from the production named `""`. A step counter in an `EvaluationContext` stops runaway grammars at `UInt16.max`.

This project models that core:

- `conlangr.dfy` (module `Conlangr`): the intermediate representation, `Skip.shouldSkip` and `Substitution.substitute`. `ReplaceAll` is characterised by cutting the word at its leftmost non-overlapping occurrences and joining the pieces again.
- `parse.dfy` (module `Parse`): the parser's datatypes and its plain helpers:
  - `unescape` and `spread`, as loops proved against the recursive functions `Unescaped` and `SpreadUnits`;
  - `is_reserved`;
  - the wildcard-to-mode mapping;
  - `toDictionary`.
- `normalize.dfy` (module `Normalize`): `ParseProduction.normalize` as the function `Normalized`. Its imperative form is `Normalize`, `NormalizeSelect` and `NormalizeConcat`, each proved equal to `Normalized`. The module also covers the pool and bucket laws and `Script.normalize`.
- `semantics.dfy` (module `Semantics`): what evaluation may return. `Run(g, p, c, res, c')` holds when evaluating `p` with the counter at `c` can end with `res` and the counter at `c'`, whatever the random draws. The rewrite pass is a plain function.
- `eval.dfy` (module `Evaluation`): `EvaluationContext` as a class with its counter. `Production.eval`, `QuantifiedProduction.eval` and `Generator.eval` are methods, including the labelled `RETRY` loop. Each method is proved to produce only outcomes that `Run` allows.
- `scenarios.dfy` (module `Scenarios`): the `testEvaluationCount` grammar `_ = (+ k *ai - ka ki)`. It normalizes as expected, and every evaluation of it ends in `evaluationCountExceeded`, for every sequence of draws.
- `results.dfy` (module `Results`): `Option` and `Result`.

Random draws come from an oracle `nat -> nat` held by a `Chooser` object: `UInt8.random(in:)` and `randomElement()` on the pool. Picking a member of a bucket, which is `randomElement()` on a `Set`, is an arbitrary choice (`:|`). The specification relation `Run` leaves every draw open.

Three details of the code differ from what the script language suggests; the model follows the code:

- **Reserved characters.** The reserved set is `(+?&-$@!^*='":;#0123456789<>)`. It does not contain `{}[]`; `Unreserved` states this.
- **Per-item length check.** In a `concat`, the length check applies to each item's output before it is appended (`assertLength` on the item). It does not apply to the accumulated word after each append.
- **64-character boundary.** A literal is rejected only above 64 characters, while `assertLength` rejects 64 and more. So a 64-character literal is returned when evaluated directly, and fails when reached through a `ref`, a `select` or a `concat`. `RunLength` states this asymmetry.

## Model

| member | source | states |
|---|---|---|
| Conlangr.ShouldSkip | Sources/Conlangr/Conlangr.swift:54-61 | the word is skipped exactly when the model occurs in it at a position the mode allows (anywhere for `all`, at the start for `atStart`, at the end for `atEnd`, as the whole word for `exact`) |
| Conlangr.MatchCases | Sources/Conlangr/Conlangr.swift:55-60 | that positional reading of a mode is equivalent to the four tests the source switches on: equality, `contains`, `hasPrefix`, `hasSuffix` |
| Conlangr.ContainsOccurs | Sources/Conlangr/Conlangr.swift:57 | `contains` holds exactly when the pattern occurs at some offset |
| Conlangr.Substitute | Sources/Conlangr/Conlangr.swift:24-41 | `nil` exactly when the mode's match condition fails; `exact` gives `to`; `atStart` replaces the prefix `from` by `to`; `atEnd` replaces the suffix; `all` gives `ReplaceAll` |
| Conlangr.SubstituteFiresLikeSkip | Sources/Conlangr/Conlangr.swift:26-38 | a substitution fires on exactly the words a skip with the same mode and pattern rejects |
| Conlangr.SubstituteUndo | Sources/Conlangr/Conlangr.swift:27-36 | for `exact`, `atStart` and `atEnd`, substituting back with `from` and `to` swapped restores the original word |
| Conlangr.PiecesJoin | Sources/Conlangr/Conlangr.swift:29-30 | cutting a word at the occurrences of `from` and joining with `from` gives the word back |
| Conlangr.ReplaceAllJoin | Sources/Conlangr/Conlangr.swift:29-30 | replacing all occurrences equals joining those same pieces with `to` |
| Conlangr.PiecesLeftmost | Sources/Conlangr/Conlangr.swift:29-30 | the cuts are the leftmost non-overlapping occurrences: no piece before a cut contains an occurrence starting inside it, and the last piece contains none |
| Parse.IsReserved | Sources/Conlangr/Conlang+Parse.swift:34-38 | a character is reserved exactly when it is a digit or one of `(+?&-$@!^*='":;#<>)` |
| Parse.Unreserved | Sources/Conlangr/Conlang+Parse.swift:34-38 | braces, brackets, the escape `%`, the blank `_`, the space and letters are not reserved |
| Parse.ReservedRange | Sources/Conlangr/Conlang+Parse.swift:34 | every reserved character lies between `!` and `@` or is `^`, and none is `%` |
| Parse.Unescape | Sources/Conlangr/Conlang+Parse.swift:55-77 | `_` gives `""`; otherwise `danglingEscapeCharacter` exactly when an escape is left pending; `stringTooLong` exactly when the unescaped text exceeds 64 characters; otherwise that text, so any success has at most 64 characters |
| Parse.UnescapedPlain | Sources/Conlangr/Conlang+Parse.swift:59-68 | text without `%` unescapes to itself |
| Parse.UnescapeEscaped | Sources/Conlangr/Conlang+Parse.swift:59-68 | escaping every character, then unescaping, gives back the text (so `%%` is `%` and `%(` is `(`) |
| Parse.UnescapedAppend | Sources/Conlangr/Conlang+Parse.swift:59-68 | a text that unescapes can be followed by any text, and the results concatenate |
| Parse.TrailingEscapeDangles | Sources/Conlangr/Conlang+Parse.swift:69-71 | a `%` after complete text leaves an escape pending |
| Parse.UnescapedLength | Sources/Conlangr/Conlang+Parse.swift:59-68 | the unescaped text is at least half as long as its source and never longer |
| Parse.Spread | Sources/Conlangr/Conlang+Parse.swift:81-95 | the loop's output is `SpreadUnits(input)`, with no error path |
| Parse.SpreadUnitsShort | Sources/Conlangr/Conlang+Parse.swift:84-93 | there are no more alternatives than characters, and each alternative has at most one character |
| Parse.SpreadUnitsPlain | Sources/Conlangr/Conlang+Parse.swift:84-93 | without `%`, character `k` becomes alternative `k`, and `_` becomes `""` |
| Parse.SpreadUnitsAppend | Sources/Conlangr/Conlang+Parse.swift:84-93 | after complete escapes, the alternatives of two texts concatenate |
| Parse.SpreadDropsTrailingEscape | Sources/Conlangr/Conlang+Parse.swift:84-94 | a trailing lone `%` is dropped without an error |
| Parse.SpreadUnitsSpellsUnescaped | Sources/Conlangr/Conlang+Parse.swift:55-95 | without `_`, the alternatives spell out exactly what `unescape` produces |
| Parse.WildcardMode | Sources/Conlangr/Conlang+Parse.swift:123-131 | a leading star exactly for `all`/`atEnd`, a trailing star exactly for `all`/`atStart` |
| Parse.WildcardGlob | Sources/Conlangr/Conlang+Parse.swift:123-132 | a skip built from a wildcard rejects exactly the words its star pattern matches |
| Parse.ToDictionary | Sources/Conlangr/Conlang+Parse.swift:101-107 | the keys are the input's keys, and each key is bound to the value of its last pair |
| Normalize.Weights | Sources/Conlangr/Conlangr+Normalize.swift:13-17 | one resolved weight per alternative |
| Normalize.Repeat | Sources/Conlangr/Conlangr+Normalize.swift:18 | `Array(repeating:count:)` has the requested length |
| Normalize.Normalized | Sources/Conlangr/Conlangr+Normalize.swift:2-38 | `literal` and `ref` keep their case and string; `spread` and `select` become a `select`; `concat` keeps its item count and its rewrites |
| Normalize.Normalize | Sources/Conlangr/Conlangr+Normalize.swift:2-38 | the case-by-case method computes `Normalized` |
| Normalize.NormalizeSelect | Sources/Conlangr/Conlangr+Normalize.swift:10-22 | the loop that appends to the pool and inserts into the buckets computes `Normalized` |
| Normalize.NormalizeConcat | Sources/Conlangr/Conlangr+Normalize.swift:23-36 | the loop that appends quantified items computes `Normalized` |
| Normalize.NormalizedSpread | Sources/Conlangr/Conlangr+Normalize.swift:8-9 | pool `[1]`, a single bucket under key 1, holding exactly the literals of the values |
| Normalize.SpreadDeduplicates | Sources/Conlangr/Conlangr+Normalize.swift:9 | spreads with the same set of values normalize identically under any two variable tables, so order and repetition do not matter and no variable is read |
| Normalize.NormalizedConcat | Sources/Conlangr/Conlangr+Normalize.swift:23-36 | item `i` has the resolved quantity of quantifier `i` and the normalized child `i`; rewrites pass through |
| Normalize.PoolCount | Sources/Conlangr/Conlangr+Normalize.swift:11-18 | the pool's length is the sum of the weights, and weight `w` occurs `w` times per alternative that carries it |
| Normalize.PoolValues | Sources/Conlangr/Conlangr+Normalize.swift:18 | the pool holds exactly the non-zero weights |
| Normalize.BucketsShape | Sources/Conlangr/Conlangr+Normalize.swift:19-20 | one bucket per weight that occurs, holding exactly the children weighted by it |
| Normalize.PoolKeyed | Sources/Conlangr/Conlangr+Normalize.swift:18-20 | every pool value is at least 1 and keys a non-empty bucket |
| Normalize.NormalizedSelectPool | Sources/Conlangr/Conlangr+Normalize.swift:11-18 | for a lowered `select`: pool length, the count of each weight, and every pool value keying a non-empty bucket |
| Normalize.NormalizedSelectBuckets | Sources/Conlangr/Conlangr+Normalize.swift:19-20 | for a lowered `select`: the bucket keys are the resolved weights, and bucket `w` holds exactly the normalized alternatives weighted `w` |
| Normalize.NormalizedDrawable | Sources/Conlangr/Conlangr+Normalize.swift:2-38 | a tree with non-empty spreads, a positive weight in every `select` and positive `concat` quantities (nothing being asked of weight-0 alternatives, which never enter the pool) lowers to a production whose draws are all defined |
| Normalize.Merged | Sources/Conlangr/Conlangr+Normalize.swift:44-45 | the merged table has the keys of both tables, and an override wins on a shared key |
| Normalize.ResolveOverride | Sources/Conlangr/Conlangr+Normalize.swift:14-47 | under the merged variables, a variable quantifier takes its override when it has one; every other quantifier resolves as under the declared variables alone |
| Normalize.NormalizeScript | Sources/Conlangr/Conlangr+Normalize.swift:43-52 | `noMain` exactly when there is no production `""`; otherwise the same names, each lowered under the merged variables |
| Normalize.NormalizeScriptDrawable | Sources/Conlangr/Conlangr+Normalize.swift:43-52 | a script with a main production and well-quantified productions yields a runnable grammar |
| Semantics.AssertLength | Sources/Conlangr/Conlangr+Eval.swift:83-88 | success exactly below 64 characters, returning the string; otherwise `generatedStringTooLong` carrying it |
| Semantics.LiteralOutcome | Sources/Conlangr/Conlangr+Eval.swift:37-41 | a literal fails exactly above 64 characters, so one of exactly 64 characters is returned |
| Semantics.SubstitutionsFailure | Sources/Conlangr/Conlangr+Eval.swift:68-73 | the only error of a substitution list is `generatedStringTooLong` on a word of 64 or more characters |
| Semantics.RewritesFailure | Sources/Conlangr/Conlangr+Eval.swift:60-75 | the same holds for the whole rewrite pass |
| Semantics.SubstitutionsCompose | Sources/Conlangr/Conlangr+Eval.swift:69-73 | substitutions run in declared order, each seeing the previous result |
| Semantics.SubstitutionsNoneFire | Sources/Conlangr/Conlangr+Eval.swift:70 | a list in which no substitution fires (all `nil`) leaves the word unchanged |
| Semantics.RewritesCompose | Sources/Conlangr/Conlangr+Eval.swift:60-75 | rewrite rules run in declared order, each seeing the previous result |
| Semantics.PassedEverySkipRule | Sources/Conlangr/Conlangr+Eval.swift:62-67 | a word that comes through the pass matched no skip of any skip rule at the moment that rule ran |
| Semantics.PassedFinalSkipRule | Sources/Conlangr/Conlangr+Eval.swift:62-67 | in particular, it matches no skip of a final skip rule |
| Semantics.RunCounter | Sources/Conlangr/Conlangr+Eval.swift:15-55 | the counter never decreases and never passes 65535; it reaches 65535 exactly when the outcome is `evaluationCountExceeded`; only a literal takes no step |
| Semantics.ConcatResult | Sources/Conlangr/Conlangr+Eval.swift:52-78 | a `concat` returns a word under 64 characters; the rewrite pass produced it from the word that one complete attempt, started after the first step, built by concatenating its items' outputs in order, each under 64 characters |
| Semantics.ConcatPassesSkipRules | Sources/Conlangr/Conlangr+Eval.swift:57-67 | in the attempt that built the accepted word, every skip rule of the `concat` saw a word that none of its skips rejects |
| Semantics.RunLength | Sources/Conlangr/Conlangr+Eval.swift:34-88 | every returned word has at most 64 characters, and fewer than 64 unless the production is a literal |
| Semantics.ConcatEnforcesFinalSkips | Sources/Conlangr/Conlangr+Eval.swift:54-67 | a `concat` whose last rewrite is a skip rule never returns a word that one of those skips rejects |
| Semantics.SelectResult | Sources/Conlangr/Conlangr+Eval.swift:48-51 | a `select` returns what some member of the bucket of some pool value returns, after one step |
| Semantics.RefNotFoundResult | Sources/Conlangr/Conlangr+Eval.swift:42-46 | a `ref` to a missing name takes one step and fails with `refNotFound`, unless that step exhausted the counter |
| Semantics.SkippedRetries | Sources/Conlangr/Conlangr+Eval.swift:63-65 | a skipped attempt restarts the whole `concat` from an empty word at the current counter |
| Evaluation.EvaluationContext.Eval | Sources/Conlangr/Conlangr+Eval.swift:15-20 | the counter goes up by exactly one, and the step fails with `evaluationCountExceeded` exactly when it reaches 65535 |
| Evaluation.EvaluationContext.constructor | Sources/Conlangr/Conlangr+Eval.swift:7-13 | a fresh context holds the grammar with the counter at 0 |
| Evaluation.EvalProduction | Sources/Conlangr/Conlangr+Eval.swift:34-81 | the outcome and final counter are ones `Run` allows; the counter never decreases |
| Evaluation.EvalRef | Sources/Conlangr/Conlangr+Eval.swift:42-47 | the same, for the `ref` case |
| Evaluation.EvalSelect | Sources/Conlangr/Conlangr+Eval.swift:48-51 | the same, for the `select` case |
| Evaluation.EvalConcat | Sources/Conlangr/Conlangr+Eval.swift:52-78 | the same, for the `RETRY` loop |
| Evaluation.EvalQuantified | Sources/Conlangr/Conlangr+Eval.swift:23-32 | the outcome is one of 1 to `quantity` evaluations concatenated, as `RunQuant` allows |
| Evaluation.RewritePass | Sources/Conlangr/Conlangr+Eval.swift:60-75 | the rewrite loop computes `ApplyRewrites` |
| Evaluation.EvalGenerator | Sources/Conlangr/Conlangr+Eval.swift:90-95 | a fresh context at count 0 evaluates `""`; the outcome is one `Run` allows; it is `evaluationCountExceeded` exactly when the counter was used up; a returned word has at most 64 characters, and fewer unless the main production is a literal |
| Scenarios.RejectingScriptNormalizes | Tests/ConlangrTests/ConlangrTests.swift:23-25 | the test's script normalizes to `k` followed by a one-in-`{a, i}` select, with both words skipped |
| Scenarios.RejectingExhausts | Tests/ConlangrTests/ConlangrTests.swift:22-29 | every evaluation of that production ends with `evaluationCountExceeded` and the counter at 65535 |
| Scenarios.RejectingGeneratorFails | Tests/ConlangrTests/ConlangrTests.swift:26-28 | evaluating the generator fails with `evaluationCountExceeded`, whatever the oracle |
| Scenarios.ZeroWeightNormalizes | Sources/Conlangr/Conlangr+Normalize.swift:10-22 | `(? 1 a 0 (+ 0 b))` lowers to pool `[1]`, with the quantity-0 concat in bucket 0 |
| Scenarios.ZeroWeightDrawable | Sources/Conlangr/Conlangr+Eval.swift:48-51 | that lowered select is drawable: bucket 0 is out of the pool's reach |
| Scenarios.ZeroWeightYieldsA | Sources/Conlangr/Conlangr+Eval.swift:48-51 | evaluating it gives `a` after one step, whatever is drawn |
| Scenarios.ZeroWeightGenerator | Sources/Conlangr/Conlangr+Eval.swift:90-95 | a generator whose main production is that select returns `a`, for every oracle |

## Left out

- The parser combinators (`comment`, `wspd`, `escaped`, `numeric`, `quantifier`, the production and script parsers) are not modelled. They run on an external parsing library that is not part of this model, so `Scenarios.RejectingScript` is written down in its parsed form.
- `Conlang+Token.swift` is not modelled. It is a display-only tokenizer built from the same external combinators.
- `print(variables)` in `Script.normalize` is output only and is not modelled.
- Random draws: numbers come from an oracle, and the member picked from a bucket is an arbitrary choice. No frequency or distribution is stated.
- Swift `Character` and grapheme clusters are modelled as `char`, and `count` as `|s|`. Swift `Set` and `Dictionary` iteration order is not modelled:
  - The skip loop's early exit does not depend on order (`AnySkip`).
  - `toDictionary` walks its array in order.
- Normalize.Resolve: a quantifier's resolution is its definition and has no contract of its own. Its behaviour is stated through `ResolveOverride` and `NormalizedConcat`.
- Swift runtime traps are preconditions rather than crashes:
  - `quantity == 0` in `QuantifiedProduction.eval`;
  - the force-unwraps on the pool, the bucket and `productions[""]`;
  - overflow of the `UInt16` counter.

  `Drawable`, `DrawableGrammar` and the `"" in productions` requirement of `EvalGenerator` state them, and `NormalizedDrawable` shows when normalization meets them. `Drawable` asks only of buckets that the pool can draw.
- Conlangr.DrawableGrammar: a static over-approximation. It asks every named production to be drawable, while Swift traps only on what an evaluation reaches. The evaluator methods therefore refuse grammars with an undrawable production that is never referenced, although Swift evaluates those without a trap.
- Conlangr.ReplaceAll: for an empty `from`, the model leaves the word unchanged. The Swift library's behaviour there is not part of this model.
- The `Set<Production>` of a bucket is wrapped in a `Bucket` datatype, so that its members count as smaller than the production that holds them.
- `Package.swift` is not modelled. The first test in `ConlangrTests.swift`, which parses an empty grammar and prints, is not modelled either.
