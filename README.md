# RandomSelector, modelled in Dafny

A model of the random rule selector of Bot Builder's adaptive dialogs
(`RandomSelector` in
`libraries/Microsoft.Bot.Builder.Dialogs.Adaptive/Selectors/RandomSelector.cs`).
A selector is initialized once per planning cycle with the ordered rules and a
flag saying whether to evaluate their guards. `Select` then scans the rules in
index order and collects the candidates: every index, or, with evaluation on,
the indices whose guard evaluates without error to `true`. It returns an empty
list when there is no candidate and otherwise the one candidate picked by a
draw from the selector's own pseudo-random generator. The generator is built on
the first `Initialize` unless a seed was assigned before, and every assignment
of `Seed` rebuilds it, so a fixed seed makes the selections reproducible.

Files:

- `random_numbers.dfy`, module `RandomNumbers`: the generator (`System.Random`)
  as a value, `Random(origin, drawn)`: how it was built and how many draws it
  has made. The algorithm is the parameter `Draw`: any function that, given
  the origin, the draw number and `n`, returns a value in `[0, n)`.
- `random_selector.dfy`, module `Selectors`: guard results, the candidate scan
  and the draw as functions (`CandidatesUpTo`, `Candidates`, `Choose`,
  `Selection`, and `Replay` for a series of selections) with their lemmas,
  and the class `RandomSelector` with the
  fields `rules`, `evaluate`, `rand` and `seed` and the methods `SetSeed`,
  `Initialize` and `Select`, each tied to those functions.

Modelling decisions:

- A guard's evaluation result is `GuardResult`: `EvalError`, or
  `EvalValue(Bool(b))`, or `EvalValue(NonBool)` for any value that is not a
  boolean (null included). Rule guards and the dialog state are reached
  through a function `eval(rule, state)` given to `Select`.
- A guard that yields a non-boolean value without an error makes the cast to
  `bool` throw. `Select` then ends with `Err(InvalidCast(i))`, where `i` is the
  first such rule, and leaves the generator untouched. Line 57 casts `value`
  only when `error` is null, so an error-free non-boolean value throws there
  and is never skipped.
- Calling `Select` before `Initialize` dereferences a null rule list, so
  `Select` requires `rules.Some?`.
- `RandomSelector.Valid()` holds from construction on: a selector without a
  generator still has seed -1, and an initialized selector has a generator.
  This is because the seed changes only through the `Seed` setter, which also
  builds the generator. One consequence is that the seeded branch of the
  generator construction in `Initialize` (line 42) can never run. The model
  keeps that branch, and `Initialize` proves that a generator it builds is
  always unseeded.
- Assigning `Seed = -1` builds a generator seeded with -1. It does not make
  the selector unseeded.

## Model

| member | source | states |
|---|---|---|
| `RandomNumbers.Fresh` | libraries/Microsoft.Bot.Builder.Dialogs.Adaptive/Selectors/RandomSelector.cs:32-42 | a generator built by `new Random(...)` keeps the origin it was built from and has made no draw, so its draw sequence starts over |
| `RandomNumbers.Next` | libraries/Microsoft.Bot.Builder.Dialogs.Adaptive/Selectors/RandomSelector.cs:71 | `Random.Next(n)` for `n > 0` gives a value in `[0, n)` and moves the generator on by exactly one draw, keeping its origin |
| `Selectors.Verdict` | libraries/Microsoft.Bot.Builder.Dialogs.Adaptive/Selectors/RandomSelector.cs:56-58 | the per-rule test is true exactly for an error-free `true`, and throws exactly for an error-free non-boolean value; an error makes it false |
| `Selectors.CandidatesUpTo` | libraries/Microsoft.Bot.Builder.Dialogs.Adaptive/Selectors/RandomSelector.cs:49-67 | the state of the scan after the first `n` rules: at most `n` candidates; a failure only with evaluation on and at a scanned rule; without evaluation exactly `n` candidates |
| `Selectors.Candidates` | libraries/Microsoft.Bot.Builder.Dialogs.Adaptive/Selectors/RandomSelector.cs:49-67 | the candidate list of the whole scan: strictly ascending valid rule indices, and exactly `0 .. n-1` when guards are not evaluated |
| `Selectors.FailureIsFinal` | libraries/Microsoft.Bot.Builder.Dialogs.Adaptive/Selectors/RandomSelector.cs:50-62 | once the cast has thrown, no later rule changes the outcome of the scan |
| `Selectors.CandidatesAscending` | libraries/Microsoft.Bot.Builder.Dialogs.Adaptive/Selectors/RandomSelector.cs:49-66 | candidates are appended in strictly ascending index order and each is an index of a scanned rule |
| `Selectors.CandidatesWithoutEvaluation` | libraries/Microsoft.Bot.Builder.Dialogs.Adaptive/Selectors/RandomSelector.cs:50-66 | with `evaluate` false the scan never fails and the candidates are exactly `0 .. n-1` in order |
| `Selectors.CandidateIffGuardTrue` | libraries/Microsoft.Bot.Builder.Dialogs.Adaptive/Selectors/RandomSelector.cs:52-61 | with `evaluate` true, an index is a candidate if and only if its guard evaluated without error to `true`; an erroring guard is never a candidate |
| `Selectors.CastFailureAtFirstNonBool` | libraries/Microsoft.Bot.Builder.Dialogs.Adaptive/Selectors/RandomSelector.cs:52-57 | the scan fails if and only if evaluation is on and some guard yields a non-boolean value without error, and it fails at the first such rule |
| `Selectors.Choose` | libraries/Microsoft.Bot.Builder.Dialogs.Adaptive/Selectors/RandomSelector.cs:68-73 | the result has at most one element; it is empty exactly when there are no candidates (and the generator is then untouched); otherwise it is `[c[k]]` for a `k` in `[0, |c|)` drawn once from the generator |
| `Selectors.Selection` | libraries/Microsoft.Bot.Builder.Dialogs.Adaptive/Selectors/RandomSelector.cs:47-75 | one call of `Select` on values: at most one index; the generator moves on by exactly one draw when an index is returned and is untouched when the result is empty or the cast throws |
| `Selectors.SelectionProperties` | libraries/Microsoft.Bot.Builder.Dialogs.Adaptive/Selectors/RandomSelector.cs:47-75 | a selection returns at most one valid rule index; with evaluation on it is an index whose guard is `true`, and the result is empty exactly when no guard is `true`; with evaluation off it never fails and is empty exactly when there are no rules; a failed cast leaves the generator as it was |
| `Selectors.RandomSelector.constructor` | libraries/Microsoft.Bot.Builder.Dialogs.Adaptive/Selectors/RandomSelector.cs:16-20 | a new selector has no rules, no generator and seed -1 |
| `Selectors.RandomSelector.SetSeed` | libraries/Microsoft.Bot.Builder.Dialogs.Adaptive/Selectors/RandomSelector.cs:26-34 | stores the seed and always replaces the generator by a fresh one seeded with it |
| `Selectors.RandomSelector.Initialize` | libraries/Microsoft.Bot.Builder.Dialogs.Adaptive/Selectors/RandomSelector.cs:36-45 | stores a snapshot of the rules in order and the flag; keeps an existing generator unchanged; otherwise builds one, seeded unless the seed is -1, and proves that in that case the seed is always -1 |
| `Selectors.RandomSelector.Select` | libraries/Microsoft.Bot.Builder.Dialogs.Adaptive/Selectors/RandomSelector.cs:47-75 | the loop computes the candidate scan; the result and the new generator are those of `Selection` on the old generator; rules, flag and seed are unchanged; the result has at most one valid index, only a `true`-guarded one when evaluating, and without evaluation is empty exactly when there are no rules |
| `Selectors.Replay` | libraries/Microsoft.Bot.Builder.Dialogs.Adaptive/Selectors/RandomSelector.cs:47-75 | successive calls of `Select`, one per dialog state, give one result each, each with at most one index |
| `Selectors.ReplayExtend` | libraries/Microsoft.Bot.Builder.Dialogs.Adaptive/Selectors/RandomSelector.cs:47-75 | one more call of `Select` appends its result to a run and starts from the generator the run left behind |
| `Selectors.SelectEach` | libraries/Microsoft.Bot.Builder.Dialogs.Adaptive/Selectors/RandomSelector.cs:47-75 | calling `Select` once per dialog state in order gives exactly the results and the final generator of `Replay` from the old generator |
| `Selectors.SeededSelectorsAgree` | libraries/Microsoft.Bot.Builder.Dialogs.Adaptive/Selectors/RandomSelector.cs:22-33 | two selectors given the same seed, rules and flag and the same sequence of dialog states, of any length, return the same sequence of results, whatever entropy the runtime offers |
| `Selectors.ReseedingRestarts` | libraries/Microsoft.Bot.Builder.Dialogs.Adaptive/Selectors/RandomSelector.cs:29-33 | after a run of selections and any number of further selections, assigning the same seed again and re-initializing reproduces the first run result by result |

## Left out

- The algorithm of `System.Random` and the entropy source of `new Random()`:
  they belong to the runtime library. The algorithm is the parameter `Draw`
  with only the range promise of `Random.Next`, and the entropy is the
  parameter `entropy` of `Initialize`.
- The uniformity of the draw: it is a probabilistic property that a contract
  cannot state.
- The expression parser (`_parser`, `ExpressionEngine`), `IRule.GetExpression`,
  `TryEvaluate` and `PlanningContext.State`: they are collaborators outside
  the selector. They are represented only by the function `eval` and the
  state it reads.
- The `context` argument of `Initialize`: the code never reads it.
- `Task`, `Task.FromResult`, `Task.CompletedTask` and the cancellation tokens:
  nothing is awaited and cancellation is never checked, so the operations are
  plain synchronous methods.
- Three exceptions that end a call before any effect: a null rule collection
  makes `ToList()` throw in `Initialize` (line 38) before any field changes; a
  null dialog context makes reading its state throw in `Select` once a guard
  is evaluated (line 56); and a null guard value makes the unboxing at line 57
  throw a null-reference exception, which the model reports as
  `InvalidCast(i)` like any other non-boolean value. Rules, context and state
  are values in the model, so the first two cannot arise.
- The `Seed` getter: it returns the field `seed`, which the model exposes
  directly.
- Later mutation of the caller's rule collection: `Initialize` copies it with
  `ToList()`, and a Dafny sequence is a value, so the snapshot is automatic.
