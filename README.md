# Fortune lottery predictor: verified model of the page logic

This project models the logic of the lottery prediction page (`App.tsx`) and
its record types (`types.ts`). It also proves properties of that model. The
page has four parts, each with its own Dafny module:

- **Sampler** (`sampler.dfy`). The matrix catalog and the local draw sampler
  behind the "studio live draw". The sampler uses a rejection loop to collect
  distinct main balls, sorts them, and adds an optional special ball.
- **Reveal** (`reveal.dfy`). The live-draw state machine: a start button, a
  one-second ticker that reveals one ball per step, a three-second cooldown,
  and a reset control. It is a `Simulation` class whose fields are the page
  state (`isSimulating`, `simStep`, `simDraw`), the ticker's own counters
  (`currentStep`, `totalSteps`) and which timers are registered. The module
  also holds the functions that decide what the panel shows at a given step.
- **History** (`history.dfy`). The bounded log of predictions. Committing a
  prediction puts the new entry at the front and keeps at most 50 entries.
  There is also a wipe, opening an archived entry, and the type filter of the
  archive view. The log and the current result are a `Session` class.
- **Statistics** (`statistics.dfy`). Three aggregations over the log:
  - the top-10 frequency chart, computed by a method with a counting loop over
    a map, a key-ordered listing and a stable sort by descending count;
  - the even/odd balance with integer percentages;
  - the analysis card: the current result's sum, the rounded mean sum of
    entries of the same type, and the overlap with the ten newest entries.

`types.dfy` transcribes the `LotteryType` enum and the `LotteryResult` record
(types.ts:2-17). `sorting.dfy` models the numeric ascending sort
`.sort((a, b) => a - b)` as an insertion sort. It proves the result is sorted,
is a permutation of the input, and keeps distinct numbers distinct.

Inputs the page reads from the outside world are parameters of the model:

- `Math.random` is an oracle. It is a sequence of candidate balls, each already
  in `[1, max]`. `Sampler.Balls` proves that `floor(r * max) + 1` gives such
  balls for every run of random numbers in `[0, 1)`.
- `Date.now` and the random id string are plain values.
- The prediction service's reply is a `PredictOutcome`, either a prediction or
  a failure.
- The confirmation dialog's answer is a boolean.
- Timer firings are the explicit events `Tick` and `CooldownExpired`.

Two points of JavaScript behaviour are modelled exactly:

- `Object.entries` lists array-index keys (the integers 0 .. 2^32 − 2) in
  ascending numeric order (section 10.1.11.1 of ECMA-262,
  OrdinaryOwnPropertyKeys). Other keys are not modelled exactly; see the
  `Statistics.AscendingEntries` line under "## Left out".
- `Array.prototype.sort` is stable.

Together these make the chart break count ties by ascending number. `Math.round`
becomes exact integer round-half-up. The predicate `RoundsTo(r, a, b)` states
that `r` is `a / b` rounded to the nearest integer, halves up.

The "Custom" lottery type matches none of the catalog branches in
`startSimulation`. The code therefore keeps its defaults: 6 balls of 1..45 and
no special ball. The model follows the code.

## Model

| member | source | states |
|---|---|---|
| Sorting.Insert | App.tsx:224 | inserting one number adds exactly that number to the multiset |
| Sorting.InsertAscending | App.tsx:224 | inserting into an ascending list keeps it ascending |
| Sorting.SortAscending | App.tsx:224 | the numeric sort yields an ascending permutation of its input, same length |
| Sorting.DistinctIffSingleOccurrences | App.tsx:219 | a list has pairwise distinct elements exactly when every value occurs at most once |
| Sorting.SortKeepsDistinct | App.tsx:224 | sorting distinct numbers keeps them distinct and keeps exactly the same values |
| Sampler.Catalog | App.tsx:202-214 | every matrix draws at least one main ball and no more than its range holds, so the rejection loop can finish |
| Sampler.Ball | App.tsx:218 | the candidate ball for a random number: `floor(r * max) + 1` (definition; its range is proved by `Sampler.BallInRange`) |
| Sampler.BallInRange | App.tsx:218 | a random number in `[0, 1)` scaled by `max` yields a ball of `1..max` |
| Sampler.Balls | App.tsx:217-218 | a run of random numbers in `[0, 1)` yields as many candidate balls, all in `1..max` |
| Sampler.Dedup | App.tsx:219 | the distinct values in first-occurrence order are pairwise distinct, are exactly the values of the input, and are no more numerous |
| Sampler.DedupPrefix | App.tsx:216-220 | the distinct values of a prefix of the candidates are a prefix of the distinct values of all of them |
| Sampler.DrawMainBalls | App.tsx:216-220 | the rejection loop stops exactly at the first point where `k` distinct balls are held, and they are the first `k` distinct candidates in drawing order |
| Sampler.Sampled | App.tsx:202-224 | definition of the sampled draw: the first `mainCount` distinct candidates sorted ascending, plus the special candidate exactly when `specialMax > 0`; its properties are proved by `Sampler.SampledWellFormed` and `Sampler.SampleDraw` |
| Sampler.SampledWellFormed | App.tsx:216-224 | a sampled draw has exactly `mainCount` distinct ascending balls in `[1, mainMax]`, and a special ball in `[1, specialMax]` exactly when the matrix has one |
| Sampler.SampleDraw | App.tsx:202-224 | the sampler returns the first `mainCount` distinct candidates sorted, plus the special candidate when `specialMax > 0`; the draw is well formed |
| Reveal.Steps | App.tsx:226 | definition of the reveal length `numbers.length + (special ? 1 : 0)`, with JavaScript truthiness of the special ball; used by `Reveal.RevealAccounting` and `Reveal.SampledShapes` |
| Reveal.MainBallShown | App.tsx:545 | definition: main ball `i` is visible iff `i < simStep`; counted by `Reveal.ShownMainBalls` |
| Reveal.SpecialShown | App.tsx:549-550 | definition: the special ball is rendered when present and visible once `simStep > numbers.length`; characterised by `Reveal.RevealAccounting` |
| Reveal.Placeholders | App.tsx:556 | definition: `max(0, total - simStep)` dashed placeholders; accounted for by `Reveal.RevealAccounting` |
| Reveal.ResetShown | App.tsx:563 | definition: the reset control is rendered iff `simStep > 0 && simStep == total`; the precondition of `Reveal.Simulation.Reset` |
| Reveal.PanelShown | App.tsx:528 | definition: the studio panel is rendered iff `isSimulating` or `simStep > 0`; used by `Reveal.PanelShownWhenActive` |
| Reveal.ShownMainBalls | App.tsx:544-546 | with main ball `i` visible iff `i < simStep`, `min(n, simStep)` of `n` balls are visible |
| Reveal.RevealAccounting | App.tsx:543-560 | while the step is within the total, visible balls plus placeholders equal the total; the special ball is visible only after all main balls, and exactly when it is truthy and the step equals the total |
| Reveal.SampledShapes | App.tsx:202-226 | Lotto 6/45 and Custom draw 6 of 1..45, Lotto 6/49 draws 6 of 1..49, both with no special ball; Powerball draws 5 of 1..69 plus a special ball of 1..26; Mega Millions draws 5 of 1..70 plus a special ball of 1..25; every sampled draw takes 6 steps |
| Reveal.Simulation.constructor | App.tsx:156-158 | the page starts idle at step 0 with an empty draw |
| Reveal.Simulation.Start | App.tsx:196-228 | a start while simulating changes nothing; otherwise it samples a well-formed draw, sets the step to 0 and registers a ticker whose total is the draw's step count |
| Reveal.Simulation.Tick | App.tsx:229-236 | each firing raises the step by exactly 1; on reaching the total it stops the ticker and registers the cooldown; the step never exceeds the total; without a ticker nothing changes |
| Reveal.Simulation.CooldownExpired | App.tsx:234 | the cooldown only clears `isSimulating` and leaves the revealed draw, the step and the ticker's counters in place; without a pending cooldown nothing changes |
| Reveal.Simulation.Reset | App.tsx:563-570 | the reset control, shown only at `simStep == total > 0`, sets the step to 0 and the draw to empty with no special ball, and changes nothing else (simulation flag, cooldown, ticker counters) |
| Reveal.PanelShownWhenActive | App.tsx:528-563 | in every reachable state the panel is on screen whenever the ticker runs, the cooldown is pending or the reset control is shown |
| Reveal.PowerballRun | App.tsx:196-237 | in a Powerball run a second start while running is refused, 6 ticks reveal everything and a 7th changes nothing, and after the cooldown a new start is accepted without a reset |
| History.NewResult | App.tsx:179-186 | the committed entry holds the reply's numbers sorted ascending (a permutation) and copies its type, special ball and analysis |
| History.Prepend | App.tsx:188 | after an append the log has length `min(old + 1, 50)`, the new entry at its head, and then a prefix of the old log in the same order |
| History.PrependAllTruncates | App.tsx:188 | any number of appends equals one truncation: newest entries first, then the old log, cut to 50 |
| History.FilterHistory | App.tsx:245-247 | the view keeps exactly the log's entries matching the filter and is the whole log for "All" |
| History.FilterConcat | App.tsx:245-247 | the filter keeps the log's order: filtering a concatenation filters each part |
| History.FilterTwice | App.tsx:245-247 | filtering a filtered view again changes nothing |
| History.FilterCounts | App.tsx:245-247 | an entry occurs in a type view exactly as often as in the log when it has that type, and not at all otherwise |
| History.Session.constructor | App.tsx:149-150 | the page starts with an empty log and no current result |
| History.Session.Generate | App.tsx:175-194 | a successful reply becomes the current result and the head of the capped log; a failure changes neither |
| History.Session.ClearHistory | App.tsx:239-243 | a confirmed wipe empties the log; a declined one changes nothing; the current result is kept either way |
| History.Session.Select | App.tsx:659 | opening an archived entry makes it the current result and leaves the log alone |
| Statistics.Flatten | App.tsx:250 | definition of `history.flatMap(h => h.numbers)`: the entries' numbers concatenated in log order; membership is proved in both directions by `Statistics.InFlatten` and `Statistics.FromFlatten` |
| Statistics.FromFlatten | App.tsx:250 | every number of the flattened log comes from some entry of the log |
| Statistics.InFlatten | App.tsx:250 | every number of every entry occurs in the flattened log |
| Statistics.RoundDiv | App.tsx:264 | `Math.round(a / b)` is the integer within a half of `a / b`, halves rounded up |
| Statistics.PercentBounds | App.tsx:264-265 | a rounded share of a whole lies in 0..100 |
| Statistics.CountOccurrences | App.tsx:250-252 | the counting loop records exactly the numbers of the log, each with its number of occurrences |
| Statistics.AscendingEntries | App.tsx:253-254 | the entries are listed once each in ascending key order, with their counts |
| Statistics.InsertByCount | App.tsx:255 | one insertion step of the stable sort by descending count is a permutation step |
| Statistics.SortByCount | App.tsx:255 | the stable sort by descending count is a permutation |
| Statistics.InsertByCountRanked | App.tsx:255 | inserting an entry with a smaller number than all others keeps the list ordered by count, then number |
| Statistics.SortByCountRanked | App.tsx:253-255 | stably sorting key-ordered entries by descending count breaks count ties by ascending number |
| Statistics.TopOfRankedIsTopTen | App.tsx:253-256 | the first ten of the ranked entries meet every promise of the chart |
| Statistics.FreqData | App.tsx:249-257 | at most 10 bars with distinct numbers, each with its true count, counts not increasing, ties in ascending number order, every number left out counted no more than the last bar, no bars for an empty log |
| Statistics.TopTenFacts | App.tsx:249-257 | the chart conditions imply distinct numbers, non-increasing counts, ascending ties and nothing left out with a larger count |
| Statistics.TopTenUnique | App.tsx:249-257 | the chart conditions determine the chart: two lists meeting them are equal |
| Statistics.CountEven | App.tsx:262 | the even count is at most the total, equals it exactly when all numbers are even, and is 0 exactly when none is |
| Statistics.EvenOdd | App.tsx:259-270 | the sentinel exactly when the log holds no numbers (an empty log, or entries without numbers); otherwise evens plus odds is the total, the even percentage is the rounded share in 0..100, and the two percentages add up to 100 |
| Statistics.Sum | App.tsx:275 | definition of `numbers.reduce((a, b) => a + b, 0)`; additivity is proved by `Statistics.SumConcat` |
| Statistics.SumConcat | App.tsx:275 | the sum of a concatenation is the sum of the parts |
| Statistics.SumOfSums | App.tsx:278 | definition of the outer `reduce` adding up entry sums; proved equal to the sum of the flattened numbers by `Statistics.SumOfSumsFlatten` |
| Statistics.SumOfSumsFlatten | App.tsx:278 | adding up entry sums is adding up all the entries' numbers |
| Statistics.CountIn | App.tsx:282 | the overlap count is at most the number count and equals it exactly when every number is in the pool |
| Statistics.MeanSum | App.tsx:277-279 | the mean sum is 0 for no entries and otherwise the rounded mean of the entries' number sums |
| Statistics.Percent | App.tsx:283 | the rate is defined exactly for a non-empty whole, is the rounded percentage, and lies in 0..100 when the part is within the whole |
| Statistics.AnalysisStats | App.tsx:272-273 | there is a card exactly when there is a current result |
| Statistics.AnalysisSums | App.tsx:275-279 | the card's sum is the current numbers' total, and its mean is the rounded mean sum of the same-type entries, or 0 without any |
| Statistics.AnalysisOverlap | App.tsx:281-282 | the overlap count is at most the number count and full exactly when every current number occurs in the ten newest entries |
| Statistics.AnalysisRate | App.tsx:283 | the rate is the rounded percentage of overlapping numbers, in 0..100, and undefined exactly when the current result has no numbers |
| Statistics.RecentResultFullyOverlaps | App.tsx:281-283 | a current result that is one of the ten newest entries overlaps fully, with rate 100 |
| Statistics.GenerateFullyOverlaps | App.tsx:187-188 | right after a commit, the current result overlaps the ten newest entries fully, with rate 100 |
| Statistics.AverageSumOwnTypeOnly | App.tsx:276-279 | the mean sum depends only on the entries of the current result's type |
| Statistics.AverageSumScenario | App.tsx:276-279 | with Lotto 6/45 entries summing to 120, 130, 140 and a Powerball entry of 200 between them, the mean is 130 |

## Left out

- The `localStorage` load and save effects (App.tsx:160-173) are persistence I/O and are not modelled. The log starts empty.
- The prediction service (`services/geminiService.ts`) is not part of this model. Its reply, or its failure, is the `PredictOutcome` parameter of `Generate`. Its prompt, the user context and `JSON.parse` are not modelled.
- `Math.random`, `Date.now` and the random id are inputs, not randomness: the model says nothing about uniformity.
- Sampler.SampleDraw: it requires candidates that are already in range and include at least `mainCount` distinct values. In-range is what `floor(r * max) + 1` guarantees. With too few distinct values the source loops forever, which the model does not represent.
- Real-time timers have no model. Each interval or timeout firing is a `Tick` or `CooldownExpired` event, and events come one at a time.
- Reveal.Simulation.Reset: it requires the reset control to be shown, because the button is rendered only then.
- Floating-point effects of `/` and `Math.round` (App.tsx:264, 278, 283) are not modelled. The model uses exact integer round-half-up of the rational share.
- Statistics.AnalysisRate: where the source gives `NaN` for a current result without numbers, the model gives `None`.
- Ratio and percent strings for display are not modelled. The balance is kept as integers.
- Statistics.AscendingEntries: the model lists every counted number in ascending order. That matches `Object.entries` only for array-index keys, the integers from 0 to 2^32 − 2. JavaScript lists larger, negative or fractional keys after those, in insertion order, and the model does not capture that. Such numbers can only come from a malformed service reply.
- The `loading` flag, `async` sequencing and the alert on failure are not modelled.
- Tab state, the privacy modal, ads, charts, the `Ball` component and all JSX rendering are not modelled, apart from the visibility expressions of the reveal panel.
- The unused `PredictionStats` interface (types.ts:19-24) is not modelled.
