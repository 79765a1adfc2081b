# nSphereES evolution-strategy core, modelled in Dafny

This project models the engine of nSphereES. nSphereES is an evolution strategy (ES) that minimises the
n-dimensional sphere function `f(x) = x_1^2 + ... + x_n^2`. It is used to compare ways of adapting the
mutation step size. The model covers five parts:

- **The individual**: a chromosome, optional per-individual step sizes, and a cached evaluation. The
  value `-1` means "not evaluated yet".
- **The sphere objective and the caching evaluator.** An individual is evaluated at most once. Every
  fresh evaluation is appended to the run's evaluation log. The goal test is "some evaluated parent
  scores at most 0.0005".
- **Truncation selection.** Selection sorts a pool by evaluation with a stable sort. The pool is the
  offspring followed by the parents in Plus mode, and the offspring alone in Comma mode. The first `mu`
  members are kept.
- **Two generation loops:**
  - The newer engine (`Engine`) breeds `lambda` offspring in slot order `0 .. lambda-1`, records a row,
    selects, and stops on the goal or on the generation cap.
  - The older engine (`Legacy`) is a do-while loop. It stops when the parents' *average* reaches the
    threshold or a counter reaches its cap.
- **The mutation operators**, as one closed datatype with explicit adaptation state:
  - fixed step size, with a drawn parent or with the slot's own parent;
  - the 1/5-success rule with per-slot state, and with one scalar state;
  - uncorrelated n-step-size self-adaptation with the step sizes kept in the individual, in a per-parent
    matrix, or in one global vector (older engine).

Randomness is a fixed stream of draws (`Random.Rng`). Position `p` holds a raw integer and a standard
normal variate, and every generator call consumes one position. Every operation is therefore a
deterministic function of its inputs, and the contracts can name exactly which draw each gene uses.

The platform's `exp` and `sqrt` are function parameters. Nothing is assumed about them unless a lemma
states it.

The Java run-time exceptions are returned as `Outcomes.Result` errors:
- an index past the end of a list;
- `%` by a zero window length;
- the average of an empty population;
- `rngInt(0)`.

The sources come from several revisions that do not compile together:
- The `experiments/` package and `Individual.java` are the newer engine.
- The top-level `Experiment*.java` files are older variants. Their slot-indexed `mutation(int)`
  operators are modelled as further variants of `Strategies.Strategy`.
- Their chromosome operators (`mutation(double[])`) belong to the older loop in `Legacy`.

Files:
- `common.dfy`: faults and run configuration.
- `individual.dfy`, `random.dfy`, `sphere.dfy`, `evaluator.dfy`: individual, random stream, objective and
  goal, cache.
- `selection.dfy`: the stable truncation selection.
- `onefifth.dfy`, `stepsize.dfy`: the 1/5 rule and the log-normal step-size update.
- `strategies.dfy`: the mutation operators.
- `experiment.dfy`: the newer loop.
- `legacy.dfy`: the older loop and its operators.

Source paths in the table are relative to the repository root.

## Model

| member | source | states |
|---|---|---|
| Individuals.New | src/main/java/art/cctcc/nsphere/Individual.java:27-32 | a new individual holds exactly the given genes, no step sizes, and is unevaluated (eval `-1`) |
| Individuals.NewWithSigmas | src/main/java/art/cctcc/nsphere/experiments/ExperimentUNSS.java:74 | an offspring built with its own step sizes holds exactly those genes and step sizes and is unevaluated |
| Individuals.Generate | src/main/java/art/cctcc/nsphere/Individual.java:49-54 | `generate(n)` has `n` genes, every one 1.0, and no evaluation |
| Individuals.SetEval | src/main/java/art/cctcc/nsphere/Individual.java:44-47 | storing an evaluation changes the evaluation only; genes and step sizes are kept |
| Individuals.SetEvalThenGet | src/main/java/art/cctcc/nsphere/Individual.java:39-47 | a read after `setEval(v)` returns `v`, a second store overrides the first, and any stored value other than `-1` counts as evaluated |
| Individuals.InitialPopulation | src/main/java/art/cctcc/nsphere/Experiment.java:95-96 | the initial population is `mu` individuals, each equal to `generate(n)` |
| Random.NextInt | src/main/java/art/cctcc/nsphere/Parameters.java:91-99 | an integer draw lies in `[0, bound)`; the stream afterwards is the same stream one position further on, its raw and normal draws unchanged |
| Random.NextGaussian | src/main/java/art/cctcc/nsphere/Parameters.java:61-69 | a Gaussian draw with standard deviation `sd` is `sd` times the standard normal draw at the current position; the stream afterwards is the same stream one position further on |
| Random.Normals | src/main/java/art/cctcc/nsphere/ExperimentUncorrelatedNStepSize.java:65-67 | `k` unit Gaussian draws in call order are the next `k` stream positions, each what `rngGaussian(1)` returns there |
| Sphere.SumOfSquares | src/main/java/art/cctcc/nsphere/experiments/NDimSphere.java:40-43 | the sphere value is never negative, so it can never equal the `-1` sentinel |
| Sphere.SumOfSquaresAppend | src/main/java/art/cctcc/nsphere/experiments/NDimSphere.java:40-43 | the sum of squares of a concatenation is the sum of the parts' sums |
| Sphere.SumOfSquaresOfZeros | src/main/java/art/cctcc/nsphere/experiments/NDimSphere.java:40-43 | the zero vector scores 0 |
| Sphere.SumOfSquaresOfOnes | src/main/java/art/cctcc/nsphere/experiments/NDimSphere.java:40-43 | the all-ones vector of length `n` scores `n` |
| Sphere.SumOfSquaresSignInvariant | src/main/java/art/cctcc/nsphere/experiments/NDimSphere.java:40-43 | negating any selection of genes leaves the value unchanged |
| Sphere.SumOfSquaresRemove | src/main/java/art/cctcc/nsphere/experiments/NDimSphere.java:40-43 | taking gene `j` out lowers the value by exactly its square |
| Sphere.SumOfSquaresPermutationInvariant | src/main/java/art/cctcc/nsphere/experiments/NDimSphere.java:40-43 | two chromosomes with the same multiset of genes score the same, so any permutation keeps the value |
| Sphere.Goal | src/main/java/art/cctcc/nsphere/experiments/NDimSphere.java:46-53 | the goal holds iff some parent whose eval is not `-1` has eval at most 0.0005; it takes no log and computes nothing |
| Sphere.UnevaluatedNeverReachGoal | src/main/java/art/cctcc/nsphere/experiments/NDimSphere.java:46-53 | a population of unevaluated individuals never meets the goal |
| Sphere.MissedGoal | src/main/java/art/cctcc/nsphere/experiments/NDimSphere.java:46-53 | when every parent is evaluated, a missed goal means every parent scores above 0.0005 |
| Evaluator.GetEval | src/main/java/art/cctcc/nsphere/experiments/AbsExperiment.java:128-136 | an unevaluated individual gets its sphere value cached and appended to the log as exactly one entry; an evaluated one returns its cached value with the individual and the log untouched (the older `Experiment.calcEval` caches the same way) |
| Evaluator.GetEvalIdempotent | src/main/java/art/cctcc/nsphere/experiments/AbsExperiment.java:128-136 | a second request returns the same value, the same individual and the same log |
| Evaluator.AtMostOnce | src/main/java/art/cctcc/nsphere/experiments/AbsExperiment.java:128-136 | `k` successive requests agree with the first, and grow the log by one entry for an unevaluated individual and by none otherwise |
| Evaluator.EvalAll | src/main/java/art/cctcc/nsphere/experiments/AbsExperiment.java:98-104 | evaluating a list front to back reports each member's cached value or its sphere value, leaves genes and step sizes alone, and appends exactly the fresh evaluations in list order |
| Evaluator.FreshEvals | src/main/java/art/cctcc/nsphere/experiments/AbsExperiment.java:98-104 | what evaluating a list appends is no longer than the list |
| Evaluator.FreshEvalsContents | src/main/java/art/cctcc/nsphere/experiments/AbsExperiment.java:98-104 | a fully evaluated list appends nothing; a list with nothing evaluated appends every member's sphere value in list order |
| Evaluator.FreshEvalsAppend | src/main/java/art/cctcc/nsphere/experiments/AbsExperiment.java:98-104 | the fresh evaluations of a concatenation are the front's followed by the back's, as a stream over the concatenated list requests them |
| Evaluator.Mean | src/main/java/art/cctcc/nsphere/experiments/AbsExperiment.java:98-100 | the parents' `average()` of a non-empty list: the mean times the count is the sum |
| Evaluator.EvalAllIdempotent | src/main/java/art/cctcc/nsphere/experiments/AbsExperiment.java:98-104 | re-evaluating a list already evaluated (the average and then the parent columns of one row) reports the same values and appends nothing |
| Evaluator.AllEvaluatedUnchanged | src/main/java/art/cctcc/nsphere/experiments/AbsExperiment.java:128-136 | on a fully evaluated list, evaluation returns the cached values and changes neither the list nor the log |
| Evaluator.MeanAboveBound | src/main/java/art/cctcc/nsphere/Experiment.java:112-117 | an average of values that are all above a bound is above it |
| Evaluator.MeanAtMostBoundHasMember | src/main/java/art/cctcc/nsphere/Experiment.java:112-117 | if the older average test fires, some member is at or below the threshold, so the newer goal test would fire too |
| Caching.OnlyCachedTransitive | src/main/java/art/cctcc/nsphere/experiments/AbsExperiment.java:128-136 | "only caching evaluations" composes over successive steps |
| Caching.OnlyCachedConsistent | src/main/java/art/cctcc/nsphere/experiments/AbsExperiment.java:128-136 | only caching keeps every cached evaluation equal to the sphere value of the genes |
| Caching.GetEvalOnlyCaches | src/main/java/art/cctcc/nsphere/experiments/AbsExperiment.java:128-136 | evaluating one member of a population changes nothing but that member's cache |
| Caching.EvalAllOnlyCaches | src/main/java/art/cctcc/nsphere/experiments/AbsExperiment.java:98-104 | evaluating a whole population changes nothing but the caches of its unevaluated members |
| Caching.EvalAllEvaluates | src/main/java/art/cctcc/nsphere/experiments/AbsExperiment.java:98-104 | evaluating a whole population leaves every member evaluated, and consistent if it was |
| Caching.EvalAllReports | src/main/java/art/cctcc/nsphere/experiments/AbsExperiment.java:98-104 | the reported values are the cached ones where present, and for a consistent population the sphere values |
| Selection.Insert | src/main/java/art/cctcc/nsphere/experiments/AbsExperiment.java:108-110 | one insertion step of the stable sort adds exactly the one position (as a multiset) |
| Selection.InsertMembers | src/main/java/art/cctcc/nsphere/experiments/AbsExperiment.java:108-110 | a position is in the insertion result iff it is the inserted one or was already there |
| Selection.InsertRanked | src/main/java/art/cctcc/nsphere/experiments/AbsExperiment.java:108-110 | inserting into a list ranked by (eval, pool position) keeps it ranked |
| Selection.RankPrefix | src/main/java/art/cctcc/nsphere/experiments/AbsExperiment.java:108-110 | the stable sort of the first `k` pool positions holds each of them exactly once, ranked by eval with ties in pool order |
| Selection.Survivors | src/main/java/art/cctcc/nsphere/experiments/AbsExperiment.java:108-112 | `min(mu, pool size)` distinct positions survive, in non-decreasing eval; none is worse than a discarded member; of two equal members the earlier survives whenever the later does, and ranks first |
| Selection.Select | src/main/java/art/cctcc/nsphere/experiments/AbsExperiment.java:108-112 | the next parents are pool members, `min(mu, pool size)` of them, in non-decreasing eval, namely the pool members at the surviving positions in ranking order |
| Selection.SelectEvaluated | src/main/java/art/cctcc/nsphere/experiments/AbsExperiment.java:108-112 | selecting from an evaluated pool gives evaluated parents |
| OneFifth.SuccessRate | src/main/java/art/cctcc/nsphere/experiments/ExperimentOneFive.java:63 | `p_s = 1.0 * g_s / g` is a real share: never negative, and at most 1 when no more than `g` mutations succeeded |
| OneFifth.Adapt | src/main/java/art/cctcc/nsphere/experiments/ExperimentOneFive.java:61-67 | with `p_s = successes/g`: above 0.2 the step is divided by `a`, below 0.2 it is multiplied by `a`, and at exactly 0.2 it is kept |
| OneFifth.AdaptDirection | src/main/java/art/cctcc/nsphere/experiments/ExperimentOneFive.java:48-67 | for `0 < a < 1` and a positive step: the step grows iff `p_s > 0.2`, shrinks iff `p_s < 0.2`, and stays positive |
| OneFifth.RateVersusTarget | src/main/java/art/cctcc/nsphere/experiments/ExperimentOneFive.java:63-66 | the rate is above, below or at 0.2 exactly when `5 * successes` is above, below or at `g` |
| OneFifthState.NewSlotWindow | src/main/java/art/cctcc/nsphere/experiments/ExperimentOneFive.java:36-46 | the constructor (newer and older revision) gives `lambda` step sizes equal to the initial sigma and `lambda` counters at 0 |
| OneFifthState.NewSlotWindowDefault | src/main/java/art/cctcc/nsphere/experiments/ExperimentOneFive.java:48-52 | the default factor `a` is 0.817, in both revisions |
| OneFifthState.UpdateSigma | src/main/java/art/cctcc/nsphere/experiments/ExperimentOneFive.java:61-69 | `updateSigma(k)` applies the 1/5 rule to slot `k` from its own counter, resets that counter to 0, and leaves every other slot's step and counter untouched (also the older `updateStddev(idv)`) |
| OneFifthState.CountSuccess | src/main/java/art/cctcc/nsphere/experiments/ExperimentOneFive.java:81-82 | a success adds exactly 1 to the slot's counter; the other counters and all steps are unchanged |
| OneFifthState.NewScalarWindow | src/main/java/art/cctcc/nsphere/Experiment1Of5.java:33-40 | a single scalar step starts at `stddev` and a single counter at 0 |
| OneFifthState.NewScalarWindowDefault | src/main/java/art/cctcc/nsphere/Experiment1Of5.java:42-46 | the scalar constructor without a factor uses `a = 0.817` |
| OneFifthState.UpdateScalar | src/main/java/art/cctcc/nsphere/Experiment1Of5.java:48-55 | the scalar update applies the 1/5 rule to the single step and resets the counter |
| StepSize.Floor | src/main/java/art/cctcc/nsphere/experiments/ExperimentUNSS.java:68-71 | the floor is at least `epsilon0` and at least its argument, and is one of the two |
| StepSize.Perturb | src/main/java/art/cctcc/nsphere/experiments/ExperimentUNSS.java:68-71 | a new step is `max(d * exp(tau' g' + tau g_i), epsilon0)`: at least `epsilon0`, at least the perturbed step, and one of the two |
| StepSize.PerturbAll | src/main/java/art/cctcc/nsphere/ExperimentUncorrelatedNStepSize.java:69-76 | every updated step is the perturbed old step of the same index, using one shared `g'`, and at least `epsilon0` |
| StepSize.PerturbPositive | src/main/java/art/cctcc/nsphere/experiments/ExperimentUNSS.java:68-71 | with a positive floor, every updated step is positive, whatever `exp` returns |
| StepSize.DefaultTau | src/main/java/art/cctcc/nsphere/experiments/ExperimentUNSS.java:43-50 | the newer variant's default `tau = 1e-7 / sqrt(2 sqrt n)`: positive, and its product with `sqrt(2 sqrt n)` is `1e-7` |
| StepSize.GlobalDefaultTau | src/main/java/art/cctcc/nsphere/ExperimentUncorrelatedNStepSize.java:54-61 | the global variant's default `tau = 1 / sqrt(2 sqrt n)`: positive, and its product with `sqrt(2 sqrt n)` is 1 |
| StepSize.DefaultTauPrime | src/main/java/art/cctcc/nsphere/ExperimentUncorrelatedNStepSize.java:54-61 | both variants' default `tau' = 1 / sqrt(2n)`: positive, and its product with `sqrt(2n)` is 1 |
| StepSize.DefaultTauScaled | src/main/java/art/cctcc/nsphere/ExperimentUncorrelatedNStepSize.java:54-61 | the global variant's default `tau = 1/sqrt(2 sqrt n)` is exactly 1e7 times the newer variant's `1e-7/sqrt(2 sqrt n)`; both and `tau' = 1/sqrt(2n)` are positive |
| StepSize.DefaultTauPrimeSquared | src/main/java/art/cctcc/nsphere/experiments/ExperimentUNSS.java:43-50 | for a true square root the default `tau'` satisfies `2n * tau'^2 = 1` |
| Strategies.NewStepMatrix | src/main/java/art/cctcc/nsphere/ExperimentUNSS.java:40-42 | the per-parent step sizes form a `mu x n` matrix with every entry the initial `stddev` |
| Strategies.Jitter | src/main/java/art/cctcc/nsphere/experiments/ExperimentUNSS.java:72-73 | a fresh array whose gene `i` is the old gene plus its step times the `i`-th draw; the input is not touched |
| Strategies.Shift | src/main/java/art/cctcc/nsphere/experiments/ExperimentFSS.java:46-49 | a fresh array of the same length, gene `i` plus `sigma` times its own draw, in gene order |
| Strategies.Compete | src/main/java/art/cctcc/nsphere/experiments/ExperimentOneFive.java:81 | the mutant and then the parent are evaluated through the cache (both logged if fresh); success holds iff the mutant's eval is strictly below the parent's |
| Strategies.MutateFixed | src/main/java/art/cctcc/nsphere/experiments/ExperimentFSS.java:42-51 | the parent index comes from `rngInt(mu)`; the child has the parent's length with gene `i` moved by `sigma` times draw `i`; it is new and unevaluated; parents and log are unchanged; errors exactly for `mu = 0` or an index past the population |
| Strategies.MutateFixedBySlot | src/main/java/art/cctcc/nsphere/ExperimentFSS.java:41-49 | the parent is the one at the slot's index and no index is drawn; it fails exactly when the slot is not a parent position; otherwise the genes are moved as above with the parent unchanged |
| Strategies.MutateOneFifthSlot | src/main/java/art/cctcc/nsphere/experiments/ExperimentOneFive.java:71-84 | the index is drawn first; in generations with `iterations % g == 0` the slot's step is adapted before use; mutant and parent are cached and logged; the slot's counter gains 1 iff the mutant is strictly better; other slots are unchanged; errors for `mu = 0`, `g = 0` or a bad index; the older revision behaves the same |
| Strategies.MutateOneFifthScalar | src/main/java/art/cctcc/nsphere/Experiment1Of5.java:57-69 | the parent is `parents.get(slot)` with no draw, and it fails for a slot past the parents or `g = 0`; the scalar window moves by one `ScalarStep` with success iff the mutant is strictly better |
| Strategies.ScalarStep | src/main/java/art/cctcc/nsphere/Experiment1Of5.java:60-67 | the window check runs on every call: adapted and reset when `iterations % g == 0`, then one more success when the mutant won |
| Strategies.ScalarShrinksAgain | src/main/java/art/cctcc/nsphere/Experiment1Of5.java:60-67 | in a window generation with `g > 5`, the next slot adapts again from a counter of at most 1 and shrinks the step by `a` again: adaptation happens once per slot, not once per window |
| Strategies.SelfAdaptChild | src/main/java/art/cctcc/nsphere/experiments/ExperimentUNSS.java:65-74 | the child gets new arrays of length `n`; step `i` is the parent's step perturbed with the shared `g'` and its own draw; gene `i` moves by the child's new step times a later draw |
| Strategies.MutateSelfAdaptive | src/main/java/art/cctcc/nsphere/experiments/ExperimentUNSS.java:59-75 | the draw order is index, `g'`, `n` step draws, `n` gene draws; every child step is at least `epsilon0`; parents and log are unchanged |
| Strategies.MutatePerParent | src/main/java/art/cctcc/nsphere/ExperimentUNSS.java:64-86 | the index is drawn, then only row `select` is rewritten (every entry at least `epsilon0`) before gene `i` moves by that row's step `i`; the child carries no steps and the parent is unchanged |
| Strategies.Mutate | src/main/java/art/cctcc/nsphere/experiments/AbsExperiment.java:94-96 | whatever the variant, a mutation only caches parent evaluations, only appends to the log, keeps the adaptation state's shape and variant, and yields a consistent child |
| Strategies.FixedIgnoresSlot | src/main/java/art/cctcc/nsphere/experiments/ExperimentFSS.java:43-50 | the fixed-step operator gives the same result for every slot |
| Strategies.FixedAgreesWithFixedBySlot | src/main/java/art/cctcc/nsphere/ExperimentFSS.java:41-49 | when the drawn index equals the slot, the drawn-parent and slot-parent operators produce the same child |
| Strategies.FirstGenerationShrinks | src/main/java/art/cctcc/nsphere/experiments/ExperimentOneFive.java:74-76 | in generation 0 every slot's step is multiplied by `a` before its first use |
| Engine.Header | src/main/java/art/cctcc/nsphere/experiments/AbsExperiment.java:81-87 | the header is `Iteration, Average, X0 .. X(mu-1), Y0 .. Y(lambda-1)`, `2 + mu + lambda` columns |
| Engine.HeaderDistinct | src/main/java/art/cctcc/nsphere/experiments/AbsExperiment.java:81-87 | no header label appears twice |
| Engine.Breed | src/main/java/art/cctcc/nsphere/experiments/AbsExperiment.java:94-96 | exactly `lambda` offspring; the first is the child of the `mutation(slot)` call and the rest are bred from slot + 1 on the state that call left, so offspring `k` comes from slot `k` in increasing order; a failing call ends the generation with its fault; the parents only gain cached evaluations and the log only grows |
| Engine.Pool | src/main/java/art/cctcc/nsphere/experiments/AbsExperiment.java:108-109 | the pool is the offspring followed by the parents in Plus mode, and the offspring alone in Comma mode |
| Engine.Survive | src/main/java/art/cctcc/nsphere/experiments/AbsExperiment.java:108-112 | the survivors are exactly the stable selection of the `mu` best from the pool (offspring, then parents in Plus mode), with ties in pool order: `min(mu, pool size)` of them, evaluated and sorted, each carrying an offspring's genes or, in Plus mode only, a parent's |
| Engine.SurvivorsFromPool | src/main/java/art/cctcc/nsphere/experiments/AbsExperiment.java:108-112 | survivors come from the pool, so they are evaluated, consistent and drawn from the right lists |
| Engine.TiesFavourOffspring | src/main/java/art/cctcc/nsphere/experiments/AbsExperiment.java:108-110 | on equal evaluations an offspring ranks ahead of a parent: a surviving parent implies the equal offspring survives, ahead of it |
| Engine.EvalConsistent | src/main/java/art/cctcc/nsphere/experiments/AbsExperiment.java:98-104 | evaluating a consistent list reports its sphere values, leaves it evaluated, consistent and gene for gene the same, and logs exactly its fresh evaluations |
| Engine.Assess | src/main/java/art/cctcc/nsphere/experiments/AbsExperiment.java:98-104 | a row holds the generation counter, the parents' mean, and every parent's then every offspring's sphere value; the log gains exactly their fresh evaluations |
| Engine.Conclude | src/main/java/art/cctcc/nsphere/experiments/AbsExperiment.java:98-114 | an empty population fails (no average); otherwise the row is the assessment of parents then offspring, the survivors are the selection from the assessed offspring and parents, `min(mu, pool)` sorted consistent ones, and the generation is finished iff the goal holds on them |
| Engine.Generation | src/main/java/art/cctcc/nsphere/experiments/AbsExperiment.java:94-116 | one generation yields one row of `lambda` offspring cells, survivors of the right number, sorted and consistent, and finishes iff the goal holds |
| Engine.GenerationBreedsThenConcludes | src/main/java/art/cctcc/nsphere/experiments/AbsExperiment.java:94-116 | a generation is breeding every slot and then concluding from the bred offspring and the state breeding left; a breeding fault is the generation's fault |
| Engine.AppendRow | src/main/java/art/cctcc/nsphere/experiments/AbsExperiment.java:102-106 | a row appended after a missed goal is numbered next and shows parents all above the threshold |
| Engine.RunningStep | src/main/java/art/cctcc/nsphere/experiments/AbsExperiment.java:92-117 | a generation entered while the goal is unmet keeps the loop invariant |
| Engine.IterateRuns | src/main/java/art/cctcc/nsphere/experiments/AbsExperiment.java:92-117 | running generation after generation from a state that keeps the loop invariant ends in one that keeps it, with one row per generation, at most `upperLimit` rows, and `finished` exactly on convergence |
| Engine.Iterate | src/main/java/art/cctcc/nsphere/experiments/AbsExperiment.java:92-117 | the while loop as a recursion: it stops before a generation once the goal was met (Converged) or the row count reached `upperLimit` (CappedOut, with at least `upperLimit` rows), stops at a fault, and otherwise runs the next generation on the state the last one left and appends its row; the counter equals the row count and never falls below the rows it started with |
| Engine.Run | src/main/java/art/cctcc/nsphere/experiments/AbsExperiment.java:80-117 | the outcome is the recursion `Iterate` from the initial state, so row `k` is the record of the generation run on the state generation `k - 1` left; at most `upperLimit` generations (the source's settable `UpperLimit`, default 10000000), one row each numbered from 0; stops at the first generation whose survivors meet the goal; Plus mode keeps `mu` parents; against the header's `mu` parent labels, the first row has one cell per initial parent, every Plus row from `mu` parents fits the header exactly, and in Comma mode every later row has `min(mu, lambda)` parent cells, so fewer cells than labels when `lambda < mu` |
| Legacy.NewGlobalSteps | src/main/java/art/cctcc/nsphere/ExperimentUncorrelatedNStepSize.java:42-52 | one global vector of `n` step sizes, all equal to `stddev` |
| Legacy.LegacyMutate | src/main/java/art/cctcc/nsphere/Experiment.java:153-158 | the plain operator returns a new array, gene `i` plus `stddev` times draw `i`, and leaves the input as it was; the global operator fails exactly when the chromosome is longer than `n` |
| Legacy.GlobalMutation | src/main/java/art/cctcc/nsphere/ExperimentUncorrelatedNStepSize.java:63-88 | one `g'`, then `n` draws; every step is updated (at least `epsilon0`); gene `j` reuses draw `j` with the updated step `j`; the perturbed genes are also written back into the input |
| Legacy.BreedOne | src/main/java/art/cctcc/nsphere/Experiment.java:119-124 | one offspring slot succeeds iff `mu > 0`, the `rngInt(mu)` index is a parent position and the mutation succeeds; the child is a new individual with the mutated genes; the drawn parent takes back the chromosome the operator left, keeping its cached evaluation; nothing else changes |
| Legacy.LegacyBreed | src/main/java/art/cctcc/nsphere/Experiment.java:119-124 | `lambda` new unevaluated offspring; the first is the first slot's child and the rest are bred from the parents, operator and stream it left; the parents keep their cached evaluations and step sizes; with the plain operator they are unchanged |
| Legacy.LegacyReplace | src/main/java/art/cctcc/nsphere/Experiment.java:126-136 | the offspring are evaluated and their values reported; the survivors are exactly the selection (the `mu` best, stable) from the evaluated offspring followed by the parents, cut to `lambda + mu` (Plus) or `lambda` (Comma); they are sorted and evaluated |
| Legacy.Cap | src/main/java/art/cctcc/nsphere/Experiment.java:116 | the counter's cap is the fixed 10000000 of the older loop |
| Legacy.PoolLimit | src/main/java/art/cctcc/nsphere/Experiment.java:133 | the cut before sorting keeps at least the `lambda` offspring: `lambda + mu` members in Plus mode, `lambda` in Comma mode |
| Legacy.ReplaceMatchesPool | src/main/java/art/cctcc/nsphere/Experiment.java:132-136 | with `lambda` offspring and at most `mu` parents the cut keeps the whole list, so the older replacement selects from the same pool as the newer engine: offspring, plus parents only in Plus mode |
| Legacy.BreedAndReplace | src/main/java/art/cctcc/nsphere/Experiment.java:119-136 | succeeds iff breeding does; the offspring cells, survivors and log are those of replacing from the bred offspring and the parents as breeding left them; `lambda` cells and the right number of sorted, evaluated survivors |
| Legacy.LegacyGeneration | src/main/java/art/cctcc/nsphere/Experiment.java:111-138 | the average is taken first; `finished` holds iff it is at most 0.0005 or the incremented counter reaches the cap; the counter is not advanced when the average already met the threshold; breeding, the row and selection still run, from the parents after their evaluation; with parents, the generation succeeds exactly when breeding and replacing does and otherwise fails with its fault |
| Legacy.ProgressStep | src/main/java/art/cctcc/nsphere/Experiment.java:116-117 | the counter bookkeeping of the do-while is kept by every generation |
| Legacy.Finished | src/main/java/art/cctcc/nsphere/Experiment.java:111-138 | when the loop ends, every row but the last missed the threshold and the last row says why it stopped |
| Legacy.StopReason | src/main/java/art/cctcc/nsphere/Experiment.java:116-117 | a finished run stopped because the last row's average met the 0.0005 threshold (Converged) and otherwise because the counter reached the cap (CappedOut); never a fault |
| Legacy.LegacyIterate | src/main/java/art/cctcc/nsphere/Experiment.java:111-138 | the do-while as a recursion: a generation always runs; the loop ends at a fault, or after appending the row of the generation that finishes, with the stop reason that row gives; otherwise it continues from the state that generation left; the header is the six-label one and rows are only ever appended |
| Legacy.LegacyIterateStep | src/main/java/art/cctcc/nsphere/Experiment.java:111-138 | the do-while ends at a fault, or after the row of the generation that finishes, and otherwise continues from the state that generation left |
| Legacy.LegacyRunningStep | src/main/java/art/cctcc/nsphere/Experiment.java:111-138 | a generation entered while running keeps the loop invariant: counter bookkeeping, operator shape, first-row width and, with the plain operator, right caches |
| Legacy.LegacyIterateRuns | src/main/java/art/cctcc/nsphere/Experiment.java:111-138 | iterating from a running state keeps the invariant, under the written header; a run that did not fail stopped for the reason its last row gives; with no parents the first generation fails with `NoSuchElement` |
| Legacy.RunningOutcome | src/main/java/art/cctcc/nsphere/Experiment.java:111-138 | an outcome that keeps the invariant has rows numbered from 0, every row but the last above the threshold, a last row that says why it stopped, and the counter one short of the rows on convergence and at the cap otherwise |
| Legacy.LegacyRun | src/main/java/art/cctcc/nsphere/Experiment.java:90-138 | the outcome is the recursion `LegacyIterate` from `mu` all-ones parents, so row `k` is the record of the generation run on the state generation `k - 1` left; the header is the six-label one the loop writes, which fits the first row only when `mu + lambda == 4`; one row per generation, numbered from 0; the counter ends one short of the rows on convergence and at the cap otherwise; every row but the last missed; with the plain operator every cache stays right |
| Legacy.SelectConsistent | src/main/java/art/cctcc/nsphere/Experiment.java:132-136 | selection from a consistent pool gives consistent parents |
| Legacy.LegacyHeader | src/main/java/art/cctcc/nsphere/Experiment.java:101-107 | the header as written has six labels: `X0, X(mu), Y0, Y(lambda)` whatever the sizes |
| Legacy.LegacyHeaderMislabels | src/main/java/art/cctcc/nsphere/Experiment.java:101-107 | that header always differs from the intended one and names a parent column `X(mu)` that no row has |
| Legacy.LegacyHeaderExample | src/main/java/art/cctcc/nsphere/Experiment.java:101-107 | for `mu = 3, lambda = 5` it labels `X0, X3, Y0, Y5` where the rows have ten cells |
| Legacy.StaleEvaluation | src/main/java/art/cctcc/nsphere/ExperimentUncorrelatedNStepSize.java:85-87 | breeding with the global operator changes an evaluated parent's genes in place while it keeps its old evaluation, which no longer matches |

## Left out

- Floating point: genes, evaluations and step sizes are mathematical reals. There is no IEEE rounding,
  overflow, NaN or `DoubleStream.average` corner case.
- The random generators (Xoshiro256++, Mersenne Twister, the `Parameters` wrappers): draws are an input
  stream. The reduction of a raw integer into `[0, bound)` is abstracted as `raw % bound`. Statistical
  and convergence claims are not stated.
- `Math.pow(Math.E, x)` and `Math.sqrt` are function parameters; lemmas that need facts about `sqrt` take
  them as a precondition.
- CSV output, the header and row strings, number formatting, titles, logging and wall-clock timing: the
  header is a list of column labels and a row a list of reals.
- `ESMain`, `Plot`, `Tools` and `RandomNumberGenerator`: orchestration, charts and generator plumbing.
- `Collections.synchronizedList`: a run is sequential.
- `OneFifth.Adapt`: the factor `a = 0` (an IEEE division by zero) is excluded by the `NonZero` type.
- Integer overflow of `2 * n` and of the generation counter: integers are unbounded.
- The newer engine takes its initial population as an input. The older engine builds it from
  `generate(n)`, as its code does.
- `ExperimentFSS.java:35-39` (top level) evaluates without the cache and without logging. The model
  routes every evaluation through the cache. The values are the same sphere values, but with that
  subclass the log would stay empty and a parent would be re-evaluated on every request.

## Findings

| source | as written | input that shows it | evidently intended | confidence | as-written member | corrected member |
|---|---|---|---|---|---|---|
| src/main/java/art/cctcc/nsphere/Experiment.java:101-107 | the header columns come from `IntStream.of(0, mu)` and `IntStream.of(0, lambda)`, i.e. the two values `0` and `mu` | `mu = 3, lambda = 5`: header `X0, X3, Y0, Y5` over rows of ten cells | the ranges `0 .. mu-1` and `0 .. lambda-1`, as the newer engine writes them | high; not executed | Legacy.LegacyHeaderMislabels | Engine.HeaderDistinct |
