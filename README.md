# memega core in Dafny

This project models the core of memega, a generic evolutionary-computation
engine written in Rust, and proves properties of that model. It covers:

- **Configuration.** The older `Cfg` and the newer `EvolveCfg`: their
  defaults, their builder setters and the sampling ranges of each strategy
  enum.
- **Two generation engines**, the older `gen` and the newer `genr`, each with
  its evaluated and unevaluated generations.
  - Evaluation checks fitness signs, sorts the population and bisects a
    species radius.
  - Species assignment uses a distance cache.
  - Per-species survivor proportions, age and tournament survival, refill by
    breeding or random generation, and duplicate removal.
  - Members and their adaptive parameters.
- **Sequence operators**: k-point, uniform and partially-mapped crossover,
  and swap, insert, scramble, inversion, reset, rate and creep mutation.
  - Every operator except creep mutation works in place on arrays.
  - Partially-mapped crossover builds each child in a fresh vector first.
  - The distance functions.
- **The meta-GA hyper genome**: random states, field-wise crossover, and the
  mutation of its configuration and weights.
- **Two linear-genetic-programming machines.**
  - The byte-coded machine: its operations, execution, assembler,
    disassembler and genome.
  - The register machine: its opcodes and operands, its configuration,
    execution, assembler and disassembler, the `LgpVm` interpreter, and the
    backward effective-register optimizer.
- **The runner's bookkeeping**: stagnation counting, initial population
  padding, the per-species allocation of a summary sample, and the per-run
  result statistics.

Randomness is passed in as explicit draws. Floating-point values are modelled
as `real`. A Rust panic becomes an explicit outcome (`None`, `Panic` or a
flag) wherever the source can reach it. Objects whose fields the source
updates in place become classes with `modifies` clauses. Loops that build
strings, vectors or flag tables become methods proved against the functions
that specify them.

## Model

| member | source | states |
|---|---|---|
| Config.New | src/cfg.rs:132-146 | the defaults: adaptive crossover and mutation, top 20% survival, SUS selection, no niching, species or stagnation, duplicates disallowed, no parallelism |
| Config.WithPopSize | src/cfg.rs:148-151 | sets the population size; every other field is unchanged |
| Config.WithCrossover | src/cfg.rs:152-155 | sets the crossover strategy; every other field is unchanged |
| Config.WithMutation | src/cfg.rs:156-159 | sets the mutation strategy; every other field is unchanged |
| Config.WithSurvival | src/cfg.rs:160-163 | sets the survival rule; every other field is unchanged |
| Config.WithSelection | src/cfg.rs:164-167 | sets the selection rule; every other field is unchanged |
| Config.WithNiching | src/cfg.rs:168-171 | sets the niching rule; every other field is unchanged |
| Config.WithSpecies | src/cfg.rs:172-175 | sets the species rule; every other field is unchanged |
| Config.WithStagnation | src/cfg.rs:176-179 | sets the stagnation rule; every other field is unchanged |
| Config.WithDuplicates | src/cfg.rs:180-183 | sets the duplicates rule; every other field is unchanged |
| Config.WithParFitness | src/cfg.rs:184-190 | sets the parallel-fitness flag; every other field is unchanged |
| Config.WithParDist | src/cfg.rs:191-194 | sets the parallel-distance flag; every other field is unchanged |
| Config.BuilderLaws | src/cfg.rs:148-194 | builders on different fields commute, a later builder on a field overrides an earlier one, and re-setting a field's own value is the identity |
| Config.SampleSurvival | src/cfg.rs:31-38 | the proportion lies in [0, 0.9); the first draw 0 gives `TopProportion`, any other `SpeciesTopProportion` |
| Config.SampleSelection | src/cfg.rs:46-53 | SUS exactly for the draw 0, roulette otherwise |
| Config.SampleNiching | src/cfg.rs:61-68 | no niching exactly for the draw 0, shared fitness otherwise |
| Config.SampleSpecies | src/cfg.rs:76-83 | no species exactly for the draw 0; otherwise a target between 1 and 9 |
| Config.SampleStagnation | src/cfg.rs:92-99 | the draw from 0..1 can only be 0, so the result is always no stagnation |
| Config.SampleDuplicates | src/cfg.rs:107-114 | the draw from 0..1 can only be 0, so duplicates are always disallowed |
| EvolveConfig.New | src/evolve/cfg.rs:204-222 | the defaults: adaptive crossover and mutation, top 20% survival, SUS, no niching, species or stagnation, the default stagnation condition, 20% of children replaced, duplicates disallowed, arithmetic-mean reduction, no parallelism |
| EvolveConfig.SetPopSize | src/evolve/cfg.rs:223-226 | sets the population size; every other field is unchanged |
| EvolveConfig.SetCrossover | src/evolve/cfg.rs:227-230 | sets the crossover strategy; every other field is unchanged |
| EvolveConfig.SetMutation | src/evolve/cfg.rs:231-234 | sets the mutation strategy; every other field is unchanged |
| EvolveConfig.SetSurvival | src/evolve/cfg.rs:235-238 | sets the survival rule; every other field is unchanged |
| EvolveConfig.SetSelection | src/evolve/cfg.rs:239-242 | sets the selection rule; every other field is unchanged |
| EvolveConfig.SetNiching | src/evolve/cfg.rs:243-246 | sets the niching rule; every other field is unchanged |
| EvolveConfig.SetSpecies | src/evolve/cfg.rs:247-250 | sets the species rule; every other field is unchanged |
| EvolveConfig.SetStagnation | src/evolve/cfg.rs:251-254 | sets the stagnation rule; every other field is unchanged |
| EvolveConfig.SetStagnationCondition | src/evolve/cfg.rs:255-258 | sets the stagnation condition; every other field is unchanged |
| EvolveConfig.SetReplacement | src/evolve/cfg.rs:259-262 | sets the replacement rule; every other field is unchanged |
| EvolveConfig.SetDuplicates | src/evolve/cfg.rs:263-266 | sets the duplicates rule; every other field is unchanged |
| EvolveConfig.SetFitnessReduction | src/evolve/cfg.rs:267-270 | sets the fitness reduction; every other field is unchanged |
| EvolveConfig.SetParFitness | src/evolve/cfg.rs:271-274 | sets the parallel-fitness flag; every other field is unchanged |
| EvolveConfig.SetParDist | src/evolve/cfg.rs:275-278 | sets the parallel-distance flag; every other field is unchanged |
| EvolveConfig.SampleSurvival | src/evolve/cfg.rs:36-43 | only the two proportional rules, never `Youngest` or `Tournament`, with a proportion in [0, 0.9); `TopProportion` exactly for the draw 0 |
| EvolveConfig.SampleSelection | src/evolve/cfg.rs:52-59 | SUS exactly for the draw 0, roulette otherwise |
| EvolveConfig.SampleNiching | src/evolve/cfg.rs:69-77 | no niching for the draw 0, shared fitness with a radius in [0, 100) for 1, species shared fitness for 2 |
| EvolveConfig.SampleSpecies | src/evolve/cfg.rs:86-94 | no species exactly for the draw 0; otherwise a target between 1 and 9 |
| EvolveConfig.SampleStagnation | src/evolve/cfg.rs:105-113 | the draw from 0..2 never reaches `ContinuousAfter`; `OneShotAfter` waits between 1 and 999 generations |
| EvolveConfig.SampleStagnationCondition | src/evolve/cfg.rs:125-131 | never an explicit epsilon |
| EvolveConfig.SampleReplacement | src/evolve/cfg.rs:140-144 | the replaced proportion lies in [0, 1) |
| EvolveConfig.SampleDuplicates | src/evolve/cfg.rs:153-160 | the draw from 0..1 can only be 0, so duplicates are always disallowed |
| EvolveConfig.SampleFitnessReduction | src/evolve/cfg.rs:171-178 | the draw from 0..1 can only be 0, so the reduction is always the arithmetic mean |
| Distance.DistFn | src/ops/distance.rs:8-15 | the loop computes the length difference times `missing` plus the sum of `f` over the common prefix |
| Distance.DistFnSymmetric | src/ops/distance.rs:8-15 | with a symmetric `f`, `dist_fn` is symmetric |
| Distance.DistFnSelfZero | src/ops/distance.rs:8-15 | with an `f` that is zero on equal elements, a genome is at distance zero from itself |
| Distance.DistAbs | src/ops/distance.rs:18-23 | the result is non-negative, is `a - b` or `b - a`, and is zero exactly when `a == b` |
| Distance.DistAbsSymmetric | src/ops/distance.rs:18-23 | `dist_abs` is symmetric |
| Distance.Dist1 | src/ops/distance.rs:26-36 | the loop computes the sum of absolute differences over the longer length, the shorter genome padded with zeros |
| Distance.Dist1Facts | src/ops/distance.rs:26-36 | `dist1` is non-negative, symmetric, zero on equal genomes, and zero exactly when the zero-padded genomes agree |
| Distance.Dist1PaddingExample | src/ops/distance.rs:29-34 | trailing zeros are invisible: `[1]` and `[1, 0]` are at distance 0; `[1, 2]` and `[4]` at distance 5 |
| Distance.CountDifferent | src/ops/distance.rs:52-62 | the loop computes the mismatches over the common prefix plus the length difference |
| Distance.CountDifferentFacts | src/ops/distance.rs:52-62 | symmetric, at most the longer length, and zero exactly when the genomes are equal |
| Distance.CountDifferentExamples | src/ops/distance.rs:85-90 | the four cases of the source's test |
| Distance.KendallTau | src/ops/distance.rs:65-78 | the double loop computes the discordant-pair count, or the "must be same length" error on unequal lengths |
| Distance.KendallTauFacts | src/ops/distance.rs:65-78 | for equal lengths: never an error, symmetric, zero on a genome with itself, at most n(n-1)/2 |
| Distance.KendallTauErrorExample | src/ops/distance.rs:66-68 | unequal lengths give the error |
| Distance.KendallTauExamples | src/ops/distance.rs:93-97 | the first four cases of the source's test |
| Distance.KendallTauFiveExample | src/ops/distance.rs:98 | `[1,2,3,4,5]` against `[3,4,1,2,5]` has 4 discordant pairs |
| GenParams.Draws | src/gen/params.rs:22 | `rand_vec`: `count` values, the i-th being the draw at position `from + i` |
| GenParams.New | src/gen/params.rs:17-32 | fixed weights are copied from the configuration; adaptive ones are the requested number of fresh draws in [0, 1), mutation drawn before crossover |
| GenParams.NewMem | src/gen/evaluated.rs:170-176 | a generated member has the given genome and parameters, no species and both fitnesses 0 |
| GenrParams.New | src/genr/params.rs:17-32 | fixed weights are copied; adaptive ones are the requested number of fresh draws in [0, 1), mutation first |
| GenMember.New | src/gen/member.rs:21-30 | the given state, parameters as `Params::new` gives them, no species, both fitnesses 0, age 0 |
| GenEvaluated.SortDesc | src/gen/evaluated.rs:23 | sorting by a key in descending order is a permutation with non-increasing keys |
| GenEvaluated.New | src/gen/evaluated.rs:19-25 | the same members (as a multiset), in non-increasing base fitness |
| GenEvaluated.NewSorted | src/gen/evaluated.rs:19-25 | members already in non-increasing base fitness keep their order |
| GenEvaluated.SpeciesMems | src/gen/evaluated.rs:27-33 | exactly the members whose species is the given id, no more members than the generation has |
| GenEvaluated.SpeciesMemsAllOrNone | src/gen/evaluated.rs:27-33 | filtering keeps all of a run of one species when the id matches and none otherwise |
| GenEvaluated.SpeciesFacts | src/gen/evaluated.rs:36-42 | the species list is strictly increasing, duplicate-free, and holds exactly the ids some member has |
| GenEvaluated.CeilCount | src/gen/evaluated.rs:52 | `ceil() as usize`: the least whole number at least x, 0 for non-positive x |
| GenEvaluated.Take | src/gen/evaluated.rs:53 | `take(k)`: the first min(k, n) members |
| GenEvaluated.TopProportion | src/gen/evaluated.rs:46-54 | the first ceil(pop_size * prop) members, or all of them when fewer |
| GenEvaluated.TopProportionKeepsBest | src/gen/evaluated.rs:46-54 | from members sorted by fitness, every proportional survivor is at least as fit as every member left out |
| GenEvaluated.PerSpecies | src/gen/evaluated.rs:59-61 | every member collected species by species comes from the generation |
| GenEvaluated.PerSpeciesBlock | src/gen/evaluated.rs:59-61 | filtering the per-species collection by one species gives that species' first members, and nothing for a species not listed |
| GenEvaluated.SpeciesTopProportion | src/gen/evaluated.rs:55-63 | every survivor comes from the generation |
| GenEvaluated.SpeciesTopProportionPerSpecies | src/gen/evaluated.rs:55-63 | each species keeps exactly its first ceil(pop_size * prop / number of species) members, in order |
| GenEvaluated.Survivors | src/gen/evaluated.rs:44-65 | survivors come from the generation and follow the configured rule |
| GenEvaluated.FirstNegative | src/gen/evaluated.rs:88-92 | `None` exactly when every weight is non-negative; otherwise the index of the first negative weight |
| GenEvaluated.CheckWeights | src/gen/evaluated.rs:80-94 | accepted exactly when the length is l and every weight is non-negative; a wrong length is reported first with both lengths, otherwise the first negative weight |
| GenEvaluated.RefillGenerated | src/gen/evaluated.rs:169-177 | the list is extended to max(n, pop_size), keeping its prefix; every new member is built from a generated genome |
| GenEvaluated.RefillBred | src/gen/evaluated.rs:180-188 | pairs are pushed until there are at least pop_size members (at most one over), keeping the prefix; a full list is left alone; a failed reproduction is a panic |
| GenEvaluated.DedupByKeyFacts | src/gen/evaluated.rs:192-195 | after sort and `dedup_by` the members are sorted, pairwise different in genome, drawn from the input, cover each genome of it, and empty only for an empty input |
| GenEvaluated.NextGen | src/gen/evaluated.rs:152-198 | never an error; every member is a survivor, a generated member or a child; under `DisallowDuplicates` sorted and genome-distinct; under `AllowDuplicates` the survivors first and pop_size to pop_size+1 members (exactly max(survivors, pop_size) with a generation function); an empty result is the panic of `UnevaluatedGen::new` |
| GenrEvaluated.New | src/genr/evaluated.rs:24-30 | the same members (as a multiset), in non-increasing fitness |
| GenrEvaluated.YoungestFacts | src/genr/evaluated.rs:71-77 | `Youngest` keeps min(pop_size, n) members of the generation, ordered by age, none left out younger than one kept |
| GenrEvaluated.Wins | src/genr/evaluated.rs:82-83 | the number of strictly fitter opponents is at most the number of opponents |
| GenrEvaluated.TournamentOrder | src/genr/evaluated.rs:86 | the order lists every member index once, most wins first |
| GenrEvaluated.TournamentFacts | src/genr/evaluated.rs:78-88 | the tournament lists every member exactly once, position k holding member order[k] for a permutation order of the indices sorted by non-increasing wins |
| GenrEvaluated.Chosen | src/genr/evaluated.rs:52-89 | each survival rule gives its own list: the shared proportional rules, `Youngest`, or the tournament |
| GenrEvaluated.ChosenFromMembers | src/genr/evaluated.rs:52-89 | every survivor is a member of the generation |
| GenrEvaluated.BumpAges | src/genr/evaluated.rs:91-93 | the loop leaves every survivor one generation older and nothing else changed |
| GenrEvaluated.Survivors | src/genr/evaluated.rs:51-95 | the survivors of the rule, each one generation older, each an aged member of the generation |
| GenrEvaluated.ReplacementsBound | src/genr/evaluated.rs:182-188 | with a proportion in [0, 1] the fresh members fill at most the gap to pop_size, and none once the survivors reach it |
| GenrEvaluated.PushFresh | src/genr/evaluated.rs:189-191 | num fresh members are appended after the existing ones, the k-th being the k-th generated one |
| GenrEvaluated.Start | src/genr/evaluated.rs:177-192 | `StartsFrom`: the aged survivors, followed only when stagnant by ceil(prop * (pop_size - survivors)) fresh members |
| GenrEvaluated.Reproduce | src/genr/evaluated.rs:196-213 | never an error; every member is a starting member or a child; under `DisallowDuplicates` sorted and state-distinct; under `AllowDuplicates` the start first and pop_size to pop_size+1 members; a failed reproduction is a panic |
| GenrEvaluated.NextGen | src/genr/evaluated.rs:169-215 | the composition of the two: survivors aged, fresh members when stagnant, then the reproduction rounds with the same guarantees |
| GenSpecies.NewSpeciesInfo | src/gen/species.rs:19-24 | one species, radius 1 |
| GenSpecies.FlatIndex | src/gen/species.rs:154-156 | the flat index i * n + j of a pair inside the n-by-n matrix lies inside the cache and no other pair shares it |
| GenSpecies.MatrixMaxFacts | src/gen/species.rs:70-77 | the folded maximum is at least its start and every cached distance, and is one of them |
| GenSpecies.DistCache.constructor | src/gen/species.rs:42-49 | an empty cache with zero size, maximum and sum |
| GenSpecies.DistCache.Mean | src/gen/species.rs:136-138 | `None` (the NaN of 0/0) exactly for an empty cache; otherwise the mean times n² is the sum |
| GenSpecies.DistCache.Ensure | src/gen/species.rs:51-81 | a filled cache is left alone; an empty one is filled with the distance of every ordered pair of genomes, the maximum and the sum folded over them |
| GenSpecies.FillRow | src/gen/species.rs:71-76 | one pass of the inner loop writes the distances from genome i into row i of the cache, keeps the earlier rows, and folds those distances into the maximum and the sum |
| GenSpecies.DistCache.Retain | src/gen/species.rs:97-104 | members within the radius of the leader join its species and leave the queue; the rest keep their id and stay, in order |
| GenSpecies.DistCache.RoundIds | src/gen/species.rs:92-106 | a round keeps assigned ids; an unassigned member either joins the new species or stays queued; the leader joins it |
| GenSpecies.DistCache.RoundLeaders | src/gen/species.rs:92-106 | after a round the leaders are the earlier ones plus the new leader |
| GenSpecies.DistCache.RoundContiguous | src/gen/species.rs:92-106 | after a round every species 1..num has a leader |
| GenSpecies.DistCache.RoundGrouped | src/gen/species.rs:92-106 | after a round every member is within the radius of its species' leader |
| GenSpecies.DistCache.RoundSeparated | src/gen/species.rs:92-106 | after a round every leader is farther than the radius from the members of later species and from the queued ones |
| GenSpecies.DistCache.RoundOrdered | src/gen/species.rs:92-106 | after a round species are numbered in the order of their leaders, and every leader precedes the queued members |
| GenSpecies.DistCache.SpeciateStart | src/gen/species.rs:89-91 | with every member unassigned and waiting in index order, the loop invariant of `speciate` holds with the first id 1 |
| GenSpecies.DistCache.SpeciateStep | src/gen/species.rs:92-106 | one round preserves the loop invariant of `speciate` |
| GenSpecies.DistCache.Speciate | src/gen/species.rs:83-110 | panics exactly when the members are not sorted by non-increasing fitness; otherwise every member gets an id in 1..num, ids are contiguous and numbered in leader order, each member is within the radius of its leader, leaders are farther than the radius from later species, num ≤ n + 1, and the record keeps the radius |
| GenUnevaluated.BisectionRounds | src/gen/unevaluated.rs:69-77 | halving the interval a bounded number of times brings it within `EP`: the bisection terminates |
| GenUnevaluated.Scored | src/gen/unevaluated.rs:47-49 | each member's base fitness is the evaluator's fitness of its genome, everything else unchanged |
| GenUnevaluated.UnevaluatedGen.New | src/gen/unevaluated.rs:25-34 | panics exactly on an empty member list; otherwise the members as given, one species of radius 1 and an empty distance cache |
| GenUnevaluated.UnevaluatedGen.Initial | src/gen/unevaluated.rs:17-23 | one fresh member per genome with its drawn parameters, panicking exactly when there are no genomes |
| GenUnevaluated.UnevaluatedGen.ScoreAll | src/gen/unevaluated.rs:46-50 | the loop scores every member |
| GenUnevaluated.UnevaluatedGen.Bisect | src/gen/unevaluated.rs:64-77 | with no round the ids are empty and the species record kept; otherwise the ids are a valid speciation (contiguous, ordered, grouped, separated) at the last round's radius |
| GenUnevaluated.UnevaluatedGen.AssignSpecies | src/gen/unevaluated.rs:79-81 | member i takes id i where there is one and keeps its species elsewhere; nothing else changes |
| GenUnevaluated.UnevaluatedGen.SetSelection | src/gen/unevaluated.rs:86-96 | without niching the selection fitness is the base fitness; with shared fitness it is the shared value; nothing else changes |
| GenUnevaluated.UnevaluatedGen.EnsureFor | src/gen/species.rs:51-53 | an empty cache ends up holding the distance between every ordered pair of the genomes; a cache already sized for them is left unchanged |
| GenUnevaluated.UnevaluatedGen.SpeciesStep | src/gen/unevaluated.rs:62-77 | without a target nothing changes; with one the cache is sized for the members (and filled with their distances if it was empty), and the ids are either empty with the species kept or a grouped, separated speciation |
| GenUnevaluated.UnevaluatedGen.Label | src/gen/unevaluated.rs:79-96 | species ids copied in where there are some, then the selection fitness niching gives; genome, parameters and base fitness untouched |
| GenUnevaluated.UnevaluatedGen.Settle | src/gen/unevaluated.rs:61-102 | `SettledFrom`: genomes, parameters and base fitness kept; species unchanged without a target, otherwise either unchanged or a valid speciation; selection fitness as the niching rule says; `CacheSettled`: under a species target or shared fitness the cache is sized for the members, and holds their distances if it was empty before |
| GenUnevaluated.UnevaluatedGen.Rank | src/gen/unevaluated.rs:57-104 | the members sorted by non-increasing base fitness (a permutation), then settled (`SettledFrom`, `CacheSettled`); the evaluated generation holds exactly the settled members |
| GenUnevaluated.UnevaluatedGen.Evaluate | src/gen/unevaluated.rs:36-105 | an error exactly when some fitness is negative, with the scores kept; otherwise the members are a permutation of the scored ones sorted best first, settled as above (the distance cache included), and the evaluated generation holds them; under a species target or shared fitness, with members, the mean distance is defined |
| Runner.Decide | src/run/runner.rs:82-93 | no rule is never stagnant; `OneShotAfter(c)` fires at a counter of at least c and resets it; `ContinuousAfter(c)` stays stagnant from c on |
| Runner.Flags | src/run/runner.rs:74-93 | one stagnant flag per generation |
| Runner.NoneNeverStagnant | src/run/runner.rs:83 | without a stagnation rule no generation is ever stagnant |
| Runner.ChangeIsNotStagnant | src/run/runner.rs:75-79 | a change of best fitness resets the counter and is not stagnant under any rule with a positive threshold |
| Runner.OneShotStep | src/run/runner.rs:84-91 | below the threshold, an unchanged generation moves the counter one step round a cycle of length c |
| Runner.OneShotPeriodic | src/run/runner.rs:84-91 | on a fitness that never changes, `OneShotAfter(c)` is stagnant exactly every c-th generation |
| Runner.ContinuousFromThreshold | src/run/runner.rs:92 | on a fitness that never changes, `ContinuousAfter(c)` is stagnant at every generation from the c-th on |
| Runner.RelativelyEqualFacts | src/runner.rs:138 | for a positive last fitness the test is a relative error below 1e-12; a zero last fitness (the initial one) never matches; a negative one always does |
| Runner.Runner.constructor | src/run/runner.rs:44-46 | all counters and the last fitness start at zero |
| Runner.Runner.Observe | src/evolve/evolver.rs:70-99 | the generation counter goes up by one, the last fitness becomes the best, and the counter and stagnant flag are one `Step` of the rule, as in the older runner as well |
| Runner.Runner.ObserveRelative | src/runner.rs:134-156 | the same bookkeeping with the relative-error comparison and no generation counter |
| Runner.Pad | src/runner.rs:108-110 | the initial genomes are kept as a prefix and padded with random genomes up to pop_size |
| Runner.FromInitial | src/runner.rs:99-120 | member i of the first generation has the i-th padded genome and its drawn parameters; counters at zero; a panic exactly when there is no genome at all |
| Runner.Round | src/runner.rs:216-223 | every species with members left contributes its next member, at most one per species, in species order |
| Runner.AppendPick | src/runner.rs:216-223 | adding the pick of a later species keeps the round's picks in increasing species order, each the round's member of its species |
| Runner.SortedPicks | src/runner.rs:230 | sorting the picks keeps one pick per species, each a pick of the round |
| Runner.TrimWeakest | src/runner.rs:227-234 | every pick taken back is a pick of the round and at most every pick kept, in the (fitness, index) order |
| Runner.Trim | src/runner.rs:227-234 | exactly `overflow` picks are taken back, one from each of their species, the weakest first |
| Runner.Rounds | src/runner.rs:212-235 | after the rounds every species gives min(rounds, size); short of n only when every species is exhausted; an overflowing last round is recorded |
| Runner.Allocate | src/runner.rs:199-235 | species i gives min(rounds, size) members, one fewer when trimmed; trimmed species are the weakest of the last round; n members in all, or every member when there are fewer |
| Runner.AllocationFair | src/runner.rs:199-235 | no species gives more members than it has, and one gives two more than another only when the other is exhausted |
| HyperEval.Random | src/evaluators/hyper/eval.rs:27-37 | crossover then mutation weights are the next draws of the stream, all in [0, 1); the configuration is the default for pop_size with survival, selection, niching and species sampled, and both weight kinds adaptive |
| HyperEval.Crossed | src/evaluators/hyper/eval.rs:56-91 | a panic exactly for an index of 4 or more; 0 changes nothing; 1 swaps configuration fields by coin flips; 2 and 3 blend the crossover or mutation weights and leave everything else alone |
| HyperEval.SwapFieldsPairs | src/evaluators/hyper/eval.rs:58-86 | for every configuration field the two children hold the parents' two values between them; population size and parallel flags are untouched; swapping again with the same coins restores the parents |
| HyperEval.Adjusted | src/evaluators/hyper/eval.rs:110-120 | the weight vector keeps its length, every weight is non-negative, and each is its normal redraw or 0 when that is negative |
| HyperEval.ToggleCrossover | src/evaluators/hyper/eval.rs:96-109 | `Fixed(v)` becomes `Adaptive` with v kept as the fallback weights; `Adaptive` becomes `Fixed` with the fallback weights |
| HyperEval.ToggleMutation | src/evaluators/hyper/eval.rs:121-134 | the same toggle for the mutation weights |
| HyperEval.Resampled | src/evaluators/hyper/eval.rs:146-175 | mutations 4 to 9 replace exactly one configuration field by its sample and leave the others |
| HyperEval.Mutated | src/evaluators/hyper/eval.rs:93-178 | a panic exactly for an index of 10 or more, or for a rate outside [0, 1] at an index that draws `gen_bool` (all but 1 and 3); when the rate's coin does not fire only the always-on adjustments (1 and 3) change anything; each index touches only its own part of the state |
| HyperEval.ToggleRoundTrip | src/evaluators/hyper/eval.rs:96-109 | with a rate in [0, 1], toggling twice restores the configuration; from `Adaptive` it restores the whole state |
| HyperEval.AdjustLocal | src/evaluators/hyper/eval.rs:110-145 | adjusting touches only the weights in use: length kept, all non-negative, the kind of configuration and the other vector unchanged |
| HyperEval.ResampledRanges | src/evaluators/hyper/eval.rs:146-175 | with the configuration samplers and a rate in [0, 1], a resampled stagnation rule is always none, duplicates always disallowed, a species target in 1..9 and a survival proportion in [0, 0.9) |
| HyperEval.State.Rand | src/evaluators/hyper/eval.rs:27-37 | the new state is `Random` of the same draws |
| HyperEval.State.Mutate | src/evaluators/hyper/eval.rs:93-178 | panics exactly when `Mutated` does (an index of 10 or more, or a rate outside [0, 1] at an index that calls `gen_bool`); the field updates in place leave the state equal to `Mutated` of the old one; a panic leaves it unchanged |
| HyperEval.Crossover | src/evaluators/hyper/eval.rs:56-91 | the two states in place become the pair `Crossed` gives; a panic leaves both unchanged |
| LgpAsm.ParseMnemonic | src/lgp/asm.rs:8-24 | a recognised mnemonic is the displayed mnemonic of the opcode it yields |
| LgpAsm.MnemonicRoundTrip | src/lgp/asm.rs:8-24 | every opcode's mnemonic is read back as that opcode |
| LgpAsm.RegValue | src/lgp/asm.rs:31 | a panic exactly when the token without `,[]` is empty or starts with a multi-byte character; otherwise the rest after the first character parsed as a `u8`, or an error carrying the `ParseIntError` message of that text |
| Text.ParseU8 | src/lgp/asm.rs:31 | the `u8` parse succeeds exactly on the texts integer `FromStr` accepts for [0, 255] (`ParseInt`: an optional '+', then digits worth at most 255), and gives their value |
| Text.ParseU8I8Fail | src/lgp/asm.rs:31 | the `u8` and `i8` parses fail exactly when the digit loop of `from_str_radix` (`IntError`) reports an error |
| Text.ParseI8 | src/lgp/asm.rs:45 | the `i8` parse succeeds exactly on the texts integer `FromStr` accepts for [-128, 127] (`ParseInt`: an optional sign, then digits in range), and gives their value |
| Text.IntErrorAgrees | src/lgp/asm.rs:31 | for every range, the digit-loop error model finds no error exactly when the value parse succeeds |
| Text.IntErrorExamples | src/lgp/asm.rs:45 | "" is an empty-string error, a lone sign and "-1" for `u8` are invalid digits, "256" is too large, "300x" is too large before its bad digit is reached, "2x00" is an invalid digit, and "-129" for `i8` is too small |
| LgpAsm.SatU8 | src/lgp/asm.rs:37-39 | `as u8` saturates: values in [0, 256) are kept, negatives give 0, larger values 255 |
| LgpAsm.Fract | src/lgp/asm.rs:37 | the fractional part lies in (-1, 1) and is non-negative for non-negative x |
| LgpAsm.ImmBytes | src/lgp/asm.rs:36-39 | for x in [0, 256) the high byte is floor(x) and the low byte floor(fract(x) * 256) |
| LgpAsm.ImmBytesRoundDown | src/lgp/asm.rs:36-39 | an immediate in [0, 256) is stored as the 8.8 fixed-point value at or just below it |
| LgpAsm.ImmBytesFixedPoint | src/lgp/asm.rs:36-39 | a value that is already 8.8 fixed point is stored as exactly its bytes |
| LgpAsm.AsmWords | src/lgp/asm.rs:5-51 | no token is "missing token"; an unknown mnemonic is "unknown instruction format"; a success carries the mnemonic's opcode |
| LgpAsm.ImmediateStep | src/lgp/asm.rs:34-42 | at an immediate the operand loop always decides the instruction, exactly as `Operands` does: a missing token, the float parse error, the panic of a second byte past the data, or the finished `Load` |
| LgpAsm.OperandStep | src/lgp/asm.rs:27-47 | one pass of the operand loop either decides the instruction exactly as `Operands` does from that position (a missing or unreadable token, the panic of a second immediate byte past the data, a finished `Load`), or moves on with the count and data `Operands` continues from |
| LgpAsm.ReadOperands | src/lgp/asm.rs:25-50 | the operand loop over the three table positions gives the outcome `Operands` defines |
| LgpAsm.AsmOp | src/lgp/asm.rs:5-51 | the mnemonic and then the operand loop give the same outcome as `AsmWords` on the split line: a missing token, an unknown mnemonic, or the operands' own failure |
| LgpAsm.AsmLines | src/lgp/asm.rs:53-59 | success exactly when every line assembles, with one instruction per line, in order |
| LgpAsm.AsmLinesFirstFailure | src/lgp/asm.rs:55-57 | a failed assembly reports the failure of its first failing line, all earlier lines assembling |
| LgpAsm.AsmLinesStep | src/lgp/asm.rs:55-57 | a line that assembles is prepended to the rest's result; one that fails is the result |
| LgpAsm.Asm | src/lgp/asm.rs:53-59 | the loop over the text's lines gives `AsmLines` of them |
| LgpAsm.AsmCanonical | src/lgp/asm.rs:7-50 | every assembled instruction has its unused operand bytes zero |
| LgpAsm.AsmPanics | src/lgp/asm.rs:31 | the assembler panics only in the slicing of a register token |
| LgpAsm.PanicFromSecond | src/lgp/asm.rs:31 | a panic in the operands from the second position on comes from slicing the second register token |
| LgpAsm.RegValueOf | src/lgp/asm.rs:31 | `rN`, `rN,` and `[rN],` all read back as N |
| LgpAsm.ShowTokensWords | src/evaluators/lgp/vm/op.rs:94-128 | a displayed instruction splits on whitespace into exactly its tokens |
| LgpAsm.AsmTwoRegisters | src/lgp/asm.rs:26-50 | the tokens of a two-register instruction assemble back to it |
| LgpAsm.AsmOneRegister | src/lgp/asm.rs:26-50 | the tokens of a one-register instruction assemble back to it |
| LgpAsm.TwoRegisterWords | src/lgp/asm.rs:26-33 | a mnemonic with two register operands and two register tokens assembles to those registers and a zero third byte |
| LgpAsm.OneRegisterWords | src/lgp/asm.rs:26-33 | a mnemonic with one register operand and one register token assembles to that register and zero bytes after it |
| LgpAsm.AsmLoad | src/lgp/asm.rs:34-42 | the tokens of a `load` assemble back to it, its fixed-point value stored as the bytes it came from |
| LgpAsm.LoadWords | src/lgp/asm.rs:34-42 | after a `load` register token, a missing immediate is "missing immediate for Load", an unreadable one the `ParseFloatError` message of its token, and a value x fills the two bytes with `ImmBytes(x)` |
| LgpAsm.AsmJump | src/lgp/asm.rs:43-47 | the tokens of a conditional jump assemble back to it, the `i8` offset stored as its byte |
| LgpAsm.JumpTokens | src/evaluators/lgp/vm/op.rs:114-125 | the four displayed tokens of a jump read back as its mnemonic, its two registers and its `i8` offset |
| LgpAsm.JumpWords | src/lgp/asm.rs:43-47 | two registers and an `i8` offset assemble to the jump with the offset's two's-complement byte |
| Common.I8Byte | src/lgp/asm.rs:45 | `as u8` of an `i8` gives the byte that reads back as the same `i8`, congruent to it modulo 256 |
| LgpAsm.AsmShow | src/lgp/asm.rs:5-51 | the displayed text of an instruction with zero unused bytes assembles back to that instruction |
| LgpAsm.AsmListing | src/lgp/asm.rs:53-59 | assembling the listing of such a program gives the program back |
| LgpAsm.LoadExamples | src/lgp/asm.rs:34-42 | "load r0, 1.5" stores the bytes 128 and 1; without the immediate it is "missing immediate for Load" |
| LgpAsm.JumpExample | src/lgp/asm.rs:45 | `jlt r1, r2, -3` stores the offset byte 253 |
| LgpOp.Disc | src/lgp/op.rs:16-33 | every discriminant is below `COUNT` = 14 |
| LgpOp.FromDisc | src/lgp/op.rs:79 | every value below `COUNT` is the discriminant of the opcode it converts to |
| LgpOp.DiscContiguous | src/lgp/op.rs:16-33 | the discriminants are exactly 0 to 13, one per opcode: conversion and discriminant are inverse |
| LgpOp.NumOperands | src/lgp/op.rs:114-131 | at most 3; 0 exactly for `Nop`; 1 exactly for `Abs`, `Neg`, `Log`; 3 exactly for `Load` and the jumps |
| LgpOp.Rand | src/lgp/op.rs:88-112 | a panic exactly for zero registers (`gen_range(0..0)`); otherwise the drawn opcode, unused bytes zero, and registers below the register count |
| LgpOp.Mutate | src/lgp/op.rs:134-142 | the opcode is kept, `Nop` is unchanged, only the drawn used byte changes, and by less than 64 |
| LgpOp.MutateChangesOneUsedByte | src/lgp/op.rs:134-142 | a mutated instruction differs from the original in at most one used byte |
| LgpOp.Dist | src/lgp/op.rs:145-154 | the loop computes 100 for differing opcodes plus the byte-wise absolute differences |
| LgpOp.DistFacts | src/lgp/op.rs:145-154 | symmetric, zero exactly on equal instructions, at least 100 when the opcodes differ, at most 100 + 3·255 |
| LgpMod.U8ToOpcode | src/lgp/mod.rs:11-14 | the opcode whose discriminant is v mod `COUNT`; the `unwrap` never fails |
| LgpMod.U8ToOpcodeFacts | src/lgp/mod.rs:11-14 | below `COUNT` it inverts the discriminant, the discriminant of an opcode maps back to it, and it repeats with period `COUNT` |
| LgpDisasm.Arity | src/lgp/disasm.rs:26-100 | each opcode fetches at most three operand bytes |
| LgpDisasm.FetchByte | src/lgp/disasm.rs:16-21 | inside the code the byte at `pc`; beyond it 0; at exactly `pc == len` a panic as written, 0 with the padded reading |
| LgpDisasm.FetchBytes | src/lgp/disasm.rs:31-32 | n fetches in a row panic exactly when, as written, one of them lands on `len`; otherwise n bytes, each what `fetch` gives at its position |
| LgpDisasm.StepSpec | src/lgp/disasm.rs:24-103 | a panic exactly when, as written, the instruction at `pc` runs onto `len`; otherwise the new `pc` is past the old one |
| LgpDisasm.PaddedNeverPanics | src/lgp/disasm.rs:17-18 | with the fetch the comment describes ("return 0 if we overrun") disassembly never panics |
| LgpDisasm.AsWrittenAgrees | src/lgp/disasm.rs:16-21 | where the fetch as written does not panic it reads what the padded one reads, so the text is the same |
| LgpDisasm.StepAgrees | src/lgp/disasm.rs:16-32 | a step that does not panic as written writes the same line and reaches the same `pc` as the padded step |
| LgpDisasm.AsWrittenPanicsIff | src/lgp/disasm.rs:18 | as written, disassembly from inside the code succeeds exactly when the rest of the code is whole instructions |
| LgpDisasm.AsWrittenPanicExamples | src/lgp/disasm.rs:18 | as written, an empty program and a lone `Add` opcode panic; padded they read as "nop" and "r0 += r0" |
| LgpDisasm.BasicDisasm | src/lgp/disasm.rs:116-120 | the source's test: [0, 1, 2, 3] disassembles to "nop\nr2 += r3\n" under either reading |
| LgpDisasm.ThenStep | src/lgp/disasm.rs:106-109 | one step moves its line from the result to the text written so far |
| LgpDisasm.LgpDisasm.constructor | src/lgp/disasm.rs:12-14 | `pc` 0, the code copied, no text |
| LgpDisasm.LgpDisasm.Fetch | src/lgp/disasm.rs:16-21 | the byte `FetchByte` gives; `pc` moves on by one |
| LgpDisasm.LgpDisasm.Step | src/lgp/disasm.rs:24-103 | panics exactly when `StepSpec` does; otherwise appends its line and newline and reports `pc >= len` |
| LgpDisasm.LgpDisasm.Disasm | src/lgp/disasm.rs:106-109 | the text is the old text followed by the disassembly from the old `pc`, or the panic |
| LgpExec.RelJump | src/lgp/exec.rs:43-47 | `pc + imm` when that lies in [0, len], otherwise clamped to 0 or len |
| LgpExec.Exec | src/lgp/exec.rs:51-125 | a panic exactly on an empty register file for any opcode but `Nop`; at most one register changes; only a jump moves `pc`, and only to its clamped target; `Load` writes the 8.8 fixed-point value; `Nop` changes nothing |
| LgpExec.StepSpec | src/lgp/exec.rs:50-129 | finished exactly when `pc` was at or past the end; while running `pc` stays within the code; the register count is kept |
| LgpExec.RunSpec | src/lgp/exec.rs:131-137 | the register count is kept over the run |
| LgpExec.RunPcBounded | src/lgp/exec.rs:131-137 | a run from inside the code that is still running is still inside it; one that finished went exactly one past the end |
| LgpExec.RunNeverPanics | src/lgp/exec.rs:22-29 | with a non-empty register file a run never panics |
| LgpExec.LgpExec.constructor | src/lgp/exec.rs:15-20 | `pc` 0 and copies of the registers and code |
| LgpExec.LgpExec.Reg | src/lgp/exec.rs:22-24 | register `idx % len`, or the panic on an empty register file |
| LgpExec.LgpExec.SetReg | src/lgp/exec.rs:26-29 | only register `idx % len` changes |
| LgpExec.LgpExec.Fetch | src/lgp/exec.rs:31-36 | the instruction at `pc` or `None` at or past the end; `pc` moves on either way |
| LgpExec.LgpExec.RelJmp | src/lgp/exec.rs:43-47 | `pc` becomes the clamped jump target |
| LgpExec.LgpExec.Step | src/lgp/exec.rs:50-129 | the new state and status are `StepSpec` of the old state |
| LgpExec.LgpExec.Run | src/lgp/exec.rs:131-137 | the new state and status are `RunSpec` of the old state for `max_iter` steps; it stops early only when the program finished or panicked |
| LgpExec.LgpExec.New | src/lgp/exec.rs:15-20 | `new` with its panic as an outcome: none exactly when there are more than 256 registers; otherwise a fresh machine at pc 0 holding copies of the registers, the code and the iteration bound |
| LgpState.State.constructor | src/lgp/state.rs:18-20 | the genome holds exactly the given program bytes |
| LgpState.MutateSpec | src/lgp/state.rs:57-78 | a mutation that does not panic keeps the program length |
| LgpState.Mutate | src/lgp/state.rs:57-78 | panics exactly when `MutateSpec` does, and otherwise leaves the program `MutateSpec` gives |
| LgpState.MutatePanics | src/lgp/state.rs:57-78 | a panic exactly for a strategy beyond the three it knows, or for swap and insert on an empty program once the coin is below the rate |
| LgpState.MutateEffects | src/lgp/state.rs:57-78 | a coin at or above the rate leaves the program alone; swap and insert only permute the bytes; reset rewrites the drawn position with the drawn byte and nothing else |
| LgpState.MutatePass | src/gen/evaluated.rs:144-147 | every pass that does not panic keeps the program length |
| LgpState.MutatePassPanics | src/gen/evaluated.rs:144-147 | with the four rates a generation must supply, the pass always reaches the unknown strategy 3 and panics |
| LgpState.MutatePassKnown | src/lgp/state.rs:57-78 | with three rates the pass never panics on a non-empty program and keeps its length |
| LgpState.CrossoverStates | src/lgp/state.rs:38-55 | panics exactly when `CrossoverSpec` does, and otherwise leaves both programs as `CrossoverSpec` gives them |
| LgpState.CrossoverEqualLengths | src/lgp/state.rs:38-55 | on two non-empty programs of one length every strategy 0 to 4 succeeds and keeps the length; two-point crossover only exchanges bytes position by position |
| LgpState.CrossoverPanics | src/lgp/state.rs:38-55 | a strategy beyond the five panics, and so does PMX on programs of different lengths |
| LgpState.CrossoverPmxPermutes | src/lgp/state.rs:41-43 | PMX of two permutations of the same distinct bytes succeeds and gives two permutations of them again |
| LgpState.Dist1BytesAgrees | src/ops/distance.rs:26-36 | `dist1` summed in a byte equals the true sum while that is below 256 and panics exactly when it is not |
| LgpState.Dist1BytesOverflow | src/lgp/state.rs:90-93 | [0, 0] and [255, 255] are 510 apart, so the byte sum overflows |
| LgpState.GenomeDistanceFacts | src/lgp/state.rs:90-93 | the distance is non-negative and symmetric, and between programs of one length zero exactly when they are equal |
| LgpState.InitialOps | src/lgp/state.rs:96-98 | an initial genome has `code_len` bytes, each the generator's draw for its position |
| LgpState.InitialGenomesStayUniform | src/lgp/state.rs:96-98 | on two initial genomes of a positive length every crossover succeeds and keeps the length, and every known mutation succeeds and keeps it |
| LgpEval.LgpState.constructor | src/evaluators/lgp/eval.rs:28-30 | the genome holds exactly the given program |
| LgpEval.Mutate | src/evaluators/lgp/eval.rs:59-89 | panics exactly when `MutateSpec` does, and otherwise leaves the program `MutateSpec` gives |
| LgpEval.MutateSkips | src/evaluators/lgp/eval.rs:61-63 | a coin above the rate leaves the program unchanged, whatever the strategy |
| LgpEval.MutatePanics | src/evaluators/lgp/eval.rs:64-88 | once the coin is at or below the rate: a panic exactly for an unknown strategy, for swap, insert, scramble or micro-mutation of an empty program, and for an insertion into an empty program below `max_code` |
| LgpEval.MutateKeepsLength | src/evaluators/lgp/eval.rs:66-86 | strategies 0 to 3 and 6 keep the length; 0, 1 and 3 only permute the instructions; 2 and 6 change at most one position |
| LgpEval.MutateAddBounded | src/evaluators/lgp/eval.rs:71-76 | below `max_code` the drawn instruction is inserted at the drawn position (never after the last) and the length grows by one; otherwise the program is unchanged |
| LgpEval.MutateRemoveBounded | src/evaluators/lgp/eval.rs:77-82 | removal never panics, removes one instruction from a program of two or more and leaves shorter programs alone |
| LgpEval.CrossoverStates | src/evaluators/lgp/eval.rs:49-57 | panics exactly when `CrossoverSpec` does, and otherwise leaves both programs as `CrossoverSpec` gives them |
| LgpEval.CrossoverFirstShorter | src/evaluators/lgp/eval.rs:49-57 | when the first program is not the longer, crossover with cut points drawn from it never panics, keeps both lengths and exchanges instructions position by position |
| LgpEval.CrossoverFirstLongerPanics | src/ops/crossover.rs:110-127 | programs of four and one instructions with the cut points 2 and 3 make two-point crossover index past the second program |
| LgpEval.SortedPointsExample | src/ops/crossover.rs:117-127 | the cut points 2 and 3 with the end point 1 are sorted into [1, 2, 3] |
| LgpEval.GenomeDistanceFacts | src/evaluators/lgp/eval.rs:95-97 | the distance is symmetric, zero from a program to itself, and at least the difference of the lengths |
| LgpEvalCfg.RandOp | src/evaluators/lgp/cfg.rs:39-65 | no enabled opcode panics; a drawn instruction has an enabled opcode and the operand shape of its opcode, writes only registers below `num_reg` and reads only memory below `num_reg + num_const`; with an opcode enabled and `num_reg` positive the draw always succeeds |
| LgpEvalCfg.DefaultRandOpTotal | src/evaluators/lgp/cfg.rs:27-37 | the default configuration (four registers, no constants, every opcode) always draws an instruction whose registers are below 4 |
| LgpEvalCfg.Mutate | src/evaluators/lgp/cfg.rs:73-119 | a micro-mutation keeps the opcode and the operand shape, changes at most one field, and keeps registers in range |
| LgpEvalCfg.MutateKeepsDrawable | src/evaluators/lgp/cfg.rs:39-119 | a micro-mutation of an instruction `rand_op` drew is again one it could draw |
| LgpEvalCfg.MutateTotal | src/evaluators/lgp/cfg.rs:73-119 | with `num_reg` positive a micro-mutation never panics |
| Mutation.SwappedPerm | src/ops/mutation.rs:12-15 | swapping two positions keeps the multiset of elements |
| Mutation.MutateSwap | src/ops/mutation.rs:12-15 | exactly the two drawn positions are exchanged, so the slice is a permutation of the old one |
| Mutation.RotatedStep | src/ops/mutation.rs:23-25 | rotating one place further is one more adjacent swap, the loop's step |
| Mutation.RotatedPerm | src/ops/mutation.rs:19-26 | moving element `st` to `en` and shifting the ones between keeps the multiset |
| Mutation.InsertExample | src/ops/mutation.rs:17-18 | "AbcdEfg" with `st` 0 and `en` 3 becomes "bcdAEfg" |
| Mutation.MutateInsert | src/ops/mutation.rs:19-26 | the adjacent-swap loop leaves the slice rotated from `st` to `en`, a permutation of the old one |
| Mutation.SlicePerm | src/ops/mutation.rs:33 | a permutation that leaves everything outside [st, en] alone permutes the range itself |
| Mutation.Scrambled | src/ops/mutation.rs:33 | the shuffle keeps the length |
| Mutation.ScrambledPerm | src/ops/mutation.rs:29-34 | scrambling permutes the elements and leaves every position outside the range alone |
| Mutation.ScrambledSlicePerm | src/ops/mutation.rs:29-34 | the shuffled range keeps its multiset |
| Mutation.MutateScramble | src/ops/mutation.rs:29-34 | the slice becomes the Fisher-Yates shuffle (`Scrambled`) of the range under the given draws |
| Mutation.InvertedTwice | src/ops/mutation.rs:39-44 | inverting the same range twice restores the input |
| Mutation.InvertedPerm | src/ops/mutation.rs:39-44 | inversion keeps the multiset |
| Mutation.MutateInversion | src/ops/mutation.rs:39-44 | the range [st, en] is reversed in place and the rest is unchanged, a permutation of the old slice |
| Mutation.MutateReset | src/ops/mutation.rs:59-64 | the one picked position becomes `v`; an empty slice is left unchanged |
| Mutation.RateOneRewritesAll | src/ops/mutation.rs:67-74 | with draws in [0, 1), rate 1.0 applies `f` to every element |
| Mutation.RateZeroRewritesNone | src/ops/mutation.rs:67-74 | with draws in [0, 1), rate 0.0 leaves the slice alone |
| Mutation.MutateRate | src/ops/mutation.rs:67-74 | each element is replaced by `f` of itself exactly when its draw is below the rate |
| Mutation.MutateCreep | src/ops/mutation.rs:102-106 | the result stays within the type's range, moves less than `max_diff`, and moves down by `diff` (or saturates at the bottom) when the coin says subtract, up otherwise |
| Crossover.SegmentMapKeys | src/ops/crossover.rs:57-61 | the segment map's keys are exactly the segment's values of `s1` |
| Crossover.SegmentMapFirst | src/ops/crossover.rs:60 | each key maps to the value of `s2` at its first occurrence in the segment |
| Crossover.FollowLoop | src/ops/crossover.rs:66-78 | the lookup loop gives the value the map-following function gives, including the fallback to `s2[i]` after more than `len` hops |
| Crossover.CopySegment | src/ops/crossover.rs:56-61 | the child holds `s1` on the segment and is unchanged elsewhere, and the map built is the segment map |
| Crossover.PmxSingle | src/ops/crossover.rs:50-82 | the returned child is the PMX child of the two parents for the segment [i0, i1] |
| Crossover.Pmx | src/ops/crossover.rs:37-48 | the cut points are ordered and each slice becomes its PMX child with the other as partner |
| Crossover.PmxExampleDigits | src/ops/crossover.rs:186-194 | the PMX child of the integer test is [9, 3, 2, 4, 5, 6, 7, 1, 8] |
| Crossover.PmxExampleLetters | src/ops/crossover.rs:196-201 | the PMX child of the string test is "icbdefgah" |
| Crossover.PmxExampleEqual | src/ops/crossover.rs:203-208 | two all-duplicate parents give the same sequence back (the hop limit stops the self-loop) |
| Crossover.PmxExampleRepeats | src/ops/crossover.rs:210-215 | parents with repeated, non-common values give [5, 2, 3, 1, 6] |
| Crossover.ChainBound | src/ops/crossover.rs:69-77 | with an injective map, a chain of hops from a value that is no image visits at most as many keys as the map has |
| Crossover.FollowIsHop | src/ops/crossover.rs:69-77 | with a limit at least the number of keys, following from a non-image ends at a non-key reached by hops, never at the cycle fallback |
| Crossover.HopInjective | src/ops/crossover.rs:65-79 | two hop chains from non-images that end at the same value started at the same value |
| Crossover.PmxMapKey | src/ops/crossover.rs:58-61 | with a duplicate-free `s1` every key is the segment value at one position and maps to `s2` at that position |
| Crossover.PmxMapFacts | src/ops/crossover.rs:58-61 | for duplicate-free parents the map is injective, its keys are the segment of `s1`, values of `s2` outside the segment are no image, and every image is a value of `s2` |
| Crossover.PmxOutside | src/ops/crossover.rs:65-79 | a position outside the segment receives a value of `s1` that is no key, reached by hops from the value of `s2` there |
| Crossover.PmxPermutation | src/ops/crossover.rs:1-37 | the PMX child of two duplicate-free parents over the same values is duplicate-free and a permutation of the first parent |
| Crossover.KpxKeepsPairs | src/ops/crossover.rs:117-127 | a k-point crossover that does not panic keeps both lengths, keeps each position's pair of values, and leaves positions at or past the shorter length alone |
| Crossover.KpxPts | src/ops/crossover.rs:117-127 | panics exactly when `KpxResult` does, and otherwise leaves the slices as `KpxResult` gives them |
| Crossover.SwapRange | src/ops/crossover.rs:123-125 | the swap loop of one chunk panics exactly when the chunk is non-empty and ends past the shorter slice; otherwise exactly positions st..en are exchanged |
| Crossover.ChunkStep | src/ops/crossover.rs:122-126 | one chunk panics exactly when `Lo < Hi > min`; otherwise the first c + 1 chunks are exchanged |
| Crossover.KpxDone | src/ops/crossover.rs:117-127 | slices with every chunk exchanged and no chunk past the shorter length are `KpxResult`'s value |
| Crossover.Clamp | src/ops/crossover.rs:112-120 | every clamped point is at most the common length |
| Crossover.KpxClampedNeverPanics | src/ops/crossover.rs:117-127 | with the points clamped to the common length, k-point crossover never panics |
| Crossover.KpxUnequalLengthsPanic | src/ops/crossover.rs:110-127 | "abcd" and "wx" with the point 3 panic |
| Crossover.KpxExampleOnePoint | src/ops/crossover.rs:216-223 | "abcd"/"wxyz" with the point 3 give "abcz"/"wxyd" |
| Crossover.KpxExampleTwoPoints | src/ops/crossover.rs:225-232 | "abcd"/"wxyz" with the points 1 and 2 give "axcd"/"wbyz" |
| Crossover.UxKeepsPairs | src/ops/crossover.rs:135-142 | uniform crossover keeps both lengths, exchanges position i below the shorter length exactly when flip i is true, and leaves the rest alone |
| Crossover.UxRng | src/ops/crossover.rs:135-142 | the slices become `UxResult` of the old ones under the flips |
| Crossover.UxExample | src/ops/crossover.rs:234-242 | alternating flips turn "abcd"/"wxyz" into "wbyd"/"axcz" |
| Crossover.CrossoverEdge | src/ops/crossover.rs:87-89 | both slices are unchanged |
| Crossover.CrossoverOrder | src/ops/crossover.rs:94-96 | both slices are unchanged |
| Crossover.CrossoverCycle | src/ops/crossover.rs:103-105 | both slices are unchanged |
| GenResult.DedupDistinctValues | src/run/result.rs:73-79 | sorting and deduplicating leaves exactly one copy of each distinct genome |
| GenResult.DupCountFacts | src/run/result.rs:73-79 | the duplicate count is the size less the number of distinct genomes: zero exactly when all differ, below the size for a non-empty population |
| GenResult.Genomes | src/run/result.rs:75 | the genomes of the members, in order |
| GenResult.Nth | src/run/result.rs:58-61 | member n exists exactly when n is below the size, and is a member of the generation |
| GenResult.NumDup | src/run/result.rs:73-79 | the number of members whose genome repeats another's; zero exactly when all genomes differ |
| GenResult.MeanFitness | src/run/result.rs:63-66 | no mean for an empty generation; otherwise the mean times the size is the sum of base fitnesses |
| GenResult.NthZeroIsBest | src/gen/evaluated.rs:19-25 | in a generation built by `EvaluatedGen::new`, member 0 exists exactly when it is non-empty and no member has a higher base fitness |
| GenResult.FromRun | src/run/result.rs:31-41 | an empty generation panics; otherwise the statistics take the first member's fitness, the size, the duplicate count, the mean distance of the cache, the stagnant flag and the species record |
| GenResult.States | src/evolve/result.rs:80 | the states of the members, in order |
| GenResult.EvolveNth | src/evolve/result.rs:64-66 | member n exists exactly when n is below the size |
| GenResult.EvolveNumDup | src/evolve/result.rs:78-84 | the number of members whose state repeats another's; zero exactly when all differ |
| GenResult.EvolveNthZeroIsBest | src/genr/evaluated.rs:24-30 | in a generation built by the newer `EvaluatedGen::new`, member 0 exists exactly when it is non-empty and has top fitness |
| GenResult.FromResult | src/evolve/result.rs:36-46 | the newer engine's statistics, with the same fields and the same panic on an empty generation |
| VmOpcode.InputRegs | src/evaluators/lgp/vm/opcode.rs:19-26 | a comparison and a three-register assignment read `ra` and `rb`, a two-register assignment reads `ra`, a load reads nothing |
| VmOpcode.OutputRegs | src/evaluators/lgp/vm/opcode.rs:28-36 | every shape but the comparison writes exactly `ri`; the comparison writes nothing |
| VmOpcode.OperandsOf | src/evaluators/lgp/vm/opcode.rs:67-82 | the five binary arithmetic opcodes take three registers, the unary ones and `Copy` two, `Load` a register and an immediate, `IfLt` two compared registers; every field is zero |
| VmOpcode.BranchIffNoOutput | src/evaluators/lgp/vm/opcode.rs:84-87 | an opcode is a branch exactly when its shape writes no register |
| VmOpcode.FromCode | src/evaluators/lgp/vm/opcode.rs:67-82 | the instruction has the opcode and the operand shape of that opcode |
| VmOp.OperandsArePrefix | src/evaluators/lgp/vm/op.rs:35-77 | once a byte position holds no operand, no later position does |
| VmOp.NumOperandsTable | src/evaluators/lgp/vm/op.rs:35-77 | the operand count is the first position without an operand, or 3 when all are used |
| VmOp.NumOperands | src/evaluators/lgp/vm/op.rs:142-150 | the scan returns the operand count of the opcode |
| VmOp.Dist | src/evaluators/lgp/vm/op.rs:152-163 | the loop returns 100 for differing opcodes plus the byte-wise absolute differences |
| VmOp.ByteDistFacts | src/evaluators/lgp/vm/op.rs:159-161 | the byte sum is symmetric, zero exactly on equal bytes, and at most 255 per byte |
| VmOp.DistFacts | src/evaluators/lgp/vm/op.rs:152-163 | the distance is symmetric, zero exactly on equal instructions, at most 100 + 3 * 255, and at least 100 between different opcodes |
| VmOp.FixedPoint | src/evaluators/lgp/vm/op.rs:108-112 | the 8.8 value lies in [hi, hi + 1) |
| VmOp.Mnemonic | src/evaluators/lgp/vm/op.rs:98-125 | every mnemonic is at least two characters with no space |
| VmOp.RegText | src/evaluators/lgp/vm/op.rs:100 | a register prints as "r" followed by at least one digit, with no space |
| VmCfg.New | src/evaluators/lgp/vm/cfg.rs:21-24 | no registers, no constants and no code, which fits in the 256 memory locations |
| VmCfg.SetNumReg | src/evaluators/lgp/vm/cfg.rs:26-34 | the assertion fails exactly when registers and constants exceed 256; otherwise only the register count changes |
| VmCfg.SetConstants | src/evaluators/lgp/vm/cfg.rs:36-44 | the assertion fails exactly when registers and constants exceed 256; otherwise only the constants change |
| VmCfg.SetCode | src/evaluators/lgp/vm/cfg.rs:46-50 | only the code changes, so the memory bound is kept |
| VmCfg.ApplyFits | src/evaluators/lgp/vm/cfg.rs:26-50 | any chain of setters that does not fail keeps registers and constants within 256 locations |
| VmCfg.BuiltFits | src/evaluators/lgp/vm/cfg.rs:20-50 | every configuration built from `new` by setters fits in 256 memory locations |
| VmAsm.ParseMnemonic | src/evaluators/lgp/vm/asm.rs:8-23 | a recognised mnemonic is exactly the mnemonic of the opcode returned |
| VmAsm.MnemonicRoundTrip | src/evaluators/lgp/vm/asm.rs:8-23 | every opcode's mnemonic is recognised as that opcode, so the table is injective |
| VmAsm.RegValue | src/evaluators/lgp/vm/asm.rs:28 | a panic exactly when nothing is left after removing commas or the first character is not one byte; otherwise the `u8` parse of the text after the first character |
| VmAsm.Regs | src/evaluators/lgp/vm/asm.rs:26-53 | n registers read left to right, each the value of its token, and only when all n tokens exist |
| VmAsm.Arity | src/evaluators/lgp/vm/asm.rs:25-57 | the number of operand tokens is the number of registers the shape reads and writes, plus one immediate for `load` |
| VmAsm.AsmWords | src/evaluators/lgp/vm/asm.rs:6-59 | an empty line is "missing token", an unknown mnemonic "unknown instruction format"; an assembled instruction has the mnemonic's opcode, the opcode's own shape, and needed one token per operand |
| VmAsm.AsmLines | src/evaluators/lgp/vm/asm.rs:61-67 | success gives one instruction per line, each the assembly of its line; failure means some line failed |
| VmAsm.RegsPrefix | src/evaluators/lgp/vm/asm.rs:26-53 | register tokens after the needed ones are never read |
| VmAsm.TrailingTokensIgnored | src/evaluators/lgp/vm/asm.rs:25-58 | tokens after the last operand do not change the instruction |
| VmAsm.AnyRegisterPrefix | src/evaluators/lgp/vm/asm.rs:28 | the first character of a register token is never checked: any one-byte character other than a comma reads as "r" does |
| VmAsm.BareCommaPanics | src/evaluators/lgp/vm/asm.rs:34-35 | "neg , r1" slices an empty text and panics instead of returning an error |
| VmAsm.RegTokenExamples | src/evaluators/lgp/vm/asm.rs:28 | "r0," is register 0, "r1," register 1, and "r256" fails with "number too large to fit in target type" |
| VmAsm.AsmMnemonicErrors | src/evaluators/lgp/vm/asm.rs:8-22 | an empty line and the unknown mnemonic "mov" give their two errors |
| VmAsm.AsmMissingRegister | src/evaluators/lgp/vm/asm.rs:47 | "add r0, r1," with no third register is "missing register" |
| VmAsm.AsmRegisterOutOfRange | src/evaluators/lgp/vm/asm.rs:38 | "copy r0, r256" fails with the `u8` overflow message "number too large to fit in target type" |
| VmAsm.Assemble | src/evaluators/lgp/vm/asm.rs:61-67 | the loop that pushes each line's instruction and returns the first failure computes exactly `lgp_asm` |
| VmDisasm.RegToken | src/evaluators/lgp/vm/disasm.rs:4-10 | a register token is non-empty and holds no space |
| VmDisasm.ShowAll | src/evaluators/lgp/vm/disasm.rs:6-8 | one text per instruction, in order |
| VmDisasm.RegTokenValue | src/evaluators/lgp/vm/asm.rs:28 | the assembler reads a printed register token back as the same register |
| VmDisasm.TokensWellFormed | src/evaluators/lgp/vm/disasm.rs:4-10 | every token of an instruction's text is non-empty and holds no space |
| VmDisasm.AsmTokens | src/evaluators/lgp/vm/asm.rs:6-59 | assembling the tokens of a well-shaped instruction gives the instruction back |
| VmDisasm.AsmShow | src/evaluators/lgp/vm/asm.rs:6-59 | assembling the text of a well-shaped instruction gives it back, and that text is a single line |
| VmDisasm.AsmLinesShowAll | src/evaluators/lgp/vm/asm.rs:61-67 | assembling the lines of a well-shaped program gives the program back |
| VmDisasm.AsmDisasm | src/evaluators/lgp/vm/disasm.rs:4-10 | `lgp_asm(lgp_disasm(code)) == code` for every well-shaped program, and the text has one newline per instruction |
| VmDisasm.ShowExample | src/evaluators/lgp/vm/disasm.rs:4-10 | an addition of r1 and r2 into r0 disassembles as "add r0, r1, r2" and a newline, and an empty program as the empty text |
| VmDisasm.Disassemble | src/evaluators/lgp/vm/disasm.rs:4-10 | the loop that appends each instruction's text and a newline computes exactly the joined lines of the program |
| VmExec.RegIndex | src/evaluators/lgp/vm/exec.rs:22-30 | the register addressed is always in range, and an index already in range addresses itself |
| VmExec.F64ToReg | src/evaluators/lgp/vm/exec.rs:39-43 | the register a value names is always below the register count |
| VmExec.F64ToRegOfInt | src/evaluators/lgp/vm/exec.rs:39-43 | a whole-number value names the register congruent to it modulo the register count, negative values included |
| VmExec.ModUnique | src/evaluators/lgp/vm/exec.rs:41-42 | a value written as `d * q + r` with `0 <= r < d` leaves the remainder `r` |
| VmExec.FirstLabel | src/evaluators/lgp/vm/exec.rs:45-53 | the index found holds a label with the id and no earlier instruction does; none is found only when no instruction does |
| VmExec.Exec | src/evaluators/lgp/vm/exec.rs:57-128 | a panic exactly on an empty register file for an instruction that reads a register; at most one register changes; only a jump moves `pc`, and only to just after the first matching label |
| VmExec.StepSpec | src/evaluators/lgp/vm/exec.rs:55-133 | finished exactly when `pc` was at or past the end of the code; at most one register changes |
| VmExec.RunSpec | src/evaluators/lgp/vm/exec.rs:135-141 | the register count is kept over the run |
| VmExec.ArithWritesOnlyFinite | src/evaluators/lgp/vm/exec.rs:61-102 | an arithmetic result that is not finite leaves the registers and `pc` as they were |
| VmExec.MissingLabelFallsThrough | src/evaluators/lgp/vm/exec.rs:45-53 | a jump to a label that does not exist leaves `pc` just after the jump |
| VmExec.LgpExec.constructor | src/evaluators/lgp/vm/exec.rs:16-20 | `pc` 0, a fresh copy of the registers, the code and the iteration limit |
| VmExec.LgpExec.Reg | src/evaluators/lgp/vm/exec.rs:22-25 | register `idx % len`, or the panic on an empty register file |
| VmExec.LgpExec.SetReg | src/evaluators/lgp/vm/exec.rs:27-30 | only register `idx % len` changes, to `v` |
| VmExec.LgpExec.Fetch | src/evaluators/lgp/vm/exec.rs:32-37 | the instruction at `pc`, or `None` at or past the end; `pc` moves on by one either way |
| VmExec.LgpExec.LabelJmp | src/evaluators/lgp/vm/exec.rs:45-53 | `pc` becomes one past the first matching label, or stays when there is none |
| VmExec.LgpExec.Step | src/evaluators/lgp/vm/exec.rs:55-133 | the new state and status are `StepSpec` of the old state |
| VmExec.LgpExec.Run | src/evaluators/lgp/vm/exec.rs:135-141 | the new state and status are `RunSpec` of the old state for `max_iter` steps; at most `max_iter` steps, fewer only when the code finished or panicked |
| VmExec.LgpExec.New | src/evaluators/lgp/vm/exec.rs:17-20 | `new` with its assertion as an outcome: none exactly when there are more than 256 registers; otherwise a fresh machine at pc 0 holding copies of the registers, the code and the iteration bound |
| VmLgpVm.Read | src/evaluators/lgp/vm/lgpvm.rs:30-33 | the value at the index, and a panic exactly when the index is out of bounds |
| VmLgpVm.Write | src/evaluators/lgp/vm/lgpvm.rs:26-37 | only the addressed location can change, it changes to `v` when it is a register, and the constants never change |
| VmLgpVm.Exec | src/evaluators/lgp/vm/lgpvm.rs:49-125 | a panic exactly for an opcode paired with the wrong shape or a read out of bounds, where `abs`, `neg` and `copy` into a constant read nothing and leave the state as it was; otherwise only the destination register can change, the constants and the memory size are kept, and only `iflt` moves `pc`, by one |
| VmLgpVm.StepSpec | src/evaluators/lgp/vm/lgpvm.rs:46-130 | finished exactly when `pc` was at or past the end; the constants are kept; a running step moves `pc` on by one or two and never more than one past the end |
| VmLgpVm.RunSpec | src/evaluators/lgp/vm/lgpvm.rs:132-134 | every run ends, finished (with `pc` past the end) or panicked |
| VmLgpVm.RunKeepsConstants | src/evaluators/lgp/vm/lgpvm.rs:26-134 | a run never changes a constant nor the size of memory |
| VmLgpVm.RunNeverPanics | src/evaluators/lgp/vm/lgpvm.rs:124-134 | well-shaped code whose actual reads all address memory (a source that `abs`, `neg` or `copy` into a constant never reads may lie anywhere) always runs to the end without a panic |
| VmLgpVm.ConstantCopyRun | src/evaluators/lgp/vm/lgpvm.rs:113-117 | a `copy` into the constant from location 5 of a three-location memory is never read: the run finishes with memory unchanged |
| VmLgpVm.IfLtSkips | src/evaluators/lgp/vm/lgpvm.rs:118-123 | the comparison skips the next instruction exactly when its first operand is not less than its second |
| VmLgpVm.SkipExampleRun | src/evaluators/lgp/vm/lgpvm.rs:47-134 | a five-instruction program with a skipped negation and a write to a constant ends with memory [3, 3, 3] and `pc` 6 |
| VmLgpVm.InitialMem | src/evaluators/lgp/vm/lgpvm.rs:18-24 | zeroed registers followed by the constants |
| VmLgpVm.LgpVm.constructor | src/evaluators/lgp/vm/lgpvm.rs:18-24 | `pc` 0, the configuration's code and register count, and a fresh memory holding `InitialMem` |
| VmLgpVm.LgpVm.Mem | src/evaluators/lgp/vm/lgpvm.rs:30-33 | the value `Read` gives |
| VmLgpVm.LgpVm.Fetch | src/evaluators/lgp/vm/lgpvm.rs:39-44 | the instruction at `pc`, or `None` at or past the end; `pc` moves on by one either way |
| VmLgpVm.LgpVm.Set | src/evaluators/lgp/vm/lgpvm.rs:35-37 | memory becomes `Write` of the old memory |
| VmLgpVm.LgpVm.Assign2 | src/evaluators/lgp/vm/lgpvm.rs:80-117 | a one-source instruction panics exactly when `Exec` does, and otherwise leaves the memory `Exec` gives; a panic leaves memory as it was |
| VmLgpVm.LgpVm.Step | src/evaluators/lgp/vm/lgpvm.rs:46-130 | the new state and status are `StepSpec` of the old state |
| VmLgpVm.LgpVm.Run | src/evaluators/lgp/vm/lgpvm.rs:132-134 | the new state and status are `RunSpec` of the old state, reached in at most one step per instruction plus one |
| VmOptimize.RegSet | src/evaluators/lgp/vm/optimize.rs:32-59 | the set holds exactly the registers in the list |
| VmOptimize.MarkLive | src/evaluators/lgp/vm/optimize.rs:22-61 | marking fails exactly when a register is outside the flag table; otherwise the flags become the old live set plus the registers |
| VmOptimize.ClearOutputs | src/evaluators/lgp/vm/optimize.rs:31-40 | fails exactly when an output is outside the table; otherwise reports whether any output was live and clears the outputs' flags |
| VmOptimize.Optimize | src/evaluators/lgp/vm/optimize.rs:19-69 | the loop over the flag table returns what the backward liveness pass gives, with one flag for every `u8` register |
| VmOptimize.BackStep | src/evaluators/lgp/vm/optimize.rs:29-62 | one iteration over the flag table does what `StepBack` does to the pass state: same liveness, effectiveness, written registers and kept code |
| VmOptimize.StepBackKept | src/evaluators/lgp/vm/optimize.rs:57-62 | a backward step either keeps the instruction at the front of the kept code or keeps nothing new |
| VmOptimize.OptimizeIsSubseq | src/evaluators/lgp/vm/optimize.rs:26-68 | the optimized code is the input with some instructions dropped, in the original order, so it is never longer |
| VmOptimize.RunTotal | src/evaluators/lgp/vm/optimize.rs:21-65 | with a flag for every `u8` register the pass never indexes out of the table |
| VmOptimize.OptimizeCorrectedTotal | src/evaluators/lgp/vm/optimize.rs:19-69 | with a flag for every `u8` register the optimizer never panics |
| VmOptimize.OptimizeAsWrittenPanics | src/evaluators/lgp/vm/optimize.rs:21-23 | with the 255 flags allocated as written, the output register 255, or an instruction writing r255, indexes past the table |
| VmOptimize.RunKeepsSuffix | src/evaluators/lgp/vm/optimize.rs:57-62 | instructions already kept stay at the end of the final result |
| VmOptimize.RunIgnoresNextOut | src/evaluators/lgp/vm/optimize.rs:48-53 | the registers written after a branch matter only when that next instruction was kept |
| VmOptimize.DeadTailDropped | src/evaluators/lgp/vm/optimize.rs:29-65 | a last instruction that writes no output register, a trailing branch included, is dropped and changes nothing else |
| VmOptimize.LiveTailKept | src/evaluators/lgp/vm/optimize.rs:29-65 | a last instruction that writes an output register is kept as the last instruction of the result |
| VmOptimize.StepBackLive | src/evaluators/lgp/vm/optimize.rs:31-62 | an instruction that writes a live register is kept |
| VmOptimize.RunNothingLive | src/evaluators/lgp/vm/optimize.rs:29-65 | with nothing live and nothing kept, the pass keeps nothing |
| VmOptimize.OptimizeNoOutputs | src/evaluators/lgp/vm/optimize.rs:19-69 | with no output registers the optimized code is empty |
| VmOptimize.RunSnoc | src/evaluators/lgp/vm/optimize.rs:29 | the pass over a program ending in an instruction is one step over that instruction, then the rest |
| VmOptimize.StepAssign | src/evaluators/lgp/vm/optimize.rs:31-64 | a backward step over an assignment keeps it exactly when its destination is live, then clears the destination and marks its inputs |
| VmOptimize.StepIfLt | src/evaluators/lgp/vm/optimize.rs:48-64 | a backward step over a comparison keeps it exactly when the instruction after it was kept, and then marks the registers that instruction writes and its own inputs |
| VmOptimize.OptimizeExampleBranches | src/evaluators/lgp/vm/optimize.rs:81-95 | the test's program keeps only "neg r1, r2" and "add r0, r1, r2" |
| VmOptimize.OptimizeExampleBasic | src/evaluators/lgp/vm/optimize.rs:97-108 | the test's program keeps only "add r0, r2, r3" |
| VmOptimize.OptimizeExampleBranchOff | src/evaluators/lgp/vm/optimize.rs:110-123 | the test's program keeps only "add r0, r2, r2" |
| VmOptimize.OptimizeExampleBranchOn | src/evaluators/lgp/vm/optimize.rs:125-142 | the test's program keeps its last five instructions |
| VmOptimize.OptimizeExampleTwoBranchOff | src/evaluators/lgp/vm/optimize.rs:144-158 | the test's program keeps only "add r0, r2, r2" |
| VmOptimize.OptimizeExampleTwoBranchOn | src/evaluators/lgp/vm/optimize.rs:160-180 | the test's program keeps all seven instructions |
| VmOptimize.OptimizeExampleRemoveLastBranch | src/evaluators/lgp/vm/optimize.rs:182-191 | the test's program is reduced to nothing |
| VmOptimize.OptimizeExampleKeepLastBranch | src/evaluators/lgp/vm/optimize.rs:193-203 | the test's program keeps "iflt r1, r2" and "mul r0, r1, r3" |

## Left out

- Floating-point numerics are not modelled.
  - Arithmetic and BLX crossover, normal, lognormal and uniform mutation, `dist2`, the `powf` of shared fitness, `round_sf`, and the finiteness of register-machine arithmetic are left out.
  - Register-machine arithmetic is a function parameter that may report a non-finite result.
  - Epsilon comparisons are exact comparisons on `real`.
- `relative_eq!` and `abs_diff_eq!` in the newer runner are a boolean input. The relative-error test of src/runner.rs is modelled exactly.
- Random draws are parameters, and their distributions are not modelled.
  - This covers `thread_rng`, `gen_range`, `gen_bool`, `choose`, `shuffle`, and the `sus`, `rws` and `multi_rws` selection samplers.
- Concurrency is left out: the rayon paths of the distance cache and of evaluation, the multi-run drivers, and `CachedEvaluator`. Their sequential meaning is what is modelled.
- The experiment drivers, training, tensorboard output, command-line tools, example problems and benchmarks are not part of this model.
- Display strings, summaries and `fmt_any` are not modelled; of `summary_sample`, only the per-species allocation is.
- The register machine's `Op` Display is not part of this model.
  - The disassembler prints instructions in the text format that the optimizer's test programs use, for example "add r0, r1, r2".
  - Immediates are printed and parsed through parameters. That the two agree is a precondition of `VmDisasm.AsmDisasm`.
- The byte-coded and register machines exist here in several versions at once, and each is modelled against its own file.
  - `Label`/`Jmp`, `label()` and `imm_value()` are used only by src/evaluators/lgp/vm/exec.rs, whose model has its own opcode set.
  - `Niching` follows src/cfg.rs: `None` or `SharedFitness`, with no radius. src/gen/unevaluated.rs matches on `SharedFitness(radius)` and `SpeciesSharedFitness`, which that enum does not have. The radius and `ALPHA` of the shared-fitness formula are folded into the `shared` parameter, and the `SpeciesSharedFitness` arm is not modelled.
- The genome type of `LgpEvaluatorCfg` in src/evaluators/lgp/eval.rs is not part of this model; `rand_op` and `mutate` of that configuration are parameters there.
- The getters of `LgpVmCfg` and the setters and getters of `LgpEvaluatorCfg` are record field reads and updates, and are left as such.
- The `Opcode` distribution sampler of the register machine is not modelled.
- `LgpOptimizer::new` only stores its two arguments, and is not modelled separately from `optimize`.
- The unevaluated generation of the newer engine is modelled only as far as a result reads it: the species record and the distance cache.
- Mutation.MutateSwap requires its index draws in range. It thereby excludes the `gen_range(0..0)` panic on an empty slice.
- Mutation.MutateInsert requires its draws in range, with the same exclusion of the empty-slice panic.
- Mutation.MutateScramble requires its draws in range, with the same exclusion of the empty-slice panic.
- Mutation.MutateInversion requires its draws in range, with the same exclusion of the empty-slice panic.
- Crossover.Pmx requires equal lengths and cut points in range. Its panics are stated on values by `LgpState.CrossoverPanics`.
- LgpExec.LgpExec.constructor requires at most 256 registers. `LgpExec.LgpExec.New` models the panic.
- VmExec.LgpExec.constructor requires at most 256 registers. `VmExec.LgpExec.New` models the panic.
- VmOptimize.Optimize uses a table of 256 flags, the corrected table (see Findings). `VmOptimize.OptimizeAsWrittenPanics` models the 255-flag table as written.

## Findings

| source | as written | input that shows it | evidently intended | confidence | as-written member | corrected member |
|---|---|---|---|---|---|---|
| src/ops/crossover.rs:117-127 | `crossover_kpx_pts` swaps positions up to each cut point, and `crossover_kpx` draws its cut points from the first slice only, so a point beyond the shorter slice indexes out of bounds | "abcd" and "wx" with the point 3 | cut points no larger than the common length | medium, not executed | Crossover.KpxUnequalLengthsPanic | Crossover.KpxClampedNeverPanics |
| src/evaluators/lgp/vm/optimize.rs:21 | the flag table has `u8::MAX` = 255 entries, so register 255 indexes past it | the output register 255 | one flag for each of the 256 `u8` registers | high, not executed | VmOptimize.OptimizeAsWrittenPanics | VmOptimize.OptimizeCorrectedTotal |
| src/lgp/disasm.rs:18 | `fetch` tests `pc > len`, so reading at `pc == len` indexes past the code instead of returning 0 as its comment says | the program [1], a lone `Add` with no operands | `pc >= len`: an overrun reads 0 | high, not executed | LgpDisasm.AsWrittenPanicsIff | LgpDisasm.PaddedNeverPanics |
| src/lgp/state.rs:36 | `NUM_MUTATION` is 4, so every generation calls `mutate` with strategy 3, which panics | any program with four mutation rates | three strategies, matching the three that `mutate` implements | medium, not executed | LgpState.MutatePassPanics | LgpState.MutatePassKnown |
| src/lgp/state.rs:90-93 | the distance of two byte programs is summed in a `u8`, which overflows: a panic in a debug build, a silent wrap-around modulo 256 in a release build (`Dist1BytesOverflow` states the debug-build panic) | [0, 0] and [255, 255], 510 apart | the sum taken in a wider type | medium, not executed | LgpState.Dist1BytesOverflow | LgpState.GenomeDistanceFacts |
