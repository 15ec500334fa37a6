// The evolver configuration of src/evolve/cfg.rs: the strategy enums, the
// `EvolveCfg` record with its defaults and `set_*` builders, and the random
// sampling of each enum, with every draw a parameter.
module EvolveConfig {
  datatype Crossover = Fixed(weights: seq<real>) | Adaptive
  datatype Mutation = Fixed(weights: seq<real>) | Adaptive
  datatype Survival = TopProportion(prop: real) | SpeciesTopProportion(prop: real) | Youngest | Tournament(size: nat)
  datatype Selection = Sus | Roulette
  datatype Niching = None | SharedFitness(radius: real) | SpeciesSharedFitness
  datatype Species = None | TargetNumber(target: nat)
  datatype Stagnation = None | OneShotAfter(after: nat) | ContinuousAfter(after: nat)
  datatype StagnationCondition = Default | Epsilon(eps: real)
  datatype Replacement = ReplaceChildren(prop: real)
  datatype Duplicates = DisallowDuplicates | AllowDuplicates
  datatype FitnessReduction = ArithmeticMean | GeometricMean

  datatype EvolveCfg = EvolveCfg(
    popSize: nat,
    crossover: Crossover,
    mutation: Mutation,
    survival: Survival,
    selection: Selection,
    niching: Niching,
    species: Species,
    stagnation: Stagnation,
    stagnationCondition: StagnationCondition,
    replacement: Replacement,
    duplicates: Duplicates,
    fitnessReduction: FitnessReduction,
    parFitness: bool,
    parDist: bool)

  /** The fields of `EvolveCfg`, to say which one a builder changes. */
  datatype Field = PopSize | CrossoverField | MutationField | SurvivalField | SelectionField
                 | NichingField | SpeciesField | StagnationField | ConditionField
                 | ReplacementField | DuplicatesField | ReductionField | ParFitness | ParDist

  /** a and b agree on every field except possibly f. */
  predicate SameExcept(a: EvolveCfg, b: EvolveCfg, f: Field) {
    (f != PopSize ==> a.popSize == b.popSize) &&
    (f != CrossoverField ==> a.crossover == b.crossover) &&
    (f != MutationField ==> a.mutation == b.mutation) &&
    (f != SurvivalField ==> a.survival == b.survival) &&
    (f != SelectionField ==> a.selection == b.selection) &&
    (f != NichingField ==> a.niching == b.niching) &&
    (f != SpeciesField ==> a.species == b.species) &&
    (f != StagnationField ==> a.stagnation == b.stagnation) &&
    (f != ConditionField ==> a.stagnationCondition == b.stagnationCondition) &&
    (f != ReplacementField ==> a.replacement == b.replacement) &&
    (f != DuplicatesField ==> a.duplicates == b.duplicates) &&
    (f != ReductionField ==> a.fitnessReduction == b.fitnessReduction) &&
    (f != ParFitness ==> a.parFitness == b.parFitness) &&
    (f != ParDist ==> a.parDist == b.parDist)
  }

  /** `EvolveCfg::new`: the given population size, adaptive crossover and
    * mutation, the top fifth surviving, stochastic universal sampling, no
    * niching, species or stagnation handling, the default stagnation test,
    * a fifth of the children replaced when stagnant, duplicates removed,
    * the arithmetic mean of fitnesses and everything sequential. */
  function New(popSize: nat): (r: EvolveCfg)
    ensures r.popSize == popSize
    ensures r.crossover.Adaptive? && r.mutation.Adaptive?
    ensures r.survival == TopProportion(0.2) && r.selection == Sus
    ensures r.niching == Niching.None && r.species == Species.None && r.stagnation == Stagnation.None
    ensures r.stagnationCondition == Default && r.replacement == ReplaceChildren(0.2)
    ensures r.duplicates == DisallowDuplicates && r.fitnessReduction == ArithmeticMean
    ensures !r.parFitness && !r.parDist
  {
    EvolveCfg(popSize, Crossover.Adaptive, Mutation.Adaptive, TopProportion(0.2), Sus,
              Niching.None, Species.None, Stagnation.None, Default, ReplaceChildren(0.2),
              DisallowDuplicates, ArithmeticMean, false, false)
  }

  function SetPopSize(c: EvolveCfg, popSize: nat): (r: EvolveCfg)
    ensures r.popSize == popSize && SameExcept(c, r, PopSize)
  {
    c.(popSize := popSize)
  }

  function SetCrossover(c: EvolveCfg, crossover: Crossover): (r: EvolveCfg)
    ensures r.crossover == crossover && SameExcept(c, r, CrossoverField)
  {
    c.(crossover := crossover)
  }

  function SetMutation(c: EvolveCfg, mutation: Mutation): (r: EvolveCfg)
    ensures r.mutation == mutation && SameExcept(c, r, MutationField)
  {
    c.(mutation := mutation)
  }

  function SetSurvival(c: EvolveCfg, survival: Survival): (r: EvolveCfg)
    ensures r.survival == survival && SameExcept(c, r, SurvivalField)
  {
    c.(survival := survival)
  }

  function SetSelection(c: EvolveCfg, selection: Selection): (r: EvolveCfg)
    ensures r.selection == selection && SameExcept(c, r, SelectionField)
  {
    c.(selection := selection)
  }

  function SetNiching(c: EvolveCfg, niching: Niching): (r: EvolveCfg)
    ensures r.niching == niching && SameExcept(c, r, NichingField)
  {
    c.(niching := niching)
  }

  function SetSpecies(c: EvolveCfg, species: Species): (r: EvolveCfg)
    ensures r.species == species && SameExcept(c, r, SpeciesField)
  {
    c.(species := species)
  }

  function SetStagnation(c: EvolveCfg, stagnation: Stagnation): (r: EvolveCfg)
    ensures r.stagnation == stagnation && SameExcept(c, r, StagnationField)
  {
    c.(stagnation := stagnation)
  }

  function SetStagnationCondition(c: EvolveCfg, condition: StagnationCondition): (r: EvolveCfg)
    ensures r.stagnationCondition == condition && SameExcept(c, r, ConditionField)
  {
    c.(stagnationCondition := condition)
  }

  function SetReplacement(c: EvolveCfg, replacement: Replacement): (r: EvolveCfg)
    ensures r.replacement == replacement && SameExcept(c, r, ReplacementField)
  {
    c.(replacement := replacement)
  }

  function SetDuplicates(c: EvolveCfg, duplicates: Duplicates): (r: EvolveCfg)
    ensures r.duplicates == duplicates && SameExcept(c, r, DuplicatesField)
  {
    c.(duplicates := duplicates)
  }

  function SetFitnessReduction(c: EvolveCfg, reduction: FitnessReduction): (r: EvolveCfg)
    ensures r.fitnessReduction == reduction && SameExcept(c, r, ReductionField)
  {
    c.(fitnessReduction := reduction)
  }

  function SetParFitness(c: EvolveCfg, parFitness: bool): (r: EvolveCfg)
    ensures r.parFitness == parFitness && SameExcept(c, r, ParFitness)
  {
    c.(parFitness := parFitness)
  }

  function SetParDist(c: EvolveCfg, parDist: bool): (r: EvolveCfg)
    ensures r.parDist == parDist && SameExcept(c, r, ParDist)
  {
    c.(parDist := parDist)
  }

  /** Sampling `Survival` with the draws k from 0..2 and prop from
    * [0, 0.9): only the two proportional rules, never `Youngest` or
    * `Tournament`. */
  function SampleSurvival(k: nat, prop: real): (r: Survival)
    requires k < 2 && 0.0 <= prop < 0.9
    ensures (r.TopProportion? || r.SpeciesTopProportion?) && 0.0 <= r.prop < 0.9
    ensures r.TopProportion? <==> k == 0
  {
    if k == 0 then TopProportion(prop) else SpeciesTopProportion(prop)
  }

  /** Sampling `Selection` with the draw k from 0..2. */
  function SampleSelection(k: nat): (r: Selection)
    requires k < 2
    ensures r == Sus <==> k == 0
  {
    if k == 0 then Sus else Roulette
  }

  /** Sampling `Niching` with the draws k from 0..3 and radius from
    * [0, 100). */
  function SampleNiching(k: nat, radius: real): (r: Niching)
    requires k < 3 && 0.0 <= radius < 100.0
    ensures r.SharedFitness? ==> 0.0 <= r.radius < 100.0
    ensures r == Niching.None <==> k == 0
    ensures r == SpeciesSharedFitness <==> k == 2
  {
    if k == 0 then Niching.None else if k == 1 then SharedFitness(radius) else SpeciesSharedFitness
  }

  /** Sampling `Species` with the draws k from 0..2 and target from 1..10. */
  function SampleSpecies(k: nat, target: nat): (r: Species)
    requires k < 2 && 1 <= target < 10
    ensures r.TargetNumber? ==> 1 <= r.target < 10
    ensures r == Species.None <==> k == 0
  {
    if k == 0 then Species.None else TargetNumber(target)
  }

  /** Sampling `Stagnation` with the draws k from 0..2 and after from
    * 1..1000: the `ContinuousAfter` arm is never reached. */
  function SampleStagnation(k: nat, after: nat): (r: Stagnation)
    requires k < 2 && 1 <= after < 1000
    ensures !r.ContinuousAfter?
    ensures r.OneShotAfter? ==> 1 <= r.after < 1000
    ensures r == Stagnation.None <==> k == 0
  {
    if k == 0 then Stagnation.None else if k == 1 then OneShotAfter(after) else ContinuousAfter(after)
  }

  /** Sampling `StagnationCondition` draws nothing and is always the
    * default. */
  function SampleStagnationCondition(): (r: StagnationCondition)
    ensures !r.Epsilon?
  {
    Default
  }

  /** Sampling `Replacement` with a draw p from [0, 1). */
  function SampleReplacement(p: real): (r: Replacement)
    requires 0.0 <= p < 1.0
    ensures 0.0 <= r.prop < 1.0
  {
    ReplaceChildren(p)
  }

  /** Sampling `Duplicates`: its draw is from 0..1, so duplicates are always
    * removed. */
  function SampleDuplicates(k: nat): (r: Duplicates)
    requires k < 1
    ensures r == DisallowDuplicates
  {
    if k == 0 then DisallowDuplicates else AllowDuplicates
  }

  /** Sampling `FitnessReduction`: its draw is from 0..1, so it is always
    * the arithmetic mean. */
  function SampleFitnessReduction(k: nat): (r: FitnessReduction)
    requires k < 1
    ensures r == ArithmeticMean
  {
    if k == 0 then ArithmeticMean else GeometricMean
  }
}
