// The engine configuration of src/cfg.rs: the strategy enums, the `Cfg`
// record with its defaults and `with_*` builders, and the random sampling of
// each enum, with every draw a parameter.
module Config {
  /** `EP`, the tolerance of the species-radius bisection. */
  const EP: real := 0.000001

  datatype Crossover = Fixed(weights: seq<real>) | Adaptive
  datatype Mutation = Fixed(weights: seq<real>) | Adaptive
  datatype Survival = TopProportion(prop: real) | SpeciesTopProportion(prop: real)
  datatype Selection = Sus | Roulette
  datatype Niching = None | SharedFitness
  datatype Species = None | TargetNumber(target: nat)
  datatype Stagnation = None | NumGenerations(n: nat)
  datatype Duplicates = DisallowDuplicates | AllowDuplicates

  datatype Cfg = Cfg(
    popSize: nat,
    crossover: Crossover,
    mutation: Mutation,
    survival: Survival,
    selection: Selection,
    niching: Niching,
    species: Species,
    stagnation: Stagnation,
    duplicates: Duplicates,
    parFitness: bool,
    parDist: bool)

  /** The fields of `Cfg`, to say which one a builder changes. */
  datatype Field = PopSize | CrossoverField | MutationField | SurvivalField | SelectionField
                 | NichingField | SpeciesField | StagnationField | DuplicatesField | ParFitness | ParDist

  /** a and b agree on every field except possibly f. */
  predicate SameExcept(a: Cfg, b: Cfg, f: Field) {
    (f != PopSize ==> a.popSize == b.popSize) &&
    (f != CrossoverField ==> a.crossover == b.crossover) &&
    (f != MutationField ==> a.mutation == b.mutation) &&
    (f != SurvivalField ==> a.survival == b.survival) &&
    (f != SelectionField ==> a.selection == b.selection) &&
    (f != NichingField ==> a.niching == b.niching) &&
    (f != SpeciesField ==> a.species == b.species) &&
    (f != StagnationField ==> a.stagnation == b.stagnation) &&
    (f != DuplicatesField ==> a.duplicates == b.duplicates) &&
    (f != ParFitness ==> a.parFitness == b.parFitness) &&
    (f != ParDist ==> a.parDist == b.parDist)
  }

  /** `Cfg::new`: the given population size, adaptive crossover and
    * mutation, the top fifth surviving, stochastic universal sampling, no
    * niching, no species, no stagnation handling, duplicates removed and
    * everything sequential. */
  function New(popSize: nat): (r: Cfg)
    ensures r.popSize == popSize
    ensures r.crossover.Adaptive? && r.mutation.Adaptive?
    ensures r.survival == TopProportion(0.2) && r.selection == Sus
    ensures r.niching == Niching.None && r.species == Species.None && r.stagnation == Stagnation.None
    ensures r.duplicates == DisallowDuplicates && !r.parFitness && !r.parDist
  {
    Cfg(popSize, Crossover.Adaptive, Mutation.Adaptive, TopProportion(0.2), Sus,
        Niching.None, Species.None, Stagnation.None, DisallowDuplicates, false, false)
  }

  function WithPopSize(c: Cfg, popSize: nat): (r: Cfg)
    ensures r.popSize == popSize && SameExcept(c, r, PopSize)
  {
    c.(popSize := popSize)
  }

  function WithCrossover(c: Cfg, crossover: Crossover): (r: Cfg)
    ensures r.crossover == crossover && SameExcept(c, r, CrossoverField)
  {
    c.(crossover := crossover)
  }

  function WithMutation(c: Cfg, mutation: Mutation): (r: Cfg)
    ensures r.mutation == mutation && SameExcept(c, r, MutationField)
  {
    c.(mutation := mutation)
  }

  function WithSurvival(c: Cfg, survival: Survival): (r: Cfg)
    ensures r.survival == survival && SameExcept(c, r, SurvivalField)
  {
    c.(survival := survival)
  }

  function WithSelection(c: Cfg, selection: Selection): (r: Cfg)
    ensures r.selection == selection && SameExcept(c, r, SelectionField)
  {
    c.(selection := selection)
  }

  function WithNiching(c: Cfg, niching: Niching): (r: Cfg)
    ensures r.niching == niching && SameExcept(c, r, NichingField)
  {
    c.(niching := niching)
  }

  function WithSpecies(c: Cfg, species: Species): (r: Cfg)
    ensures r.species == species && SameExcept(c, r, SpeciesField)
  {
    c.(species := species)
  }

  function WithStagnation(c: Cfg, stagnation: Stagnation): (r: Cfg)
    ensures r.stagnation == stagnation && SameExcept(c, r, StagnationField)
  {
    c.(stagnation := stagnation)
  }

  function WithDuplicates(c: Cfg, duplicates: Duplicates): (r: Cfg)
    ensures r.duplicates == duplicates && SameExcept(c, r, DuplicatesField)
  {
    c.(duplicates := duplicates)
  }

  function WithParFitness(c: Cfg, parFitness: bool): (r: Cfg)
    ensures r.parFitness == parFitness && SameExcept(c, r, ParFitness)
  {
    c.(parFitness := parFitness)
  }

  function WithParDist(c: Cfg, parDist: bool): (r: Cfg)
    ensures r.parDist == parDist && SameExcept(c, r, ParDist)
  {
    c.(parDist := parDist)
  }

  /** Builders on different fields commute, a later builder on the same
    * field overrides an earlier one, and setting a field to the value it
    * has changes nothing. */
  lemma BuilderLaws(c: Cfg, p: nat, q: nat, s: Species, d: Duplicates)
    ensures WithSpecies(WithPopSize(c, p), s) == WithPopSize(WithSpecies(c, s), p)
    ensures WithPopSize(WithPopSize(c, p), q) == WithPopSize(c, q)
    ensures WithDuplicates(WithSpecies(c, s), d) == WithSpecies(WithDuplicates(c, d), s)
    ensures WithPopSize(c, c.popSize) == c
  {
  }

  /** Sampling `Survival` with the draws k from 0..2 and prop from
    * [0, 0.9). */
  function SampleSurvival(k: nat, prop: real): (r: Survival)
    requires k < 2 && 0.0 <= prop < 0.9
    ensures 0.0 <= r.prop < 0.9
    ensures r.TopProportion? <==> k == 0
  {
    if k == 0 then TopProportion(prop) else SpeciesTopProportion(prop)
  }

  /** Sampling `Selection` with the draw k from 0..2. */
  function SampleSelection(k: nat): (r: Selection)
    requires k < 2
    ensures r == Sus <==> k == 0
  {
    if k == 0 then Sus else Roulette
  }

  /** Sampling `Niching` with the draw k from 0..2. */
  function SampleNiching(k: nat): (r: Niching)
    requires k < 2
    ensures r == Niching.None <==> k == 0
  {
    if k == 0 then Niching.None else SharedFitness
  }

  /** Sampling `Species` with the draws k from 0..2 and target from 1..10:
    * no species, or a target between 1 and 9. */
  function SampleSpecies(k: nat, target: nat): (r: Species)
    requires k < 2 && 1 <= target < 10
    ensures r.TargetNumber? ==> 1 <= r.target < 10
    ensures r == Species.None <==> k == 0
  {
    if k == 0 then Species.None else TargetNumber(target)
  }

  /** Sampling `Stagnation`: its first draw is from 0..1, so the
    * `NumGenerations` arm is never reached. */
  function SampleStagnation(k: nat, n: nat): (r: Stagnation)
    requires k < 1 && 1 <= n < 1000
    ensures r == Stagnation.None
  {
    if k == 0 then Stagnation.None else NumGenerations(n)
  }

  /** Sampling `Duplicates`: its draw is from 0..1, so duplicates are always
    * removed. */
  function SampleDuplicates(k: nat): (r: Duplicates)
    requires k < 1
    ensures r == DisallowDuplicates
  {
    if k == 0 then DisallowDuplicates else AllowDuplicates
  }
}
