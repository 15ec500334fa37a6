// A member of the newer engine, src/gen/member.rs: its state, parameters,
// species, fitness, selection fitness and age.
module GenMember {
  import opened EvolveConfig
  import GenParams
  import GenrParams

  /** `NO_SPECIES`. */
  const NoSpecies: nat := 0

  datatype Member<S> = Member(state: S, params: GenrParams.Params, species: nat, fitness: real,
                              selectionFitness: real, age: nat)

  /** `Member::new`: the state as given, fresh parameters, no species, both
    * fitnesses 0 and age 0. */
  function New<S>(state: S, cfg: EvolveCfg, numMutation: nat, numCrossover: nat, draw: nat -> real): (r: Member<S>)
    requires GenParams.UnitDraws(draw)
    ensures r.state == state && r.species == NoSpecies && r.fitness == 0.0 && r.selectionFitness == 0.0 && r.age == 0
    ensures r.params == GenrParams.New(cfg, numMutation, numCrossover, draw)
    ensures cfg.mutation.Fixed? ==> r.params.mutation == cfg.mutation.weights
    ensures cfg.crossover.Fixed? ==> r.params.crossover == cfg.crossover.weights
  {
    Member(state, GenrParams.New(cfg, numMutation, numCrossover, draw), NoSpecies, 0.0, 0.0, 0)
  }
}
