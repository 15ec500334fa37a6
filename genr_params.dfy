// Self-adaptive parameters of a member in the newer engine,
// src/genr/params.rs: the same rule as src/gen/params.rs over the evolver
// configuration. The random number generator is a stream of draws from
// [0, 1), passed in.
module GenrParams {
  import opened EvolveConfig
  import GenParams

  datatype Params = Params(mutation: seq<real>, crossover: seq<real>)

  /** `Params::new`: a fixed weight vector is copied, an adaptive one is
    * `num` fresh draws, mutation first. */
  function New(cfg: EvolveCfg, numMutation: nat, numCrossover: nat, draw: nat -> real): (r: Params)
    requires GenParams.UnitDraws(draw)
    ensures cfg.mutation.Fixed? ==> r.mutation == cfg.mutation.weights
    ensures cfg.mutation.Adaptive? ==> |r.mutation| == numMutation && forall w :: w in r.mutation ==> 0.0 <= w < 1.0
    ensures cfg.crossover.Fixed? ==> r.crossover == cfg.crossover.weights
    ensures cfg.crossover.Adaptive? ==> |r.crossover| == numCrossover && forall w :: w in r.crossover ==> 0.0 <= w < 1.0
    ensures cfg.mutation.Adaptive? && cfg.crossover.Adaptive? ==>
      r.mutation + r.crossover == GenParams.Draws(draw, 0, numMutation + numCrossover)
  {
    var mutation := if cfg.mutation.Fixed? then cfg.mutation.weights else GenParams.Draws(draw, 0, numMutation);
    var used := if cfg.mutation.Fixed? then 0 else numMutation;
    var crossover := if cfg.crossover.Fixed? then cfg.crossover.weights else GenParams.Draws(draw, used, numCrossover);
    Params(mutation, crossover)
  }
}
