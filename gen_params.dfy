// Self-adaptive parameters of a member in the older engine,
// src/gen/params.rs, and the member record `Mem` that src/gen/species.rs,
// src/gen/unevaluated.rs and src/gen/evaluated.rs work on. The random
// number generator is a stream of draws from [0, 1), passed in.
module GenParams {
  import opened Config

  datatype Params = Params(mutation: seq<real>, crossover: seq<real>)

  /** The draws of a stream from `from` on. */
  function Draws(draw: nat -> real, from: nat, count: nat): (r: seq<real>)
    ensures |r| == count && forall i :: 0 <= i < count ==> r[i] == draw(from + i)
  {
    seq(count, i requires 0 <= i < count => draw(from + i))
  }

  /** A stream of draws from [0, 1), as `Rng::gen::<f64>` makes them. */
  ghost predicate UnitDraws(draw: nat -> real) {
    forall i :: 0.0 <= draw(i) < 1.0
  }

  /** `Params::new`: a fixed weight vector of the configuration is copied;
    * an adaptive one is `num` fresh draws from [0, 1). Mutation weights are
    * drawn first, so the crossover draws follow them in the stream. */
  function New(cfg: Cfg, numMutation: nat, numCrossover: nat, draw: nat -> real): (r: Params)
    requires UnitDraws(draw)
    ensures cfg.mutation.Fixed? ==> r.mutation == cfg.mutation.weights
    ensures cfg.mutation.Adaptive? ==> |r.mutation| == numMutation && forall w :: w in r.mutation ==> 0.0 <= w < 1.0
    ensures cfg.crossover.Fixed? ==> r.crossover == cfg.crossover.weights
    ensures cfg.crossover.Adaptive? ==> |r.crossover| == numCrossover && forall w :: w in r.crossover ==> 0.0 <= w < 1.0
    ensures cfg.mutation.Adaptive? && cfg.crossover.Adaptive? ==>
      r.mutation + r.crossover == Draws(draw, 0, numMutation + numCrossover)
  {
    var mutation := if cfg.mutation.Fixed? then cfg.mutation.weights else Draws(draw, 0, numMutation);
    var used := if cfg.mutation.Fixed? then 0 else numMutation;
    var crossover := if cfg.crossover.Fixed? then cfg.crossover.weights else Draws(draw, used, numCrossover);
    Params(mutation, crossover)
  }

  /** A member of the older engine: its genome, its parameters, its species
    * id and its base and selection fitness. */
  datatype Mem<G> = Mem(genome: G, params: Params, species: nat, baseFitness: real, selectionFitness: real)

  /** A fresh member, as `next_gen` builds one from a generated genome: no
    * species yet and both fitnesses 0. */
  function NewMem<G>(genome: G, params: Params): (r: Mem<G>)
    ensures r.genome == genome && r.params == params
    ensures r.species == 0 && r.baseFitness == 0.0 && r.selectionFitness == 0.0
  {
    Mem(genome, params, 0, 0.0, 0.0)
  }
}
