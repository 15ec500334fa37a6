// The meta-GA genome of src/evaluators/hyper/eval.rs: a `State` holding an
// engine configuration and the weight vectors a `Fixed` crossover or
// mutation falls back to, with its random construction, its crossover
// (field swaps, or a blend of the weight vectors) and its ten mutations.
// Every random draw is a parameter: the coin of each field swap, the
// outcome of `gen_bool(rate)`, the freshly sampled enum values, the result
// of `mutate_normal` and of `crossover_blx`.
module HyperEval {
  import opened Common
  import Config

  /** `NUM_CROSSOVER` and `NUM_MUTATION` of the meta-GA evaluator. */
  const NumCrossover: nat := 4
  const NumMutation: nat := 10

  /** The value of a `State`. */
  datatype Hyper = Hyper(cfg: Config.Cfg, crossover: seq<real>, mutation: seq<real>)

  /** Values drawn by `r.gen()` for the sampled configuration fields. */
  datatype Sampled = Sampled(survival: Config.Survival, selection: Config.Selection, niching: Config.Niching,
                             species: Config.Species, stagnation: Config.Stagnation, duplicates: Config.Duplicates)

  /** The samples come from the `Distribution` implementations of the
    * configuration enums, each with draws in its range. */
  ghost predicate FromSamplers(d: Sampled) {
    (exists k: nat, p: real :: k < 2 && 0.0 <= p < 0.9 && d.survival == Config.SampleSurvival(k, p)) &&
    (exists k: nat :: k < 2 && d.selection == Config.SampleSelection(k)) &&
    (exists k: nat :: k < 2 && d.niching == Config.SampleNiching(k)) &&
    (exists k: nat, t: nat :: k < 2 && 1 <= t < 10 && d.species == Config.SampleSpecies(k, t)) &&
    (exists k: nat, n: nat :: k < 1 && 1 <= n < 1000 && d.stagnation == Config.SampleStagnation(k, n)) &&
    (exists k: nat :: k < 1 && d.duplicates == Config.SampleDuplicates(k))
  }

  /** `State::rand`: num_crossover then num_mutation draws from the
    * stream, and the default configuration for pop_size with four of its
    * fields sampled. */
  function Random(popSize: nat, numCrossover: nat, numMutation: nat, draw: nat -> real, d: Sampled): (r: Hyper)
    ensures |r.crossover| == numCrossover && |r.mutation| == numMutation
    ensures forall i :: 0 <= i < numCrossover ==> r.crossover[i] == draw(i)
    ensures forall i :: 0 <= i < numMutation ==> r.mutation[i] == draw(numCrossover + i)
    ensures r.cfg.popSize == popSize
    ensures r.cfg.survival == d.survival && r.cfg.selection == d.selection
    ensures r.cfg.niching == d.niching && r.cfg.species == d.species
    ensures r.cfg.crossover.Adaptive? && r.cfg.mutation.Adaptive?
    ensures r.cfg.stagnation == Config.Stagnation.None && r.cfg.duplicates == Config.DisallowDuplicates
    ensures !r.cfg.parFitness && !r.cfg.parDist
  {
    var crossover := seq(numCrossover, i requires 0 <= i < numCrossover => draw(i));
    var mutation := seq(numMutation, i requires 0 <= i < numMutation => draw(numCrossover + i));
    var cfg := Config.New(popSize).(survival := d.survival, selection := d.selection,
                                    niching := d.niching, species := d.species);
    Hyper(cfg, crossover, mutation)
  }

  // Crossover

  /** x, or y when the coin says to swap. */
  function Pick<T>(swap: bool, x: T, y: T): T {
    if swap then y else x
  }

  /** Crossover 1 on the configurations: field k of the eight listed is
    * exchanged between a and b exactly when coin(k) is true. */
  function SwapFields(a: Config.Cfg, b: Config.Cfg, coin: nat -> bool): (Config.Cfg, Config.Cfg) {
    (a.(crossover := Pick(coin(0), a.crossover, b.crossover),
        mutation := Pick(coin(1), a.mutation, b.mutation),
        survival := Pick(coin(2), a.survival, b.survival),
        selection := Pick(coin(3), a.selection, b.selection),
        niching := Pick(coin(4), a.niching, b.niching),
        species := Pick(coin(5), a.species, b.species),
        stagnation := Pick(coin(6), a.stagnation, b.stagnation),
        duplicates := Pick(coin(7), a.duplicates, b.duplicates)),
     b.(crossover := Pick(coin(0), b.crossover, a.crossover),
        mutation := Pick(coin(1), b.mutation, a.mutation),
        survival := Pick(coin(2), b.survival, a.survival),
        selection := Pick(coin(3), b.selection, a.selection),
        niching := Pick(coin(4), b.niching, a.niching),
        species := Pick(coin(5), b.species, a.species),
        stagnation := Pick(coin(6), b.stagnation, a.stagnation),
        duplicates := Pick(coin(7), b.duplicates, a.duplicates)))
  }

  /** `HyperAlg::crossover`: 0 changes nothing, 1 swaps configuration
    * fields, 2 and 3 blend the crossover or the mutation weight vectors
    * with `crossover_blx` (here `blx`), and any other index panics
    * (`None`). */
  function Crossed(a: Hyper, b: Hyper, idx: nat, coin: nat -> bool,
                   blx: (seq<real>, seq<real>) -> (seq<real>, seq<real>)): (r: Option<(Hyper, Hyper)>)
    ensures r.None? <==> idx >= NumCrossover
    ensures idx == 0 ==> r == Some((a, b))
    ensures idx == 1 ==> (r.Some? && r.value.0.crossover == a.crossover && r.value.0.mutation == a.mutation &&
      r.value.1.crossover == b.crossover && r.value.1.mutation == b.mutation)
    ensures idx == 2 || idx == 3 ==> r.Some? && r.value.0.cfg == a.cfg && r.value.1.cfg == b.cfg
    ensures idx == 2 ==> r.Some? && r.value.0.mutation == a.mutation && r.value.1.mutation == b.mutation
    ensures idx == 3 ==> r.Some? && r.value.0.crossover == a.crossover && r.value.1.crossover == b.crossover
  {
    if idx == 0 then Some((a, b))
    else if idx == 1 then
      var (c1, c2) := SwapFields(a.cfg, b.cfg, coin);
      Some((a.(cfg := c1), b.(cfg := c2)))
    else if idx == 2 then
      var (w1, w2) := blx(a.crossover, b.crossover);
      Some((a.(crossover := w1), b.(crossover := w2)))
    else if idx == 3 then
      var (w1, w2) := blx(a.mutation, b.mutation);
      Some((a.(mutation := w1), b.(mutation := w2)))
    else None
  }

  /** The pair {x, y} is the pair {x', y'}. */
  predicate SamePair<T(==)>(x: T, y: T, x': T, y': T) {
    (x' == x && y' == y) || (x' == y && y' == x)
  }

  /** Crossover 1 keeps, for every configuration field, the two values the
    * parents had between them, and leaves the population size and the
    * parallelism flags alone. Applied twice with the same coins it gives
    * back both parents. */
  lemma SwapFieldsPairs(a: Hyper, b: Hyper, coin: nat -> bool, blx: (seq<real>, seq<real>) -> (seq<real>, seq<real>))
    ensures Crossed(a, b, 1, coin, blx).Some?
    ensures var (x, y) := Crossed(a, b, 1, coin, blx).value;
      SamePair(a.cfg.crossover, b.cfg.crossover, x.cfg.crossover, y.cfg.crossover) &&
      SamePair(a.cfg.mutation, b.cfg.mutation, x.cfg.mutation, y.cfg.mutation) &&
      SamePair(a.cfg.survival, b.cfg.survival, x.cfg.survival, y.cfg.survival) &&
      SamePair(a.cfg.selection, b.cfg.selection, x.cfg.selection, y.cfg.selection) &&
      SamePair(a.cfg.niching, b.cfg.niching, x.cfg.niching, y.cfg.niching) &&
      SamePair(a.cfg.species, b.cfg.species, x.cfg.species, y.cfg.species) &&
      SamePair(a.cfg.stagnation, b.cfg.stagnation, x.cfg.stagnation, y.cfg.stagnation) &&
      SamePair(a.cfg.duplicates, b.cfg.duplicates, x.cfg.duplicates, y.cfg.duplicates) &&
      x.cfg.popSize == a.cfg.popSize && y.cfg.popSize == b.cfg.popSize &&
      x.cfg.parFitness == a.cfg.parFitness && y.cfg.parFitness == b.cfg.parFitness &&
      x.cfg.parDist == a.cfg.parDist && y.cfg.parDist == b.cfg.parDist
    ensures var (x, y) := Crossed(a, b, 1, coin, blx).value;
      Crossed(x, y, 1, coin, blx) == Some((a, b))
  {
  }

  // Mutation

  function RMax(a: real, b: real): real { if a >= b then a else b }

  /** `mutate_rate(v, 1.0, |v| mutate_normal(v, rate).max(0.0))`: with
    * rate 1 every weight is redrawn, normal(x, i) being the draw for the
    * i-th weight x, and a negative draw is raised to 0. */
  function Adjusted(v: seq<real>, normal: (real, nat) -> real): (r: seq<real>)
    ensures |r| == |v|
    ensures forall i :: 0 <= i < |r| ==> r[i] >= 0.0
    ensures forall i :: 0 <= i < |r| ==> r[i] == normal(v[i], i) || (r[i] == 0.0 && normal(v[i], i) < 0.0)
  {
    var r := seq(|v|, i requires 0 <= i < |v| => RMax(normal(v[i], i), 0.0));
    assert forall i :: 0 <= i < |r| ==> r[i] == RMax(normal(v[i], i), 0.0);
    r
  }

  /** Mutation 0: `Fixed(v)` becomes `Adaptive`, keeping v as the fallback
    * weights; `Adaptive` becomes `Fixed` with the fallback weights. */
  function ToggleCrossover(h: Hyper): (r: Hyper)
    ensures r.cfg.crossover.Fixed? <==> h.cfg.crossover.Adaptive?
    ensures h.cfg.crossover.Fixed? ==> r.crossover == h.cfg.crossover.weights
    ensures h.cfg.crossover.Adaptive? ==> r.cfg.crossover.weights == h.crossover
    ensures r.mutation == h.mutation && Config.SameExcept(h.cfg, r.cfg, Config.CrossoverField)
  {
    match h.cfg.crossover
    case Fixed(v) => h.(crossover := v, cfg := h.cfg.(crossover := Config.Crossover.Adaptive))
    case Adaptive => h.(cfg := h.cfg.(crossover := Config.Crossover.Fixed(h.crossover)))
  }

  /** Mutation 2: the same toggle for the mutation weights. */
  function ToggleMutation(h: Hyper): (r: Hyper)
    ensures r.cfg.mutation.Fixed? <==> h.cfg.mutation.Adaptive?
    ensures h.cfg.mutation.Fixed? ==> r.mutation == h.cfg.mutation.weights
    ensures h.cfg.mutation.Adaptive? ==> r.cfg.mutation.weights == h.mutation
    ensures r.crossover == h.crossover && Config.SameExcept(h.cfg, r.cfg, Config.MutationField)
  {
    match h.cfg.mutation
    case Fixed(v) => h.(mutation := v, cfg := h.cfg.(mutation := Config.Mutation.Adaptive))
    case Adaptive => h.(cfg := h.cfg.(mutation := Config.Mutation.Fixed(h.mutation)))
  }

  /** The crossover weights in use: those of a `Fixed` configuration, or
    * the fallback weights of an adaptive one. */
  function ActiveCrossover(h: Hyper): seq<real> {
    if h.cfg.crossover.Fixed? then h.cfg.crossover.weights else h.crossover
  }

  function ActiveMutation(h: Hyper): seq<real> {
    if h.cfg.mutation.Fixed? then h.cfg.mutation.weights else h.mutation
  }

  /** Mutation 1: the crossover weights in use are redrawn. */
  function AdjustCrossover(h: Hyper, normal: (real, nat) -> real): Hyper {
    match h.cfg.crossover
    case Fixed(v) => h.(cfg := h.cfg.(crossover := Config.Crossover.Fixed(Adjusted(v, normal))))
    case Adaptive => h.(crossover := Adjusted(h.crossover, normal))
  }

  /** Mutation 3: the mutation weights in use are redrawn. */
  function AdjustMutation(h: Hyper, normal: (real, nat) -> real): Hyper {
    match h.cfg.mutation
    case Fixed(v) => h.(cfg := h.cfg.(mutation := Config.Mutation.Fixed(Adjusted(v, normal))))
    case Adaptive => h.(mutation := Adjusted(h.mutation, normal))
  }

  /** The configuration field that mutations 4 to 9 resample. */
  function FieldOf(idx: nat): Config.Field
    requires 4 <= idx <= 9
  {
    if idx == 4 then Config.SurvivalField
    else if idx == 5 then Config.SelectionField
    else if idx == 6 then Config.NichingField
    else if idx == 7 then Config.SpeciesField
    else if idx == 8 then Config.StagnationField
    else Config.DuplicatesField
  }

  /** Mutations 4 to 9: one configuration field replaced by its sample. */
  function Resampled(c: Config.Cfg, idx: nat, d: Sampled): (r: Config.Cfg)
    requires 4 <= idx <= 9
    ensures Config.SameExcept(c, r, FieldOf(idx))
  {
    if idx == 4 then c.(survival := d.survival)
    else if idx == 5 then c.(selection := d.selection)
    else if idx == 6 then c.(niching := d.niching)
    else if idx == 7 then c.(species := d.species)
    else if idx == 8 then c.(stagnation := d.stagnation)
    else c.(duplicates := d.duplicates)
  }

  /** `HyperAlg::mutate` with `fire` the outcome of `gen_bool(rate)`: the
    * toggles (0, 2) and the resamplings (4 to 9) happen only when it
    * fires, the weight adjustments (1, 3) always; `gen_bool` panics
    * (`None`) for a rate outside [0, 1], and so does any index from 10 on. */
  function Mutated(h: Hyper, idx: nat, rate: real, fire: bool, normal: (real, nat) -> real, d: Sampled): (r: Option<Hyper>)
    ensures r.None? <==> idx >= NumMutation || (idx != 1 && idx != 3 && (rate < 0.0 || rate > 1.0))
    ensures r.Some? && !fire && idx != 1 && idx != 3 ==> r.value == h
    ensures r.Some? && idx != 1 && idx != 3 ==> r.value.crossover == h.crossover || idx == 0
    ensures r.Some? && idx != 1 && idx != 3 ==> r.value.mutation == h.mutation || idx == 2
    ensures r.Some? && 4 <= idx ==> Config.SameExcept(h.cfg, r.value.cfg, FieldOf(idx))
  {
    if idx >= NumMutation then None
    else if idx == 1 then Some(AdjustCrossover(h, normal))
    else if idx == 3 then Some(AdjustMutation(h, normal))
    else if rate < 0.0 || rate > 1.0 then None
    else if !fire then Some(h)
    else if idx == 0 then Some(ToggleCrossover(h))
    else if idx == 2 then Some(ToggleMutation(h))
    else Some(h.(cfg := Resampled(h.cfg, idx, d)))
  }

  /** Toggling twice restores the configuration; from `Adaptive` it
    * restores the whole state, while from `Fixed(v)` the fallback weights
    * are left as v. */
  lemma ToggleRoundTrip(h: Hyper, rate: real, normal: (real, nat) -> real, d: Sampled)
    requires 0.0 <= rate <= 1.0
    ensures Mutated(h, 0, rate, true, normal, d).Some?
    ensures Mutated(Mutated(h, 0, rate, true, normal, d).value, 0, rate, true, normal, d).Some?
    ensures var r := Mutated(Mutated(h, 0, rate, true, normal, d).value, 0, rate, true, normal, d).value;
      r.cfg == h.cfg && r.mutation == h.mutation &&
      r.crossover == (if h.cfg.crossover.Fixed? then h.cfg.crossover.weights else h.crossover)
    ensures Mutated(h, 2, rate, true, normal, d).Some?
    ensures Mutated(Mutated(h, 2, rate, true, normal, d).value, 2, rate, true, normal, d).Some?
    ensures var r := Mutated(Mutated(h, 2, rate, true, normal, d).value, 2, rate, true, normal, d).value;
      r.cfg == h.cfg && r.crossover == h.crossover &&
      r.mutation == (if h.cfg.mutation.Fixed? then h.cfg.mutation.weights else h.mutation)
  {
  }

  /** Mutations 1 and 3 touch only the weights in use: they keep their
    * length, make every weight non-negative, leave the kind of the
    * configuration and the other vector alone. */
  lemma AdjustLocal(h: Hyper, rate: real, normal: (real, nat) -> real, d: Sampled)
    ensures var r := Mutated(h, 1, rate, false, normal, d).value;
      |ActiveCrossover(r)| == |ActiveCrossover(h)| &&
      (forall i :: 0 <= i < |ActiveCrossover(r)| ==> ActiveCrossover(r)[i] >= 0.0) &&
      r.cfg.crossover.Fixed? == h.cfg.crossover.Fixed? &&
      (h.cfg.crossover.Fixed? ==> r.crossover == h.crossover) &&
      (h.cfg.crossover.Adaptive? ==> r.cfg == h.cfg) &&
      Config.SameExcept(h.cfg, r.cfg, Config.CrossoverField) && r.mutation == h.mutation
    ensures var r := Mutated(h, 3, rate, false, normal, d).value;
      |ActiveMutation(r)| == |ActiveMutation(h)| &&
      (forall i :: 0 <= i < |ActiveMutation(r)| ==> ActiveMutation(r)[i] >= 0.0) &&
      r.cfg.mutation.Fixed? == h.cfg.mutation.Fixed? &&
      (h.cfg.mutation.Fixed? ==> r.mutation == h.mutation) &&
      (h.cfg.mutation.Adaptive? ==> r.cfg == h.cfg) &&
      Config.SameExcept(h.cfg, r.cfg, Config.MutationField) && r.crossover == h.crossover
  {
  }

  /** With samples from the configuration samplers, a resampled
    * stagnation rule is always `None` and a resampled duplicates rule
    * always removes duplicates, whatever the genome held before. */
  lemma ResampledRanges(h: Hyper, rate: real, normal: (real, nat) -> real, d: Sampled)
    requires FromSamplers(d) && 0.0 <= rate <= 1.0
    ensures Mutated(h, 8, rate, true, normal, d).value.cfg.stagnation == Config.Stagnation.None
    ensures Mutated(h, 9, rate, true, normal, d).value.cfg.duplicates == Config.DisallowDuplicates
    ensures var s := Mutated(h, 7, rate, true, normal, d).value.cfg.species;
      s.TargetNumber? ==> 1 <= s.target < 10
    ensures var s := Mutated(h, 4, rate, true, normal, d).value.cfg.survival; 0.0 <= s.prop < 0.9
  {
    var k: nat, n: nat :| k < 1 && 1 <= n < 1000 && d.stagnation == Config.SampleStagnation(k, n);
    var k': nat :| k' < 1 && d.duplicates == Config.SampleDuplicates(k');
    var k2: nat, t: nat :| k2 < 2 && 1 <= t < 10 && d.species == Config.SampleSpecies(k2, t);
    var k3: nat, p: real :| k3 < 2 && 0.0 <= p < 0.9 && d.survival == Config.SampleSurvival(k3, p);
  }

  /** A meta-GA genome, changed in place by crossover and mutation. */
  class State {
    var cfg: Config.Cfg
    var crossover: seq<real>
    var mutation: seq<real>

    function Value(): Hyper
      reads this
    {
      Hyper(cfg, crossover, mutation)
    }

    /** `State::rand`. */
    constructor Rand(popSize: nat, numCrossover: nat, numMutation: nat, draw: nat -> real, d: Sampled)
      ensures Value() == Random(popSize, numCrossover, numMutation, draw, d)
    {
      crossover := seq(numCrossover, i requires 0 <= i < numCrossover => draw(i));
      mutation := seq(numMutation, i requires 0 <= i < numMutation => draw(numCrossover + i));
      var c := Config.New(popSize);
      c := c.(survival := d.survival);
      c := c.(selection := d.selection);
      c := c.(niching := d.niching);
      c := c.(species := d.species);
      cfg := c;
    }

    /** `HyperAlg::mutate` on this state; a panic leaves it as it was. */
    method Mutate(idx: nat, rate: real, fire: bool, normal: (real, nat) -> real, d: Sampled) returns (panicked: bool)
      modifies this
      ensures panicked <==> idx >= NumMutation || (idx != 1 && idx != 3 && (rate < 0.0 || rate > 1.0))
      ensures panicked ==> Value() == old(Value())
      ensures !panicked ==> Value() == Mutated(old(Value()), idx, rate, fire, normal, d).value
    {
      panicked := false;
      if idx < NumMutation && idx != 1 && idx != 3 && (rate < 0.0 || rate > 1.0) {
        // `gen_bool` rejects the rate before anything changes.
        return true;
      }
      if idx == 0 {
        if fire {
          match cfg.crossover {
            case Fixed(v) =>
              crossover := v;
              cfg := cfg.(crossover := Config.Crossover.Adaptive);
            case Adaptive =>
              cfg := cfg.(crossover := Config.Crossover.Fixed(crossover));
          }
        }
      } else if idx == 1 {
        match cfg.crossover {
          case Fixed(v) =>
            cfg := cfg.(crossover := Config.Crossover.Fixed(Adjusted(v, normal)));
          case Adaptive =>
            crossover := Adjusted(crossover, normal);
        }
      } else if idx == 2 {
        if fire {
          match cfg.mutation {
            case Fixed(v) =>
              mutation := v;
              cfg := cfg.(mutation := Config.Mutation.Adaptive);
            case Adaptive =>
              cfg := cfg.(mutation := Config.Mutation.Fixed(mutation));
          }
        }
      } else if idx == 3 {
        match cfg.mutation {
          case Fixed(v) =>
            cfg := cfg.(mutation := Config.Mutation.Fixed(Adjusted(v, normal)));
          case Adaptive =>
            mutation := Adjusted(mutation, normal);
        }
      } else if idx == 4 {
        if fire { cfg := cfg.(survival := d.survival); }
      } else if idx == 5 {
        if fire { cfg := cfg.(selection := d.selection); }
      } else if idx == 6 {
        if fire { cfg := cfg.(niching := d.niching); }
      } else if idx == 7 {
        if fire { cfg := cfg.(species := d.species); }
      } else if idx == 8 {
        if fire { cfg := cfg.(stagnation := d.stagnation); }
      } else if idx == 9 {
        if fire { cfg := cfg.(duplicates := d.duplicates); }
      } else {
        panicked := true;
      }
    }
  }

  /** `HyperAlg::crossover` on two distinct states (Rust's two `&mut`
    * borrows cannot alias); a panic leaves both as they were. */
  method Crossover(s1: State, s2: State, idx: nat, coin: nat -> bool,
                   blx: (seq<real>, seq<real>) -> (seq<real>, seq<real>)) returns (panicked: bool)
    requires s1 != s2
    modifies s1, s2
    ensures panicked <==> idx >= NumCrossover
    ensures panicked ==> s1.Value() == old(s1.Value()) && s2.Value() == old(s2.Value())
    ensures !panicked ==> (s1.Value(), s2.Value()) == Crossed(old(s1.Value()), old(s2.Value()), idx, coin, blx).value
  {
    panicked := false;
    if idx == 0 {
    } else if idx == 1 {
      var (a, b) := SwapFields(s1.cfg, s2.cfg, coin);
      s1.cfg, s2.cfg := a, b;
    } else if idx == 2 {
      var (w1, w2) := blx(s1.crossover, s2.crossover);
      s1.crossover, s2.crossover := w1, w2;
    } else if idx == 3 {
      var (w1, w2) := blx(s1.mutation, s2.mutation);
      s1.mutation, s2.mutation := w1, w2;
    } else {
      panicked := true;
    }
  }
}
