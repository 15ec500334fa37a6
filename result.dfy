// The outcome of one generation and its summary: src/run/result.rs (the
// older engine, over `Mem` and its genomes), src/evolve/result.rs (the
// newer engine, over `Member` and its states), and the same `num_dup` in
// src/runner.rs. `num_dup` sorts a copy of the genomes with
// `partial_cmp(..).unwrap()` (the order `le`) and removes adjacent
// duplicates.
module GenResult {
  import opened Common
  import opened Sorting
  import opened GenParams
  import opened GenSpecies
  import GenEvaluated
  import GenUnevaluated
  import GenrEvaluated
  import GenMember

  /** `Stats`: the best and mean fitness, the population size, the
    * number of duplicates, the mean distance, the stagnant flag and the
    * species record. A mean over nothing is a NaN, here `None`. */
  datatype Stats = Stats(bestFitness: real, meanFitness: Option<real>, popSize: nat, numDup: nat,
                         meanDistance: Option<real>, stagnant: bool, species: SpeciesInfo)

  // Duplicates

  function Id<G>(): G -> G { (g: G) => g }

  /** Sort a copy, `dedup`, and subtract the length from the size: the
    * number of values that repeat an earlier one. */
  function DupCount<G(==,!new)>(s: seq<G>, le: (G, G) -> bool): (d: nat)
    requires GenomeOrderOk(le)
  {
    |s| - |GenEvaluated.DedupByKey(s, Id(), le)|
  }

  /** `partial_cmp(..).unwrap()` never panics and orders the genomes. */
  ghost predicate GenomeOrderOk<G(!new)>(le: (G, G) -> bool) {
    GenEvaluated.GenomeOrder(le)
  }

  /** After sorting and `dedup` exactly one copy of each distinct value
    * is left. */
  lemma DedupDistinctValues<G(!new)>(s: seq<G>, le: (G, G) -> bool)
    requires GenomeOrderOk(le)
    ensures |GenEvaluated.DedupByKey(s, Id(), le)| == |Elems(s)|
  {
    var u := GenEvaluated.DedupByKey(s, Id(), le);
    GenEvaluated.DedupByKeyFacts(s, Id(), le);
    assert Distinct(u);
    DistinctCard(u);
    assert Elems(u) == Elems(s) by {
      forall x | x in Elems(s) ensures x in Elems(u) {
        var y :| y in u && Id()(y) == Id()(x);
      }
    }
  }

  /** The number of duplicates is the size less the number of distinct
    * values: zero exactly when all values differ, and below the size for
    * a non-empty population. */
  lemma DupCountFacts<G(!new)>(s: seq<G>, le: (G, G) -> bool)
    requires GenomeOrderOk(le)
    ensures DupCount(s, le) == |s| - |Elems(s)|
    ensures DupCount(s, le) == 0 <==> Distinct(s)
    ensures s != [] ==> DupCount(s, le) < |s|
  {
    DedupDistinctValues(s, le);
    if Distinct(s) {
      DistinctCard(s);
    } else {
      RepeatCard(s);
    }
    if s != [] {
      assert s[0] in Elems(s);
    }
  }

  // The older engine

  datatype RunResult<G(!new)> = RunResult(unevaluated: GenUnevaluated.UnevaluatedGen<G>,
                                          gen: GenEvaluated.EvaluatedGen<G>, stagnant: bool)

  function Genomes<G>(mems: seq<Mem<G>>): (r: seq<G>)
    ensures |r| == |mems| && forall i :: 0 <= i < |mems| ==> r[i] == mems[i].genome
  {
    seq(|mems|, i requires 0 <= i < |mems| => mems[i].genome)
  }

  /** `RunResult::nth`: member n, or a panic (`None`) past the end. */
  function Nth<G(!new)>(r: RunResult<G>, n: nat): (m: Option<Mem<G>>)
    ensures m.Some? <==> n < |r.gen.mems|
    ensures m.Some? ==> m.value in r.gen.mems
  {
    if n < |r.gen.mems| then Some(r.gen.mems[n]) else None
  }

  /** `RunResult::num_dup`. */
  function NumDup<G(==,!new)>(r: RunResult<G>, le: (G, G) -> bool): (d: nat)
    requires GenomeOrderOk(le)
    ensures d == |r.gen.mems| - |Elems(Genomes(r.gen.mems))|
    ensures d == 0 <==> Distinct(Genomes(r.gen.mems))
    ensures r.gen.mems != [] ==> d < |r.gen.mems|
  {
    DupCountFacts(Genomes(r.gen.mems), le);
    DupCount(Genomes(r.gen.mems), le)
  }

  /** `RunResult::mean_fitness`: the mean base fitness. */
  function MeanFitness<G(!new)>(mems: seq<Mem<G>>): (m: Option<real>)
    ensures m.None? <==> mems == []
    ensures m.Some? ==> m.value * |mems| as real == SumBase(mems)
  {
    if mems == [] then None else Some(SumBase(mems) / |mems| as real)
  }

  function SumBase<G>(mems: seq<Mem<G>>): real {
    if mems == [] then 0.0 else mems[0].baseFitness + SumBase(mems[1..])
  }

  /** A generation built by `EvaluatedGen::new` has its best member first:
    * `nth(0)` exists for a non-empty generation and no member beats it. */
  lemma NthZeroIsBest<G(!new)>(u: GenUnevaluated.UnevaluatedGen<G>, mems: seq<Mem<G>>, stagnant: bool)
    ensures var r := RunResult(u, GenEvaluated.New(mems), stagnant);
      (Nth(r, 0).Some? <==> mems != []) &&
      (Nth(r, 0).Some? ==> forall m :: m in mems ==> Nth(r, 0).value.baseFitness >= m.baseFitness)
  {
    var g := GenEvaluated.New(mems);
    forall m | m in mems && g.mems != [] ensures g.mems[0].baseFitness >= m.baseFitness {
      assert m in multiset(g.mems);
      var k :| 0 <= k < |g.mems| && g.mems[k] == m;
      if k > 0 {
        assert GenEvaluated.BaseFitness(g.mems[0]) >= GenEvaluated.BaseFitness(g.mems[k]);
      }
    }
    assert |g.mems| == |mems| by {
      assert |multiset(g.mems)| == |multiset(mems)|;
    }
  }

  /** `Stats::from_run`: the first member's base fitness, the mean fitness,
    * the size, the number of duplicates, the mean of the distance cache,
    * the stagnant flag and the species record of the unevaluated
    * generation; an empty generation panics in `nth(0)` (`None`). */
  function FromRun<G(==,!new)>(r: RunResult<G>, le: (G, G) -> bool): (s: Option<Stats>)
    requires GenomeOrderOk(le)
    reads r.unevaluated, r.unevaluated.dists
    ensures s.None? <==> r.gen.mems == []
    ensures s.Some? ==> Nth(r, 0).Some? && s.value.bestFitness == Nth(r, 0).value.baseFitness
    ensures s.Some? ==> s.value.popSize == |r.gen.mems| && s.value.numDup == NumDup(r, le)
    ensures s.Some? ==> s.value.meanFitness.Some? && s.value.meanDistance == r.unevaluated.dists.Mean()
    ensures s.Some? ==> s.value.stagnant == r.stagnant && s.value.species == r.unevaluated.species
  {
    match Nth(r, 0)
    case None => None
    case Some(best) =>
      Some(Stats(best.baseFitness, MeanFitness(r.gen.mems), |r.gen.mems|, NumDup(r, le),
                 r.unevaluated.dists.Mean(), r.stagnant, r.unevaluated.species))
  }

  // The newer engine. Its unevaluated generation is not part of this
  // model beyond what a result reads of it: the species record and the
  // distance cache.

  datatype EvolveResult<S> = EvolveResult(species: SpeciesInfo, dists: DistCache,
                                          gen: GenrEvaluated.EvaluatedGen<S>, stagnant: bool)

  function States<S>(mems: seq<GenMember.Member<S>>): (r: seq<S>)
    ensures |r| == |mems| && forall i :: 0 <= i < |mems| ==> r[i] == mems[i].state
  {
    seq(|mems|, i requires 0 <= i < |mems| => mems[i].state)
  }

  /** `EvolveResult::nth`. */
  function EvolveNth<S>(r: EvolveResult<S>, n: nat): (m: Option<GenMember.Member<S>>)
    ensures m.Some? <==> n < |r.gen.mems|
    ensures m.Some? ==> m.value in r.gen.mems
  {
    if n < |r.gen.mems| then Some(r.gen.mems[n]) else None
  }

  /** `EvolveResult::num_dup`. */
  function EvolveNumDup<S(==,!new)>(r: EvolveResult<S>, le: (S, S) -> bool): (d: nat)
    requires GenomeOrderOk(le)
    ensures d == |r.gen.mems| - |Elems(States(r.gen.mems))|
    ensures d == 0 <==> Distinct(States(r.gen.mems))
    ensures r.gen.mems != [] ==> d < |r.gen.mems|
  {
    DupCountFacts(States(r.gen.mems), le);
    DupCount(States(r.gen.mems), le)
  }

  function SumFitness<S>(mems: seq<GenMember.Member<S>>): real {
    if mems == [] then 0.0 else mems[0].fitness + SumFitness(mems[1..])
  }

  /** `EvolveResult::nth(0)` on a generation built by `EvaluatedGen::new`
    * is a member of top fitness. */
  lemma EvolveNthZeroIsBest<S(!new)>(species: SpeciesInfo, dists: DistCache, mems: seq<GenMember.Member<S>>,
                                     stagnant: bool)
    ensures var r := EvolveResult(species, dists, GenrEvaluated.New(mems), stagnant);
      (EvolveNth(r, 0).Some? <==> mems != []) &&
      (EvolveNth(r, 0).Some? ==> forall m :: m in mems ==> EvolveNth(r, 0).value.fitness >= m.fitness)
  {
    var g := GenrEvaluated.New(mems);
    forall m | m in mems && g.mems != [] ensures g.mems[0].fitness >= m.fitness {
      assert m in multiset(g.mems);
      var k :| 0 <= k < |g.mems| && g.mems[k] == m;
      if k > 0 {
        assert GenrEvaluated.Fitness(g.mems[0]) >= GenrEvaluated.Fitness(g.mems[k]);
      }
    }
    assert |g.mems| == |mems| by {
      assert |multiset(g.mems)| == |multiset(mems)|;
    }
  }

  /** `Stats::from_result`. */
  function FromResult<S(==,!new)>(r: EvolveResult<S>, le: (S, S) -> bool): (s: Option<Stats>)
    requires GenomeOrderOk(le)
    reads r.dists
    ensures s.None? <==> r.gen.mems == []
    ensures s.Some? ==> EvolveNth(r, 0).Some? && s.value.bestFitness == EvolveNth(r, 0).value.fitness
    ensures s.Some? ==> s.value.popSize == |r.gen.mems| && s.value.numDup == EvolveNumDup(r, le)
    ensures s.Some? ==> s.value.meanFitness.Some? && s.value.meanDistance == r.dists.Mean()
    ensures s.Some? ==> s.value.stagnant == r.stagnant && s.value.species == r.species
  {
    match EvolveNth(r, 0)
    case None => None
    case Some(best) =>
      var mean := Some(SumFitness(r.gen.mems) / |r.gen.mems| as real);
      Some(Stats(best.fitness, mean, |r.gen.mems|, EvolveNumDup(r, le), r.dists.Mean(), r.stagnant, r.species))
  }
}
