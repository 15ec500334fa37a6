// An unevaluated generation of the older engine, src/gen/unevaluated.rs:
// its members, the species found for them and their distance cache, and
// `evaluate`, which scores, sorts and speciates the members. The fitness
// and distance functions of the evaluator are passed in, and so are the
// selection fitnesses the shared-fitness formulas would compute.
module GenUnevaluated {
  import opened Common
  import opened Sorting
  import Config
  import opened GenParams
  import opened GenSpecies
  import GenEvaluated

  /** 2 to the power k. */
  function Pow2(k: nat): (r: nat)
    ensures r >= 1
  {
    if k == 0 then 1 else 2 * Pow2(k - 1)
  }

  lemma {:induction false} Pow2Above(k: nat)
    ensures Pow2(k) > k
  {
    if k > 0 {
      Pow2Above(k - 1);
    }
  }

  /** Halving an interval of width w, at most EP * 2^N, N times brings it
    * to at most EP, for N = ceil(w / EP): the bisection ends. */
  lemma BisectionRounds(w: real) returns (rounds: nat)
    ensures w <= Config.EP * Pow2(rounds) as real
  {
    rounds := GenEvaluated.CeilCount(w / Config.EP);
    Pow2Above(rounds);
    assert w / Config.EP <= Pow2(rounds) as real;
  }

  function Genomes<G>(mems: seq<Mem<G>>): (r: seq<G>)
    ensures |r| == |mems| && forall i :: 0 <= i < |mems| ==> r[i] == mems[i].genome
  {
    seq(|mems|, i requires 0 <= i < |mems| => mems[i].genome)
  }

  function Fitnesses<G>(mems: seq<Mem<G>>): (r: seq<real>)
    ensures |r| == |mems| && forall i :: 0 <= i < |mems| ==> r[i] == mems[i].baseFitness
  {
    seq(|mems|, i requires 0 <= i < |mems| => mems[i].baseFitness)
  }

  /** The members with their base fitness set by the evaluator. */
  function Scored<G>(mems: seq<Mem<G>>, fitness: G -> real): (r: seq<Mem<G>>)
    ensures |r| == |mems|
    ensures forall i :: 0 <= i < |mems| ==> r[i] == mems[i].(baseFitness := fitness(mems[i].genome))
  {
    seq(|mems|, i requires 0 <= i < |mems| => mems[i].(baseFitness := fitness(mems[i].genome)))
  }

  class UnevaluatedGen<G(!new)> {
    var mems: seq<Mem<G>>
    var species: SpeciesInfo
    const dists: DistCache

    /** The cache is well formed, and once filled it is for these members. */
    ghost predicate Valid()
      reads this, dists
    {
      dists.Valid() && (dists.cache == [] || dists.n == |mems|)
    }

    constructor Init(mems: seq<Mem<G>>)
      ensures this.mems == mems && species == NewSpeciesInfo()
      ensures fresh(dists) && dists.n == 0 && dists.cache == [] && dists.max == 0.0 && dists.sum == 0.0
      ensures Valid()
    {
      this.mems := mems;
      species := NewSpeciesInfo();
      dists := new DistCache();
    }

    /** `UnevaluatedGen::new`: it panics (`None`) on an empty member list;
      * otherwise the members as given, one species of radius 1 and an
      * empty distance cache. */
    static method New(mems: seq<Mem<G>>) returns (r: Option<UnevaluatedGen<G>>)
      ensures r.None? <==> mems == []
      ensures r.Some? ==> fresh(r.value) && fresh(r.value.dists) && r.value.Valid()
      ensures r.Some? ==> r.value.mems == mems && r.value.species == NewSpeciesInfo()
      ensures r.Some? ==> r.value.dists.n == 0 && r.value.dists.cache == []
    {
      if mems == [] {
        return None;
      }
      var g := new UnevaluatedGen.Init(mems);
      return Some(g);
    }

    /** `UnevaluatedGen::initial`: a fresh member for each genome, member i
      * with the parameters `params(i)` that `Params::new` drew for it; it
      * panics (`None`) when there are no genomes. */
    static method Initial(genomes: seq<G>, params: nat -> Params) returns (r: Option<UnevaluatedGen<G>>)
      ensures r.None? <==> genomes == []
      ensures r.Some? ==> fresh(r.value) && r.value.Valid() && |r.value.mems| == |genomes|
      ensures r.Some? ==> forall i :: 0 <= i < |genomes| ==>
        r.value.mems[i] == NewMem(genomes[i], params(i))
    {
      var mems := seq(|genomes|, i requires 0 <= i < |genomes| => NewMem(genomes[i], params(i)));
      r := New(mems);
    }

    /** Every member's base fitness set by the evaluator, one at a time. */
    static method ScoreAll(ms: seq<Mem<G>>, fitness: G -> real) returns (r: seq<Mem<G>>)
      ensures r == Scored(ms, fitness)
    {
      r := ms;
      for i := 0 to |r|
        invariant |r| == |ms|
        invariant forall j :: 0 <= j < i ==> r[j] == ms[j].(baseFitness := fitness(ms[j].genome))
        invariant forall j :: i <= j < |r| ==> r[j] == ms[j]
      {
        r := r[i := r[i].(baseFitness := fitness(r[i].genome))];
      }
    }

    /** The speciation loop of `Species::TargetNumber`: bisect the radius
      * between 0 and the largest distance until the interval is within
      * `EP` or the species count hits the target; a larger count raises
      * the radius, a smaller one lowers it. With no round at all the ids
      * are empty and the species record is kept; otherwise it is the last
      * round's, and the ids are a speciation at its radius. */
    method Bisect(target: nat, fitness: seq<real>) returns (ids: seq<nat>, ran: bool)
      requires dists.Valid() && dists.n == |fitness| && NonIncreasing(fitness)
      modifies this`species
      ensures !ran ==> ids == [] && species == old(species)
      ensures ran ==>
        |ids| == dists.n &&
        (forall i :: 0 <= i < |ids| ==> 1 <= ids[i] < species.num) &&
        dists.Contiguous(ids, species.num) && dists.Ordered(ids) &&
        dists.Grouped(ids, species.radius) && dists.Separated(ids, species.radius)
    {
      var lo, hi := 0.0, dists.max;
      ids, ran := [], false;
      ghost var rounds := BisectionRounds(hi - lo);
      while hi - lo > Config.EP
        invariant hi - lo <= Config.EP * Pow2(rounds) as real
        invariant !ran ==> ids == [] && species == old(species)
        invariant ran ==>
          |ids| == dists.n &&
          (forall i :: 0 <= i < |ids| ==> 1 <= ids[i] < species.num) &&
          dists.Contiguous(ids, species.num) && dists.Ordered(ids) &&
          dists.Grouped(ids, species.radius) && dists.Separated(ids, species.radius)
        decreases rounds
      {
        var radius := (lo + hi) / 2.0;
        var s := dists.Speciate(fitness, radius);
        ids, species, ran := s.value.0, s.value.1, true;
        if species.num < target {
          hi := species.radius;
        } else if species.num == target {
          break;
        } else {
          lo := species.radius;
        }
        if rounds == 0 {
          assert false;
        }
        rounds := rounds - 1;
      }
    }

    /** The loop that copies ids into the members' species, index by index
      * (every member when ids is a speciation, none when it is empty). */
    static method AssignSpecies(ms: seq<Mem<G>>, ids: seq<nat>) returns (r: seq<Mem<G>>)
      requires |ids| <= |ms|
      ensures |r| == |ms|
      ensures forall i :: 0 <= i < |ms| ==> r[i] == ms[i].(species := r[i].species)
      ensures forall i :: 0 <= i < |ids| ==> r[i].species == ids[i]
      ensures forall i :: |ids| <= i < |ms| ==> r[i].species == ms[i].species
    {
      r := ms;
      for i := 0 to |ids|
        invariant |r| == |ms|
        invariant forall j :: 0 <= j < |ms| ==> r[j] == ms[j].(species := r[j].species)
        invariant forall j :: 0 <= j < i ==> r[j].species == ids[j]
        invariant forall j :: i <= j < |ms| ==> r[j].species == ms[j].species
      {
        r := r[i := r[i].(species := ids[i])];
      }
    }

    /** The niching step: the selection fitness is the base fitness without
      * niching and `shared(i)` for member i with shared fitness. */
    static method SetSelection(ms: seq<Mem<G>>, niching: Config.Niching, shared: nat -> real) returns (r: seq<Mem<G>>)
      ensures |r| == |ms|
      ensures forall i :: 0 <= i < |ms| ==> r[i] == ms[i].(selectionFitness := r[i].selectionFitness)
      ensures niching.None? ==> forall i :: 0 <= i < |ms| ==> r[i].selectionFitness == ms[i].baseFitness
      ensures niching.SharedFitness? ==> forall i :: 0 <= i < |ms| ==> r[i].selectionFitness == shared(i)
    {
      r := ms;
      for i := 0 to |r|
        invariant |r| == |ms|
        invariant forall j :: 0 <= j < |ms| ==> r[j] == ms[j].(selectionFitness := r[j].selectionFitness)
        invariant forall j :: 0 <= j < i ==>
          r[j].selectionFitness == if niching.None? then ms[j].baseFitness else shared(j)
      {
        var f := if niching.None? then r[i].baseFitness else shared(i);
        r := r[i := r[i].(selectionFitness := f)];
      }
    }

    /** The cache holds the distance between every ordered pair of the
      * genomes. */
    ghost predicate CacheFor(gs: seq<G>, dist: (G, G) -> real)
      reads dists
    {
      dists.Valid() && dists.n == |gs| &&
      forall a, b {:trigger dists.Get(a, b)} :: 0 <= a < |gs| && 0 <= b < |gs| ==>
        dists.Get(a, b) == dist(gs[a], gs[b])
    }

    /** Where speciation or shared fitness asks for distances, `evaluate`
      * leaves a cache sized for the members, and one that holds their
      * distances when it was empty before (`empty0`). */
    ghost predicate CacheSettled(cfg: Config.Cfg, dist: (G, G) -> real, empty0: bool)
      reads this, dists
    {
      (cfg.species.TargetNumber? || cfg.niching.SharedFitness?) ==>
        dists.Valid() && dists.n == |mems| && (empty0 ==> CacheFor(Genomes(mems), dist))
    }

    /** `dists.ensure` on the genomes: an empty cache is filled with their
      * distances; a cache already sized for them is kept as it is (the
      * empty cache of no genomes is already the one `ensure` builds). */
    method EnsureFor(gs: seq<G>, dist: (G, G) -> real)
      requires dists.Valid() && (dists.cache == [] || dists.n == |gs|)
      modifies dists
      ensures dists.Valid() && dists.n == |gs|
      ensures old(dists.cache) == [] ==> CacheFor(gs, dist)
      ensures old(dists.n) == |gs| ==> unchanged(dists)
    {
      if dists.cache == [] {
        FlatIsProduct(dists.n, 0, dists.n);
        if gs != [] {
          dists.Ensure(gs, dist);
        }
      }
    }

    /** The speciation step of `evaluate` on the members ms, sorted best
      * first: with a target number of species the cache is ensured for
      * them and the radius bisected; without one nothing happens. */
    method SpeciesStep(ms: seq<Mem<G>>, cfg: Config.Cfg, dist: (G, G) -> real) returns (ids: seq<nat>, ran: bool)
      requires dists.Valid() && (dists.cache == [] || dists.n == |ms|)
      requires GenEvaluated.NonIncreasingBy(ms, GenEvaluated.BaseFitness)
      modifies this`species, dists
      ensures dists.Valid() && (dists.cache == [] || dists.n == |ms|)
      ensures cfg.species.None? ==> !ran && unchanged(dists)
      ensures cfg.species.TargetNumber? ==> dists.n == |ms| && (old(dists.cache) == [] ==> CacheFor(Genomes(ms), dist))
      ensures !ran ==> ids == [] && species == old(species)
      ensures ran ==> |ids| == |ms| && (forall i :: 0 <= i < |ids| ==> 1 <= ids[i] < species.num)
      ensures ran ==>
        dists.Grouped(ids, species.radius) && dists.Separated(ids, species.radius)
    {
      ids, ran := [], false;
      match cfg.species {
        case None =>
        case TargetNumber(target) =>
          EnsureFor(Genomes(ms), dist);
          ids, ran := Bisect(target, Fitnesses(ms));
      }
    }

    /** What `evaluate` leaves after the sort, for the members ms sorted
      * best first: the same members in that order; without speciation the
      * species kept, with it either those kept or a speciation of the
      * members that groups and separates them at the final radius; and the
      * selection fitness niching gives. */
    ghost predicate SettledFrom(ms: seq<Mem<G>>, cfg: Config.Cfg, shared: nat -> real, species0: SpeciesInfo)
      reads this, dists
    {
      |mems| == |ms| &&
      (forall i :: 0 <= i < |mems| ==>
        mems[i].genome == ms[i].genome && mems[i].params == ms[i].params && mems[i].baseFitness == ms[i].baseFitness) &&
      (cfg.species.None? ==> species == species0 && forall i :: 0 <= i < |mems| ==> mems[i].species == ms[i].species) &&
      (cfg.species.TargetNumber? ==>
        (species == species0 && forall i :: 0 <= i < |mems| ==> mems[i].species == ms[i].species) ||
        (|mems| == dists.n && dists.Valid() && (forall i :: 0 <= i < |mems| ==> 1 <= mems[i].species < species.num) &&
         dists.Grouped(GenEvaluated.Ids(mems, GenEvaluated.SpeciesOf), species.radius) &&
         dists.Separated(GenEvaluated.Ids(mems, GenEvaluated.SpeciesOf), species.radius))) &&
      (cfg.niching.None? ==> forall i :: 0 <= i < |mems| ==> mems[i].selectionFitness == mems[i].baseFitness) &&
      (cfg.niching.SharedFitness? ==> forall i :: 0 <= i < |mems| ==> mems[i].selectionFitness == shared(i))
    }

    /** The part of `evaluate` after the sort: speciation when configured,
      * then niching, on the members ms sorted best first. */
    method Settle(ms: seq<Mem<G>>, cfg: Config.Cfg, dist: (G, G) -> real, shared: nat -> real)
      requires Valid() && |ms| == |mems| && GenEvaluated.NonIncreasingBy(ms, GenEvaluated.BaseFitness)
      modifies this, dists
      ensures Valid() && |mems| == |ms|
      ensures SettledFrom(ms, cfg, shared, old(species))
      ensures CacheSettled(cfg, dist, old(dists.cache) == [])
    {
      mems := ms;
      var ids, ran := SpeciesStep(ms, cfg, dist);
      if cfg.niching.SharedFitness? {
        EnsureFor(Genomes(ms), dist);
      }
      var ms' := Label(ms, ids, cfg.niching, shared);
      if ran {
        assert GenEvaluated.Ids(ms', GenEvaluated.SpeciesOf) == ids;
      }
      assert Genomes(ms') == Genomes(ms);
      mems := ms';
    }

    /** The species ids copied in, then the niching step: everything but
      * the species and the selection fitness stays. */
    static method Label(ms: seq<Mem<G>>, ids: seq<nat>, niching: Config.Niching, shared: nat -> real) returns (r: seq<Mem<G>>)
      requires |ids| <= |ms|
      ensures |r| == |ms|
      ensures forall i :: 0 <= i < |ms| ==>
        r[i].genome == ms[i].genome && r[i].params == ms[i].params && r[i].baseFitness == ms[i].baseFitness
      ensures forall i :: 0 <= i < |ids| ==> r[i].species == ids[i]
      ensures forall i :: |ids| <= i < |ms| ==> r[i].species == ms[i].species
      ensures niching.None? ==> forall i :: 0 <= i < |ms| ==> r[i].selectionFitness == ms[i].baseFitness
      ensures niching.SharedFitness? ==> forall i :: 0 <= i < |ms| ==> r[i].selectionFitness == shared(i)
    {
      var withIds := AssignSpecies(ms, ids);
      r := SetSelection(withIds, niching, shared);
    }

    /** `evaluate` on its sequential paths. Every member is scored; a
      * negative fitness is an error, with the scores kept. Otherwise the
      * members are sorted best first (`sorted` is that order), then
      * settled as above, and the evaluated generation holds them in the
      * same order. */
    method Evaluate(cfg: Config.Cfg, fitness: G -> real, dist: (G, G) -> real, shared: nat -> real)
      returns (r: Result<GenEvaluated.EvaluatedGen<G>>, ghost sorted: seq<Mem<G>>)
      requires Valid()
      modifies this, dists
      ensures Valid() && |mems| == old(|mems|)
      ensures r.Err? <==> exists i :: 0 <= i < |old(mems)| && fitness(old(mems)[i].genome) < 0.0
      ensures r.Err? ==> mems == Scored(old(mems), fitness) && species == old(species)
      ensures r.Ok? ==> multiset(sorted) == multiset(Scored(old(mems), fitness)) && |sorted| == |mems|
      ensures r.Ok? ==> GenEvaluated.NonIncreasingBy(sorted, GenEvaluated.BaseFitness)
      ensures r.Ok? ==> r.value.mems == mems && SettledFrom(sorted, cfg, shared, old(species))
      ensures r.Ok? ==> CacheSettled(cfg, dist, old(dists.cache) == [])
      ensures r.Ok? && (cfg.species.TargetNumber? || cfg.niching.SharedFitness?) && |mems| > 0 ==> dists.Mean().Some?
    {
      var ms := ScoreAll(mems, fitness);
      mems := ms;
      if exists i :: 0 <= i < |ms| && ms[i].baseFitness < 0.0 {
        return Err("got negative fitness"), [];
      }
      var g;
      g, sorted := Rank(ms, cfg, dist, shared);
      return Ok(g), sorted;
    }

    /** The sequential path of `evaluate` after scoring: the members ms
      * sorted best first, then settled, and the evaluated generation of
      * them in that order. */
    method Rank(ms: seq<Mem<G>>, cfg: Config.Cfg, dist: (G, G) -> real, shared: nat -> real)
      returns (g: GenEvaluated.EvaluatedGen<G>, ghost sorted: seq<Mem<G>>)
      requires Valid() && |ms| == |mems|
      modifies this, dists
      ensures Valid() && |mems| == |ms|
      ensures multiset(sorted) == multiset(ms) && |sorted| == |ms|
      ensures GenEvaluated.NonIncreasingBy(sorted, GenEvaluated.BaseFitness)
      ensures g.mems == mems && SettledFrom(sorted, cfg, shared, old(species))
      ensures CacheSettled(cfg, dist, old(dists.cache) == [])
    {
      var byFitness := GenEvaluated.SortDesc(ms, GenEvaluated.BaseFitness);
      sorted := byFitness;
      Settle(byFitness, cfg, dist, shared);
      assert GenEvaluated.NonIncreasingBy(mems, GenEvaluated.BaseFitness) by {
        assert forall i :: 0 <= i < |mems| ==> mems[i].baseFitness == sorted[i].baseFitness;
      }
      GenEvaluated.NewSorted(mems);
      g := GenEvaluated.New(mems);
    }
  }
}
