// An evaluated generation of the older engine, src/gen/evaluated.rs: the
// members sorted by fitness, the species present, the survivor rules,
// fixed-weight validation and the refill of the next generation. The
// helpers over members are generic in the member type, with its fitness and
// species given as functions, because src/genr/evaluated.rs repeats them
// over its own member record.
module GenEvaluated {
  import opened Common
  import opened Sorting
  import Config
  import opened GenParams

  /** Keys never increase along s. */
  predicate NonIncreasingBy<M(!new)>(s: seq<M>, key: M -> real) {
    forall i, j :: 0 <= i < j < |s| ==> key(s[i]) >= key(s[j])
  }

  /** The comparator of `sort_unstable_by(|a, b| b.partial_cmp(a))` on a
    * key: higher keys first. */
  function Desc<M(!new)>(key: M -> real): (M, M) -> bool {
    (a: M, b: M) => key(a) >= key(b)
  }

  /** Sorting by a key in descending order yields a permutation with
    * non-increasing keys. */
  function SortDesc<M(!new)>(s: seq<M>, key: M -> real): (r: seq<M>)
    ensures multiset(r) == multiset(s) && |r| == |s|
    ensures NonIncreasingBy(r, key)
  {
    assert TotalPreorder(Desc(key));
    SortBySorted(s, Desc(key));
    SortBy(s, Desc(key))
  }

  function BaseFitness<G(!new)>(m: Mem<G>): real { m.baseFitness }
  function SpeciesOf<G(!new)>(m: Mem<G>): nat { m.species }

  datatype EvaluatedGen<G> = EvaluatedGen(mems: seq<Mem<G>>)

  /** `EvaluatedGen::new`: the same members, best base fitness first. */
  function New<G(!new)>(mems: seq<Mem<G>>): (r: EvaluatedGen<G>)
    ensures multiset(r.mems) == multiset(mems)
    ensures NonIncreasingBy(r.mems, BaseFitness)
  {
    EvaluatedGen(SortDesc(mems, BaseFitness))
  }

  /** Members already sorted best first are kept in their order. */
  lemma NewSorted<G(!new)>(mems: seq<Mem<G>>)
    requires NonIncreasingBy(mems, BaseFitness)
    ensures New(mems).mems == mems
  {
    SortBySortedIdentity(mems, Desc(BaseFitness));
  }

  /** `species_mems(id)`: the members of species id, in their order. */
  function SpeciesMems<M(!new)>(mems: seq<M>, sp: M -> nat, id: nat): (r: seq<M>)
    ensures forall x :: x in r <==> x in mems && sp(x) == id
    ensures |r| <= |mems|
  {
    if mems == [] then []
    else if sp(mems[0]) == id then [mems[0]] + SpeciesMems(mems[1..], sp, id)
    else SpeciesMems(mems[1..], sp, id)
  }

  lemma {:induction false} SpeciesMemsAppend<M(!new)>(a: seq<M>, b: seq<M>, sp: M -> nat, id: nat)
    ensures SpeciesMems(a + b, sp, id) == SpeciesMems(a, sp, id) + SpeciesMems(b, sp, id)
  {
    if a != [] {
      assert (a + b)[0] == a[0] && (a + b)[1..] == a[1..] + b;
      SpeciesMemsAppend(a[1..], b, sp, id);
    } else {
      assert a + b == b;
    }
  }

  /** Filtering by species id keeps all of a sequence of that species and
    * none of one of other species. */
  lemma {:induction false} SpeciesMemsAllOrNone<M(!new)>(s: seq<M>, sp: M -> nat, id: nat, other: nat)
    requires forall x :: x in s ==> sp(x) == other
    ensures SpeciesMems(s, sp, id) == if id == other then s else []
  {
    if s != [] {
      assert s[0] in s;
      SpeciesMemsAllOrNone(s[1..], sp, id, other);
    }
  }

  function Ids<M(!new)>(mems: seq<M>, sp: M -> nat): (r: seq<nat>)
    ensures |r| == |mems| && forall i :: 0 <= i < |mems| ==> r[i] == sp(mems[i])
  {
    seq(|mems|, i requires 0 <= i < |mems| => sp(mems[i]))
  }

  function NatLe(): (nat, nat) -> bool { (a: nat, b: nat) => a <= b }
  function NatEq(): (nat, nat) -> bool { (a: nat, b: nat) => a == b }

  /** `species()`: the species ids of the members, sorted and
    * de-duplicated. */
  function Species<M(!new)>(mems: seq<M>, sp: M -> nat): seq<nat> {
    DedupBy(SortBy(Ids(mems, sp), NatLe()), NatEq())
  }

  /** The species list is strictly increasing and holds exactly the ids
    * that some member has. */
  lemma SpeciesFacts<M(!new)>(mems: seq<M>, sp: M -> nat)
    ensures forall i, j :: 0 <= i < j < |Species(mems, sp)| ==> Species(mems, sp)[i] < Species(mems, sp)[j]
    ensures forall id :: id in Species(mems, sp) <==> exists x :: x in mems && sp(x) == id
    ensures Distinct(Species(mems, sp))
  {
    var ids := Ids(mems, sp);
    var sorted := SortBy(ids, NatLe());
    var r := Species(mems, sp);
    assert TotalPreorder(NatLe());
    SortBySorted(ids, NatLe());
    SortedDedupDistinct(sorted, NatLe(), NatEq());
    forall id ensures id in r <==> exists x :: x in mems && sp(x) == id {
      if id in r {
        assert id in multiset(sorted);
        var i :| 0 <= i < |ids| && ids[i] == id;
        assert mems[i] in mems;
      }
      if exists x :: x in mems && sp(x) == id {
        var x :| x in mems && sp(x) == id;
        var i :| 0 <= i < |mems| && mems[i] == x;
        assert ids[i] == id;
        assert id in multiset(sorted);
        DedupByCovers(sorted, NatEq(), id);
      }
    }
  }

  /** `f.ceil() as usize`: the least whole number at least x, and 0 for
    * negative x, as the saturating cast gives. */
  function CeilCount(x: real): (r: nat)
    ensures x <= r as real
    ensures r == 0 || (r - 1) as real < x
  {
    var c := -((-x).Floor);
    if c < 0 then 0 else c
  }

  /** `iter().take(k)`. */
  function Take<M(!new)>(s: seq<M>, k: nat): (r: seq<M>)
    ensures |r| == Min(k, |s|) && r == s[..|r|]
  {
    s[..Min(k, |s|)]
  }

  /** `Survival::TopProportion(prop)`: the first ceil(pop_size * prop)
    * members, or all of them. */
  function TopProportion<M(!new)>(mems: seq<M>, popSize: nat, prop: real): (r: seq<M>)
    ensures |r| == Min(CeilCount(popSize as real * prop), |mems|) && r == mems[..|r|]
  {
    Take(mems, CeilCount(popSize as real * prop))
  }

  /** From members sorted by fitness, the proportional survivors are at
    * least as fit as every member left out. */
  lemma TopProportionKeepsBest<M(!new)>(mems: seq<M>, key: M -> real, popSize: nat, prop: real)
    requires NonIncreasingBy(mems, key)
    ensures forall i, j :: 0 <= i < |TopProportion(mems, popSize, prop)| <= j < |mems| ==>
      key(TopProportion(mems, popSize, prop)[i]) >= key(mems[j])
  {
  }

  /** The first num members of each species in ids, species after species. */
  function PerSpecies<M(!new)>(mems: seq<M>, sp: M -> nat, ids: seq<nat>, num: nat): (r: seq<M>)
    ensures forall x :: x in r ==> x in mems
  {
    if ids == [] then []
    else Take(SpeciesMems(mems, sp, ids[0]), num) + PerSpecies(mems, sp, ids[1..], num)
  }

  /** Filtering the per-species concatenation by one species gives that
    * species' block, and nothing for a species not listed. */
  lemma {:induction false} PerSpeciesBlock<M(!new)>(mems: seq<M>, sp: M -> nat, ids: seq<nat>, num: nat, id: nat)
    requires Distinct(ids)
    ensures SpeciesMems(PerSpecies(mems, sp, ids, num), sp, id) ==
      if id in ids then Take(SpeciesMems(mems, sp, id), num) else []
  {
    if ids != [] {
      var head := Take(SpeciesMems(mems, sp, ids[0]), num);
      assert Distinct(ids[1..]) by {
        forall i, j | 0 <= i < j < |ids[1..]| ensures ids[1..][i] != ids[1..][j] {
          assert ids[1..][i] == ids[i + 1] && ids[1..][j] == ids[j + 1];
        }
      }
      PerSpeciesBlock(mems, sp, ids[1..], num, id);
      SpeciesMemsAppend(head, PerSpecies(mems, sp, ids[1..], num), sp, id);
      forall x | x in head ensures sp(x) == ids[0] {
        assert x in SpeciesMems(mems, sp, ids[0]);
      }
      SpeciesMemsAllOrNone(head, sp, id, ids[0]);
      if id == ids[0] {
        forall k | 0 <= k < |ids[1..]| ensures ids[1..][k] != id {
          assert ids[1..][k] == ids[k + 1];
        }
      }
    }
  }

  lemma {:induction false} SpeciesMemsNone<M(!new)>(mems: seq<M>, sp: M -> nat, id: nat)
    requires forall x :: x in mems ==> sp(x) != id
    ensures SpeciesMems(mems, sp, id) == []
  {
    if mems != [] {
      assert mems[0] in mems;
      SpeciesMemsNone(mems[1..], sp, id);
    }
  }

  /** Members each species keeps under `SpeciesTopProportion(prop)`:
    * ceil(pop_size * prop / number of species). */
  function SpeciesQuota<M(!new)>(mems: seq<M>, sp: M -> nat, popSize: nat, prop: real): nat {
    var n := |Species(mems, sp)|;
    if n == 0 then 0 else CeilCount(popSize as real * prop / n as real)
  }

  /** `Survival::SpeciesTopProportion(prop)`: the first quota members of
    * each species, species in increasing id order. */
  function SpeciesTopProportion<M(!new)>(mems: seq<M>, sp: M -> nat, popSize: nat, prop: real): (r: seq<M>)
    ensures forall x :: x in r ==> x in mems
  {
    PerSpecies(mems, sp, Species(mems, sp), SpeciesQuota(mems, sp, popSize, prop))
  }

  /** Each species keeps exactly its first quota members, in their order. */
  lemma {:induction false} SpeciesTopProportionPerSpecies<M(!new)>(mems: seq<M>, sp: M -> nat, popSize: nat, prop: real, id: nat)
    ensures SpeciesMems(SpeciesTopProportion(mems, sp, popSize, prop), sp, id) ==
      Take(SpeciesMems(mems, sp, id), SpeciesQuota(mems, sp, popSize, prop))
  {
    var species := Species(mems, sp);
    var quota := SpeciesQuota(mems, sp, popSize, prop);
    SpeciesFacts(mems, sp);
    PerSpeciesBlock(mems, sp, species, quota, id);
    if id !in species {
      SpeciesMemsNone(mems, sp, id);
    }
  }

  /** `survivors` under the older configuration. */
  function Survivors<G(!new)>(mems: seq<Mem<G>>, survival: Config.Survival, popSize: nat): (r: seq<Mem<G>>)
    ensures forall x :: x in r ==> x in mems
    ensures survival.TopProportion? ==> r == TopProportion(mems, popSize, survival.prop)
    ensures survival.SpeciesTopProportion? ==> r == SpeciesTopProportion(mems, SpeciesOf, popSize, survival.prop)
  {
    match survival
    case TopProportion(prop) => TopProportion(mems, popSize, prop)
    case SpeciesTopProportion(prop) => SpeciesTopProportion(mems, SpeciesOf, popSize, prop)
  }

  /** The outcome of `check_weights`. */
  datatype WeightsCheck = WeightsOk | WrongLength(found: nat, expected: nat) | NegativeWeight(v: real)

  /** Index of the first negative weight. */
  function FirstNegative(w: seq<real>): (r: Option<nat>)
    ensures r.None? <==> forall i :: 0 <= i < |w| ==> w[i] >= 0.0
    ensures r.Some? ==> r.value < |w| && w[r.value] < 0.0 && forall i :: 0 <= i < r.value ==> w[i] >= 0.0
  {
    if w == [] then None
    else if w[0] < 0.0 then Some(0)
    else match FirstNegative(w[1..])
      case None => None
      case Some(i) => Some(i + 1)
  }

  /** `check_weights(weights, l)`: the length must be l, and then every
    * weight non-negative; the first negative weight is reported. */
  function CheckWeights(w: seq<real>, l: nat): (r: WeightsCheck)
    ensures r == WeightsOk <==> |w| == l && forall i :: 0 <= i < |w| ==> w[i] >= 0.0
    ensures r.WrongLength? <==> |w| != l
    ensures r.WrongLength? ==> r.found == |w| && r.expected == l
    ensures r.NegativeWeight? ==>
      r.v < 0.0 && exists i :: 0 <= i < |w| && w[i] == r.v && forall j :: 0 <= j < i ==> w[j] >= 0.0
  {
    if |w| != l then WrongLength(|w|, l)
    else match FirstNegative(w)
      case None => WeightsOk
      case Some(i) => NegativeWeight(w[i])
  }

  /** A genome order that `partial_cmp(..).unwrap()` accepts: total,
    * transitive, and equal exactly when both ways agree. */
  ghost predicate GenomeOrder<G(!new)>(le: (G, G) -> bool) {
    TotalPreorder(le) && forall a, b :: le(a, b) && le(b, a) ==> a == b
  }

  /** Members compared by the order of their keys (genome or state). */
  function KeyLe<M(!new), G(!new)>(key: M -> G, le: (G, G) -> bool): (M, M) -> bool {
    (a: M, b: M) => le(key(a), key(b))
  }

  /** Members with equal keys. */
  function KeySame<M(!new), G(==,!new)>(key: M -> G): (M, M) -> bool {
    (a: M, b: M) => key(a) == key(b)
  }

  lemma KeyOrder<M(!new), G(!new)>(key: M -> G, le: (G, G) -> bool)
    requires GenomeOrder(le)
    ensures TotalPreorder(KeyLe(key, le)) && Agrees(KeyLe(key, le), KeySame(key))
  {
    var mle, same := KeyLe(key, le), KeySame(key);
    forall a, b ensures mle(a, b) || mle(b, a) {
      assert le(key(a), key(b)) || le(key(b), key(a));
    }
    forall a, b, c | mle(a, b) && mle(b, c) ensures mle(a, c) {
      assert le(key(a), key(b)) && le(key(b), key(c));
    }
    forall a, b ensures same(a, b) <==> mle(a, b) && mle(b, a) {
      assert le(key(a), key(a));
      if le(key(a), key(b)) && le(key(b), key(a)) {
        assert key(a) == key(b);
      }
    }
  }

  function Genome<G(!new)>(m: Mem<G>): G { m.genome }

  /** Where a member of the next generation comes from: a survivor, a
    * member built from a generated genome, or a child of reproduction. */
  ghost predicate Origin<G>(x: Mem<G>, surv: seq<Mem<G>>, genfn: Option<nat -> G>, params: nat -> Params,
                            breed: nat -> Option<(Mem<G>, Mem<G>)>)
  {
    x in surv ||
    (genfn.Some? && exists k :: x == NewMem(genfn.value(k), params(k))) ||
    (exists b :: breed(b).Some? && (x == breed(b).value.0 || x == breed(b).value.1))
  }

  /** The refill loop with a generation function: members built from the
    * genomes genfn(k), genfn(k + 1), ... are pushed until there are
    * pop_size. */
  method RefillGenerated<G>(m: seq<Mem<G>>, pop: nat, genfn: nat -> G, params: nat -> Params, k: nat)
    returns (m': seq<Mem<G>>, k': nat)
    ensures |m'| == Max(|m|, pop) && m'[..|m|] == m
    ensures forall x :: x in m' ==> x in m || exists j :: x == NewMem(genfn(j), params(j))
  {
    m', k' := m, k;
    while |m'| < pop
      invariant |m| <= |m'| <= Max(|m|, pop) && m'[..|m|] == m
      invariant |m| >= pop ==> m' == m
      invariant forall x :: x in m' ==> x in m || exists j :: x == NewMem(genfn(j), params(j))
      decreases pop - |m'|
    {
      m' := m' + [NewMem(genfn(k'), params(k'))];
      k' := k' + 1;
    }
  }

  /** The reproduction loop: the pairs breed(b), breed(b + 1), ... are
    * pushed until there are at least pop_size members, or `None` where a
    * reproduction panics. */
  method RefillBred<M>(m: seq<M>, pop: nat, breed: nat -> Option<(M, M)>, b: nat)
    returns (r: Option<seq<M>>, b': nat)
    ensures r.None? ==> exists j :: breed(j).None?
    ensures r.Some? ==> pop <= |r.value|
    ensures r.Some? ==> |m| <= |r.value| <= Max(|m|, pop + 1) && r.value[..|m|] == m
    ensures r.Some? && |m| >= pop ==> r.value == m
    ensures r.Some? ==> forall x :: x in r.value ==>
      x in m || exists j :: breed(j).Some? && (x == breed(j).value.0 || x == breed(j).value.1)
  {
    var cur := m;
    b' := b;
    while |cur| < pop
      invariant |m| <= |cur| <= Max(|m|, pop + 1) && cur[..|m|] == m
      invariant |m| >= pop ==> cur == m
      invariant forall x :: x in cur ==>
        x in m || exists j :: breed(j).Some? && (x == breed(j).value.0 || x == breed(j).value.1)
      decreases pop - |cur|
    {
      var pair := breed(b');
      if pair.None? {
        return None, b';
      }
      cur := cur + [pair.value.0, pair.value.1];
      b' := b' + 1;
    }
    return Some(cur), b';
  }

  /** `sort_unstable_by` on the keys followed by `dedup_by` on equal
    * keys. */
  function DedupByKey<M(!new), G(==,!new)>(m: seq<M>, key: M -> G, le: (G, G) -> bool): seq<M> {
    DedupBy(SortBy(m, KeyLe(key, le)), KeySame(key))
  }

  /** The de-duplicated members are sorted by key, have pairwise different
    * keys, come from the input, cover every key of it, and are empty only
    * for an empty input. */
  lemma DedupByKeyFacts<M(!new), G(!new)>(m: seq<M>, key: M -> G, le: (G, G) -> bool)
    requires GenomeOrder(le)
    ensures SortedBy(DedupByKey(m, key, le), KeyLe(key, le))
    ensures forall i, j :: 0 <= i < j < |DedupByKey(m, key, le)| ==>
      key(DedupByKey(m, key, le)[i]) != key(DedupByKey(m, key, le)[j])
    ensures forall x :: x in DedupByKey(m, key, le) ==> x in m
    ensures forall x :: x in m ==> exists y :: y in DedupByKey(m, key, le) && key(y) == key(x)
    ensures DedupByKey(m, key, le) == [] <==> m == []
  {
    var sorted := SortBy(m, KeyLe(key, le));
    var u := DedupBy(sorted, KeySame(key));
    KeyOrder(key, le);
    SortBySorted(m, KeyLe(key, le));
    SortedDedupDistinct(sorted, KeyLe(key, le), KeySame(key));
    forall i, j | 0 <= i < j < |u| ensures key(u[i]) != key(u[j]) {
      assert !KeySame(key)(u[i], u[j]);
    }
    forall x | x in u ensures x in m {
      assert x in multiset(sorted);
    }
    forall x | x in m ensures exists y :: y in u && key(y) == key(x) {
      assert x in multiset(sorted);
      DedupByCovers(sorted, KeySame(key), x);
      var y :| y in u && KeySame(key)(x, y);
    }
    if m == [] {
      assert sorted == [];
    } else {
      assert |sorted| > 0;
    }
  }

  /** `next_gen`: the survivors, then three times a refill up to pop_size
    * followed, under `DisallowDuplicates`, by a sort by genome and the
    * removal of equal genomes. The k-th generated genome is genfn(k), with
    * parameters params(k); without a generation function the b-th
    * reproduction yields the pair breed(b), or `None` where it panics.
    * The result is the member list handed to `UnevaluatedGen::new`, which
    * panics on an empty one. */
  method NextGen<G(==,!new)>(g: EvaluatedGen<G>, cfg: Config.Cfg, genfn: Option<nat -> G>, params: nat -> Params,
                        breed: nat -> Option<(Mem<G>, Mem<G>)>, le: (G, G) -> bool)
    returns (r: Outcome<seq<Mem<G>>>)
    requires GenomeOrder(le)
    ensures !r.Error?
    ensures r.Done? ==> r.value != []
    ensures r.Done? ==>
      forall x :: x in r.value ==> Origin(x, Survivors(g.mems, cfg.survival, cfg.popSize), genfn, params, breed)
    ensures r.Done? && cfg.duplicates == Config.DisallowDuplicates ==>
      SortedBy(r.value, KeyLe(Genome, le)) && forall i, j :: 0 <= i < j < |r.value| ==> r.value[i].genome != r.value[j].genome
    ensures r.Done? && cfg.duplicates == Config.AllowDuplicates ==>
      var surv := Survivors(g.mems, cfg.survival, cfg.popSize);
      |surv| <= |r.value| && r.value[..|surv|] == surv && cfg.popSize <= |r.value| <= Max(|surv|, cfg.popSize + 1)
    ensures r.Done? && cfg.duplicates == Config.AllowDuplicates && genfn.Some? ==>
      |r.value| == Max(|Survivors(g.mems, cfg.survival, cfg.popSize)|, cfg.popSize)
    ensures r.Panic? && genfn.None? && cfg.popSize > 0 ==> exists b :: breed(b).None?
    ensures r.Panic? && genfn.Some? ==> cfg.popSize == 0
    ensures cfg.popSize == 0 && Survivors(g.mems, cfg.survival, cfg.popSize) == [] ==> r.Panic?
  {
    var surv := Survivors(g.mems, cfg.survival, cfg.popSize);
    var pop := cfg.popSize;
    var allow := cfg.duplicates == Config.AllowDuplicates;
    var m := surv;
    var k, b := 0, 0;
    for t := 0 to 3
      invariant forall x :: x in m ==> Origin(x, surv, genfn, params, breed)
      invariant allow ==> |surv| <= |m| && m[..|surv|] == surv
      invariant allow && t == 0 ==> m == surv
      invariant allow && t > 0 ==> pop <= |m| <= Max(|surv|, pop + 1)
      invariant allow && t > 0 && genfn.Some? ==> |m| == Max(|surv|, pop)
      invariant !allow && t > 0 ==>
        SortedBy(m, KeyLe(Genome, le)) && forall i, j :: 0 <= i < j < |m| ==> m[i].genome != m[j].genome
      invariant t > 0 && pop > 0 ==> m != []
      invariant pop == 0 && surv == [] ==> m == []
    {
      var m1: seq<Mem<G>>;
      if genfn.Some? {
        m1, k := RefillGenerated(m, pop, genfn.value, params, k);
      } else {
        var res;
        res, b := RefillBred(m, pop, breed, b);
        if res.None? {
          return Panic;
        }
        m1 := res.value;
      }
      forall x | x in m1 ensures Origin(x, surv, genfn, params, breed) {
      }
      if !allow {
        DedupByKeyFacts(m1, Genome, le);
        m := DedupByKey(m1, Genome, le);
      } else {
        m := m1;
      }
    }
    if m == [] {
      return Panic;
    }
    return Done(m);
  }
}
