// An evaluated generation of the newer engine, src/genr/evaluated.rs: the
// survivor rules including `Youngest` and `Tournament`, the age bump, the
// stagnant replacement and the refill. It shares the species, weight and
// de-duplication helpers of the older engine. Random draws (tournament
// opponents, fresh states, parameters, the children of reproduction) are
// parameters.
module GenrEvaluated {
  import opened Common
  import opened Sorting
  import EvolveConfig
  import opened GenMember
  import GenParams
  import GenEvaluated

  function Fitness<S(!new)>(m: Member<S>): real { m.fitness }
  function SpeciesOf<S(!new)>(m: Member<S>): nat { m.species }
  function State<S(!new)>(m: Member<S>): S { m.state }

  datatype EvaluatedGen<S> = EvaluatedGen(mems: seq<Member<S>>)

  /** `EvaluatedGen::new`: the same members, best fitness first. */
  function New<S(!new)>(mems: seq<Member<S>>): (r: EvaluatedGen<S>)
    ensures multiset(r.mems) == multiset(mems)
    ensures GenEvaluated.NonIncreasingBy(r.mems, Fitness)
  {
    EvaluatedGen(GenEvaluated.SortDesc(mems, Fitness))
  }

  // Survival::Youngest

  function AgeLe<S(!new)>(): (Member<S>, Member<S>) -> bool {
    (a: Member<S>, b: Member<S>) => a.age <= b.age
  }

  /** `Survival::Youngest`: the members sorted by age, youngest first,
    * truncated to pop_size. */
  function Youngest<S(!new)>(mems: seq<Member<S>>, popSize: nat): seq<Member<S>> {
    GenEvaluated.Take(SortBy(mems, AgeLe()), popSize)
  }

  /** The youngest survivors are min(pop_size, n) members of the
    * generation, ordered by age, and no member left out is younger than a
    * kept one. */
  lemma YoungestFacts<S(!new)>(mems: seq<Member<S>>, popSize: nat)
    ensures |Youngest(mems, popSize)| == Min(popSize, |mems|)
    ensures multiset(Youngest(mems, popSize)) <= multiset(mems)
    ensures forall i, j :: 0 <= i < j < |Youngest(mems, popSize)| ==>
      Youngest(mems, popSize)[i].age <= Youngest(mems, popSize)[j].age
    ensures forall x, y :: x in Youngest(mems, popSize) && y in multiset(mems) - multiset(Youngest(mems, popSize)) ==>
      x.age <= y.age
  {
    var sorted := SortBy(mems, AgeLe());
    var k := Min(popSize, |mems|);
    var y := Youngest(mems, popSize);
    assert y == sorted[..k];
    assert TotalPreorder(AgeLe<S>());
    SortBySorted(mems, AgeLe());
    SortedSplit(sorted, AgeLe(), k);
    assert sorted == y + sorted[k..];
    assert multiset(sorted) == multiset(y) + multiset(sorted[k..]);
    assert multiset(mems) - multiset(y) == multiset(sorted[k..]);
    forall a, b | a in y && b in multiset(mems) - multiset(y) ensures a.age <= b.age {
      assert b in sorted[k..];
      assert AgeLe()(a, b);
    }
  }

  // Survival::Tournament

  /** The opponents of a tournament that are strictly fitter than m. */
  function Wins<S(!new)>(m: Member<S>, opponents: seq<Member<S>>): (r: nat)
    ensures r <= |opponents|
  {
    if opponents == [] then 0
    else (if opponents[0].fitness > m.fitness then 1 else 0) + Wins(m, opponents[1..])
  }

  /** 0, 1, ..., n - 1. */
  function Range(n: nat): (r: seq<nat>)
    ensures |r| == n && forall i :: 0 <= i < n ==> r[i] == i
  {
    if n == 0 then [] else Range(n - 1) + [n - 1]
  }

  /** Every index below n appears in Range(n) once, and nothing else. */
  lemma {:induction false} RangeOnce(n: nat, i: nat)
    ensures multiset(Range(n))[i] == if i < n then 1 else 0
  {
    if n > 0 {
      var prev := Range(n - 1);
      RangeOnce(n - 1, i);
      assert Range(n) == prev + [n - 1];
      assert multiset(Range(n)) == multiset(prev) + multiset([n - 1]);
      assert multiset([n - 1])[i] == if i == n - 1 then 1 else 0;
    }
  }

  function WinsAt(wins: seq<int>, i: nat): int {
    if i < |wins| then wins[i] else 0
  }

  /** `sort_unstable_by_key(-wins)`: more wins first. */
  function MoreWins(wins: seq<int>): (nat, nat) -> bool {
    (a: nat, b: nat) => WinsAt(wins, a) >= WinsAt(wins, b)
  }

  /** The order of the members after a tournament: their indices, most
    * wins first. */
  function TournamentOrder(wins: seq<int>): (r: seq<nat>)
    ensures |r| == |wins|
    ensures forall k :: 0 <= k < |r| ==> r[k] < |wins|
    ensures forall i :: 0 <= i < |wins| ==> multiset(r)[i] == 1
    ensures forall k, l :: 0 <= k < l < |r| ==> wins[r[k]] >= wins[r[l]]
  {
    var range: seq<nat> := Range(|wins|);
    assert TotalPreorder(MoreWins(wins));
    SortBySorted(range, MoreWins(wins));
    var r: seq<nat> := SortBy<nat>(range, MoreWins(wins));
    forall k | 0 <= k < |r| ensures r[k] < |wins| {
      assert r[k] in multiset(range);
      RangeOnce(|wins|, r[k]);
    }
    forall i | 0 <= i < |wins| ensures multiset(r)[i] == 1 {
      RangeOnce(|wins|, i);
    }
    r
  }

  /** The number of fitter opponents each member met. */
  function WinsOf<S(!new)>(mems: seq<Member<S>>, opponents: nat -> seq<Member<S>>): (w: seq<int>)
    ensures |w| == |mems|
  {
    seq(|mems|, i requires 0 <= i < |mems| => Wins(mems[i], opponents(i)))
  }

  /** `Survival::Tournament(q)`: member i meets the opponents
    * `opponents(i)` drawn for it and wins against each fitter one; the
    * members are then listed most wins first. */
  function Tournament<S(!new)>(mems: seq<Member<S>>, opponents: nat -> seq<Member<S>>): (r: seq<Member<S>>)
  {
    var order := TournamentOrder(WinsOf(mems, opponents));
    seq(|mems|, k requires 0 <= k < |mems| => mems[order[k]])
  }

  /** The tournament lists every member exactly once: position k holds
    * member order[k], where order is a permutation of the indices; and
    * the number of fitter opponents never increases along the list. */
  lemma TournamentFacts<S(!new)>(mems: seq<Member<S>>, opponents: nat -> seq<Member<S>>)
    ensures var order := TournamentOrder(WinsOf(mems, opponents));
      var t := Tournament(mems, opponents);
      |t| == |mems| && |order| == |mems| &&
      (forall i :: 0 <= i < |mems| ==> multiset(order)[i] == 1) &&
      (forall k :: 0 <= k < |mems| ==> order[k] < |mems| && t[k] == mems[order[k]]) &&
      (forall k, l :: 0 <= k < l < |mems| ==>
        Wins(mems[order[k]], opponents(order[k])) >= Wins(mems[order[l]], opponents(order[l])))
  {
    var wins := WinsOf(mems, opponents);
    var order := TournamentOrder(wins);
    forall k, l | 0 <= k < l < |mems|
      ensures Wins(mems[order[k]], opponents(order[k])) >= Wins(mems[order[l]], opponents(order[l]))
    {
      assert wins[order[k]] >= wins[order[l]];
    }
  }

  // The survivors

  /** `survivors` before the ages are bumped. */
  function Chosen<S(!new)>(mems: seq<Member<S>>, survival: EvolveConfig.Survival, popSize: nat,
                          opponents: nat -> seq<Member<S>>): (r: seq<Member<S>>)
    ensures survival.TopProportion? ==> r == GenEvaluated.TopProportion(mems, popSize, survival.prop)
    ensures survival.SpeciesTopProportion? ==>
      r == GenEvaluated.SpeciesTopProportion(mems, SpeciesOf, popSize, survival.prop)
    ensures survival.Youngest? ==> r == Youngest(mems, popSize)
    ensures survival.Tournament? ==> r == Tournament(mems, opponents)
  {
    match survival
    case TopProportion(prop) => GenEvaluated.TopProportion(mems, popSize, prop)
    case SpeciesTopProportion(prop) => GenEvaluated.SpeciesTopProportion(mems, SpeciesOf, popSize, prop)
    case Youngest => Youngest(mems, popSize)
    case Tournament(_) => Tournament(mems, opponents)
  }

  /** Every survivor is a member of the generation. */
  lemma ChosenFromMembers<S(!new)>(mems: seq<Member<S>>, survival: EvolveConfig.Survival, popSize: nat,
                                   opponents: nat -> seq<Member<S>>)
    ensures forall x :: x in Chosen(mems, survival, popSize, opponents) ==> x in mems
  {
    match survival
    case TopProportion(prop) =>
    case SpeciesTopProportion(prop) =>
    case Youngest =>
      YoungestFacts(mems, popSize);
      forall x | x in Youngest(mems, popSize) ensures x in mems {
        assert x in multiset(Youngest(mems, popSize));
      }
    case Tournament(_) =>
      TournamentFacts(mems, opponents);
  }

  /** One year older. */
  function Older<S>(m: Member<S>): Member<S> {
    m.(age := m.age + 1)
  }

  /** The loop that bumps the age of every survivor. */
  method BumpAges<S>(mems: seq<Member<S>>) returns (r: seq<Member<S>>)
    ensures |r| == |mems| && forall i :: 0 <= i < |mems| ==> r[i] == Older(mems[i])
  {
    r := mems;
    for i := 0 to |r|
      invariant |r| == |mems|
      invariant forall j :: 0 <= j < i ==> r[j] == Older(mems[j])
      invariant forall j :: i <= j < |r| ==> r[j] == mems[j]
    {
      r := r[i := Older(r[i])];
    }
  }

  /** The members a survivor list ages into. */
  function Aged<S>(mems: seq<Member<S>>): (r: seq<Member<S>>)
    ensures |r| == |mems|
  {
    seq(|mems|, i requires 0 <= i < |mems| => Older(mems[i]))
  }

  /** `survivors`: the members the rule keeps, each one year older. */
  method Survivors<S(!new)>(g: EvaluatedGen<S>, survival: EvolveConfig.Survival, popSize: nat,
                           opponents: nat -> seq<Member<S>>) returns (r: seq<Member<S>>)
    ensures r == Aged(Chosen(g.mems, survival, popSize, opponents))
    ensures forall x :: x in r ==> exists y :: y in g.mems && x == Older(y)
  {
    var chosen := Chosen(g.mems, survival, popSize, opponents);
    r := BumpAges(chosen);
    ChosenFromMembers(g.mems, survival, popSize, opponents);
    forall x | x in r ensures exists y :: y in g.mems && x == Older(y) {
      var i :| 0 <= i < |r| && r[i] == x;
      assert chosen[i] in chosen;
    }
  }

  // The next generation

  /** Fresh members added to a stagnant generation under
    * `ReplaceChildren(prop)`: ceil(prop * (pop_size - survivors)), or none
    * when that is negative. */
  function Replacements(prop: real, popSize: nat, survivors: nat): nat {
    GenEvaluated.CeilCount(Scaled(prop, popSize as real - survivors as real))
  }

  function Scaled(prop: real, d: real): real {
    prop * d
  }

  /** A proportion of a difference lies between zero and the difference. */
  lemma ScaleBound(prop: real, d: real)
    requires 0.0 <= prop <= 1.0
    ensures d >= 0.0 ==> Scaled(prop, d) <= d
    ensures d <= 0.0 ==> Scaled(prop, d) <= 0.0
  {
    assert d - prop * d == (1.0 - prop) * d;
  }

  /** The ceiling of a value at most n is at most n. */
  lemma CeilCountLe(x: real, n: nat)
    requires x <= n as real
    ensures GenEvaluated.CeilCount(x) <= n
  {
  }

  /** With a proportion in [0, 1] the replacements fill at most the gap to
    * pop_size, and there are none once the survivors reach it. */
  lemma ReplacementsBound(prop: real, popSize: nat, survivors: nat)
    requires 0.0 <= prop <= 1.0
    ensures survivors >= popSize ==> Replacements(prop, popSize, survivors) == 0
    ensures survivors <= popSize ==> Replacements(prop, popSize, survivors) <= popSize - survivors
  {
    var d := popSize as real - survivors as real;
    ScaleBound(prop, d);
    if survivors >= popSize {
      CeilCountLe(Scaled(prop, d), 0);
    } else {
      var gap: nat := popSize - survivors;
      assert d == gap as real;
      CeilCountLe(Scaled(prop, d), gap);
    }
  }

  /** The loop pushing num fresh members; the k-th is member(k). */
  method PushFresh<S>(m: seq<Member<S>>, num: nat, member: nat -> Member<S>) returns (r: seq<Member<S>>)
    ensures |r| == |m| + num && r[..|m|] == m
    ensures forall k :: 0 <= k < num ==> r[|m| + k] == member(k)
  {
    r := m;
    for k := 0 to num
      invariant |r| == |m| + k && r[..|m|] == m
      invariant forall j :: 0 <= j < k ==> r[|m| + j] == member(j)
    {
      r := r + [member(k)];
    }
  }

  /** Where a member of the next generation comes from: an aged survivor,
    * a fresh member, or a child of reproduction. */
  ghost predicate Origin<S>(x: Member<S>, start: seq<Member<S>>, breed: nat -> Option<(Member<S>, Member<S>)>) {
    x in start || exists b :: breed(b).Some? && (x == breed(b).value.0 || x == breed(b).value.1)
  }

  /** The shape of the members `next_gen` starts from: the survivors
    * surv, followed, when stagnant, by the fresh members member(0), ...,
    * member(num - 1). */
  ghost predicate StartsFrom<S>(start: seq<Member<S>>, surv: seq<Member<S>>, stagnant: bool, num: nat,
                                member: nat -> Member<S>) {
    |start| >= |surv| && start[..|surv|] == surv && (!stagnant ==> start == surv) &&
    (stagnant ==> |start| == |surv| + num && forall k :: |surv| <= k < |start| ==> start[k] == member(k - |surv|))
  }

  /** The members `next_gen` starts from: the aged survivors followed,
    * when stagnant, by `Replacements` fresh members member(0), member(1), ... */
  method Start<S(!new)>(g: EvaluatedGen<S>, cfg: EvolveConfig.EvolveCfg, stagnant: bool,
                        opponents: nat -> seq<Member<S>>, member: nat -> Member<S>)
    returns (start: seq<Member<S>>)
    ensures var surv := Aged(Chosen(g.mems, cfg.survival, cfg.popSize, opponents));
      StartsFrom(start, surv, stagnant, Replacements(cfg.replacement.prop, cfg.popSize, |surv|), member)
  {
    var surv := Survivors(g, cfg.survival, cfg.popSize, opponents);
    var num := Replacements(cfg.replacement.prop, cfg.popSize, |surv|);
    start := surv;
    if stagnant {
      start := PushFresh(surv, num, member);
      forall k | |surv| <= k < |start| ensures start[k] == member(k - |surv|) {
        assert start[|surv| + (k - |surv|)] == member(k - |surv|);
      }
    } else {
      assert start[..|surv|] == surv;
    }
    assert StartsFrom(start, surv, stagnant, num, member);
  }

  /** The three rounds of reproduction up to pop_size, each followed,
    * under `DisallowDuplicates`, by a sort by state and the removal of
    * equal states. The b-th reproduction yields breed(b), or `None` where
    * a weight check in it panics. */
  method Reproduce<S(==,!new)>(start: seq<Member<S>>, cfg: EvolveConfig.EvolveCfg,
                               breed: nat -> Option<(Member<S>, Member<S>)>, le: (S, S) -> bool)
    returns (r: Outcome<seq<Member<S>>>)
    requires GenEvaluated.GenomeOrder(le)
    ensures !r.Error?
    ensures r.Done? ==> forall x :: x in r.value ==> Origin(x, start, breed)
    ensures r.Done? && cfg.duplicates == EvolveConfig.DisallowDuplicates ==>
      SortedBy(r.value, GenEvaluated.KeyLe(State, le)) &&
      forall i, j :: 0 <= i < j < |r.value| ==> r.value[i].state != r.value[j].state
    ensures r.Done? && cfg.duplicates == EvolveConfig.AllowDuplicates ==>
      |start| <= |r.value| && r.value[..|start|] == start && cfg.popSize <= |r.value| <= Max(|start|, cfg.popSize + 1)
    ensures r.Panic? ==> exists b :: breed(b).None?
  {
    var m := start;
    var allow := cfg.duplicates == EvolveConfig.AllowDuplicates;
    var b := 0;
    for t := 0 to 3
      invariant forall x :: x in m ==> Origin(x, start, breed)
      invariant allow ==> |start| <= |m| && m[..|start|] == start
      invariant allow && t == 0 ==> m == start
      invariant allow && t > 0 ==> cfg.popSize <= |m| <= Max(|start|, cfg.popSize + 1)
      invariant !allow && t > 0 ==>
        SortedBy(m, GenEvaluated.KeyLe(State, le)) && forall i, j :: 0 <= i < j < |m| ==> m[i].state != m[j].state
    {
      var res;
      res, b := GenEvaluated.RefillBred(m, cfg.popSize, breed, b);
      if res.None? {
        return Panic;
      }
      var m1 := res.value;
      forall x | x in m1 ensures Origin(x, start, breed) {
      }
      if !allow {
        GenEvaluated.DedupByKeyFacts(m1, State, le);
        m := GenEvaluated.DedupByKey(m1, State, le);
      } else {
        m := m1;
      }
    }
    return Done(m);
  }

  /** `next_gen`: the members to start from, then reproduction; every
    * member of the result is an aged survivor, a fresh member or a
    * child. */
  method NextGen<S(==,!new)>(g: EvaluatedGen<S>, cfg: EvolveConfig.EvolveCfg, stagnant: bool,
                             opponents: nat -> seq<Member<S>>, member: nat -> Member<S>,
                             breed: nat -> Option<(Member<S>, Member<S>)>, le: (S, S) -> bool)
    returns (r: Outcome<seq<Member<S>>>, ghost start: seq<Member<S>>)
    requires GenEvaluated.GenomeOrder(le)
    ensures var surv := Aged(Chosen(g.mems, cfg.survival, cfg.popSize, opponents));
      StartsFrom(start, surv, stagnant, Replacements(cfg.replacement.prop, cfg.popSize, |surv|), member)
    ensures !r.Error?
    ensures r.Done? ==> forall x :: x in r.value ==> Origin(x, start, breed)
    ensures r.Done? && cfg.duplicates == EvolveConfig.DisallowDuplicates ==>
      SortedBy(r.value, GenEvaluated.KeyLe(State, le)) &&
      forall i, j :: 0 <= i < j < |r.value| ==> r.value[i].state != r.value[j].state
    ensures r.Done? && cfg.duplicates == EvolveConfig.AllowDuplicates ==>
      |start| <= |r.value| && r.value[..|start|] == start && cfg.popSize <= |r.value| <= Max(|start|, cfg.popSize + 1)
    ensures r.Panic? ==> exists b :: breed(b).None?
  {
    var s := Start(g, cfg, stagnant, opponents, member);
    start := s;
    r := Reproduce(s, cfg, breed, le);
  }
}
