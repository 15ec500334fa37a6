// The generation loop drivers: src/run/runner.rs, src/evolve/evolver.rs and
// src/runner.rs. Each keeps a generation counter, a stagnation counter and
// the last best fitness, pads the initial population with random genomes,
// and allocates the members printed by `summary_sample` round-robin over
// the species. The float tests of "the same best fitness"
// (`relative_eq!`, `abs_diff_eq!`) are passed in as booleans, except the
// relative-error test of src/runner.rs, which is written out.
module Runner {
  import opened Common
  import opened Sorting
  import EvolveConfig
  import GenParams
  import GenUnevaluated

  // The stagnation counter

  /** The counter after one generation: one more when the best fitness is
    * the same as the last one, and 0 otherwise. */
  function Counted(count: nat, same: bool): nat {
    if same then count + 1 else 0
  }

  /** The stagnation rule applied to the updated counter: the counter it
    * leaves and whether the generation counts as stagnant. */
  function Decide(stagnation: EvolveConfig.Stagnation, count: nat): (r: (nat, bool))
    ensures stagnation.None? ==> r == (count, false)
    ensures stagnation.OneShotAfter? ==>
      r == if count >= stagnation.after then (0, true) else (count, false)
    ensures stagnation.ContinuousAfter? ==> r == (count, count >= stagnation.after)
  {
    match stagnation
    case None => (count, false)
    case OneShotAfter(c) => if count >= c then (0, true) else (count, false)
    case ContinuousAfter(c) => (count, count >= c)
  }

  /** One generation of the counter. */
  function Step(stagnation: EvolveConfig.Stagnation, count: nat, same: bool): (nat, bool) {
    Decide(stagnation, Counted(count, same))
  }

  /** The stagnant flags of successive generations, from the counter
    * value count, given whether each generation's best fitness was the
    * same as the one before. */
  function Flags(stagnation: EvolveConfig.Stagnation, count: nat, sames: seq<bool>): (r: seq<bool>)
    ensures |r| == |sames|
    decreases |sames|
  {
    if sames == [] then []
    else [Step(stagnation, count, sames[0]).1] + Flags(stagnation, Step(stagnation, count, sames[0]).0, sames[1..])
  }

  /** Without a stagnation rule no generation is ever stagnant. */
  lemma {:induction false} NoneNeverStagnant(count: nat, sames: seq<bool>)
    ensures forall k :: 0 <= k < |sames| ==> !Flags(EvolveConfig.Stagnation.None, count, sames)[k]
    decreases |sames|
  {
    if sames != [] {
      NoneNeverStagnant(Step(EvolveConfig.Stagnation.None, count, sames[0]).0, sames[1..]);
    }
  }

  /** A change of best fitness ends stagnation under every rule with a
    * positive threshold. */
  lemma ChangeIsNotStagnant(stagnation: EvolveConfig.Stagnation, count: nat)
    requires !stagnation.None? ==> stagnation.after >= 1
    ensures Step(stagnation, count, false) == (0, false)
  {
  }

  lemma MulLe(x: int, y: int, c: int)
    requires x <= y && c >= 0
    ensures x * c <= y * c
  {
    assert y * c == x * c + (y - x) * c;
  }

  /** The remainder is determined by any quotient-remainder split. */
  lemma ModUnique(a: int, q: int, r: int, c: int)
    requires c >= 1 && 0 <= r < c && a == q * c + r
    ensures a % c == r
  {
    var q0, r0 := a / c, a % c;
    assert a == q0 * c + r0;
    if q0 < q {
      assert (q0 + 1) * c == q0 * c + c;
      MulLe(q0 + 1, q, c);
    } else if q < q0 {
      assert (q + 1) * c == q * c + c;
      MulLe(q + 1, q0, c);
    }
  }

  lemma ModStep(a: nat, c: nat)
    requires c >= 1
    ensures (a % c + 1) % c == (a + 1) % c
  {
    var q := a / c;
    assert a == q * c + a % c;
    if a % c + 1 == c {
      assert a + 1 == (q + 1) * c + 0;
      ModUnique(a + 1, q + 1, 0, c);
      ModUnique(c, 1, 0, c);
    } else {
      ModUnique(a + 1, q, a % c + 1, c);
      ModUnique(a % c + 1, 0, a % c + 1, c);
    }
  }

  /** Below the threshold, one unchanged generation moves the counter
    * one step round the cycle of length c. */
  lemma OneShotStep(c: nat, count: nat)
    requires c >= 1 && count < c
    ensures Step(EvolveConfig.OneShotAfter(c), count, true) == ((count + 1) % c, (count + 1) % c == 0)
  {
    if count + 1 == c {
      ModUnique(count + 1, 1, 0, c);
    } else {
      ModUnique(count + 1, 0, count + 1, c);
    }
  }

  /** `OneShotAfter(c)` on a fitness that never changes: the generation is
    * stagnant every c-th time, counting from count. */
  lemma {:induction false} OneShotPeriodic(c: nat, count: nat, sames: seq<bool>, k: nat)
    requires c >= 1 && count < c && k < |sames|
    requires forall i :: 0 <= i < |sames| ==> sames[i]
    ensures Flags(EvolveConfig.OneShotAfter(c), count, sames)[k] <==> (count + k + 1) % c == 0
    decreases |sames|
  {
    OneShotStep(c, count);
    if k > 0 {
      var next := (count + 1) % c;
      OneShotPeriodic(c, next, sames[1..], k - 1);
      ModAdd(count + 1, k - 1, c);
    }
  }

  lemma {:induction false} ModAdd(a: nat, k: nat, c: nat)
    requires c >= 1
    ensures (a % c + k + 1) % c == (a + k + 1) % c
  {
    if k == 0 {
      ModStep(a, c);
    } else {
      ModAdd(a, k - 1, c);
      ModStep(a % c + k, c);
      ModStep(a + k, c);
    }
  }

  /** `ContinuousAfter(c)` on a fitness that never changes: every
    * generation from the c-th on is stagnant. */
  lemma {:induction false} ContinuousFromThreshold(c: nat, count: nat, sames: seq<bool>, k: nat)
    requires k < |sames|
    requires forall i :: 0 <= i < |sames| ==> sames[i]
    ensures Flags(EvolveConfig.ContinuousAfter(c), count, sames)[k] <==> count + k + 1 >= c
    decreases |sames|
  {
    if k > 0 {
      ContinuousFromThreshold(c, count + 1, sames[1..], k - 1);
    }
  }

  lemma MulLtReal(x: real, y: real, p: real)
    requires x < y && p > 0.0
    ensures x * p < y * p
  {
    assert y * p - x * p == (y - x) * p;
  }

  lemma DivLt(d: real, last: real, e: real)
    requires last > 0.0
    ensures d / last < e <==> d < e * last
  {
    var x := d / last;
    assert x * last == d;
    if x < e {
      MulLtReal(x, e, last);
    } else if e < x {
      MulLtReal(e, x, last);
    }
  }

  lemma DivNeg(d: real, last: real)
    requires last < 0.0 && d >= 0.0
    ensures d / last <= 0.0
  {
    var x := d / last;
    assert x * last == d;
    if x > 0.0 {
      MulLtReal(last, 0.0, x);
    }
  }

  /** `REL_ERR` of src/runner.rs. */
  const RelErr: real := 0.000000000001

  /** `(best - last).abs() / last < REL_ERR` in IEEE arithmetic, where a
    * zero `last` yields infinity or NaN and the comparison fails. */
  function RelativelyEqual(best: real, last: real): bool {
    last != 0.0 && (if best >= last then best - last else last - best) / last < RelErr
  }

  /** For a positive last fitness the test is a relative error below
    * 1e-12; a zero last fitness never matches, and a negative one always
    * does. */
  lemma RelativelyEqualFacts(best: real, last: real)
    ensures last == 0.0 ==> !RelativelyEqual(best, last)
    ensures last > 0.0 ==> (RelativelyEqual(best, last) <==>
      (if best >= last then best - last else last - best) < RelErr * last)
    ensures last < 0.0 ==> RelativelyEqual(best, last)
  {
    var d := if best >= last then best - last else last - best;
    if last > 0.0 {
      DivLt(d, last, RelErr);
    }
    if last < 0.0 {
      DivNeg(d, last);
    }
  }

  /** The counters of a runner. */
  class Runner {
    var genCount: nat
    var stagnationCount: nat
    var lastFitness: real

    /** `from_initial` and `new`: all counters at zero. */
    constructor ()
      ensures genCount == 0 && stagnationCount == 0 && lastFitness == 0.0
    {
      genCount, stagnationCount, lastFitness := 0, 0, 0.0;
    }

    /** The bookkeeping of `run_iter` in src/run/runner.rs and
      * src/evolve/evolver.rs, after evaluating a generation whose best
      * fitness is best; same is the outcome of the configured comparison
      * with the last best fitness. It returns the stagnant flag handed to
      * `next_gen`. */
    method Observe(best: real, same: bool, stagnation: EvolveConfig.Stagnation) returns (stagnant: bool)
      modifies this
      ensures genCount == old(genCount) + 1 && lastFitness == best
      ensures (stagnationCount, stagnant) == Step(stagnation, old(stagnationCount), same)
    {
      genCount := genCount + 1;
      if same {
        stagnationCount := stagnationCount + 1;
      } else {
        stagnationCount := 0;
      }
      lastFitness := best;
      match stagnation {
        case None =>
          stagnant := false;
        case OneShotAfter(count) =>
          if stagnationCount >= count {
            stagnationCount := 0;
            stagnant := true;
          } else {
            stagnant := false;
          }
        case ContinuousAfter(count) =>
          stagnant := stagnationCount >= count;
      }
    }

    /** The bookkeeping of `run_iter` in src/runner.rs: the relative-error
      * comparison and no generation counter. */
    method ObserveRelative(best: real, stagnation: EvolveConfig.Stagnation) returns (stagnant: bool)
      modifies this
      ensures genCount == old(genCount) && lastFitness == best
      ensures (stagnationCount, stagnant) == Step(stagnation, old(stagnationCount), RelativelyEqual(best, old(lastFitness)))
    {
      if RelativelyEqual(best, lastFitness) {
        stagnationCount := stagnationCount + 1;
      } else {
        stagnationCount := 0;
      }
      lastFitness := best;
      match stagnation {
        case None =>
          stagnant := false;
        case OneShotAfter(count) =>
          if stagnationCount >= count {
            stagnationCount := 0;
            stagnant := true;
          } else {
            stagnant := false;
          }
        case ContinuousAfter(count) =>
          stagnant := stagnationCount >= count;
      }
    }
  }

  // The initial population

  /** The loop of `from_initial`: random genomes rand(0), rand(1), ... are
    * pushed until there are pop_size; a longer list is kept whole. */
  method Pad<G>(initial: seq<G>, popSize: nat, rand: nat -> G) returns (r: seq<G>)
    ensures |r| == Max(|initial|, popSize) && r[..|initial|] == initial
    ensures forall k :: |initial| <= k < |r| ==> r[k] == rand(k - |initial|)
  {
    r := initial;
    while |r| < popSize
      invariant |initial| <= |r| <= Max(|initial|, popSize) && r[..|initial|] == initial
      invariant forall k :: |initial| <= k < |r| ==> r[k] == rand(k - |initial|)
      decreases popSize - |r|
    {
      r := r + [rand(|r| - |initial|)];
    }
  }

  /** `from_initial` of src/runner.rs: the padded genomes become the first
    * unevaluated generation, member i with the parameters params(i), and
    * the counters start at zero; it panics (`None`) when there is no
    * genome at all. */
  method FromInitial<G(!new)>(initial: seq<G>, popSize: nat, rand: nat -> G, params: nat -> GenParams.Params)
    returns (r: Option<(Runner, GenUnevaluated.UnevaluatedGen<G>)>)
    ensures r.None? <==> initial == [] && popSize == 0
    ensures r.Some? ==> fresh(r.value.0) && fresh(r.value.1)
    ensures r.Some? ==>
      r.value.0.genCount == 0 && r.value.0.stagnationCount == 0 && r.value.0.lastFitness == 0.0
    ensures r.Some? ==> |r.value.1.mems| == Max(|initial|, popSize)
    ensures r.Some? ==> forall i :: 0 <= i < |r.value.1.mems| ==>
      r.value.1.mems[i].genome == (if i < |initial| then initial[i] else rand(i - |initial|)) &&
      r.value.1.mems[i].params == params(i)
  {
    var genomes := Pad(initial, popSize, rand);
    assert forall i :: 0 <= i < |initial| ==> genomes[i] == genomes[..|initial|][i];
    var gen := GenUnevaluated.UnevaluatedGen.Initial(genomes, params);
    if gen.None? {
      return None;
    }
    var runner := new Runner();
    return Some((runner, gen.value));
  }

  // summary_sample

  function Sum(s: seq<nat>): nat {
    if s == [] then 0 else s[0] + Sum(s[1..])
  }

  lemma {:induction false} SumUpdate(s: seq<nat>, i: nat, v: nat)
    requires i < |s|
    ensures Sum(s[i := v]) + s[i] == Sum(s) + v
  {
    if i > 0 {
      SumUpdate(s[1..], i - 1, v);
      assert s[i := v][1..] == s[1..][i - 1 := v];
    }
  }

  lemma {:induction false} SumLe(a: seq<nat>, b: seq<nat>)
    requires |a| == |b| && forall i :: 0 <= i < |a| ==> a[i] <= b[i]
    ensures Sum(a) <= Sum(b)
  {
    if a != [] {
      SumLe(a[1..], b[1..]);
    }
  }

  lemma {:induction false} SumZeros(s: seq<nat>)
    requires forall i :: 0 <= i < |s| ==> s[i] == 0
    ensures Sum(s) == 0
  {
    if s != [] {
      SumZeros(s[1..]);
    }
  }

  function Sizes(species: seq<seq<real>>): (r: seq<nat>)
    ensures |r| == |species| && forall i :: 0 <= i < |species| ==> r[i] == |species[i]|
  {
    seq(|species|, i requires 0 <= i < |species| => |species[i]|)
  }

  /** The tuple order `partial_cmp` gives the picks (fitness, species
    * index): by fitness, then by index. */
  function PickLe(): ((real, nat), (real, nat)) -> bool {
    (a: (real, nat), b: (real, nat)) => a.0 < b.0 || (a.0 == b.0 && a.1 <= b.1)
  }

  /** Picks of one round, at most one per species, in species order. */
  predicate Increasing(added: seq<(real, nat)>) {
    forall t, u :: 0 <= t < u < |added| ==> added[t].1 < added[u].1
  }

  /** Appending the pick of species `idx` after picks of earlier species
    * keeps the picks increasing and each one a pick of round `r`. */
  lemma AppendPick(species: seq<seq<real>>, before: seq<(real, nat)>, idx: nat, r: nat)
    requires idx < |species| && |species[idx]| > r
    requires forall t :: 0 <= t < |before| ==>
      before[t].1 < idx && |species[before[t].1]| > r && before[t].0 == species[before[t].1][r]
    requires Increasing(before)
    ensures var a := before + [(species[idx][r], idx)];
      Increasing(a) && a[|before|].1 == idx &&
      forall t :: 0 <= t < |a| ==> a[t].1 < idx + 1 && |species[a[t].1]| > r && a[t].0 == species[a[t].1][r]
  {
    var a := before + [(species[idx][r], idx)];
    forall t, u | 0 <= t < u < |a| ensures a[t].1 < a[u].1 {
      if u < |before| {
        assert a[t] == before[t] && a[u] == before[u];
      } else {
        assert a[t] == before[t];
      }
    }
  }

  /** One round of `summary_sample`: every species with members left
    * contributes its next member, whose fitness is recorded. */
  method Round(species: seq<seq<real>>, ptr: seq<nat>, processed: nat, ghost r: nat)
    returns (next: seq<nat>, added: seq<(real, nat)>, processed': nat)
    requires |ptr| == |species| && forall i :: 0 <= i < |ptr| ==> ptr[i] == Min(r, |species[i]|)
    ensures |next| == |ptr| && forall i :: 0 <= i < |ptr| ==> next[i] == Min(r + 1, |species[i]|)
    ensures Sum(next) == Sum(ptr) + |added| && processed' == processed + |added|
    ensures forall t :: 0 <= t < |added| ==>
      added[t].1 < |species| && |species[added[t].1]| > r && added[t].0 == species[added[t].1][r]
    ensures Increasing(added)
    ensures forall i :: 0 <= i < |species| && |species[i]| > r ==> exists t :: 0 <= t < |added| && added[t].1 == i
  {
    next, added, processed' := ptr, [], processed;
    for idx := 0 to |species|
      invariant |next| == |ptr|
      invariant forall i :: 0 <= i < idx ==> next[i] == Min(r + 1, |species[i]|)
      invariant forall i :: idx <= i < |ptr| ==> next[i] == ptr[i]
      invariant Sum(next) == Sum(ptr) + |added| && processed' == processed + |added|
      invariant forall t :: 0 <= t < |added| ==>
        added[t].1 < idx && |species[added[t].1]| > r && added[t].0 == species[added[t].1][r]
      invariant Increasing(added)
      invariant forall i :: 0 <= i < idx && |species[i]| > r ==> exists t :: 0 <= t < |added| && added[t].1 == i
    {
      if next[idx] < |species[idx]| {
        ghost var before := added;
        assert next[idx] == r;
        AppendPick(species, before, idx, r);
        added := added + [(species[idx][next[idx]], idx)];
        assert forall t :: 0 <= t < |before| ==> added[t] == before[t];
        SumUpdate(next, idx, next[idx] + 1);
        next := next[idx := next[idx] + 1];
        processed' := processed' + 1;
      }
    }
  }

  /** Sorting the picks of a round keeps one pick per species, each a pick
    * of the round. */
  lemma SortedPicks(added: seq<(real, nat)>, sorted: seq<(real, nat)>)
    requires Increasing(added) && multiset(sorted) == multiset(added)
    ensures forall a :: 0 <= a < |sorted| ==> exists t :: 0 <= t < |added| && added[t] == sorted[a]
    ensures forall a, b :: 0 <= a < b < |sorted| ==> sorted[a].1 != sorted[b].1
  {
    forall a | 0 <= a < |sorted| ensures exists t :: 0 <= t < |added| && added[t] == sorted[a] {
      assert sorted[a] in multiset(added);
    }
    assert Distinct(added);
    DistinctPerm(added, sorted);
    forall a, b | 0 <= a < b < |sorted| ensures sorted[a].1 != sorted[b].1 {
      assert sorted[a] in multiset(added) && sorted[b] in multiset(added);
      var t :| 0 <= t < |added| && added[t] == sorted[a];
      var u :| 0 <= u < |added| && added[u] == sorted[b];
      assert t != u;
    }
  }

  /** Every pick of a species in trimmed is PickLe-below every pick of a
    * species outside it. */
  predicate WeakestTaken(added: seq<(real, nat)>, trimmed: set<nat>) {
    forall t, u :: 0 <= t < |added| && 0 <= u < |added| && added[t].1 in trimmed && added[u].1 !in trimmed ==>
      PickLe()(added[t], added[u])
  }

  /** The species of the first j picks. */
  ghost function Picked(sorted: seq<(real, nat)>, j: nat): set<nat>
    requires j <= |sorted|
  {
    set a | 0 <= a < j :: sorted[a].1
  }

  /** Taking back the first picks in PickLe order takes back picks of the
    * round, each weaker than every pick kept. */
  lemma {:induction false} TrimWeakest(added: seq<(real, nat)>, overflow: nat)
    requires overflow <= |added| && Increasing(added)
    ensures forall i :: i in Picked(SortBy(added, PickLe()), overflow) ==>
      exists t :: 0 <= t < |added| && added[t].1 == i
    ensures WeakestTaken(added, Picked(SortBy(added, PickLe()), overflow))
  {
    var sorted := SortBy(added, PickLe());
    assert TotalPreorder(PickLe());
    SortBySorted(added, PickLe());
    SortedPicks(added, sorted);
    var trimmed := Picked(sorted, overflow);
    forall i | i in trimmed ensures exists t :: 0 <= t < |added| && added[t].1 == i {
      var a :| 0 <= a < overflow && sorted[a].1 == i;
      var t :| 0 <= t < |added| && added[t] == sorted[a];
    }
    forall t, u | 0 <= t < |added| && 0 <= u < |added| && added[t].1 in trimmed && added[u].1 !in trimmed
      ensures PickLe()(added[t], added[u])
    {
      var a :| 0 <= a < overflow && sorted[a].1 == added[t].1;
      var t' :| 0 <= t' < |added| && added[t'] == sorted[a];
      assert t' == t;
      assert added[u] in multiset(sorted);
      var b :| 0 <= b < |sorted| && sorted[b] == added[u];
      assert b >= overflow;
    }
  }

  /** The trimming of an overflowing round: the picks are sorted weakest
    * first and the first overflow of them are taken back. */
  method Trim(ptr: seq<nat>, added: seq<(real, nat)>, overflow: nat) returns (ptr': seq<nat>, ghost trimmed: set<nat>)
    requires overflow <= |added| && Increasing(added)
    requires forall t :: 0 <= t < |added| ==> added[t].1 < |ptr| && ptr[added[t].1] >= 1
    ensures |ptr'| == |ptr| && Sum(ptr') + overflow == Sum(ptr)
    ensures forall i :: 0 <= i < |ptr| ==>
      if i in trimmed then ptr'[i] + 1 == ptr[i] else ptr'[i] == ptr[i]
    ensures forall i :: i in trimmed ==> exists t :: 0 <= t < |added| && added[t].1 == i
    ensures WeakestTaken(added, trimmed)
  {
    assert TotalPreorder(PickLe());
    var sorted := SortBy(added, PickLe());
    SortedPicks(added, sorted);
    ptr' := ptr;
    for j := 0 to overflow
      invariant |ptr'| == |ptr| && Sum(ptr') + j == Sum(ptr)
      invariant forall i :: 0 <= i < |ptr| ==>
        if i in Picked(sorted, j) then ptr'[i] + 1 == ptr[i] else ptr'[i] == ptr[i]
    {
      var sp := sorted[j].1;
      var t :| 0 <= t < |added| && added[t] == sorted[j];
      TrimStep(ptr, ptr', sorted, j);
      SumUpdate(ptr', sp, ptr'[sp] - 1);
      ptr' := ptr'[sp := ptr'[sp] - 1];
    }
    trimmed := Picked(sorted, overflow);
    TrimWeakest(added, overflow);
  }

  /** Taking back pick j keeps the pointers of the picks before it and of
    * the species not picked, and lowers its species by one. */
  lemma TrimStep(ptr: seq<nat>, cur: seq<nat>, sorted: seq<(real, nat)>, j: nat)
    requires j < |sorted| && |cur| == |ptr|
    requires forall a, b :: 0 <= a < b < |sorted| ==> sorted[a].1 != sorted[b].1
    requires sorted[j].1 < |ptr| && ptr[sorted[j].1] >= 1
    requires forall i :: 0 <= i < |ptr| ==>
      if i in Picked(sorted, j) then cur[i] + 1 == ptr[i] else cur[i] == ptr[i]
    ensures cur[sorted[j].1] >= 1
    ensures forall i :: 0 <= i < |ptr| ==>
      if i in Picked(sorted, j + 1) then cur[sorted[j].1 := cur[sorted[j].1] - 1][i] + 1 == ptr[i]
      else cur[sorted[j].1 := cur[sorted[j].1] - 1][i] == ptr[i]
  {
    var sp := sorted[j].1;
    assert sp !in Picked(sorted, j);
    assert Picked(sorted, j + 1) == Picked(sorted, j) + {sp};
  }

  /** The rounds of `summary_sample` until n members are taken or none is
    * left. When the last round overflows n, added holds its picks. */
  method Rounds(species: seq<seq<real>>, n: nat) returns (ptr: seq<nat>, processed: nat, rounds: nat, added: seq<(real, nat)>)
    ensures |ptr| == |species| && forall i :: 0 <= i < |ptr| ==> ptr[i] == Min(rounds, |species[i]|)
    ensures processed == Sum(ptr) <= Sum(Sizes(species))
    ensures processed < n ==> ptr == Sizes(species)
    ensures processed > n ==> rounds >= 1 && processed - n <= |added| && Increasing(added)
    ensures processed > n ==> forall t :: 0 <= t < |added| ==>
      added[t].1 < |species| && |species[added[t].1]| >= rounds && added[t].0 == species[added[t].1][rounds - 1]
    ensures processed > n ==> forall i :: 0 <= i < |species| && |species[i]| >= rounds ==>
      exists t :: 0 <= t < |added| && added[t].1 == i
  {
    ptr := seq(|species|, _ => 0);
    SumZeros(ptr);
    processed, rounds, added := 0, 0, [];
    while processed < n
      invariant |ptr| == |species|
      invariant forall i :: 0 <= i < |ptr| ==> ptr[i] == Min(rounds, |species[i]|)
      invariant processed == Sum(ptr) <= n
      decreases n - processed
    {
      var next, picks, p := Round(species, ptr, processed, rounds);
      if picks == [] {
        assert ptr == Sizes(species);
        break;
      }
      ptr, processed, rounds, added := next, p, rounds + 1, picks;
      if processed > n {
        break;
      }
    }
    SumLe(ptr, Sizes(species));
  }

  /** The allocation of `summary_sample`, where species[i] lists the
    * fitnesses of the members of the i-th species, best first: rounds in
    * which every species with members left gives one more, until n are
    * taken or none is left; the overflow of the last round is taken back
    * from its weakest picks. counts[i] is how many of species i are
    * printed; rounds and trimmed say how the count came about. */
  method Allocate(species: seq<seq<real>>, n: nat) returns (counts: seq<nat>, ghost rounds: nat, ghost trimmed: set<nat>)
    ensures |counts| == |species|
    ensures forall i :: 0 <= i < |species| ==>
      counts[i] == if i in trimmed then rounds - 1 else Min(rounds, |species[i]|)
    ensures forall i :: i in trimmed ==> 0 <= i < |species| && |species[i]| >= rounds >= 1
    ensures forall i, j :: i in trimmed && 0 <= j < |species| && j !in trimmed && |species[j]| >= rounds ==>
      PickLe()((species[i][rounds - 1], i), (species[j][rounds - 1], j))
    ensures Sum(counts) == Min(n, Sum(Sizes(species)))
  {
    var ptr, processed, r, added := Rounds(species, n);
    rounds, trimmed := r, {};
    counts := ptr;
    if processed > n {
      counts, trimmed := Trim(ptr, added, processed - n);
      forall i, j | i in trimmed && 0 <= j < |species| && j !in trimmed && |species[j]| >= rounds
        ensures PickLe()((species[i][rounds - 1], i), (species[j][rounds - 1], j))
      {
        var t :| 0 <= t < |added| && added[t].1 == i;
        var u :| 0 <= u < |added| && added[u].1 == j;
      }
    }
  }

  /** What the allocation guarantees: no species gives more members than
    * it has, and one species gives two more than another only when the
    * other has none left. */
  lemma AllocationFair(species: seq<seq<real>>, counts: seq<nat>, rounds: nat, trimmed: set<nat>)
    requires |counts| == |species|
    requires forall i :: 0 <= i < |species| ==>
      counts[i] == if i in trimmed then rounds - 1 else Min(rounds, |species[i]|)
    requires forall i :: i in trimmed ==> 0 <= i < |species| && |species[i]| >= rounds >= 1
    ensures forall i :: 0 <= i < |species| ==> counts[i] <= |species[i]|
    ensures forall i, j :: 0 <= i < |species| && 0 <= j < |species| && counts[i] > counts[j] + 1 ==>
      counts[j] == |species[j]|
  {
  }
}
