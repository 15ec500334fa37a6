// Species of a generation, src/gen/species.rs: the n-by-n distance matrix
// cached as a flat vector, and greedy speciation by radius. The distance
// between two genomes is the evaluator's, passed as a function. Only the
// sequential path of `DistCache::ensure` is modelled; the shared-fitness
// transformations are floating-point formulas and are not part of this
// model.
module GenSpecies {
  import opened Common

  /** `NO_SPECIES`: the id of a member not yet assigned to a species. */
  const NoSpecies: nat := 0

  datatype SpeciesInfo = SpeciesInfo(num: nat, radius: real)

  /** `SpeciesInfo::new`: one species (no species found yet: ids start at
    * 1) and radius 1. */
  function NewSpeciesInfo(): (r: SpeciesInfo)
    ensures r.num == 1 && r.radius == 1.0
  {
    SpeciesInfo(1, 1.0)
  }

  function RMax(a: real, b: real): real { if a >= b then a else b }

  /** Index of position (a, b) of a matrix with rows of n entries stored
    * row by row, `a * n + b`, defined by counting rows so that its facts
    * need no multiplication. */
  function Flat(a: nat, b: nat, n: nat): nat
    decreases a
  {
    if a == 0 then b else n + Flat(a - 1, b, n)
  }

  lemma {:induction false} FlatIsProduct(a: nat, b: nat, n: nat)
    ensures Flat(a, b, n) == a * n + b
  {
    if a > 0 {
      FlatIsProduct(a - 1, b, n);
    }
  }

  lemma {:induction false} FlatShift(a: nat, b: nat, n: nat)
    ensures Flat(a, b, n) == Flat(a, 0, n) + b
  {
    if a > 0 {
      FlatShift(a - 1, b, n);
    }
  }

  lemma {:induction false} FlatRowMono(a: nat, a': nat, n: nat)
    requires a <= a'
    ensures Flat(a, 0, n) <= Flat(a', 0, n)
    decreases a'
  {
    if a < a' {
      FlatRowMono(a, a' - 1, n);
    }
  }

  /** Position (a, b) of an n-by-n matrix lies inside it, and no other
    * position shares its index. */
  lemma {:induction false} FlatIndex(a: nat, b: nat, i: nat, j: nat, n: nat)
    requires a < n && b < n && i < n && j < n
    ensures Flat(a, b, n) < Flat(n, 0, n)
    ensures Flat(a, b, n) == Flat(i, j, n) ==> a == i && b == j
  {
    FlatShift(a, b, n);
    FlatShift(i, j, n);
    FlatRowMono(a + 1, n, n);
    if a < i {
      FlatRowMono(a + 1, i, n);
    } else if i < a {
      FlatRowMono(i + 1, a, n);
    }
  }

  /** Sum of the distances from s[a] to s[0..j]. */
  function RowSum<G>(s: seq<G>, dist: (G, G) -> real, a: nat, j: nat): real
    requires a < |s| && j <= |s|
  {
    if j == 0 then 0.0 else RowSum(s, dist, a, j - 1) + dist(s[a], s[j - 1])
  }

  /** Sum of the distances of the first i rows, in the order `ensure`
    * visits them. */
  function MatrixSum<G>(s: seq<G>, dist: (G, G) -> real, i: nat): real
    requires i <= |s|
  {
    if i == 0 then 0.0 else MatrixSum(s, dist, i - 1) + RowSum(s, dist, i - 1, |s|)
  }

  /** `m.max(d)` folded over the distances from s[a] to s[0..j]. */
  function RowMax<G>(m: real, s: seq<G>, dist: (G, G) -> real, a: nat, j: nat): real
    requires a < |s| && j <= |s|
  {
    if j == 0 then m else RMax(RowMax(m, s, dist, a, j - 1), dist(s[a], s[j - 1]))
  }

  /** `m.max(d)` folded over the first i rows. */
  function MatrixMax<G>(m: real, s: seq<G>, dist: (G, G) -> real, i: nat): real
    requires i <= |s|
  {
    if i == 0 then m else RowMax(MatrixMax(m, s, dist, i - 1), s, dist, i - 1, |s|)
  }

  lemma {:induction false} RowMaxFacts<G>(m: real, s: seq<G>, dist: (G, G) -> real, a: nat, j: nat)
    requires a < |s| && j <= |s|
    ensures RowMax(m, s, dist, a, j) >= m
    ensures forall b :: 0 <= b < j ==> RowMax(m, s, dist, a, j) >= dist(s[a], s[b])
    ensures RowMax(m, s, dist, a, j) == m || exists b :: 0 <= b < j && RowMax(m, s, dist, a, j) == dist(s[a], s[b])
  {
    if j > 0 {
      RowMaxFacts(m, s, dist, a, j - 1);
    }
  }

  /** The folded maximum is at least the starting value and every distance
    * of the first i rows, and it is one of them. */
  lemma {:induction false} MatrixMaxFacts<G>(m: real, s: seq<G>, dist: (G, G) -> real, i: nat)
    requires i <= |s|
    ensures MatrixMax(m, s, dist, i) >= m
    ensures forall a, b :: 0 <= a < i && 0 <= b < |s| ==> MatrixMax(m, s, dist, i) >= dist(s[a], s[b])
    ensures MatrixMax(m, s, dist, i) == m ||
      exists a, b :: 0 <= a < i && 0 <= b < |s| && MatrixMax(m, s, dist, i) == dist(s[a], s[b])
  {
    if i > 0 {
      var prev := MatrixMax(m, s, dist, i - 1);
      MatrixMaxFacts(m, s, dist, i - 1);
      RowMaxFacts(prev, s, dist, i - 1, |s|);
      if MatrixMax(m, s, dist, i) != prev {
        var b :| 0 <= b < |s| && MatrixMax(m, s, dist, i) == dist(s[i - 1], s[b]);
      }
    }
  }

  /** No earlier member shares l's id: l is the first member, the leader,
    * of its species. */
  predicate Leader(ids: seq<nat>, l: int) {
    0 <= l < |ids| && forall m :: 0 <= m < l ==> ids[m] != ids[l]
  }

  /** Species k has a leader. */
  ghost predicate Led(ids: seq<nat>, k: nat) {
    exists l :: Leader(ids, l) && ids[l] == k
  }

  /** Once row i is written and the rest kept, rows 0 to i hold their
    * distances. */
  lemma {:induction false} RowFilled<G>(c: seq<real>, c': seq<real>, s: seq<G>, dist: (G, G) -> real, i: nat)
    requires i < |s| && |c| == Flat(|s|, 0, |s|) && |c'| == |c| && Flat(i, 0, |s|) + |s| <= |c|
    requires forall a, b {:trigger Flat(a, b, |s|)} :: 0 <= a < i && 0 <= b < |s| ==>
      Flat(a, b, |s|) < |c| && c[Flat(a, b, |s|)] == dist(s[a], s[b])
    requires forall k :: 0 <= k < |c| && !(Flat(i, 0, |s|) <= k < Flat(i, 0, |s|) + |s|) ==> c'[k] == c[k]
    requires forall b {:trigger dist(s[i], s[b])} :: 0 <= b < |s| ==> c'[Flat(i, 0, |s|) + b] == dist(s[i], s[b])
    ensures forall a, b {:trigger Flat(a, b, |s|)} :: 0 <= a <= i && 0 <= b < |s| ==>
      Flat(a, b, |s|) < |c'| && c'[Flat(a, b, |s|)] == dist(s[a], s[b])
  {
    var size := |s|;
    var base := Flat(i, 0, size);
    forall a, b | 0 <= a <= i && 0 <= b < size
      ensures Flat(a, b, size) < |c'| && c'[Flat(a, b, size)] == dist(s[a], s[b])
    {
      FlatIndex(a, b, i, 0, size);
      FlatShift(a, b, size);
      var k := Flat(a, b, size);
      if a < i {
        FlatRowMono(a + 1, i, size);
        assert k < base;
        assert c'[k] == c[k];
      } else {
        assert k == base + b;
      }
    }
  }

  /** The inner loop of `DistCache::ensure`: row i of the cache is filled
    * with the distances from s[i], while `max` and `sum` fold them in. */
  method FillRow<G>(c: seq<real>, s: seq<G>, dist: (G, G) -> real, i: nat, max: real, sum: real)
    returns (c': seq<real>, max': real, sum': real)
    requires i < |s| && |c| == Flat(|s|, 0, |s|)
    requires forall a, b {:trigger Flat(a, b, |s|)} :: 0 <= a < i && 0 <= b < |s| ==>
      Flat(a, b, |s|) < |c| && c[Flat(a, b, |s|)] == dist(s[a], s[b])
    ensures |c'| == |c|
    ensures forall a, b {:trigger Flat(a, b, |s|)} :: 0 <= a <= i && 0 <= b < |s| ==>
      Flat(a, b, |s|) < |c'| && c'[Flat(a, b, |s|)] == dist(s[a], s[b])
    ensures max' == RowMax(max, s, dist, i, |s|) && sum' == sum + RowSum(s, dist, i, |s|)
  {
    var size := |s|;
    var base := Flat(i, 0, size);
    FlatRowMono(i + 1, size, size);
    c', max', sum' := c, max, sum;
    for j := 0 to size
      invariant |c'| == |c|
      invariant forall k :: 0 <= k < |c| && !(base <= k < base + j) ==> c'[k] == c[k]
      invariant forall b {:trigger dist(s[i], s[b])} :: 0 <= b < j ==> c'[base + b] == dist(s[i], s[b])
      invariant max' == RowMax(max, s, dist, i, j)
      invariant sum' == sum + RowSum(s, dist, i, j)
    {
      var d := dist(s[i], s[j]);
      FlatShift(i, j, size);
      c' := c'[Flat(i, j, size) := d];
      max' := RMax(max', d);
      sum' := sum' + d;
    }
    RowFilled(c, c', s, dist, i);
  }

  /** `is_sorted_by_key(|v| -v.base_fitness)`: fitness never increases. */
  predicate NonIncreasing(fitness: seq<real>) {
    forall i, j :: 0 <= i < j < |fitness| ==> fitness[i] >= fitness[j]
  }

  predicate Increasing(u: seq<nat>) {
    forall p, q :: 0 <= p < q < |u| ==> u[p] < u[q]
  }

  class DistCache {
    var n: nat
    var cache: seq<real>
    var max: real
    var sum: real

    /** `DistCache::new`: nothing cached. */
    constructor()
      ensures n == 0 && cache == [] && max == 0.0 && sum == 0.0
    {
      n, cache, max, sum := 0, [], 0.0, 0.0;
    }

    predicate Valid()
      reads this
    {
      |cache| == Flat(n, 0, n)
    }

    /** `self[(i, j)]`: entry j of row i. */
    function Get(i: nat, j: nat): real
      reads this
      requires Valid() && i < n && j < n
    {
      FlatIndex(i, j, i, j, n);
      cache[Flat(i, j, n)]
    }

    /** `DistCache::mean`; with nothing cached it divides zero by zero,
      * a NaN, which is `None` here. */
    function Mean(): (r: Option<real>)
      reads this
      ensures r.None? <==> n == 0
      ensures r.Some? ==> r.value * (n * n) as real == sum
    {
      if n == 0 then None else Some(sum / (n * n) as real)
    }

    /** `DistCache::ensure` on its sequential path: only an empty cache is
      * filled, with the distance between every ordered pair of genomes,
      * while `max` and `sum` fold in each distance. */
    method Ensure<G>(s: seq<G>, dist: (G, G) -> real)
      modifies this
      ensures old(cache) != [] ==> n == old(n) && cache == old(cache) && max == old(max) && sum == old(sum)
      ensures old(cache) == [] ==> n == |s| && Valid()
      ensures old(cache) == [] ==> forall a, b {:trigger Get(a, b)} :: 0 <= a < n && 0 <= b < n ==> Get(a, b) == dist(s[a], s[b])
      ensures old(cache) == [] ==>
        max == MatrixMax(old(max), s, dist, |s|) && sum == old(sum) + MatrixSum(s, dist, |s|)
    {
      if cache != [] {
        return;
      }
      var size := |s|;
      n := size;
      var c := seq(Flat(size, 0, size), _ => 0.0);
      for i := 0 to size
        invariant n == size && |c| == Flat(size, 0, size)
        invariant forall a, b {:trigger Flat(a, b, size)} :: 0 <= a < i && 0 <= b < size ==>
          Flat(a, b, size) < |c| && c[Flat(a, b, size)] == dist(s[a], s[b])
        invariant max == MatrixMax(old(max), s, dist, i)
        invariant sum == old(sum) + MatrixSum(s, dist, i)
      {
        var m, t;
        c, m, t := FillRow(c, s, dist, i, max, sum);
        max, sum := m, t;
      }
      cache := c;
    }

    /** Unassigned members retained by one pass of `retain`: those farther
      * than the radius from `next`; the others join species `num`. */
    method Retain(next: nat, rest: seq<nat>, ids: seq<nat>, num: nat, radius: real)
      returns (kept: seq<nat>, ids': seq<nat>)
      requires Valid() && next < n && |ids| == n
      requires forall p :: 0 <= p < |rest| ==> rest[p] < n
      requires Increasing(rest)
      ensures |ids'| == |ids|
      ensures forall x :: 0 <= x < |ids| && x !in rest ==> ids'[x] == ids[x]
      ensures forall x :: x in rest && Get(next, x) <= radius ==> ids'[x] == num
      ensures forall x :: x in rest && Get(next, x) > radius ==> ids'[x] == ids[x]
      ensures forall x :: x in kept <==> x in rest && Get(next, x) > radius
      ensures Increasing(kept) && |kept| <= |rest|
    {
      kept, ids' := [], ids;
      for j := 0 to |rest|
        invariant |ids'| == |ids|
        invariant forall x :: 0 <= x < |ids| && x !in rest[..j] ==> ids'[x] == ids[x]
        invariant forall x :: x in rest[..j] && Get(next, x) <= radius ==> ids'[x] == num
        invariant forall x :: x in rest[..j] && Get(next, x) > radius ==> ids'[x] == ids[x]
        invariant forall x :: x in kept <==> x in rest[..j] && Get(next, x) > radius
        invariant Increasing(kept)
        invariant forall x :: x in kept ==> x in rest[..j]
        invariant |kept| <= j
      {
        var v := rest[j];
        assert rest[..j + 1] == rest[..j] + [v];
        assert v !in rest[..j];
        if Get(next, v) <= radius {
          ids' := ids'[v := num];
        } else {
          forall p | 0 <= p < |kept| ensures kept[p] < v {
            assert kept[p] in kept;
            var p' :| 0 <= p' < j && rest[p'] == kept[p];
          }
          kept := kept + [v];
        }
      }
      assert rest[..|rest|] == rest;
    }
  
    /** Every member of a species other than its leader lies within the
      * radius of the leader. */
    ghost predicate Grouped(ids: seq<nat>, radius: real)
      reads this
      requires Valid() && |ids| == n
    {
      forall l, i :: Leader(ids, l) && ids[l] != NoSpecies && 0 <= i < n && i != l && ids[i] == ids[l] ==>
        Get(l, i) <= radius
    }

    /** Every leader lies farther than the radius from each member that is
      * unassigned or in a later species. */
    ghost predicate Separated(ids: seq<nat>, radius: real)
      reads this
      requires Valid() && |ids| == n
    {
      forall l, i :: Leader(ids, l) && ids[l] != NoSpecies && 0 <= i < n && (ids[i] == NoSpecies || ids[l] < ids[i]) ==>
        Get(l, i) > radius
    }

    /** Each species id from 1 below num has a leader. */
    ghost predicate Contiguous(ids: seq<nat>, num: nat) {
      forall k :: 1 <= k < num ==> Led(ids, k)
    }

    /** Species are numbered in the order of their leaders. */
    ghost predicate Ordered(ids: seq<nat>) {
      forall l1, l2 :: Leader(ids, l1) && Leader(ids, l2) && ids[l1] != NoSpecies && ids[l2] != NoSpecies && l1 < l2 ==>
        ids[l1] < ids[l2]
    }

    /** The state of `speciate` between rounds: the unassigned members u,
      * in increasing order, are exactly those with no species; the species
      * found so far are numbered 1 to num - 1 by their leaders, which come
      * before every unassigned member. */
    ghost predicate SpeciateInv(ids: seq<nat>, u: seq<nat>, num: nat, radius: real)
      reads this
      requires Valid()
    {
      |ids| == n && (forall p :: 0 <= p < |u| ==> u[p] < n) && Increasing(u) &&
      (forall p :: 0 <= p < |u| ==> ids[u[p]] == NoSpecies) &&
      (forall i :: 0 <= i < n && ids[i] == NoSpecies ==> i in u) &&
      1 <= num && (forall i :: 0 <= i < n ==> ids[i] < num) &&
      Contiguous(ids, num) && Grouped(ids, radius) && Separated(ids, radius) && Ordered(ids) &&
      (forall l, x :: Leader(ids, l) && ids[l] != NoSpecies && x in u ==> l < x) &&
      num - 1 + |u| <= n && (num == 1 ==> |u| == n)
    }

    /** ids2 and kept are what one round of `speciate` makes of ids and u:
      * next = u[0] joins species num, and so does each later unassigned
      * member within the radius of next; the others are kept. */
    ghost predicate Round(ids: seq<nat>, u: seq<nat>, num: nat, radius: real, next: nat, rest: seq<nat>,
                          kept: seq<nat>, ids2: seq<nat>)
      reads this
      requires Valid()
    {
      SpeciateInv(ids, u, num, radius) && u != [] && next == u[0] && rest == u[1..] &&
      (forall p :: 0 <= p < |rest| ==> rest[p] < n) && |ids2| == n &&
      (forall x :: 0 <= x < n && x !in rest ==> ids2[x] == ids[next := num][x]) &&
      (forall x :: x in rest && Get(next, x) <= radius ==> ids2[x] == num) &&
      (forall x :: x in rest && Get(next, x) > radius ==> ids2[x] == ids[next := num][x]) &&
      (forall x :: x in kept <==> x in rest && Get(next, x) > radius) &&
      Increasing(kept) && |kept| <= |rest|
    }

    /** After a round, members keep their species, the unassigned ones
      * either join species num or are kept, and next joins num. */
    lemma RoundIds(ids: seq<nat>, u: seq<nat>, num: nat, radius: real, next: nat, rest: seq<nat>,
                   kept: seq<nat>, ids2: seq<nat>)
      requires Valid() && Round(ids, u, num, radius, next, rest, kept, ids2)
      ensures forall x :: x in rest ==> x in u && next < x
      ensures forall x :: x in u ==> next <= x
      ensures forall i :: 0 <= i < n && ids[i] != NoSpecies ==> ids2[i] == ids[i]
      ensures forall i :: 0 <= i < n && ids[i] == NoSpecies ==> (ids2[i] == NoSpecies <==> i in kept)
      ensures forall i :: 0 <= i < n && ids[i] == NoSpecies && ids2[i] != NoSpecies ==> ids2[i] == num
      ensures next < n && ids2[next] == num
    {
      forall x | x in rest ensures x in u && next < x {
        var p :| 0 <= p < |rest| && rest[p] == x;
        assert u[p + 1] == x;
      }
      forall x | x in u ensures next <= x {
        var p :| 0 <= p < |u| && u[p] == x;
        assert p == 0 || u[0] < u[p];
      }
    }

    /** After a round, the leaders with a species are the earlier ones and
      * next. */
    lemma RoundLeaders(ids: seq<nat>, u: seq<nat>, num: nat, radius: real, next: nat, rest: seq<nat>,
                       kept: seq<nat>, ids2: seq<nat>)
      requires Valid() && Round(ids, u, num, radius, next, rest, kept, ids2)
      ensures forall l :: 0 <= l < n && ids2[l] != NoSpecies ==>
        (Leader(ids2, l) <==> l == next || (ids[l] != NoSpecies && Leader(ids, l)))
    {
      RoundIds(ids, u, num, radius, next, rest, kept, ids2);
      forall l | 0 <= l < n && ids2[l] != NoSpecies
        ensures Leader(ids2, l) <==> l == next || (ids[l] != NoSpecies && Leader(ids, l))
      {
        if l == next {
          forall m | 0 <= m < l ensures ids2[m] != ids2[l] {
          }
        } else if ids[l] != NoSpecies {
          if !Leader(ids, l) {
            var m :| 0 <= m < l && ids[m] == ids[l];
            assert ids2[m] == ids2[l];
          }
        } else {
          assert l in rest;
          assert ids2[next] == ids2[l];
        }
      }
    }

    /** After a round the species 1 to num all have leaders. */
    lemma RoundContiguous(ids: seq<nat>, u: seq<nat>, num: nat, radius: real, next: nat, rest: seq<nat>,
                       kept: seq<nat>, ids2: seq<nat>)
      requires Valid() && Round(ids, u, num, radius, next, rest, kept, ids2)
      ensures Contiguous(ids2, num + 1)
    {
      RoundIds(ids, u, num, radius, next, rest, kept, ids2);
      RoundLeaders(ids, u, num, radius, next, rest, kept, ids2);
      forall k | 1 <= k < num + 1 ensures Led(ids2, k) {
        if k == num {
          assert Leader(ids2, next);
        } else {
          assert Led(ids, k);
          var l :| Leader(ids, l) && ids[l] == k;
          assert Leader(ids2, l);
        }
      }
    }

    /** After a round every species is still within the radius of its
      * leader. */
    lemma RoundGrouped(ids: seq<nat>, u: seq<nat>, num: nat, radius: real, next: nat, rest: seq<nat>,
                       kept: seq<nat>, ids2: seq<nat>)
      requires Valid() && Round(ids, u, num, radius, next, rest, kept, ids2)
      ensures |ids2| == n && Grouped(ids2, radius)
    {
      RoundIds(ids, u, num, radius, next, rest, kept, ids2);
      RoundLeaders(ids, u, num, radius, next, rest, kept, ids2);
      forall l, i | Leader(ids2, l) && ids2[l] != NoSpecies && 0 <= i < n && i != l && ids2[i] == ids2[l]
        ensures Get(l, i) <= radius
      {
        if l != next {
          assert Leader(ids, l);
        } else {
          assert i in rest;
        }
      }
    }

    /** After a round every leader is still farther than the radius from
      * the members of later species and the unassigned ones. */
    lemma RoundSeparated(ids: seq<nat>, u: seq<nat>, num: nat, radius: real, next: nat, rest: seq<nat>,
                       kept: seq<nat>, ids2: seq<nat>)
      requires Valid() && Round(ids, u, num, radius, next, rest, kept, ids2)
      ensures |ids2| == n && Separated(ids2, radius)
    {
      RoundIds(ids, u, num, radius, next, rest, kept, ids2);
      RoundLeaders(ids, u, num, radius, next, rest, kept, ids2);
      forall l, i | Leader(ids2, l) && ids2[l] != NoSpecies && 0 <= i < n && (ids2[i] == NoSpecies || ids2[l] < ids2[i])
        ensures Get(l, i) > radius
      {
        if l != next {
          assert Leader(ids, l);
        } else {
          assert i in kept;
        }
      }
    }

    /** After a round species are still numbered in the order of their
      * leaders, and every leader comes before the kept members. */
    lemma RoundOrdered(ids: seq<nat>, u: seq<nat>, num: nat, radius: real, next: nat, rest: seq<nat>,
                       kept: seq<nat>, ids2: seq<nat>)
      requires Valid() && Round(ids, u, num, radius, next, rest, kept, ids2)
      ensures Ordered(ids2)
      ensures forall l, x :: Leader(ids2, l) && ids2[l] != NoSpecies && x in kept ==> l < x
    {
      RoundIds(ids, u, num, radius, next, rest, kept, ids2);
      RoundLeaders(ids, u, num, radius, next, rest, kept, ids2);
      forall l1, l2 | Leader(ids2, l1) && Leader(ids2, l2) && ids2[l1] != NoSpecies && ids2[l2] != NoSpecies && l1 < l2
        ensures ids2[l1] < ids2[l2]
      {
        if l1 != next && l2 != next {
          assert Leader(ids, l1) && Leader(ids, l2);
        } else if l1 == next {
          assert false;
        }
      }
      forall l, x | Leader(ids2, l) && ids2[l] != NoSpecies && x in kept ensures l < x {
        assert x in rest;
      }
    }

    /** One round of `speciate` keeps its state: `next` leads species num,
      * and the retained members are the unassigned ones. */
    lemma SpeciateStep(ids: seq<nat>, u: seq<nat>, num: nat, radius: real, next: nat, rest: seq<nat>,
                       kept: seq<nat>, ids2: seq<nat>)
      requires Valid() && Round(ids, u, num, radius, next, rest, kept, ids2)
      ensures SpeciateInv(ids2, kept, num + 1, radius)
    {
      RoundIds(ids, u, num, radius, next, rest, kept, ids2);
      RoundContiguous(ids, u, num, radius, next, rest, kept, ids2);
      RoundGrouped(ids, u, num, radius, next, rest, kept, ids2);
      RoundSeparated(ids, u, num, radius, next, rest, kept, ids2);
      RoundOrdered(ids, u, num, radius, next, rest, kept, ids2);
      forall p | 0 <= p < |kept| ensures kept[p] < n && ids2[kept[p]] == NoSpecies {
        assert kept[p] in kept;
      }
    }

    /** Before the first round every member is unassigned and waiting. */
    lemma SpeciateStart(ids: seq<nat>, u: seq<nat>, radius: real)
      requires Valid() && |ids| == n && |u| == n
      requires forall i :: 0 <= i < n ==> ids[i] == NoSpecies && u[i] == i
      ensures SpeciateInv(ids, u, 1, radius)
    {
      forall i | 0 <= i < n ensures i in u {
        assert u[i] == i;
      }
    }

    /** `DistCache::speciate`. It panics (`None`) unless the members come
      * sorted by non-increasing fitness. Otherwise each round the first
      * unassigned member leads a new species, numbered from 1, and takes
      * every unassigned member within the radius; the result is the ids and
      * the number after the last species. */
    method Speciate(fitness: seq<real>, radius: real) returns (r: Option<(seq<nat>, SpeciesInfo)>)
      requires Valid() && |fitness| == n
      ensures r.None? <==> !NonIncreasing(fitness)
      ensures r.Some? ==> r.value.1.radius == radius && |r.value.0| == n
      ensures r.Some? ==> forall i :: 0 <= i < n ==> 1 <= r.value.0[i] < r.value.1.num
      ensures r.Some? ==> Contiguous(r.value.0, r.value.1.num) && Ordered(r.value.0)
      ensures r.Some? ==> Grouped(r.value.0, radius) && Separated(r.value.0, radius)
      ensures r.Some? ==> r.value.1.num <= n + 1 && (n > 0 ==> r.value.1.num >= 2)
    {
      if !NonIncreasing(fitness) {
        return None;
      }
      var size := n;
      var ids: seq<nat> := seq(size, _ => NoSpecies);
      var u: seq<nat> := seq(size, i requires 0 <= i < size => i);
      var num: nat := 1;
      SpeciateStart(ids, u, radius);
      while u != []
        invariant SpeciateInv(ids, u, num, radius)
        decreases |u|
      {
        var next := u[0];
        var rest := u[1..];
        var ids1 := ids[next := num];
        var kept, ids2 := Retain(next, rest, ids1, num, radius);
        SpeciateStep(ids, u, num, radius, next, rest, kept, ids2);
        ids, u, num := ids2, kept, num + 1;
      }
      return Some((ids, SpeciesInfo(num, radius)));
    }
  }
}
