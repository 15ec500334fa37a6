// Sequence crossover operators of src/ops/crossover.rs: partially mapped
// crossover (PMX), k-point crossover with explicit points, uniform crossover
// driven by a stream of coin flips, and the three empty stubs.
module Crossover {
  import opened Common
  import opened Sorting

  // ---------------------------------------------------------------------
  // Partially mapped crossover
  // ---------------------------------------------------------------------

  /** The map built by the first loop of `crossover_pmx_single` after
    * positions i0..hi-1: `entry(s1[i]).or_insert(s2[i])`, so the first
    * occurrence of a value of `s1` in the segment decides its image. */
  function SegmentMap<T(==)>(s1: seq<T>, s2: seq<T>, i0: nat, hi: nat): map<T, T>
    requires i0 <= hi <= |s1| && hi <= |s2|
    decreases hi
  {
    if hi == i0 then map[]
    else
      var m := SegmentMap(s1, s2, i0, hi - 1);
      if s1[hi - 1] in m then m else m[s1[hi - 1] := s2[hi - 1]]
  }

  /** The keys of the segment map are the segment's values of `s1`. */
  lemma {:induction false} SegmentMapKeys<T>(s1: seq<T>, s2: seq<T>, i0: nat, hi: nat)
    requires i0 <= hi <= |s1| && hi <= |s2|
    ensures SegmentMap(s1, s2, i0, hi).Keys == Elems(s1[i0..hi])
    decreases hi
  {
    if hi > i0 {
      SegmentMapKeys(s1, s2, i0, hi - 1);
      assert s1[i0..hi] == s1[i0..hi - 1] + [s1[hi - 1]];
    }
  }

  /** Each key maps to the value of `s2` at its first occurrence (`or_insert`
    * keeps the first entry). */
  lemma {:induction false} SegmentMapFirst<T>(s1: seq<T>, s2: seq<T>, i0: nat, hi: nat, k: nat)
    requires i0 <= k < hi <= |s1| && hi <= |s2| && FirstIn(s1, i0, k)
    ensures s1[k] in SegmentMap(s1, s2, i0, hi) && SegmentMap(s1, s2, i0, hi)[s1[k]] == s2[k]
    decreases hi
  {
    SegmentMapKeys(s1, s2, i0, hi - 1);
    var m := SegmentMap(s1, s2, i0, hi - 1);
    if k < hi - 1 {
      SegmentMapFirst(s1, s2, i0, hi - 1, k);
    } else {
      var seg := s1[i0..hi - 1];
      forall j | 0 <= j < |seg| ensures seg[j] != s1[k] {
        assert seg[j] == s1[j + i0];
      }
      assert s1[k] !in m;
    }
  }

  /** Position k holds the first occurrence of its value from position i0 on. */
  predicate FirstIn<T(==)>(s: seq<T>, i0: nat, k: nat)
    requires k < |s|
  {
    forall j :: i0 <= j < k ==> s[j] != s[k]
  }

  /** The inner `while let Some(&next) = m.get(&ins)` loop: hop through the map
    * while the value is a key; once more than `limit` hops were taken, give
    * up and return `start`. */
  function Follow<T(==)>(m: map<T, T>, x: T, start: T, count: nat, limit: nat): T
    requires count <= limit
    decreases limit - count
  {
    if x !in m then x
    else if count + 1 > limit then start
    else Follow(m, m[x], start, count + 1, limit)
  }

  /** Child of `crossover_pmx_single(s1, s2, i0, i1)`. */
  function PmxChild<T(==)>(s1: seq<T>, s2: seq<T>, i0: nat, i1: nat): seq<T>
    requires i0 <= i1 < |s1| == |s2|
  {
    var m := PmxMap(s1, s2, i0, i1);
    seq(|s1|, i requires 0 <= i < |s1| =>
      if i0 <= i <= i1 then s1[i] else Follow(m, s2[i], s2[i], 0, |s1|))
  }

  /** The map-following loop for one position outside the segment. */
  method FollowLoop<T(==)>(m: map<T, T>, x: T, n: nat) returns (ins: T)
    ensures ins == Follow(m, x, x, 0, n)
  {
    ins := x;
    var count := 0;
    while ins in m
      invariant count <= n
      invariant Follow(m, ins, x, count, n) == Follow(m, x, x, 0, n)
      decreases n - count
    {
      ins := m[ins];
      count := count + 1;
      if count > n {
        ins := x;
        break;
      }
    }
  }

  /** The first loop: copies the segment and builds the segment map. */
  method CopySegment<T(==)>(s1: seq<T>, s2: seq<T>, i0: nat, i1: nat, c: array<T>) returns (m: map<T, T>)
    requires i0 <= i1 < |s1| == |s2| == c.Length
    modifies c
    ensures m == SegmentMap(s1, s2, i0, i1 + 1)
    ensures forall k :: 0 <= k < c.Length ==> c[k] == if i0 <= k <= i1 then s1[k] else old(c[k])
  {
    m := map[];
    var i := i0;
    while i <= i1
      invariant i0 <= i <= i1 + 1
      invariant m == SegmentMap(s1, s2, i0, i)
      invariant forall k :: 0 <= k < c.Length ==> c[k] == if i0 <= k < i then s1[k] else old(c[k])
    {
      c[i] := s1[i];
      if s1[i] !in m {
        m := m[s1[i] := s2[i]];
      }
      i := i + 1;
    }
  }

  /** `crossover_pmx_single`: copy s1's segment [i0, i1], then place each
    * outside value of s2 by following the segment map. */
  method PmxSingle<T(==,0)>(s1: seq<T>, s2: seq<T>, i0: nat, i1: nat) returns (c1: seq<T>)
    requires i0 <= i1 < |s1| == |s2|
    ensures c1 == PmxChild(s1, s2, i0, i1)
  {
    var n := |s1|;
    var c := new T[n];
    var m := CopySegment(s1, s2, i0, i1, c);
    // The chained ranges (0..i0) and (i1 + 1)..len.
    var i := 0;
    while i < n
      invariant 0 <= i <= n && (i <= i0 || i1 < i)
      invariant forall k :: i0 <= k <= i1 ==> c[k] == s1[k]
      invariant forall k :: 0 <= k < i && !(i0 <= k <= i1) ==> c[k] == Follow(m, s2[k], s2[k], 0, n)
    {
      if i == i0 {
        i := i1 + 1;
        continue;
      }
      c[i] := FollowLoop(m, s2[i], n);
      i := i + 1;
    }
    c1 := c[..];
  }

  /** `crossover_pmx` with its two cut-point draws as parameters: the draws are
    * put in order and each slice is replaced by its child. */
  method Pmx<T(==,0)>(s1: array<T>, s2: array<T>, d0: nat, d1: nat)
    requires s1 != s2 && s1.Length == s2.Length
    requires d0 < s1.Length && d1 < s1.Length
    modifies s1, s2
    ensures s1[..] == PmxChild(old(s1[..]), old(s2[..]), Min(d0, d1), Max(d0, d1))
    ensures s2[..] == PmxChild(old(s2[..]), old(s1[..]), Min(d0, d1), Max(d0, d1))
  {
    var i0, i1 := d0, d1;
    if i0 > i1 {
      i0, i1 := i1, i0;
    }
    var c1 := PmxSingle(s1[..], s2[..], i0, i1);
    var c2 := PmxSingle(s2[..], s1[..], i0, i1);
    forall k | 0 <= k < s1.Length { s1[k] := c1[k]; }
    forall k | 0 <= k < s2.Length { s2[k] := c2[k]; }
  }

  /** The worked examples of the source's tests: digits, letters, */
  lemma PmxExampleDigits()
    ensures PmxChild([1, 2, 3, 4, 5, 6, 7, 8, 9], [9, 3, 7, 8, 2, 6, 5, 1, 4], 3, 6)
         == [9, 3, 2, 4, 5, 6, 7, 1, 8]
  {
  }

  lemma PmxExampleLetters()
    ensures PmxChild("abcdefghi", "icghbfead", 3, 6) == "icbdefgah"
  {
    var m := PmxMap("abcdefghi", "icghbfead", 3, 6);
    assert m == map['d' := 'h', 'e' := 'b', 'f' := 'f', 'g' := 'e'];
    assert Follow(m, 'g', 'g', 0, 9) == 'b';
  }

  /** two equal parents, */
  lemma PmxExampleEqual()
    ensures PmxChild([1, 1, 1, 1, 1], [1, 1, 1, 1, 1], 1, 3) == [1, 1, 1, 1, 1]
  {
    var m := PmxMap([1, 1, 1, 1, 1], [1, 1, 1, 1, 1], 1, 3);
    assert m == map[1 := 1];
    // The self-loop 1 -> 1 runs until the hop limit gives the start back.
    assert Follow(m, 1, 1, 4, 5) == 1;
    assert Follow(m, 1, 1, 2, 5) == 1;
    assert Follow(m, 1, 1, 0, 5) == 1;
  }

  /** and parents with repeated values. */
  lemma PmxExampleRepeats()
    ensures PmxChild([1, 2, 3, 1, 1], [1, 1, 4, 5, 6], 1, 3) == [5, 2, 3, 1, 6]
  {
  }

  // Why the PMX child of two permutations is a permutation: outside the
  // segment, the hops start at a value of s2 that is no image of the map;
  // because the map is injective such a chain never revisits a value, so it
  // ends at a non-key within |keys| hops (the cycle guard never fires), and
  // two different starts never meet.

  /** The value reached after k hops (a non-key stays put). */
  function Hop<T(==)>(m: map<T, T>, x: T, k: nat): T {
    if k == 0 then x
    else
      var y := Hop(m, x, k - 1);
      if y in m then m[y] else y
  }

  /** The first k hops from x all start at a key. */
  predicate ChainIn<T(==)>(m: map<T, T>, x: T, k: nat) {
    forall t :: 0 <= t < k ==> Hop(m, x, t) in m
  }

  predicate Injective<T(==)>(m: map<T, T>) {
    forall a, b :: a in m && b in m && m[a] == m[b] ==> a == b
  }

  predicate NotImage<T(==)>(m: map<T, T>, x: T) {
    forall z :: z in m ==> m[z] != x
  }

  lemma {:induction false} HopDistinct<T>(m: map<T, T>, x: T, a: nat, b: nat)
    requires Injective(m) && NotImage(m, x) && a < b && ChainIn(m, x, b)
    ensures Hop(m, x, a) != Hop(m, x, b)
  {
    assert Hop(m, x, b) == m[Hop(m, x, b - 1)];
    if a > 0 {
      HopDistinct(m, x, a - 1, b - 1);
      assert Hop(m, x, a) == m[Hop(m, x, a - 1)];
    }
  }

  /** A chain of keys from a non-image has at most |keys| hops. */
  lemma ChainBound<T>(m: map<T, T>, x: T, k: nat)
    requires Injective(m) && NotImage(m, x) && ChainIn(m, x, k)
    ensures k <= |m.Keys|
  {
    var path := seq(k, t requires 0 <= t < k => Hop(m, x, t));
    forall a, b | 0 <= a < b < k ensures path[a] != path[b] {
      HopDistinct(m, x, a, b);
    }
    DistinctCard(path);
    SubsetCard(Elems(path), m.Keys);
  }

  /** With a limit of at least |keys|, following from a non-image ends at a
    * non-key reached by hops through keys, never at the fallback. */
  lemma {:induction false} FollowIsHop<T>(m: map<T, T>, x: T, c: nat, limit: nat)
    requires Injective(m) && NotImage(m, x) && ChainIn(m, x, c)
    requires c <= limit && |m.Keys| <= limit
    ensures exists k :: (c <= k && ChainIn(m, x, k) && Hop(m, x, k) !in m &&
      Follow(m, Hop(m, x, c), x, c, limit) == Hop(m, x, k))
    decreases limit - c
  {
    var y := Hop(m, x, c);
    if y !in m {
      assert Follow(m, y, x, c, limit) == y;
    } else {
      assert ChainIn(m, x, c + 1);
      ChainBound(m, x, c + 1);
      assert Hop(m, x, c + 1) == m[y];
      FollowIsHop(m, x, c + 1, limit);
    }
  }

  /** Two hop chains from non-images that meet started at the same value. */
  lemma {:induction false} HopInjective<T>(m: map<T, T>, x: T, y: T, kx: nat, ky: nat)
    requires Injective(m) && NotImage(m, x) && NotImage(m, y)
    requires ChainIn(m, x, kx) && ChainIn(m, y, ky) && Hop(m, x, kx) == Hop(m, y, ky)
    ensures x == y
    decreases kx + ky
  {
    if kx > 0 && ky > 0 {
      assert Hop(m, x, kx) == m[Hop(m, x, kx - 1)];
      assert Hop(m, y, ky) == m[Hop(m, y, ky - 1)];
      HopInjective(m, x, y, kx - 1, ky - 1);
    }
  }

  /** The segment map of `crossover_pmx_single(s1, s2, i0, i1)`. */
  function PmxMap<T(==)>(s1: seq<T>, s2: seq<T>, i0: nat, i1: nat): map<T, T>
    requires i0 <= i1 < |s1| == |s2|
  {
    SegmentMap(s1, s2, i0, i1 + 1)
  }

  predicate ImagesIn<T(==)>(m: map<T, T>, s: seq<T>) {
    forall x :: x in m ==> m[x] in s
  }

  /** With duplicate-free parents every key is the segment value of s1 at a
    * unique position, and maps to the value of s2 at that position. */
  lemma PmxMapKey<T>(s1: seq<T>, s2: seq<T>, i0: nat, i1: nat, a: T) returns (k: nat)
    requires i0 <= i1 < |s1| == |s2| && Distinct(s1)
    requires a in PmxMap(s1, s2, i0, i1)
    ensures i0 <= k <= i1 && s1[k] == a && PmxMap(s1, s2, i0, i1)[a] == s2[k]
  {
    var m := SegmentMap(s1, s2, i0, i1 + 1);
    assert PmxMap(s1, s2, i0, i1) == m;
    SegmentMapKeys(s1, s2, i0, i1 + 1);
    var seg := s1[i0..i1 + 1];
    assert a in Elems(seg);
    var j :| 0 <= j < |seg| && seg[j] == a;
    k := j + i0;
    assert s1[k] == a;
    assert FirstIn(s1, i0, k) by {
      forall j' | i0 <= j' < k ensures s1[j'] != s1[k] { }
    }
    SegmentMapFirst(s1, s2, i0, i1 + 1, k);
  }

  /** Facts about the segment map of two duplicate-free parents. */
  lemma PmxMapFacts<T>(s1: seq<T>, s2: seq<T>, i0: nat, i1: nat)
    requires i0 <= i1 < |s1| == |s2| && Distinct(s1) && Distinct(s2)
    ensures Injective(PmxMap(s1, s2, i0, i1))
    ensures |PmxMap(s1, s2, i0, i1).Keys| <= |s1|
    ensures PmxMap(s1, s2, i0, i1).Keys == Elems(s1[i0..i1 + 1])
    ensures forall i :: 0 <= i < |s1| && !(i0 <= i <= i1) ==> NotImage(PmxMap(s1, s2, i0, i1), s2[i])
    ensures ImagesIn(PmxMap(s1, s2, i0, i1), s2)
  {
    var m := PmxMap(s1, s2, i0, i1);
    SegmentMapKeys(s1, s2, i0, i1 + 1);
    forall a, b | a in m && b in m && m[a] == m[b] ensures a == b {
      var ka := PmxMapKey(s1, s2, i0, i1, a);
      var kb := PmxMapKey(s1, s2, i0, i1, b);
    }
    forall i | 0 <= i < |s1| && !(i0 <= i <= i1) ensures NotImage(m, s2[i]) {
      forall z | z in m ensures m[z] != s2[i] {
        var kz := PmxMapKey(s1, s2, i0, i1, z);
      }
    }
    forall z | z in m ensures m[z] in s2 {
      var kz := PmxMapKey(s1, s2, i0, i1, z);
    }
    ElemsCard(s1[i0..i1 + 1]);
  }

  /** Each position outside the segment receives a non-key value of s1
    * reached by a hop chain from the value of s2 there. */
  lemma PmxOutside<T>(s1: seq<T>, s2: seq<T>, i0: nat, i1: nat, i: nat) returns (k: nat)
    requires i0 <= i1 < |s1| == |s2| && Distinct(s1) && Distinct(s2) && Elems(s1) == Elems(s2)
    requires i < |s1| && !(i0 <= i <= i1)
    ensures PmxChild(s1, s2, i0, i1)[i] !in PmxMap(s1, s2, i0, i1)
    ensures PmxChild(s1, s2, i0, i1)[i] in Elems(s1)
    ensures ChainIn(PmxMap(s1, s2, i0, i1), s2[i], k)
    ensures PmxChild(s1, s2, i0, i1)[i] == Hop(PmxMap(s1, s2, i0, i1), s2[i], k)
  {
    var m := PmxMap(s1, s2, i0, i1);
    PmxMapFacts(s1, s2, i0, i1);
    FollowIsHop(m, s2[i], 0, |s1|);
    k :| ChainIn(m, s2[i], k) && Hop(m, s2[i], k) !in m &&
      Follow(m, s2[i], s2[i], 0, |s1|) == Hop(m, s2[i], k);
    if k > 0 {
      assert Hop(m, s2[i], k) == m[Hop(m, s2[i], k - 1)];
      assert Hop(m, s2[i], k) in s2;
    }
    assert s2[i] in Elems(s2);
  }

  /** The PMX child of two duplicate-free parents over the same values is a
    * permutation of the first parent, as the header comment of
    * `crossover_pmx` promises. */
  lemma PmxPermutation<T>(s1: seq<T>, s2: seq<T>, i0: nat, i1: nat)
    requires i0 <= i1 < |s1| == |s2| && Distinct(s1) && Distinct(s2) && Elems(s1) == Elems(s2)
    ensures Distinct(PmxChild(s1, s2, i0, i1))
    ensures multiset(PmxChild(s1, s2, i0, i1)) == multiset(s1)
  {
    var c := PmxChild(s1, s2, i0, i1);
    var m := PmxMap(s1, s2, i0, i1);
    PmxMapFacts(s1, s2, i0, i1);
    forall i, j | 0 <= i < j < |c| ensures c[i] != c[j] {
      if i0 <= i <= i1 && i0 <= j <= i1 {
      } else if i0 <= i <= i1 {
        var _ := PmxOutside(s1, s2, i0, i1, j);
        assert c[i] in Elems(s1[i0..i1 + 1]) by { assert s1[i0..i1 + 1][i - i0] == c[i]; }
      } else if i0 <= j <= i1 {
        var _ := PmxOutside(s1, s2, i0, i1, i);
        assert c[j] in Elems(s1[i0..i1 + 1]) by { assert s1[i0..i1 + 1][j - i0] == c[j]; }
      } else {
        var ki := PmxOutside(s1, s2, i0, i1, i);
        var kj := PmxOutside(s1, s2, i0, i1, j);
        if c[i] == c[j] {
          HopInjective(m, s2[i], s2[j], ki, kj);
        }
      }
    }
    forall x | x in Elems(c) ensures x in Elems(s1) {
      var i :| 0 <= i < |c| && c[i] == x;
      if !(i0 <= i <= i1) { var _ := PmxOutside(s1, s2, i0, i1, i); }
    }
    DistinctCard(c);
    DistinctCard(s1);
    SubsetSameCard(Elems(c), Elems(s1));
    DistinctSameElemsPerm(c, s1);
  }

  // ---------------------------------------------------------------------
  // K-point and uniform crossover
  // ---------------------------------------------------------------------

  function NatLe(a: nat, b: nat): bool { a <= b }

  /** The cut points `crossover_kpx_pts` walks: the given points plus the
    * common length, sorted. */
  function KpxPoints(xpoints: seq<nat>, min: nat): seq<nat> {
    SortBy<nat>(xpoints + [min], NatLe)
  }

  lemma NatLeTotal()
    ensures TotalPreorder(NatLe)
  {
    assert forall a: nat, b: nat :: NatLe(a, b) || NatLe(b, a);
    assert forall a: nat, b: nat, c: nat :: NatLe(a, b) && NatLe(b, c) ==> NatLe(a, c);
  }

  /** Start and end of the k-th chunk of `array_chunks::<2>()`. */
  function Lo(p: seq<nat>, k: nat): nat requires 2 * k + 1 < |p| { p[2 * k] }
  function Hi(p: seq<nat>, k: nat): nat requires 2 * k + 1 < |p| { p[2 * k + 1] }

  /** Position i lies in one of the first c chunks [st, en). */
  predicate InChunks(p: seq<nat>, c: nat, i: nat)
    requires c <= |p| / 2
  {
    exists k :: 0 <= k < c && Lo(p, k) <= i < Hi(p, k)
  }

  /** Some chunk would swap a position at or beyond the common length, which
    * indexes one of the slices out of bounds. */
  predicate KpxPanics(p: seq<nat>, min: nat) {
    exists k :: 0 <= k < |p| / 2 && Lo(p, k) < Hi(p, k) && Hi(p, k) > min
  }

  /** The outcome of `crossover_kpx_pts`: None when it panics, otherwise both
    * slices with the positions of every chunk exchanged. */
  function KpxResult<T>(a: seq<T>, b: seq<T>, xpoints: seq<nat>): Option<(seq<T>, seq<T>)> {
    var min := Min(|a|, |b|);
    var p := KpxPoints(xpoints, min);
    if KpxPanics(p, min) then None
    else Some((seq(|a|, i requires 0 <= i < |a| => if i < min && InChunks(p, |p| / 2, i) then b[i] else a[i]),
               seq(|b|, i requires 0 <= i < |b| => if i < min && InChunks(p, |p| / 2, i) then a[i] else b[i])))
  }

  /** `(0..len).choose_multiple(k)` as `crossover_kpx` draws it: distinct
    * points below the length, k of them when there are k to choose from. */
  predicate XpointsFit(xpoints: seq<nat>, k: nat, n: nat) {
    |xpoints| == Min(k, n) && Distinct(xpoints) && forall i :: 0 <= i < |xpoints| ==> xpoints[i] < n
  }

  /** k-point crossover keeps each position's pair of values and never
    * touches a position at or beyond the shorter length. */
  lemma KpxKeepsPairs<T>(a: seq<T>, b: seq<T>, xpoints: seq<nat>)
    requires KpxResult(a, b, xpoints).Some?
    ensures |KpxResult(a, b, xpoints).value.0| == |a| && |KpxResult(a, b, xpoints).value.1| == |b|
    ensures forall i :: 0 <= i < |a| && i < |b| ==>
      multiset{KpxResult(a, b, xpoints).value.0[i], KpxResult(a, b, xpoints).value.1[i]} == multiset{a[i], b[i]}
    ensures forall i :: Min(|a|, |b|) <= i < |a| ==> KpxResult(a, b, xpoints).value.0[i] == a[i]
    ensures forall i :: Min(|a|, |b|) <= i < |b| ==> KpxResult(a, b, xpoints).value.1[i] == b[i]
  {
  }

  lemma SortedChunks(p: seq<nat>, c: nat, i: nat)
    requires SortedBy(p, NatLe) && 2 * c + 1 < |p| && i >= Lo(p, c)
    ensures !InChunks(p, c, i)
  {
    forall k | 0 <= k < c ensures Hi(p, k) <= i {
      assert NatLe(p[2 * k + 1], p[2 * c]);
    }
  }

  /** The swap loop of one chunk of `crossover_kpx_pts`: it swaps
    * positions `st` up to `en` and stops (the slice index panic) at the
    * first position past the shorter slice. */
  method SwapRange<T>(s1: array<T>, s2: array<T>, st: nat, en: nat, min: nat) returns (panicked: bool)
    requires s1 != s2 && st <= en && min == Min(s1.Length, s2.Length)
    modifies s1, s2
    ensures panicked <==> st < en && en > min
    ensures !panicked ==> forall j :: 0 <= j < s1.Length ==> s1[j] == if st <= j < en then old(s2[j]) else old(s1[j])
    ensures !panicked ==> forall j :: 0 <= j < s2.Length ==> s2[j] == if st <= j < en then old(s1[j]) else old(s2[j])
  {
    var i := st;
    while i < en
      invariant st <= i <= en && (i == st || i <= min)
      invariant forall j :: 0 <= j < s1.Length ==> s1[j] == if st <= j < i then old(s2[j]) else old(s1[j])
      invariant forall j :: 0 <= j < s2.Length ==> s2[j] == if st <= j < i then old(s1[j]) else old(s2[j])
    {
      if i >= min {
        return true;
      }
      s1[i], s2[i] := s2[i], s1[i];
      i := i + 1;
    }
    return false;
  }

  /** One chunk [Lo(p, c), Hi(p, c)) of `crossover_kpx_pts`: on success the
    * first c + 1 chunks are exchanged relative to `o1`, `o2`. */
  method ChunkStep<T>(s1: array<T>, s2: array<T>, p: seq<nat>, c: nat, min: nat, ghost o1: seq<T>, ghost o2: seq<T>)
    returns (panicked: bool)
    requires s1 != s2 && min == Min(s1.Length, s2.Length) && |o1| == s1.Length && |o2| == s2.Length
    requires SortedBy(p, NatLe) && 2 * c + 1 < |p|
    requires forall j :: 0 <= j < s1.Length ==> s1[j] == if j < min && InChunks(p, c, j) then o2[j] else o1[j]
    requires forall j :: 0 <= j < s2.Length ==> s2[j] == if j < min && InChunks(p, c, j) then o1[j] else o2[j]
    modifies s1, s2
    ensures panicked <==> Lo(p, c) < Hi(p, c) && Hi(p, c) > min
    ensures !panicked ==> forall j :: 0 <= j < s1.Length ==> s1[j] == if j < min && InChunks(p, c + 1, j) then o2[j] else o1[j]
    ensures !panicked ==> forall j :: 0 <= j < s2.Length ==> s2[j] == if j < min && InChunks(p, c + 1, j) then o1[j] else o2[j]
  {
    var st, en := p[2 * c], p[2 * c + 1];
    assert st <= en by { assert NatLe(p[2 * c], p[2 * c + 1]); }
    panicked := SwapRange(s1, s2, st, en, min);
    if !panicked {
      forall j | 0 <= j < min ensures InChunks(p, c + 1, j) <==> InChunks(p, c, j) || st <= j < en {
        if st <= j < en { assert Lo(p, c) <= j < Hi(p, c); }
      }
      forall j | st <= j < en ensures !InChunks(p, c, j) {
        SortedChunks(p, c, j);
      }
    }
  }

  /** Once every chunk is exchanged without a panic, the slices hold the
    * result of k-point crossover. */
  lemma KpxDone<T>(o1: seq<T>, o2: seq<T>, xpoints: seq<nat>, r1: seq<T>, r2: seq<T>)
    requires |r1| == |o1| && |r2| == |o2|
    requires var p := KpxPoints(xpoints, Min(|o1|, |o2|));
      forall k :: 0 <= k < |p| / 2 ==> !(Lo(p, k) < Hi(p, k) && Hi(p, k) > Min(|o1|, |o2|))
    requires var min := Min(|o1|, |o2|); var p := KpxPoints(xpoints, min);
      forall j :: 0 <= j < |r1| ==> r1[j] == if j < min && InChunks(p, |p| / 2, j) then o2[j] else o1[j]
    requires var min := Min(|o1|, |o2|); var p := KpxPoints(xpoints, min);
      forall j :: 0 <= j < |r2| ==> r2[j] == if j < min && InChunks(p, |p| / 2, j) then o1[j] else o2[j]
    ensures KpxResult(o1, o2, xpoints) == Some((r1, r2))
  {
    var min := Min(|o1|, |o2|);
    var p := KpxPoints(xpoints, min);
    assert !KpxPanics(p, min);
    var r := KpxResult(o1, o2, xpoints).value;
    assert r.0 == r1;
    assert r.1 == r2;
  }

  /** `crossover_kpx_pts`; `panicked` reports the out-of-bounds swap, after
    * which the slices' contents are of no interest. */
  method KpxPts<T>(s1: array<T>, s2: array<T>, xpoints: seq<nat>) returns (panicked: bool)
    requires s1 != s2
    modifies s1, s2
    ensures panicked <==> KpxResult(old(s1[..]), old(s2[..]), xpoints).None?
    ensures !panicked ==> (s1[..], s2[..]) == KpxResult(old(s1[..]), old(s2[..]), xpoints).value
  {
    var min := Min(s1.Length, s2.Length);
    var p := KpxPoints(xpoints, min);
    NatLeTotal();
    SortBySorted<nat>(xpoints + [min], NatLe);
    ghost var o1, o2 := s1[..], s2[..];
    var c := 0;
    while 2 * c + 1 < |p|
      invariant 0 <= c <= |p| / 2
      invariant forall k :: 0 <= k < c ==> !(Lo(p, k) < Hi(p, k) && Hi(p, k) > min)
      invariant forall j :: 0 <= j < s1.Length ==> s1[j] == if j < min && InChunks(p, c, j) then o2[j] else o1[j]
      invariant forall j :: 0 <= j < s2.Length ==> s2[j] == if j < min && InChunks(p, c, j) then o1[j] else o2[j]
    {
      var stopped := ChunkStep(s1, s2, p, c, min, o1, o2);
      if stopped {
        return true;
      }
      c := c + 1;
    }
    KpxDone(o1, o2, xpoints, s1[..], s2[..]);
    return false;
  }

  /** `crossover_kpx_pts` with every point first clamped to the common length
    * (see Findings): it never indexes out of bounds. */
  function Clamp(xpoints: seq<nat>, min: nat): (r: seq<nat>)
    ensures |r| == |xpoints| && forall i :: 0 <= i < |r| ==> r[i] <= min
  {
    seq(|xpoints|, i requires 0 <= i < |xpoints| => Min(xpoints[i], min))
  }

  /** With clamped points, k-point crossover always succeeds. */
  lemma KpxClampedNeverPanics<T>(a: seq<T>, b: seq<T>, xpoints: seq<nat>)
    ensures KpxResult(a, b, Clamp(xpoints, Min(|a|, |b|))).Some?
  {
    var min := Min(|a|, |b|);
    var q := Clamp(xpoints, min) + [min];
    var p := KpxPoints(Clamp(xpoints, min), min);
    forall k | 0 <= k < |p| / 2 ensures Hi(p, k) <= min {
      assert p[2 * k + 1] in multiset(q);
      var j :| 0 <= j < |q| && q[j] == p[2 * k + 1];
    }
  }

  /** As written, a cut point beyond the shorter slice panics: "abcd" and "wx"
    * with the point 3 give the chunk [2, 3), and "wx"[2] does not exist. */
  lemma KpxUnequalLengthsPanic()
    ensures KpxResult("abcd", "wx", [3]).None?
  {
    assert Insert<nat>(2, [], NatLe) == [2];
    assert Insert<nat>(3, [2], NatLe) == [2] + Insert<nat>(3, [], NatLe) == [2, 3];
    assert KpxPoints([3], 2) == SortBy<nat>([3, 2], NatLe) == [2, 3];
    assert Lo([2, 3], 0) < Hi([2, 3], 0);
  }

  /** Chunk facts for cut points p whose only chunk is [p[0], p[0] + 1) over
    * slices of common length n. */
  lemma OneSwapChunk(p: seq<nat>, n: nat)
    requires |p| == 2 || |p| == 3
    requires p[0] + 1 == p[1] <= n
    ensures !KpxPanics(p, n)
    ensures forall i :: 0 <= i < n ==> (InChunks(p, 1, i) <==> i == p[0])
  {
    forall k | 0 <= k < |p| / 2 ensures !(Lo(p, k) < Hi(p, k) && Hi(p, k) > n) {
      assert k == 0;
    }
    forall i | 0 <= i < n ensures InChunks(p, 1, i) <==> i == p[0] {
      if i == p[0] { assert Lo(p, 0) <= i < Hi(p, 0); }
    }
  }

  /** The source's test with the single point 3 on "abcd"/"wxyz". */
  lemma KpxExampleOnePoint()
    ensures KpxResult("abcd", "wxyz", [3]) == Some(("abcz", "wxyd"))
  {
    var p := KpxPoints([3], 4);
    assert p == [3, 4] by {
      assert Insert<nat>(4, [], NatLe) == [4];
      assert Insert<nat>(3, [4], NatLe) == [3, 4];
      assert p == SortBy<nat>([3, 4], NatLe);
    }
    OneSwapChunk(p, 4);
    var r := KpxResult("abcd", "wxyz", [3]).value;
    assert r.0 == [r.0[0], r.0[1], r.0[2], r.0[3]] == "abcz";
    assert r.1 == [r.1[0], r.1[1], r.1[2], r.1[3]] == "wxyd";
  }

  lemma TwoPointsSorted()
    ensures KpxPoints([1, 2], 4) == [1, 2, 4]
  {
    assert Insert<nat>(4, [], NatLe) == [4];
    assert Insert<nat>(2, [4], NatLe) == [2, 4];
    assert Insert<nat>(1, [2, 4], NatLe) == [1, 2, 4];
    assert SortBy<nat>([2, 4], NatLe) == [2, 4];
    assert [1, 2] + [4] == [1, 2, 4];
  }

  /** The source's test with the points 1 and 2 on "abcd"/"wxyz": the final
    * point 4 has no partner and is ignored. */
  lemma KpxExampleTwoPoints()
    ensures KpxResult("abcd", "wxyz", [1, 2]) == Some(("axcd", "wbyz"))
  {
    var q := KpxPoints([1, 2], 4);
    TwoPointsSorted();
    OneSwapChunk(q, 4);
    var r := KpxResult("abcd", "wxyz", [1, 2]).value;
    assert r.0 == [r.0[0], r.0[1], r.0[2], r.0[3]] == "axcd";
    assert r.1 == [r.1[0], r.1[1], r.1[2], r.1[3]] == "wbyz";
  }

  /** The outcome of `crossover_ux_rng`, whose i-th coin flip is `flip(i)`. */
  function UxResult<T>(a: seq<T>, b: seq<T>, flip: nat -> bool): (seq<T>, seq<T>) {
    var min := Min(|a|, |b|);
    (seq(|a|, i requires 0 <= i < |a| => if i < min && flip(i) then b[i] else a[i]),
     seq(|b|, i requires 0 <= i < |b| => if i < min && flip(i) then a[i] else b[i]))
  }

  /** Uniform crossover exchanges position i < min length exactly when the
    * i-th flip is true, so every position keeps its pair of values. */
  lemma UxKeepsPairs<T>(a: seq<T>, b: seq<T>, flip: nat -> bool)
    ensures |UxResult(a, b, flip).0| == |a| && |UxResult(a, b, flip).1| == |b|
    ensures forall i :: 0 <= i < |a| && i < |b| ==>
      multiset{UxResult(a, b, flip).0[i], UxResult(a, b, flip).1[i]} == multiset{a[i], b[i]}
    ensures forall i :: 0 <= i < |a| && i < |b| ==>
      (flip(i) <==> a[i] != b[i] && UxResult(a, b, flip).0[i] == b[i]) || a[i] == b[i]
    ensures forall i :: Min(|a|, |b|) <= i < |a| ==> UxResult(a, b, flip).0[i] == a[i]
    ensures forall i :: Min(|a|, |b|) <= i < |b| ==> UxResult(a, b, flip).1[i] == b[i]
  {
  }

  /** `crossover_ux_rng`: position i < min length is exchanged exactly when
    * the i-th coin flip is true. */
  method UxRng<T>(s1: array<T>, s2: array<T>, flip: nat -> bool)
    requires s1 != s2
    modifies s1, s2
    ensures (s1[..], s2[..]) == UxResult(old(s1[..]), old(s2[..]), flip)
  {
    var min := Min(s1.Length, s2.Length);
    var i := 0;
    while i < min
      invariant 0 <= i <= min
      invariant forall j :: 0 <= j < s1.Length ==> s1[j] == if j < i && flip(j) then old(s2[j]) else old(s1[j])
      invariant forall j :: 0 <= j < s2.Length ==> s2[j] == if j < i && flip(j) then old(s1[j]) else old(s2[j])
    {
      if flip(i) {
        s1[i], s2[i] := s2[i], s1[i];
      }
      i := i + 1;
    }
    ghost var r := UxResult(old(s1[..]), old(s2[..]), flip);
    assert s1[..] == r.0 && s2[..] == r.1;
  }

  /** The test drives the flips with `StepRng::new(1 << 31, 1 << 31)`, whose
    * booleans alternate true, false, true, false. */
  lemma UxExample()
    ensures UxResult("abcd", "wxyz", i => i % 2 == 0) == ("wbyd", "axcz")
  {
    var r := UxResult("abcd", "wxyz", i => i % 2 == 0);
    assert r.0 == [r.0[0], r.0[1], r.0[2], r.0[3]] == "wbyd";
    assert r.1 == [r.1[0], r.1[1], r.1[2], r.1[3]] == "axcz";
  }

  // ---------------------------------------------------------------------
  // Unimplemented permutation operators
  // ---------------------------------------------------------------------

  /** `crossover_edge`: an empty body. */
  method CrossoverEdge<T>(s1: array<T>, s2: array<T>)
    modifies s1, s2
    ensures s1[..] == old(s1[..]) && s2[..] == old(s2[..])
  {
  }

  /** `crossover_order`: an empty body. */
  method CrossoverOrder<T>(s1: array<T>, s2: array<T>)
    modifies s1, s2
    ensures s1[..] == old(s1[..]) && s2[..] == old(s2[..])
  {
  }

  /** `crossover_cycle`: an empty body. */
  method CrossoverCycle<T>(s1: array<T>, s2: array<T>)
    modifies s1, s2
    ensures s1[..] == old(s1[..]) && s2[..] == old(s2[..])
  {
  }
}
