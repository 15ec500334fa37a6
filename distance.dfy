// Distances between genomes, src/ops/distance.rs. Each operation is a method
// with the source's accumulating loop, proved equal to a recursive
// definition; the properties are lemmas about those definitions. `f64`
// arithmetic is modelled on `real` (no rounding).
module Distance {
  import opened Common

  function Abs(x: real): real { if x < 0.0 then -x else x }

  /** Sum of `f` over the first n aligned pairs. */
  function PairSum<T>(s1: seq<T>, s2: seq<T>, f: (T, T) -> real, n: nat): real
    requires n <= |s1| && n <= |s2|
  {
    if n == 0 then 0.0 else PairSum(s1, s2, f, n - 1) + f(s1[n - 1], s2[n - 1])
  }

  /** `dist_fn`: `missing` per unmatched position plus `f` over the common
    * prefix. */
  function DistFnOf<T>(s1: seq<T>, s2: seq<T>, missing: real, f: (T, T) -> real): real {
    Abs(|s1| as real - |s2| as real) * missing + PairSum(s1, s2, f, Min(|s1|, |s2|))
  }

  method DistFn<T>(s1: seq<T>, s2: seq<T>, missing: real, f: (T, T) -> real) returns (dist: real)
    ensures dist == DistFnOf(s1, s2, missing, f)
  {
    var min := Min(|s1|, |s2|);
    dist := Abs(|s1| as real - |s2| as real) * missing;
    for i := 0 to min
      invariant dist == Abs(|s1| as real - |s2| as real) * missing + PairSum(s1, s2, f, i)
    {
      dist := dist + f(s1[i], s2[i]);
    }
  }

  lemma {:induction false} PairSumSymmetric<T>(s1: seq<T>, s2: seq<T>, f: (T, T) -> real, n: nat)
    requires n <= |s1| && n <= |s2|
    requires forall a, b :: f(a, b) == f(b, a)
    ensures PairSum(s1, s2, f, n) == PairSum(s2, s1, f, n)
  {
    if n > 0 {
      PairSumSymmetric(s1, s2, f, n - 1);
      assert f(s1[n - 1], s2[n - 1]) == f(s2[n - 1], s1[n - 1]);
    }
  }

  /** With a symmetric `f`, `dist_fn` is symmetric. */
  lemma DistFnSymmetric<T>(s1: seq<T>, s2: seq<T>, missing: real, f: (T, T) -> real)
    requires forall a, b :: f(a, b) == f(b, a)
    ensures DistFnOf(s1, s2, missing, f) == DistFnOf(s2, s1, missing, f)
  {
    PairSumSymmetric(s1, s2, f, Min(|s1|, |s2|));
  }

  lemma {:induction false} PairSumZero<T>(s: seq<T>, f: (T, T) -> real, n: nat)
    requires n <= |s|
    requires forall a :: f(a, a) == 0.0
    ensures PairSum(s, s, f, n) == 0.0
  {
    if n > 0 {
      PairSumZero(s, f, n - 1);
      assert f(s[n - 1], s[n - 1]) == 0.0;
    }
  }

  /** With an `f` that is zero on equal elements, `dist_fn` of a genome to
    * itself is zero. */
  lemma DistFnSelfZero<T>(s: seq<T>, missing: real, f: (T, T) -> real)
    requires forall a :: f(a, a) == 0.0
    ensures DistFnOf(s, s, missing, f) == 0.0
  {
    PairSumZero(s, f, |s|);
  }

  /** `dist_abs`: the larger minus the smaller. */
  function DistAbs(a: int, b: int): (r: int)
    ensures r >= 0
    ensures r == a - b || r == b - a
    ensures r == 0 <==> a == b
  {
    if a < b then b - a else a - b
  }

  lemma DistAbsSymmetric(a: int, b: int)
    ensures DistAbs(a, b) == DistAbs(b, a)
  {
  }

  /** `s.get(i).unwrap_or(&0)`. */
  function At(s: seq<int>, i: nat): int { if i < |s| then s[i] else 0 }

  /** Sum of `dist_abs` over the first n positions, reading missing ones as 0. */
  function AbsSum(s1: seq<int>, s2: seq<int>, n: nat): int {
    if n == 0 then 0 else AbsSum(s1, s2, n - 1) + DistAbs(At(s1, n - 1), At(s2, n - 1))
  }

  function Dist1Of(s1: seq<int>, s2: seq<int>): int {
    AbsSum(s1, s2, Max(|s1|, |s2|))
  }

  /** `dist1`, the Manhattan distance with zero padding. */
  method Dist1(s1: seq<int>, s2: seq<int>) returns (dist: int)
    ensures dist == Dist1Of(s1, s2)
  {
    var max := Max(|s1|, |s2|);
    dist := 0;
    for i := 0 to max
      invariant dist == AbsSum(s1, s2, i)
    {
      var a := if i < |s1| then s1[i] else 0;
      var b := if i < |s2| then s2[i] else 0;
      dist := dist + DistAbs(a, b);
    }
  }

  lemma {:induction false} AbsSumFacts(s1: seq<int>, s2: seq<int>, n: nat)
    ensures AbsSum(s1, s2, n) >= 0
    ensures AbsSum(s1, s2, n) == AbsSum(s2, s1, n)
    ensures AbsSum(s1, s2, n) == 0 <==> forall i :: 0 <= i < n ==> At(s1, i) == At(s2, i)
  {
    if n > 0 {
      AbsSumFacts(s1, s2, n - 1);
      DistAbsSymmetric(At(s1, n - 1), At(s2, n - 1));
    }
  }

  /** `dist1` is a non-negative, symmetric distance that is zero between equal
    * genomes; it is also zero between genomes that differ only by trailing
    * zeros. */
  lemma Dist1Facts(s1: seq<int>, s2: seq<int>)
    ensures Dist1Of(s1, s2) >= 0
    ensures Dist1Of(s1, s2) == Dist1Of(s2, s1)
    ensures Dist1Of(s1, s1) == 0
    ensures Dist1Of(s1, s2) == 0 <==> forall i :: 0 <= i < Max(|s1|, |s2|) ==> At(s1, i) == At(s2, i)
  {
    AbsSumFacts(s1, s2, Max(|s1|, |s2|));
    AbsSumFacts(s1, s1, |s1|);
  }

  lemma Dist1PaddingExample()
    ensures Dist1Of([1], [1, 0]) == 0
    ensures Dist1Of([1, 2], [4]) == 5
  {
  }

  /** Positions below n where the genomes disagree. */
  function Mismatches<T(==)>(s1: seq<T>, s2: seq<T>, n: nat): nat
    requires n <= |s1| && n <= |s2|
  {
    if n == 0 then 0 else Mismatches(s1, s2, n - 1) + (if s1[n - 1] != s2[n - 1] then 1 else 0)
  }

  /** `count_different`: mismatches in the common prefix plus the difference
    * in length. */
  function CountDifferentOf<T(==)>(s1: seq<T>, s2: seq<T>): nat {
    Mismatches(s1, s2, Min(|s1|, |s2|)) + Max(|s1|, |s2|) - Min(|s1|, |s2|)
  }

  method CountDifferent<T(==)>(s1: seq<T>, s2: seq<T>) returns (count: nat)
    ensures count == CountDifferentOf(s1, s2)
  {
    var min := Min(|s1|, |s2|);
    var max := Max(|s1|, |s2|);
    count := 0;
    for i := 0 to min
      invariant count == Mismatches(s1, s2, i)
    {
      if s1[i] != s2[i] {
        count := count + 1;
      }
    }
    count := count + max - min;
  }

  lemma {:induction false} MismatchesFacts<T>(s1: seq<T>, s2: seq<T>, n: nat)
    requires n <= |s1| && n <= |s2|
    ensures Mismatches(s1, s2, n) == Mismatches(s2, s1, n)
    ensures Mismatches(s1, s2, n) <= n
    ensures Mismatches(s1, s2, n) == 0 <==> s1[..n] == s2[..n]
  {
    if n > 0 {
      MismatchesFacts(s1, s2, n - 1);
      assert s1[..n] == s1[..n - 1] + [s1[n - 1]];
      assert s2[..n] == s2[..n - 1] + [s2[n - 1]];
      if s1[..n] == s2[..n] {
        assert s1[..n - 1] == s1[..n][..n - 1];
        assert s2[..n - 1] == s2[..n][..n - 1];
        assert s1[n - 1] == s1[..n][n - 1];
        assert s2[n - 1] == s2[..n][n - 1];
      }
    }
  }

  /** `count_different` is symmetric, at most the longer length, and zero
    * exactly when the genomes are equal. */
  lemma CountDifferentFacts<T>(s1: seq<T>, s2: seq<T>)
    ensures CountDifferentOf(s1, s2) == CountDifferentOf(s2, s1)
    ensures CountDifferentOf(s1, s2) <= Max(|s1|, |s2|)
    ensures CountDifferentOf(s1, s2) == 0 <==> s1 == s2
  {
    var n := Min(|s1|, |s2|);
    MismatchesFacts(s1, s2, n);
    if CountDifferentOf(s1, s2) == 0 {
      assert |s1| == |s2|;
      assert s1 == s1[..n] && s2 == s2[..n];
    }
    if s1 == s2 {
      assert s1[..n] == s2[..n];
    }
  }

  lemma CountDifferentExamples()
    ensures CountDifferentOf([1], [1]) == 0
    ensures CountDifferentOf([1], [2]) == 1
    ensures CountDifferentOf([1], [1, 2]) == 1
    ensures CountDifferentOf([1, 2], [1]) == 1
  {
  }

  /** The pair (i, j) is ordered differently by the two genomes. */
  predicate Discordant(s1: seq<int>, s2: seq<int>, i: nat, j: nat)
    requires i < |s1| && j < |s1| && |s1| == |s2|
  {
    (s1[i] < s1[j]) != (s2[i] < s2[j])
  }

  /** Discordant pairs (i, k) with i < k < j. */
  function Row(s1: seq<int>, s2: seq<int>, i: nat, j: nat): nat
    requires i < j <= |s1| == |s2|
    decreases j
  {
    if j == i + 1 then 0
    else Row(s1, s2, i, j - 1) + (if Discordant(s1, s2, i, j - 1) then 1 else 0)
  }

  /** Discordant pairs (r, k) with r < i and r < k. */
  function Rows(s1: seq<int>, s2: seq<int>, i: nat): nat
    requires i <= |s1| == |s2|
  {
    if i == 0 then 0 else Rows(s1, s2, i - 1) + Row(s1, s2, i - 1, |s1|)
  }

  /** `kendall_tau`: an error for genomes of different lengths, otherwise the
    * number of discordant pairs. */
  function KendallTauOf(s1: seq<int>, s2: seq<int>): Result<nat> {
    if |s1| != |s2| then Err("must be same length") else Ok(Rows(s1, s2, |s1|))
  }

  method KendallTau(s1: seq<int>, s2: seq<int>) returns (r: Result<nat>)
    ensures r == KendallTauOf(s1, s2)
  {
    if |s1| != |s2| {
      return Err("must be same length");
    }
    var count := 0;
    for i := 0 to |s1|
      invariant count == Rows(s1, s2, i)
    {
      for j := i + 1 to |s2|
        invariant count == Rows(s1, s2, i) + Row(s1, s2, i, j)
      {
        if (s1[i] < s1[j]) != (s2[i] < s2[j]) {
          count := count + 1;
        }
      }
    }
    return Ok(count);
  }

  lemma {:induction false} RowFacts(s1: seq<int>, s2: seq<int>, i: nat, j: nat)
    requires i < j <= |s1| == |s2|
    ensures Row(s1, s2, i, j) <= j - i - 1
    ensures Row(s1, s2, i, j) == Row(s2, s1, i, j)
    ensures Row(s1, s1, i, j) == 0
    decreases j
  {
    if j > i + 1 {
      RowFacts(s1, s2, i, j - 1);
    }
  }

  lemma {:induction false} RowsFacts(s1: seq<int>, s2: seq<int>, i: nat)
    requires i <= |s1| == |s2|
    ensures 2 * Rows(s1, s2, i) <= i * (2 * |s1| - i - 1)
    ensures Rows(s1, s2, i) == Rows(s2, s1, i)
    ensures Rows(s1, s1, i) == 0
  {
    if i > 0 {
      RowsFacts(s1, s2, i - 1);
      RowFacts(s1, s2, i - 1, |s1|);
      var n := |s1|;
      assert (i - 1) * (2 * n - (i - 1) - 1) + 2 * (n - i) == i * (2 * n - i - 1);
    }
  }

  /** The Kendall tau distance is symmetric, zero from a genome to itself and
    * at most the number of pairs n(n-1)/2. */
  lemma KendallTauFacts(s1: seq<int>, s2: seq<int>)
    requires |s1| == |s2|
    ensures KendallTauOf(s1, s2).Ok?
    ensures KendallTauOf(s1, s2) == KendallTauOf(s2, s1)
    ensures KendallTauOf(s1, s1) == Ok(0)
    ensures 2 * KendallTauOf(s1, s2).value <= |s1| * (|s1| - 1)
  {
    RowsFacts(s1, s2, |s1|);
  }

  lemma KendallTauErrorExample()
    ensures KendallTauOf([1], [1, 2]) == Err("must be same length")
  {
  }

  lemma KendallTauExamples()
    ensures KendallTauOf([1], [1]) == Ok(0)
    ensures KendallTauOf([1], [2]) == Ok(0)
    ensures KendallTauOf([1, 2], [1, 2]) == Ok(0)
    ensures KendallTauOf([1, 2], [2, 1]) == Ok(1)
  {
  }

  lemma KendallTauFiveExample()
    ensures KendallTauOf([1, 2, 3, 4, 5], [3, 4, 1, 2, 5]) == Ok(4)
  {
    var s1: seq<int>, s2: seq<int> := [1, 2, 3, 4, 5], [3, 4, 1, 2, 5];
    assert Row(s1, s2, 0, 5) == 2;
    assert Row(s1, s2, 1, 5) == 2;
    assert Row(s1, s2, 2, 5) == 0;
    assert Row(s1, s2, 3, 5) == 0;
    assert Row(s1, s2, 4, 5) == 0;
  }
}
