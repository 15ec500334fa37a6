// The LGP genome of src/evaluators/lgp/eval.rs: a program of byte-coded
// instructions and the evaluator's crossover, mutation and distance on it.
// Every random draw is a parameter; the instruction drawn by the
// configuration's `rand_op` and its micro-mutation `mutate` are parameters
// too, because the configuration type this file uses is not part of this
// model.
module LgpEval {
  import opened Common
  import opened Mutation
  import opened Crossover
  import opened Distance
  import opened VmOp
  import opened Sorting

  const NumCrossover: nat := 2
  const NumMutation: nat := 7

  /** The genome: its program. */
  class LgpState {
    var ops: seq<Op>

    /** `State::new`. */
    constructor(ops: seq<Op>)
      ensures this.ops == ops
    {
      this.ops := ops;
    }
  }

  /** The draws one `mutate` call may make: the coin compared with the
    * rate, the two positions of `mutate_swap`, the bounds and shuffle picks
    * of `mutate_insert` and `mutate_scramble`, the position `choose` picks,
    * and the position of an insertion or removal. */
  datatype Draws = Draws(coin: real, i: nat, j: nat, st: nat, en: nat, pick: nat -> nat, k: nat, pos: nat)

  /** Each draw lies in the range it is drawn from, for a program of n
    * instructions. */
  ghost predicate DrawsFit(d: Draws, n: nat) {
    (n > 0 ==> d.i < n && d.j < n && d.st <= d.en < n && d.k < n && d.pos < n) &&
    forall k :: d.pick(k) <= k
  }

  /** What `mutate` does with the program: `Some` of the new program, or
    * `None` for a panic (an empty range drawn from, `unwrap` of no element,
    * or an unknown strategy). */
  function MutateSpec(ops: seq<Op>, rate: real, idx: nat, maxCode: nat, newOp: Op, micro: Op -> Op, d: Draws): Option<seq<Op>>
    requires DrawsFit(d, |ops|)
  {
    var n := |ops|;
    if d.coin > rate then Some(ops)
    else if idx == 0 then (if n == 0 then None else Some(Swapped(ops, d.i, d.j)))
    else if idx == 1 then (if n == 0 then None else Some(Rotated(ops, d.st, d.en)))
    else if idx == 2 then (if n == 0 then Some(ops) else Some(ops[d.k := newOp]))
    else if idx == 3 then (if n == 0 then None else Some(Scrambled(ops, d.st, d.en - d.st, d.pick)))
    else if idx == 4 then
      (if n >= maxCode then Some(ops) else if n == 0 then None else Some(ops[..d.pos] + [newOp] + ops[d.pos..]))
    else if idx == 5 then (if n <= 1 then Some(ops) else Some(ops[..d.pos] + ops[d.pos + 1..]))
    else if idx == 6 then (if n == 0 then None else Some(ops[d.k := micro(ops[d.k])]))
    else None
  }

  method ToArray(ops: seq<Op>) returns (a: array<Op>)
    ensures fresh(a) && a[..] == ops
  {
    a := new Op[|ops|](i requires 0 <= i < |ops| => ops[i]);
  }

  /** `LgpGenome::mutate`; `panicked` reports a panic, after which the
    * program is of no interest. */
  method Mutate(s: LgpState, rate: real, idx: nat, maxCode: nat, newOp: Op, micro: Op -> Op, d: Draws)
    returns (panicked: bool)
    requires DrawsFit(d, |s.ops|)
    modifies s
    ensures panicked <==> MutateSpec(old(s.ops), rate, idx, maxCode, newOp, micro, d).None?
    ensures !panicked ==> s.ops == MutateSpec(old(s.ops), rate, idx, maxCode, newOp, micro, d).value
  {
    if d.coin > rate {
      return false;
    }
    var n := |s.ops|;
    if idx == 0 || idx == 1 || idx == 3 {
      if n == 0 {
        return true;
      }
      var a := ToArray(s.ops);
      if idx == 0 {
        MutateSwap(a, d.i, d.j);
      } else if idx == 1 {
        MutateInsert(a, d.st, d.en);
      } else {
        MutateScramble(a, d.st, d.en, d.pick);
      }
      s.ops := a[..];
    } else if idx == 2 {
      var a := ToArray(s.ops);
      MutateReset(a, newOp, d.k);
      s.ops := a[..];
    } else if idx == 4 {
      if n < maxCode {
        if n == 0 {
          return true;
        }
        s.ops := s.ops[..d.pos] + [newOp] + s.ops[d.pos..];
      }
    } else if idx == 5 {
      if n > 1 {
        s.ops := s.ops[..d.pos] + s.ops[d.pos + 1..];
      }
    } else if idx == 6 {
      if n == 0 {
        return true;
      }
      s.ops := s.ops[d.k := micro(s.ops[d.k])];
    } else {
      return true;
    }
    return false;
  }

  /** A coin above the rate leaves the program as it is. */
  lemma MutateSkips(ops: seq<Op>, rate: real, idx: nat, maxCode: nat, newOp: Op, micro: Op -> Op, d: Draws)
    requires DrawsFit(d, |ops|) && d.coin > rate
    ensures MutateSpec(ops, rate, idx, maxCode, newOp, micro, d) == Some(ops)
  {
  }

  /** `mutate` panics exactly for an unknown strategy, for swap, insert,
    * scramble and micro-mutation of an empty program, and for adding an
    * instruction to an empty program that is below `max_code`. */
  lemma MutatePanics(ops: seq<Op>, rate: real, idx: nat, maxCode: nat, newOp: Op, micro: Op -> Op, d: Draws)
    requires DrawsFit(d, |ops|) && d.coin <= rate
    ensures MutateSpec(ops, rate, idx, maxCode, newOp, micro, d).None? <==>
      idx >= NumMutation || (|ops| == 0 && (idx in {0, 1, 3, 6} || (idx == 4 && maxCode > 0)))
  {
  }

  /** Strategies 0 to 3 and 6 keep the length; 0, 1 and 3 only rearrange,
    * and 2 and 6 rewrite at most one instruction. */
  lemma MutateKeepsLength(ops: seq<Op>, rate: real, idx: nat, maxCode: nat, newOp: Op, micro: Op -> Op, d: Draws)
    requires DrawsFit(d, |ops|)
    requires idx in {0, 1, 2, 3, 6}
    requires MutateSpec(ops, rate, idx, maxCode, newOp, micro, d).Some?
    ensures var r := MutateSpec(ops, rate, idx, maxCode, newOp, micro, d).value;
      |r| == |ops| &&
      (idx in {0, 1, 3} ==> multiset(r) == multiset(ops)) &&
      (idx in {2, 6} ==> forall i :: 0 <= i < |ops| && i != d.k ==> r[i] == ops[i])
  {
    if d.coin <= rate && |ops| > 0 {
      if idx == 0 {
        SwappedPerm(ops, d.i, d.j);
      } else if idx == 1 {
        RotatedPerm(ops, d.st, d.en);
      } else if idx == 3 {
        ScrambledPerm(ops, d.st, d.en - d.st, d.pick);
      }
    }
  }

  /** Adding an instruction: below `max_code` the new instruction lands at
    * the drawn position, never after the last one, and the length grows by
    * one; at `max_code` or above nothing changes. So a program that starts
    * within `max_code` stays within it. */
  lemma MutateAddBounded(ops: seq<Op>, rate: real, maxCode: nat, newOp: Op, micro: Op -> Op, d: Draws)
    requires DrawsFit(d, |ops|) && d.coin <= rate
    requires MutateSpec(ops, rate, 4, maxCode, newOp, micro, d).Some?
    ensures var r := MutateSpec(ops, rate, 4, maxCode, newOp, micro, d).value;
      (|ops| < maxCode ==>
        |r| == |ops| + 1 && r[d.pos] == newOp && r[|r| - 1] == ops[|ops| - 1] &&
        r[..d.pos] == ops[..d.pos] && r[d.pos + 1..] == ops[d.pos..]) &&
      (|ops| >= maxCode ==> r == ops) &&
      (|ops| <= maxCode ==> |r| <= maxCode)
  {
  }

  /** Removing an instruction: only from a program of two or more, so the
    * length never drops below one once it is at least one. */
  lemma MutateRemoveBounded(ops: seq<Op>, rate: real, maxCode: nat, newOp: Op, micro: Op -> Op, d: Draws)
    requires DrawsFit(d, |ops|) && d.coin <= rate
    ensures MutateSpec(ops, rate, 5, maxCode, newOp, micro, d).Some?
    ensures var r := MutateSpec(ops, rate, 5, maxCode, newOp, micro, d).value;
      (|ops| > 1 ==> |r| == |ops| - 1 && r[..d.pos] == ops[..d.pos] && r[d.pos..] == ops[d.pos + 1..]) &&
      (|ops| <= 1 ==> r == ops) &&
      (|ops| >= 1 ==> |r| >= 1)
  {
  }

  /** What `crossover` does with the two programs: strategy 0 leaves them,
    * strategy 1 is two-point crossover, anything else panics (`None`). */
  function CrossoverSpec(a: seq<Op>, b: seq<Op>, idx: nat, xpoints: seq<nat>): Option<(seq<Op>, seq<Op>)> {
    if idx == 0 then Some((a, b))
    else if idx == 1 then KpxResult(a, b, xpoints)
    else None
  }

  /** `LgpGenome::crossover`, with the cut points drawn for strategy 1. */
  method CrossoverStates(s1: LgpState, s2: LgpState, idx: nat, xpoints: seq<nat>) returns (panicked: bool)
    requires s1 != s2
    modifies s1, s2
    ensures panicked <==> CrossoverSpec(old(s1.ops), old(s2.ops), idx, xpoints).None?
    ensures !panicked ==> (s1.ops, s2.ops) == CrossoverSpec(old(s1.ops), old(s2.ops), idx, xpoints).value
  {
    if idx == 0 {
      return false;
    }
    if idx != 1 {
      return true;
    }
    var a := ToArray(s1.ops);
    var b := ToArray(s2.ops);
    panicked := KpxPts(a, b, xpoints);
    if !panicked {
      s1.ops, s2.ops := a[..], b[..];
    }
  }

  /** When the first program is not longer than the second, crossover with
    * fitting points never panics, keeps both lengths and only exchanges
    * instructions position by position. */
  lemma CrossoverFirstShorter(a: seq<Op>, b: seq<Op>, idx: nat, xpoints: seq<nat>)
    requires idx < NumCrossover && |a| <= |b| && XpointsFit(xpoints, 2, |a|)
    ensures CrossoverSpec(a, b, idx, xpoints).Some?
    ensures var r := CrossoverSpec(a, b, idx, xpoints).value;
      |r.0| == |a| && |r.1| == |b| &&
      (forall i :: 0 <= i < |a| ==> multiset{r.0[i], r.1[i]} == multiset{a[i], b[i]}) &&
      r.1[|a|..] == b[|a|..]
  {
    if idx == 1 {
      assert Clamp(xpoints, Min(|a|, |b|)) == xpoints;
      KpxClampedNeverPanics(a, b, xpoints);
      KpxKeepsPairs(a, b, xpoints);
    }
  }

  /** When the first program is the longer one, fitting points can still
    * fall beyond the second: programs of four and one instructions with the
    * points 2 and 3 swap position 1, which the second does not have. */
  lemma CrossoverFirstLongerPanics(a: seq<Op>, b: seq<Op>)
    requires |a| == 4 && |b| == 1
    ensures XpointsFit([2, 3], 2, |a|)
    ensures CrossoverSpec(a, b, 1, [2, 3]).None?
  {
    var p := KpxPoints([2, 3], 1);
    SortedPointsExample();
    assert Lo(p, 0) < Hi(p, 0) && Hi(p, 0) > 1;
    assert KpxPanics(p, Min(|a|, |b|));
  }

  lemma SortedPointsExample()
    ensures KpxPoints([2, 3], 1) == [1, 2, 3]
  {
    InsertSteps();
    assert [2, 3] + [1] == [2, 3, 1];
    assert [2, 3, 1][1..] == [3, 1];
    assert SortBy<nat>([2, 3, 1], NatLe) == Insert<nat>(2, SortBy<nat>([3, 1], NatLe), NatLe);
    SortBySteps();
  }

  lemma SortBySteps()
    ensures SortBy<nat>([3, 1], NatLe) == [1, 3]
  {
    InsertSteps();
    assert [3, 1][1..] == [1] && [1][1..] == [];
    assert SortBy<nat>([1], NatLe) == Insert<nat>(1, [], NatLe);
  }

  lemma InsertSteps()
    ensures Insert<nat>(1, [], NatLe) == [1]
    ensures Insert<nat>(3, [1], NatLe) == [1, 3]
    ensures Insert<nat>(2, [1, 3], NatLe) == [1, 2, 3]
  {
    assert Insert<nat>(3, [], NatLe) == [3];
    assert [1][1..] == [];
    assert Insert<nat>(3, [1], NatLe) == [1] + Insert<nat>(3, [], NatLe);
    assert [1, 3][1..] == [3];
    assert Insert<nat>(2, [3], NatLe) == [2, 3];
    assert Insert<nat>(2, [1, 3], NatLe) == [1] + Insert<nat>(2, [3], NatLe);
  }

  /** The instruction distance, as the real `dist_fn` sums. */
  function OpDist(x: Op, y: Op): real {
    DistOf(x, y) as real
  }

  /** `LgpGenome::distance`: `dist_fn` with 1 per unmatched instruction. */
  function GenomeDistance(a: seq<Op>, b: seq<Op>): real {
    DistFnOf(a, b, 1.0, OpDist)
  }

  /** The genome distance is symmetric and zero between equal programs; two
    * programs of different lengths are at least their length difference
    * apart. */
  lemma GenomeDistanceFacts(a: seq<Op>, b: seq<Op>)
    ensures GenomeDistance(a, b) == GenomeDistance(b, a)
    ensures GenomeDistance(a, a) == 0.0
    ensures GenomeDistance(a, b) >= Distance.Abs(|a| as real - |b| as real)
  {
    forall x, y ensures OpDist(x, y) == OpDist(y, x) {
      DistFacts(x, y);
    }
    forall x ensures OpDist(x, x) == 0.0 {
      DistFacts(x, x);
    }
    DistFnSymmetric(a, b, 1.0, OpDist);
    DistFnSelfZero(a, 1.0, OpDist);
    PairSumNonNegative(a, b, Min(|a|, |b|));
  }

  lemma {:induction false} PairSumNonNegative(a: seq<Op>, b: seq<Op>, n: nat)
    requires n <= |a| && n <= |b|
    ensures PairSum(a, b, OpDist, n) >= 0.0
  {
    if n > 0 {
      PairSumNonNegative(a, b, n - 1);
    }
  }
}
