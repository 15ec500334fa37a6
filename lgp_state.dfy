// The byte-coded LGP genome of src/lgp/state.rs: a program held as raw
// bytes, with the evaluator's crossover, mutation and distance, and the
// initial genomes of `lgp_runner`. Every random draw is a parameter: the
// coin compared with the mutation rate, the positions drawn by the mutation
// operators, the byte `mutate_gen` draws, the two cut points of
// `crossover_pmx` and the points `choose_multiple` picks for
// `crossover_kpx`.
module LgpState {
  import opened Common
  import opened Mutation
  import opened Crossover
  import opened Distance

  const NumCrossover: nat := 5
  const NumMutation: nat := 4

  /** The genome: its program bytes. */
  class State {
    var ops: seq<U8>

    /** `State::new`. */
    constructor(ops: seq<U8>)
      ensures this.ops == ops
    {
      this.ops := ops;
    }
  }

  // ---------------------------------------------------------------------
  // Mutation
  // ---------------------------------------------------------------------

  /** The draws of one `mutate` call: the coin compared with the rate, the
    * two positions of `mutate_swap`, the bounds of `mutate_insert`, the
    * position `choose` picks in `mutate_reset` and the byte it writes. */
  datatype MutationDraws = MutationDraws(coin: real, i: nat, j: nat, st: nat, en: nat, k: nat, v: U8)

  /** Each position draw lies in the range it is drawn from, for a program
    * of n bytes. */
  predicate DrawsFit(d: MutationDraws, n: nat) {
    n > 0 ==> d.i < n && d.j < n && d.st <= d.en < n && d.k < n
  }

  /** What `mutate` does with the program: `Some` of the new program, or
    * `None` for a panic. The coin is drawn before the strategy is matched,
    * so an unknown strategy panics whatever the coin; swap and insert draw
    * from an empty range on an empty program. */
  function MutateSpec(ops: seq<U8>, rate: real, idx: nat, d: MutationDraws): (r: Option<seq<U8>>)
    requires DrawsFit(d, |ops|)
    ensures r.Some? ==> |r.value| == |ops|
  {
    if idx >= 3 then None
    else if !(d.coin < rate) then Some(ops)
    else if idx == 0 then (if |ops| == 0 then None else Some(Swapped(ops, d.i, d.j)))
    else if idx == 1 then (if |ops| == 0 then None else Some(Rotated(ops, d.st, d.en)))
    else if |ops| == 0 then Some(ops)
    else Some(ops[d.k := d.v])
  }

  method ToArray(ops: seq<U8>) returns (a: array<U8>)
    ensures fresh(a) && a[..] == ops
  {
    a := new U8[|ops|](i requires 0 <= i < |ops| => ops[i]);
  }

  /** `LgpGenome::mutate`; `panicked` reports a panic, after which the
    * program is of no interest. */
  method Mutate(s: State, rate: real, idx: nat, d: MutationDraws) returns (panicked: bool)
    requires DrawsFit(d, |s.ops|)
    modifies s
    ensures panicked <==> MutateSpec(old(s.ops), rate, idx, d).None?
    ensures !panicked ==> s.ops == MutateSpec(old(s.ops), rate, idx, d).value
  {
    var mutate := d.coin < rate;
    if idx >= 3 {
      return true;
    }
    if mutate {
      if idx == 2 {
        var a := ToArray(s.ops);
        MutateReset(a, d.v, d.k);
        s.ops := a[..];
      } else {
        if |s.ops| == 0 {
          return true;
        }
        var a := ToArray(s.ops);
        if idx == 0 {
          MutateSwap(a, d.i, d.j);
        } else {
          MutateInsert(a, d.st, d.en);
        }
        s.ops := a[..];
      }
    }
    return false;
  }

  /** `mutate` panics exactly for a strategy beyond the three it knows, and
    * for swap or insert on an empty program when the coin falls below the
    * rate. */
  lemma MutatePanics(ops: seq<U8>, rate: real, idx: nat, d: MutationDraws)
    requires DrawsFit(d, |ops|)
    ensures MutateSpec(ops, rate, idx, d).None? <==>
      idx >= 3 || (d.coin < rate && |ops| == 0 && idx < 2)
  {
  }

  /** A known strategy with the coin at or above the rate leaves the program
    * alone; swap and insert only rearrange the bytes, and reset rewrites the
    * drawn position with the drawn byte and nothing else. */
  lemma MutateEffects(ops: seq<U8>, rate: real, idx: nat, d: MutationDraws)
    requires DrawsFit(d, |ops|) && idx < 3
    ensures !(d.coin < rate) ==> MutateSpec(ops, rate, idx, d) == Some(ops)
    ensures MutateSpec(ops, rate, idx, d).Some? && idx < 2 ==>
      multiset(MutateSpec(ops, rate, idx, d).value) == multiset(ops)
    ensures idx == 2 && d.coin < rate && |ops| > 0 ==>
      MutateSpec(ops, rate, idx, d).Some? &&
      MutateSpec(ops, rate, idx, d).value[d.k] == d.v &&
      forall p :: 0 <= p < |ops| && p != d.k ==> MutateSpec(ops, rate, idx, d).value[p] == ops[p]
  {
    if d.coin < rate && |ops| > 0 {
      if idx == 0 {
        SwappedPerm(ops, d.i, d.j);
      } else if idx == 1 {
        RotatedPerm(ops, d.st, d.en);
      }
    }
  }

  /** Each strategy's draws fit a program of n bytes. */
  predicate AllFit(ds: seq<MutationDraws>, n: nat) {
    forall i :: 0 <= i < |ds| ==> DrawsFit(ds[i], n)
  }

  /** The mutation pass a generation applies to each child
    * (src/gen/evaluated.rs:144-147): `mutate` with strategy idx and its
    * rate, for every idx from `from` on, in order; `None` once one panics. */
  function MutatePass(ops: seq<U8>, rates: seq<real>, ds: seq<MutationDraws>, from: nat): (r: Option<seq<U8>>)
    requires |ds| == |rates| && from <= |rates| && AllFit(ds, |ops|)
    ensures r.Some? ==> |r.value| == |ops|
    decreases |rates| - from
  {
    if from == |rates| then Some(ops)
    else match MutateSpec(ops, rates[from], from, ds[from])
      case None => None
      case Some(next) => MutatePass(next, rates, ds, from + 1)
  }

  /** As written, a generation's mutation pass always panics: the weights
    * must number `NUM_MUTATION` = 4, so strategy 3 is always applied, and
    * `mutate` has no strategy 3. */
  lemma {:induction false} MutatePassPanics(ops: seq<U8>, rates: seq<real>, ds: seq<MutationDraws>, from: nat)
    requires |rates| == NumMutation && |ds| == |rates| && from <= 3 && AllFit(ds, |ops|)
    ensures MutatePass(ops, rates, ds, from).None?
    decreases 3 - from
  {
    if from < 3 {
      match MutateSpec(ops, rates[from], from, ds[from])
      case None =>
      case Some(next) =>
        MutatePassPanics(next, rates, ds, from + 1);
    }
  }

  /** The number of strategies `mutate` implements. */
  const NumMutationKnown: nat := 3

  /** With the count of strategies `mutate` implements, the pass never panics
    * on a non-empty program and keeps its length. */
  lemma {:induction false} MutatePassKnown(ops: seq<U8>, rates: seq<real>, ds: seq<MutationDraws>, from: nat)
    requires |rates| == NumMutationKnown && |ds| == |rates| && from <= |rates| && AllFit(ds, |ops|)
    requires |ops| > 0
    ensures MutatePass(ops, rates, ds, from).Some?
    ensures |MutatePass(ops, rates, ds, from).value| == |ops|
    decreases |rates| - from
  {
    if from < |rates| {
      MutatePanics(ops, rates[from], from, ds[from]);
      var next := MutateSpec(ops, rates[from], from, ds[from]).value;
      MutatePassKnown(next, rates, ds, from + 1);
    }
  }

  // ---------------------------------------------------------------------
  // Crossover
  // ---------------------------------------------------------------------

  /** The draws of one `crossover` call: the two cut points of
    * `crossover_pmx` and the points of `crossover_kpx`. */
  datatype CrossoverDraws = CrossoverDraws(d0: nat, d1: nat, xpoints: seq<nat>)

  /** The draws lie in their ranges, which `crossover_pmx` and
    * `crossover_kpx` take from the first program's length n. */
  predicate CrossoverDrawsFit(d: CrossoverDraws, n: nat) {
    (n > 0 ==> d.d0 < n && d.d1 < n) && XpointsFit(d.xpoints, 2, n)
  }

  /** What `crossover` does with the two programs. Strategy 0 and the empty
    * order and cycle stubs (2, 3) leave them; PMX (1) panics on an empty
    * first program (`gen_range(0..0)`) and on programs of different lengths
    * (one of the two children reads past the shorter parent); two-point
    * crossover (4) is `crossover_kpx_pts`; any other strategy panics. */
  function CrossoverSpec(a: seq<U8>, b: seq<U8>, idx: nat, d: CrossoverDraws): Option<(seq<U8>, seq<U8>)>
    requires CrossoverDrawsFit(d, |a|)
  {
    if idx == 0 || idx == 2 || idx == 3 then Some((a, b))
    else if idx == 1 then
      (if |a| == 0 || |a| != |b| then None
       else Some((PmxChild(a, b, Min(d.d0, d.d1), Max(d.d0, d.d1)),
                  PmxChild(b, a, Min(d.d0, d.d1), Max(d.d0, d.d1)))))
    else if idx == 4 then KpxResult(a, b, d.xpoints)
    else None
  }

  /** `LgpGenome::crossover`; `panicked` reports a panic, after which the
    * programs are of no interest. */
  method CrossoverStates(s1: State, s2: State, idx: nat, d: CrossoverDraws) returns (panicked: bool)
    requires s1 != s2 && CrossoverDrawsFit(d, |s1.ops|)
    modifies s1, s2
    ensures panicked <==> CrossoverSpec(old(s1.ops), old(s2.ops), idx, d).None?
    ensures !panicked ==> (s1.ops, s2.ops) == CrossoverSpec(old(s1.ops), old(s2.ops), idx, d).value
  {
    if idx == 0 {
      return false;
    } else if idx == 1 {
      if |s1.ops| == 0 || |s1.ops| != |s2.ops| {
        return true;
      }
      var a := ToArray(s1.ops);
      var b := ToArray(s2.ops);
      Pmx(a, b, d.d0, d.d1);
      s1.ops, s2.ops := a[..], b[..];
      return false;
    } else if idx == 2 || idx == 3 {
      var a := ToArray(s1.ops);
      var b := ToArray(s2.ops);
      if idx == 2 {
        CrossoverOrder(a, b);
      } else {
        CrossoverCycle(a, b);
      }
      s1.ops, s2.ops := a[..], b[..];
      return false;
    } else if idx == 4 {
      var a := ToArray(s1.ops);
      var b := ToArray(s2.ops);
      panicked := KpxPts(a, b, d.xpoints);
      if !panicked {
        s1.ops, s2.ops := a[..], b[..];
      }
    } else {
      return true;
    }
  }

  /** On two non-empty programs of one length, every known strategy
    * succeeds and keeps that length; two-point crossover only exchanges
    * bytes position by position. */
  lemma CrossoverEqualLengths(a: seq<U8>, b: seq<U8>, idx: nat, d: CrossoverDraws)
    requires |a| == |b| > 0 && idx < NumCrossover && CrossoverDrawsFit(d, |a|)
    ensures CrossoverSpec(a, b, idx, d).Some?
    ensures |CrossoverSpec(a, b, idx, d).value.0| == |a| && |CrossoverSpec(a, b, idx, d).value.1| == |b|
    ensures idx == 4 ==> forall i :: 0 <= i < |a| ==>
      multiset{CrossoverSpec(a, b, idx, d).value.0[i], CrossoverSpec(a, b, idx, d).value.1[i]} == multiset{a[i], b[i]}
  {
    if idx == 4 {
      assert Clamp(d.xpoints, Min(|a|, |b|)) == d.xpoints;
      KpxClampedNeverPanics(a, b, d.xpoints);
      KpxKeepsPairs(a, b, d.xpoints);
    }
  }

  /** PMX on two programs of different lengths, and any strategy beyond
    * the five, panics. */
  lemma CrossoverPanics(a: seq<U8>, b: seq<U8>, idx: nat, d: CrossoverDraws)
    requires CrossoverDrawsFit(d, |a|)
    ensures idx >= NumCrossover ==> CrossoverSpec(a, b, idx, d).None?
    ensures idx == 1 && |a| != |b| ==> CrossoverSpec(a, b, idx, d).None?
  {
  }

  /** PMX of two programs that are each a permutation of the same distinct
    * bytes gives two such permutations again. */
  lemma CrossoverPmxPermutes(a: seq<U8>, b: seq<U8>, d: CrossoverDraws)
    requires |a| == |b| > 0 && CrossoverDrawsFit(d, |a|)
    requires Distinct(a) && Distinct(b) && Elems(a) == Elems(b)
    ensures CrossoverSpec(a, b, 1, d).Some?
    ensures multiset(CrossoverSpec(a, b, 1, d).value.0) == multiset(a)
    ensures multiset(CrossoverSpec(a, b, 1, d).value.1) == multiset(b)
  {
    var lo, hi := Min(d.d0, d.d1), Max(d.d0, d.d1);
    PmxPermutation(a, b, lo, hi);
    PmxPermutation(b, a, lo, hi);
  }

  // ---------------------------------------------------------------------
  // Distance
  // ---------------------------------------------------------------------

  /** `dist1` instantiated at `u8`, as `LgpGenome::distance` calls it: the
    * sum is kept in a `u8`, so in a build with overflow checks it panics
    * (`None`) as soon as a partial sum exceeds 255. */
  function Dist1Bytes(s1: seq<U8>, s2: seq<U8>, n: nat): Option<U8> {
    if n == 0 then Some(0)
    else match Dist1Bytes(s1, s2, n - 1)
      case None => None
      case Some(acc) =>
        var t := acc + DistAbs(At(s1, n - 1), At(s2, n - 1));
        if t < 256 then Some(t) else None
  }

  /** The byte sum is the true sum while that fits in a byte, and panics
    * exactly when it does not. */
  lemma {:induction false} Dist1BytesAgrees(s1: seq<U8>, s2: seq<U8>, n: nat)
    ensures Dist1Bytes(s1, s2, n) == if AbsSum(s1, s2, n) < 256 then Some(AbsSum(s1, s2, n)) else None
  {
    if n > 0 {
      Dist1BytesAgrees(s1, s2, n - 1);
      AbsSumFacts(s1, s2, n - 1);
    }
  }

  /** Two programs of two bytes each, [0, 0] and [255, 255], are 510 apart,
    * and the byte sum overflows on the second position. */
  lemma Dist1BytesOverflow()
    ensures Dist1Bytes([0, 0], [255, 255], 2).None?
    ensures Dist1Of([0, 0], [255, 255]) == 510
  {
    Dist1BytesAgrees([0, 0], [255, 255], 2);
  }

  /** `LgpGenome::distance` with the sum taken over integers. */
  function GenomeDistance(a: seq<U8>, b: seq<U8>): real {
    Dist1Of(a, b) as real
  }

  /** The genome distance is non-negative and symmetric, and between
    * programs of one length it is zero exactly when they are equal. */
  lemma GenomeDistanceFacts(a: seq<U8>, b: seq<U8>)
    ensures GenomeDistance(a, b) >= 0.0
    ensures GenomeDistance(a, b) == GenomeDistance(b, a)
    ensures |a| == |b| ==> (GenomeDistance(a, b) == 0.0 <==> a == b)
  {
    Dist1Facts(a, b);
    if |a| == |b| && GenomeDistance(a, b) == 0.0 {
      assert Max(|a|, |b|) == |a|;
      forall i | 0 <= i < |a| ensures a[i] == b[i] {
        assert At(a, i) == At(b, i);
      }
    }
  }

  // ---------------------------------------------------------------------
  // Initial genomes
  // ---------------------------------------------------------------------

  /** The genome `lgp_runner` generates: code_len bytes, the i-th drawn by
    * `mutate_gen` as `gen(i)`. */
  function InitialOps(codeLen: nat, gen: nat -> U8): (r: seq<U8>)
    ensures |r| == codeLen
    ensures forall i :: 0 <= i < codeLen ==> r[i] == gen(i)
  {
    seq(codeLen, i requires 0 <= i < codeLen => gen(i))
  }

  /** Genomes of `lgp_runner` all have code_len bytes and every operation
    * keeps that, so with a positive code length crossover never panics
    * on two of them and the only panicking mutation is strategy 3. */
  lemma InitialGenomesStayUniform(codeLen: nat, gen1: nat -> U8, gen2: nat -> U8,
                                  cidx: nat, cd: CrossoverDraws, rate: real, midx: nat, md: MutationDraws)
    requires codeLen > 0 && cidx < NumCrossover && midx < NumMutationKnown
    requires CrossoverDrawsFit(cd, codeLen) && DrawsFit(md, codeLen)
    ensures var a, b := InitialOps(codeLen, gen1), InitialOps(codeLen, gen2);
      CrossoverSpec(a, b, cidx, cd).Some? &&
      |CrossoverSpec(a, b, cidx, cd).value.0| == codeLen &&
      |CrossoverSpec(a, b, cidx, cd).value.1| == codeLen &&
      MutateSpec(a, rate, midx, md).Some? &&
      |MutateSpec(a, rate, midx, md).value| == codeLen
  {
    var a, b := InitialOps(codeLen, gen1), InitialOps(codeLen, gen2);
    CrossoverEqualLengths(a, b, cidx, cd);
    MutatePanics(a, rate, midx, md);
  }
}
