// Sequence mutation operators of src/ops/mutation.rs. Every random draw is a
// parameter: the indices drawn with `gen_range`, the element picked by
// `choose`, the swap partners of `shuffle`, the `f64` draws of
// `mutate_rate` and the difference and coin flip of `mutate_creep`.
module Mutation {
  import opened Common

  /** `s` with positions i and j exchanged. */
  function Swapped<T>(s: seq<T>, i: nat, j: nat): seq<T>
    requires i < |s| && j < |s|
  {
    s[i := s[j]][j := s[i]]
  }

  lemma SwappedPerm<T>(s: seq<T>, i: nat, j: nat)
    requires i < |s| && j < |s|
    ensures multiset(Swapped(s, i, j)) == multiset(s)
  {
  }

  /** `mutate_swap` with its two index draws: exchanges exactly the two
    * drawn positions. An empty slice has no valid draw (`gen_range(0..0)`
    * panics). */
  method MutateSwap<T>(s: array<T>, i: nat, j: nat)
    requires i < s.Length && j < s.Length
    modifies s
    ensures s[..] == Swapped(old(s[..]), i, j)
    ensures multiset(s[..]) == multiset(old(s[..]))
  {
    s[i], s[j] := s[j], s[i];
    SwappedPerm(old(s[..]), i, j);
  }

  /** The result of `mutate_insert`: `s[st]` moves to position en and
    * `s[st+1..=en]` shifts one place left (AbcdEfg => bcdAEfg). */
  function Rotated<T>(s: seq<T>, st: nat, en: nat): (r: seq<T>)
    requires st <= en < |s|
  {
    seq(|s|, k requires 0 <= k < |s| =>
      if k < st || k > en then s[k] else if k == en then s[st] else s[k + 1])
  }

  /** Rotating one place further is one more adjacent swap. */
  lemma RotatedStep<T>(s: seq<T>, st: nat, en: nat)
    requires st <= en && en + 1 < |s|
    ensures Rotated(s, st, en + 1) == Swapped(Rotated(s, st, en), en, en + 1)
  {
  }

  /** `mutate_insert` only rearranges. */
  lemma {:induction false} RotatedPerm<T>(s: seq<T>, st: nat, en: nat)
    requires st <= en < |s|
    ensures multiset(Rotated(s, st, en)) == multiset(s)
    decreases en
  {
    if en == st {
      assert Rotated(s, st, en) == s;
    } else {
      RotatedPerm(s, st, en - 1);
      RotatedStep(s, st, en - 1);
      SwappedPerm(Rotated(s, st, en - 1), en - 1, en);
    }
  }

  lemma InsertExample()
    ensures Rotated("AbcdEfg", 0, 3) == "bcdAEfg"
  {
  }

  /** `mutate_insert` with its draws st in [0, len) and en in [st, len): the
    * loop `for i in st..en { s.swap(i, i + 1) }`. */
  method MutateInsert<T>(s: array<T>, st: nat, en: nat)
    requires st <= en < s.Length
    modifies s
    ensures s[..] == Rotated(old(s[..]), st, en)
    ensures multiset(s[..]) == multiset(old(s[..]))
  {
    var i := st;
    while i < en
      invariant st <= i <= en
      invariant s[..] == Rotated(old(s[..]), st, i)
    {
      RotatedStep(old(s[..]), st, i);
      s[i], s[i + 1] := s[i + 1], s[i];
      i := i + 1;
    }
    RotatedPerm(old(s[..]), st, en);
  }

  /** When the parts outside [st, en] are equal and the whole sequences
    * are permutations of each other, the slice [st, en] keeps its multiset too. */
  lemma SlicePerm<T>(a: seq<T>, b: seq<T>, st: nat, en: nat)
    requires |a| == |b| && st <= en < |a|
    requires multiset(a) == multiset(b)
    requires a[..st] == b[..st] && a[en + 1..] == b[en + 1..]
    ensures multiset(a[st..en + 1]) == multiset(b[st..en + 1])
  {
    var pre, mid, post, mid' := a[..st], a[st..en + 1], a[en + 1..], b[st..en + 1];
    assert multiset(a) == multiset(pre) + multiset(mid) + multiset(post) by {
      assert a == pre + mid + post;
    }
    assert multiset(b) == multiset(pre) + multiset(mid') + multiset(post) by {
      assert b == pre + mid' + post;
    }
    forall x ensures multiset(mid)[x] == multiset(mid')[x] {
      assert multiset(a)[x] == multiset(b)[x];
    }
  }

  /** The result of `SliceRandom::shuffle` on s[st..=st+i]: for k from i
    * down to 1, slice positions k and `pick(k)` (a draw in [0, k]) are
    * swapped. */
  function Scrambled<T>(s: seq<T>, st: nat, i: nat, pick: nat -> nat): (r: seq<T>)
    requires st + i < |s|
    requires forall k :: pick(k) <= k
    ensures |r| == |s|
    decreases i
  {
    if i == 0 then s else Scrambled(Swapped(s, st + i, st + pick(i)), st, i - 1, pick)
  }

  /** Shuffling permutes the slice and leaves everything outside it alone. */
  lemma {:induction false} ScrambledPerm<T>(s: seq<T>, st: nat, i: nat, pick: nat -> nat)
    requires st + i < |s|
    requires forall k :: pick(k) <= k
    ensures multiset(Scrambled(s, st, i, pick)) == multiset(s)
    ensures forall k :: 0 <= k < |s| && (k < st || k > st + i) ==> Scrambled(s, st, i, pick)[k] == s[k]
    decreases i
  {
    if i > 0 {
      var t := Swapped(s, st + i, st + pick(i));
      SwappedPerm(s, st + i, st + pick(i));
      ScrambledPerm(t, st, i - 1, pick);
    }
  }

  /** Shuffling s[st..=en] keeps the multiset of that slice. */
  lemma ScrambledSlicePerm<T>(s: seq<T>, st: nat, en: nat, pick: nat -> nat)
    requires st <= en < |s|
    requires forall k :: pick(k) <= k
    ensures multiset(Scrambled(s, st, en - st, pick)[st..en + 1]) == multiset(s[st..en + 1])
  {
    var a := Scrambled(s, st, en - st, pick);
    ScrambledPerm(s, st, en - st, pick);
    assert a[..st] == s[..st];
    assert a[en + 1..] == s[en + 1..];
    SlicePerm(a, s, st, en);
  }

  /** `mutate_scramble` with its draws st and en and the draws of the
    * shuffle of s[st..=en]. */
  method MutateScramble<T>(s: array<T>, st: nat, en: nat, pick: nat -> nat)
    requires st <= en < s.Length
    requires forall i :: pick(i) <= i
    modifies s
    ensures s[..] == Scrambled(old(s[..]), st, en - st, pick)
  {
    var i := en - st;
    while i >= 1
      invariant 0 <= i <= en - st
      invariant Scrambled(s[..], st, i, pick) == Scrambled(old(s[..]), st, en - st, pick)
    {
      MutateSwap(s, st + i, st + pick(i));
      i := i - 1;
    }
  }

  /** The result of `mutate_inversion`: s[st..=en] reversed. */
  function Inverted<T>(s: seq<T>, st: nat, en: nat): seq<T>
    requires st <= en < |s|
  {
    seq(|s|, k requires 0 <= k < |s| => if st <= k <= en then s[st + en - k] else s[k])
  }

  /** Inverting the same range twice restores the input. */
  lemma InvertedTwice<T>(s: seq<T>, st: nat, en: nat)
    requires st <= en < |s|
    ensures Inverted(Inverted(s, st, en), st, en) == s
  {
  }

  /** Inversion only rearranges: the range is reversed from the outside in,
    * one swap of its ends at a time. */
  lemma {:induction false} InvertedPerm<T>(s: seq<T>, st: nat, en: nat)
    requires st <= en < |s|
    ensures multiset(Inverted(s, st, en)) == multiset(s)
    decreases en - st
  {
    if en - st <= 1 {
      if st == en {
        assert Inverted(s, st, en) == s;
      } else {
        assert Inverted(s, st, en) == Swapped(s, st, en);
        SwappedPerm(s, st, en);
      }
    } else {
      InvertedPerm(s, st + 1, en - 1);
      assert Inverted(s, st, en) == Swapped(Inverted(s, st + 1, en - 1), st, en);
      SwappedPerm(Inverted(s, st + 1, en - 1), st, en);
    }
  }

  /** `mutate_inversion` with its draws st and en: `s[st..=en].reverse()`,
    * which swaps the ends of the range inwards. */
  method MutateInversion<T>(s: array<T>, st: nat, en: nat)
    requires st <= en < s.Length
    modifies s
    ensures s[..] == Inverted(old(s[..]), st, en)
    ensures multiset(s[..]) == multiset(old(s[..]))
  {
    var i := 0;
    while st + i < en - i
      invariant 0 <= i && st + i <= en - i + 1
      invariant forall k :: 0 <= k < s.Length ==>
        s[k] == if (st <= k < st + i) || (en - i < k <= en) then old(s[st + en - k]) else old(s[k])
    {
      s[st + i], s[en - i] := s[en - i], s[st + i];
      i := i + 1;
    }
    assert s[..] == Inverted(old(s[..]), st, en);
    InvertedPerm(old(s[..]), st, en);
  }

  /** `mutate_reset` with the position `k` that `choose` picks: overwrites
    * that one position with v; an empty slice has nothing to pick and is left
    * unchanged. */
  method MutateReset<T>(s: array<T>, v: T, k: nat)
    requires s.Length > 0 ==> k < s.Length
    modifies s
    ensures s.Length == 0 ==> s[..] == old(s[..])
    ensures s.Length > 0 ==> s[..] == old(s[..])[k := v]
  {
    if s.Length > 0 {
      s[k] := v;
    }
  }

  /** The result of `mutate_rate`: element i is replaced by f of it exactly
    * when its draw is below rate. */
  function RateApplied<T>(s: seq<T>, rate: real, draw: nat -> real, f: T -> T): seq<T> {
    seq(|s|, i requires 0 <= i < |s| => if draw(i) < rate then f(s[i]) else s[i])
  }

  /** With draws in [0, 1), rate 1.0 rewrites every element. */
  lemma RateOneRewritesAll<T>(s: seq<T>, draw: nat -> real, f: T -> T)
    requires forall i :: 0.0 <= draw(i) < 1.0
    ensures forall i :: 0 <= i < |s| ==> RateApplied(s, 1.0, draw, f)[i] == f(s[i])
  {
  }

  /** With draws in [0, 1), rate 0.0 leaves every element alone. */
  lemma RateZeroRewritesNone<T>(s: seq<T>, draw: nat -> real, f: T -> T)
    requires forall i :: 0.0 <= draw(i) < 1.0
    ensures RateApplied(s, 0.0, draw, f) == s
  {
  }

  /** `mutate_rate` with the i-th `gen::<f64>()` draw as `draw(i)`. */
  method MutateRate<T>(s: array<T>, rate: real, draw: nat -> real, f: T -> T)
    modifies s
    ensures s[..] == RateApplied(old(s[..]), rate, draw, f)
  {
    var i := 0;
    while i < s.Length
      invariant 0 <= i <= s.Length
      invariant forall k :: 0 <= k < s.Length ==>
        s[k] == if k < i && draw(k) < rate then f(old(s[k])) else old(s[k])
    {
      if draw(i) < rate {
        s[i] := f(s[i]);
      }
      i := i + 1;
    }
  }

  /** `mutate_creep` on an integer type whose values are [lo, hi], with the
    * draw `diff` from [0, max_diff) and the coin `down` choosing
    * `saturating_sub` over `saturating_add`. */
  function MutateCreep(v: int, maxDiff: int, diff: int, down: bool, lo: int, hi: int): (r: int)
    requires lo <= v <= hi && 0 <= diff < maxDiff
    ensures lo <= r <= hi
    ensures -maxDiff < r - v < maxDiff
    ensures down ==> r <= v && (r == v - diff || r == lo)
    ensures !down ==> r >= v && (r == v + diff || r == hi)
  {
    if down then Max(v - diff, lo) else Min(v + diff, hi)
  }
}
