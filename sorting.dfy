// The standard library sorts and `dedup` that the engine calls on its
// vectors. `slice::sort_by` is stable; the insertion sort below is stable
// too, so it is also one admissible outcome of `sort_unstable_by`.
module Sorting {
  import opened Common

  /** `le` is total and transitive: what `sort_by` needs of its comparator. */
  ghost predicate TotalPreorder<T(!new)>(le: (T, T) -> bool) {
    (forall a, b :: le(a, b) || le(b, a)) &&
    (forall a, b, c :: le(a, b) && le(b, c) ==> le(a, c))
  }

  predicate SortedBy<T>(s: seq<T>, le: (T, T) -> bool) {
    forall i, j :: 0 <= i < j < |s| ==> le(s[i], s[j])
  }

  /** A sorted sequence cut at k: both halves are sorted and everything
    * before the cut is `le` to everything after it. */
  lemma SortedSplit<T>(s: seq<T>, le: (T, T) -> bool, k: nat)
    requires SortedBy(s, le) && k <= |s|
    ensures SortedBy(s[..k], le)
    ensures forall a, b :: a in s[..k] && b in s[k..] ==> le(a, b)
  {
    forall a, b | a in s[..k] && b in s[k..] ensures le(a, b) {
      var i :| 0 <= i < k && s[..k][i] == a;
      var j :| 0 <= j < |s| - k && s[k..][j] == b;
      assert s[i] == a && s[k + j] == b;
    }
  }

  /** Places `x` before the first element it is `le` to. */
  function Insert<T>(x: T, s: seq<T>, le: (T, T) -> bool): (r: seq<T>)
    ensures multiset(r) == multiset(s) + multiset{x}
    ensures |r| == |s| + 1
  {
    if s == [] then [x]
    else if le(x, s[0]) then [x] + s
    else
      assert s == [s[0]] + s[1..];
      [s[0]] + Insert(x, s[1..], le)
  }

  function SortBy<T>(s: seq<T>, le: (T, T) -> bool): (r: seq<T>)
    ensures multiset(r) == multiset(s)
    ensures |r| == |s|
  {
    if s == [] then []
    else
      assert s == [s[0]] + s[1..];
      Insert(s[0], SortBy(s[1..], le), le)
  }

  lemma {:induction false} InsertSorted<T(!new)>(x: T, s: seq<T>, le: (T, T) -> bool)
    requires TotalPreorder(le) && SortedBy(s, le)
    ensures SortedBy(Insert(x, s, le), le)
  {
    if s != [] && !le(x, s[0]) {
      var t := s[1..];
      assert SortedBy(t, le);
      InsertSorted(x, t, le);
      var r := Insert(x, t, le);
      forall y | y in r ensures le(s[0], y) {
        assert y in multiset(r);
        if y != x {
          assert y in multiset(t);
          var k :| 0 <= k < |t| && t[k] == y;
          assert s[k + 1] == y;
        }
      }
      SortedCons(s[0], r, le);
    }
  }

  /** An element `le` to every element of a sorted sequence can go first. */
  lemma SortedCons<T>(a: T, r: seq<T>, le: (T, T) -> bool)
    requires SortedBy(r, le) && forall y :: y in r ==> le(a, y)
    ensures SortedBy([a] + r, le)
  {
    var w := [a] + r;
    forall i, j | 0 <= i < j < |w| ensures le(w[i], w[j]) {
      if i == 0 {
        assert w[j] == r[j - 1];
      } else {
        assert w[i] == r[i - 1] && w[j] == r[j - 1];
      }
    }
  }

  /** Sorting by a total preorder yields a sorted permutation. */
  lemma {:induction false} SortBySorted<T(!new)>(s: seq<T>, le: (T, T) -> bool)
    requires TotalPreorder(le)
    ensures SortedBy(SortBy(s, le), le)
  {
    if s != [] {
      SortBySorted(s[1..], le);
      InsertSorted(s[0], SortBy(s[1..], le), le);
    }
  }

  /** The insertion sort leaves a sorted sequence as it is: `EvaluatedGen::new`
    * on members already sorted by fitness keeps their order. */
  lemma {:induction false} SortBySortedIdentity<T>(s: seq<T>, le: (T, T) -> bool)
    requires SortedBy(s, le)
    ensures SortBy(s, le) == s
  {
    if s != [] {
      assert SortedBy(s[1..], le) by {
        forall i, j | 0 <= i < j < |s[1..]| ensures le(s[1..][i], s[1..][j]) {
          assert s[1..][i] == s[i + 1] && s[1..][j] == s[j + 1];
        }
      }
      SortBySortedIdentity(s[1..], le);
      if |s| > 1 {
        assert le(s[0], s[1..][0]) by { assert s[1..][0] == s[1]; }
      }
      assert [s[0]] + s[1..] == s;
    }
  }

  /** `Vec::dedup_by` after the first element: drops each element that is
    * `same` as the last one kept. */
  function DedupFrom<T>(last: T, s: seq<T>, same: (T, T) -> bool): (r: seq<T>)
    ensures |r| <= |s|
    ensures forall x :: x in r ==> x in s
  {
    if s == [] then []
    else if same(s[0], last) then DedupFrom(last, s[1..], same)
    else [s[0]] + DedupFrom(s[0], s[1..], same)
  }

  /** `Vec::dedup_by(same)`: keeps the first element of every run of elements
    * `same` as the previously kept one. */
  function DedupBy<T>(s: seq<T>, same: (T, T) -> bool): (r: seq<T>)
    ensures |r| <= |s|
    ensures forall x :: x in r ==> x in s
    ensures s != [] ==> r != [] && r[0] == s[0]
  {
    if s == [] then [] else [s[0]] + DedupFrom(s[0], s[1..], same)
  }

  /** `same` holds exactly between elements the order cannot tell apart. */
  ghost predicate Agrees<T(!new)>(le: (T, T) -> bool, same: (T, T) -> bool) {
    forall a, b :: same(a, b) <==> le(a, b) && le(b, a)
  }

  lemma {:induction false} DedupFromSpread<T(!new)>(last: T, s: seq<T>, le: (T, T) -> bool, same: (T, T) -> bool)
    requires TotalPreorder(le) && Agrees(le, same) && SortedBy([last] + s, le)
    ensures forall x :: x in DedupFrom(last, s, same) ==> le(last, x) && !same(x, last)
    ensures SortedBy(DedupFrom(last, s, same), le)
    ensures forall i, j :: 0 <= i < j < |DedupFrom(last, s, same)| ==>
      !same(DedupFrom(last, s, same)[i], DedupFrom(last, s, same)[j])
  {
    if s != [] {
      var w := [last] + s;
      assert w[1] == s[0];
      assert [last] + s[1..] == w[..1] + w[2..];
      assert [s[0]] + s[1..] == w[1..];
      if same(s[0], last) {
        assert SortedBy([last] + s[1..], le) by {
          forall i, j | 0 <= i < j < |s[1..]| + 1
            ensures le(([last] + s[1..])[i], ([last] + s[1..])[j])
          {
            if i == 0 { assert ([last] + s[1..])[j] == w[j + 1]; }
            else { assert ([last] + s[1..])[i] == w[i + 1] && ([last] + s[1..])[j] == w[j + 1]; }
          }
        }
        DedupFromSpread(last, s[1..], le, same);
      } else {
        assert SortedBy([s[0]] + s[1..], le) by {
          forall i, j | 0 <= i < j < |s|
            ensures le(([s[0]] + s[1..])[i], ([s[0]] + s[1..])[j])
          {
            assert ([s[0]] + s[1..])[i] == w[i + 1] && ([s[0]] + s[1..])[j] == w[j + 1];
          }
        }
        DedupFromSpread(s[0], s[1..], le, same);
        var t := DedupFrom(s[0], s[1..], same);
        var r := [s[0]] + t;
        assert le(last, s[0]) by { assert w[0] == last; }
        forall x | x in r ensures le(last, x) && !same(x, last) {
          if x != s[0] {
            assert x in t;
            assert le(s[0], x) && !same(x, s[0]);
            assert !le(s[0], last);
            assert !le(x, last);
          }
        }
        forall i, j | 0 <= i < j < |r| ensures le(r[i], r[j]) && !same(r[i], r[j]) {
          assert r[j] == t[j - 1];
          assert r[j] in t;
          if i > 0 { assert r[i] == t[i - 1]; }
        }
      }
    }
  }

  /** Sorting by a total preorder and then `dedup_by` with the matching
    * equivalence leaves no two equivalent elements. */
  lemma SortedDedupDistinct<T(!new)>(s: seq<T>, le: (T, T) -> bool, same: (T, T) -> bool)
    requires TotalPreorder(le) && Agrees(le, same) && SortedBy(s, le)
    ensures SortedBy(DedupBy(s, same), le)
    ensures forall i, j :: 0 <= i < j < |DedupBy(s, same)| ==> !same(DedupBy(s, same)[i], DedupBy(s, same)[j])
  {
    if s != [] {
      assert s == [s[0]] + s[1..];
      DedupFromSpread(s[0], s[1..], le, same);
    }
  }

  ghost predicate Equivalence<T(!new)>(same: (T, T) -> bool) {
    (forall a :: same(a, a)) &&
    (forall a, b :: same(a, b) ==> same(b, a)) &&
    (forall a, b, c :: same(a, b) && same(b, c) ==> same(a, c))
  }

  /** Every element dropped by `dedup_by` is equivalent to one it keeps. */
  lemma {:induction false} DedupFromCovers<T(!new)>(last: T, s: seq<T>, same: (T, T) -> bool, x: T)
    requires x in s && Equivalence(same)
    ensures same(x, last) || exists y :: y in DedupFrom(last, s, same) && same(x, y)
  {
    var r := DedupFrom(last, s, same);
    if same(s[0], last) {
      if x != s[0] {
        assert x in s[1..];
        DedupFromCovers(last, s[1..], same, x);
      }
    } else {
      assert r == [s[0]] + DedupFrom(s[0], s[1..], same);
      if x == s[0] {
        assert x in r && same(x, x);
      } else {
        assert x in s[1..];
        DedupFromCovers(s[0], s[1..], same, x);
        if same(x, s[0]) {
          assert s[0] in r;
        } else {
          var y :| y in DedupFrom(s[0], s[1..], same) && same(x, y);
          assert y in r;
        }
      }
    }
  }

  lemma DedupByCovers<T(!new)>(s: seq<T>, same: (T, T) -> bool, x: T)
    requires x in s && Equivalence(same)
    ensures exists y :: y in DedupBy(s, same) && same(x, y)
  {
    var r := DedupBy(s, same);
    if x == s[0] {
      assert r[0] == x && same(x, x);
    } else {
      assert x in s[1..];
      DedupFromCovers(s[0], s[1..], same, x);
      if same(x, s[0]) { assert r[0] == s[0]; }
    }
  }
}
