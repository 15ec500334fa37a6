// Shared vocabulary of the model: optional values, error results, byte-sized
// integers and a few facts about sequences.
module Common {

  datatype Option<T> = None | Some(value: T)

  /** A Rust `eyre::Result`: a value or an error message. */
  datatype Result<T> = Ok(value: T) | Err(msg: string)

  /** Rust's `u8`. */
  type U8 = x: int | 0 <= x < 256

  /** Rust's `i8`. */
  type I8 = x: int | -128 <= x < 128

  function Min(a: int, b: int): int { if a <= b then a else b }

  function Max(a: int, b: int): int { if a <= b then b else a }

  /** `gen_range(0..n) as u8`, for the raw draw `u`: `None` is the panic
    * of an empty range, and the cast keeps the low eight bits. */
  function Draw(u: nat, n: nat): (r: Option<U8>)
    ensures r.None? <==> n == 0
    ensures r.Some? && n <= 256 ==> r.value < n
  {
    if n == 0 then None else Some((u % n) % 256)
  }

  /** No two positions of `s` hold equal values. */
  predicate Distinct<T(==)>(s: seq<T>) {
    forall i, j :: 0 <= i < j < |s| ==> s[i] != s[j]
  }

  function Elems<T>(s: seq<T>): set<T> { set x | x in s }

  /** A duplicate-free sequence has exactly as many distinct values as positions. */
  lemma {:induction false} DistinctCard<T>(s: seq<T>)
    requires Distinct(s)
    ensures |Elems(s)| == |s|
  {
    if s != [] {
      DistinctCard(s[1..]);
      assert Elems(s) == Elems(s[1..]) + {s[0]};
      forall k | 0 <= k < |s| - 1 ensures s[1..][k] != s[0] {
        assert s[1..][k] == s[k + 1];
      }
    }
  }

  /** The distinct values of a sequence never outnumber its positions. */
  lemma {:induction false} ElemsCard<T>(s: seq<T>)
    ensures |Elems(s)| <= |s|
  {
    if s != [] {
      ElemsCard(s[1..]);
      assert Elems(s) == Elems(s[1..]) + {s[0]};
    }
  }

  /** A subset as large as its superset is the whole of it. */
  lemma SubsetSameCard<T>(a: set<T>, b: set<T>)
    requires a <= b && |a| == |b|
    ensures a == b
  {
    assert b == a + (b - a);
    assert a * (b - a) == {};
    assert |b - a| == 0;
  }

  lemma SubsetCard<T>(a: set<T>, b: set<T>)
    requires a <= b
    ensures |a| <= |b|
  {
    assert b == a + (b - a);
    assert a * (b - a) == {};
  }

  /** In a duplicate-free sequence every value occurs once. */
  lemma {:induction false} DistinctMultiplicity<T>(s: seq<T>, x: T)
    requires Distinct(s)
    ensures multiset(s)[x] == if x in s then 1 else 0
  {
    if s != [] {
      assert s == [s[0]] + s[1..];
      DistinctMultiplicity(s[1..], x);
      forall k | 0 <= k < |s| - 1 ensures s[1..][k] != s[0] {
        assert s[1..][k] == s[k + 1];
      }
    }
  }

  /** Two duplicate-free sequences with the same values are permutations of
    * each other. */
  lemma DistinctSameElemsPerm<T>(a: seq<T>, b: seq<T>)
    requires Distinct(a) && Distinct(b) && Elems(a) == Elems(b)
    ensures multiset(a) == multiset(b)
  {
    forall x ensures multiset(a)[x] == multiset(b)[x] {
      DistinctMultiplicity(a, x);
      DistinctMultiplicity(b, x);
      assert x in a <==> x in Elems(a);
      assert x in b <==> x in Elems(b);
    }
  }

  /** A permutation of a duplicate-free sequence is duplicate-free. */
  lemma DistinctPerm<T>(a: seq<T>, b: seq<T>)
    requires multiset(a) == multiset(b) && Distinct(a)
    ensures Distinct(b)
  {
    forall i, j | 0 <= i < j < |b| ensures b[i] != b[j] {
      if b[i] == b[j] {
        var x := b[i];
        assert b == b[..j] + b[j..];
        assert x in b[..j] && x in b[j..] by {
          assert b[..j][i] == x && b[j..][0] == x;
        }
        assert multiset(b)[x] == multiset(b[..j])[x] + multiset(b[j..])[x];
        DistinctMultiplicity(a, x);
        assert false;
      }
    }
  }

  /** A sequence with a repeated value has fewer distinct values than
    * positions. */
  lemma RepeatCard<T>(s: seq<T>)
    requires !Distinct(s)
    ensures |Elems(s)| < |s|
  {
    var i, j :| 0 <= i < j < |s| && s[i] == s[j];
    var t := s[..j] + s[j + 1..];
    assert Elems(s) == Elems(t) by {
      forall x | x in Elems(s) ensures x in Elems(t) {
        var k :| 0 <= k < |s| && s[k] == x;
        if k < j { assert t[k] == x; }
        else if k == j { assert t[i] == x; }
        else { assert t[k - 1] == x; }
      }
      forall x | x in Elems(t) ensures x in Elems(s) {
        var k :| 0 <= k < |t| && t[k] == x;
        if k < j { assert s[k] == x; } else { assert s[k + 1] == x; }
      }
    }
    ElemsCard(t);
  }

  /** What assembling produces: a value, an `Err` carrying a message, or a
    * panic. */
  datatype Outcome<T> = Done(value: T) | Error(msg: string) | Panic

  /** The failure of `o`, carried over to another result type. */
  function Fail<A, B>(o: Outcome<A>): (r: Outcome<B>)
    requires !o.Done?
    ensures r.Error? <==> o.Error?
    ensures r.Error? ==> r.msg == o.msg
  {
    if o.Error? then Error(o.msg) else Panic
  }

  /** `b as i8`: the byte read as a two's-complement number. */
  function AsI8(b: U8): (r: I8)
    ensures r % 256 == b
  {
    if b < 128 then b else b - 256
  }

  /** `v as u8` for an `i8`: its two's-complement byte, the inverse of
    * `AsI8`. */
  function I8Byte(v: I8): (b: U8)
    ensures b % 256 == v % 256
    ensures AsI8(b) == v
  {
    if v < 0 then v + 256 else v
  }

  /** Reading a byte as an `i8` and storing it back gives the byte. */
  lemma ByteRoundTrip(b: U8)
    ensures I8Byte(AsI8(b)) == b
  {
  }
}
