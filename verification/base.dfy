/** Vocabulary shared by the models: results, identifiers and time. */
module Base {

  datatype Option<+T> = None | Some(value: T)

  datatype Result<+T, +E> = Ok(value: T) | Err(error: E)

  /** Row identifiers, tokens and digests.  The program draws them at random and
      hashes them; here they are opaque numbers that are only compared. */
  type Uuid = nat

  /** A point in time, in microseconds, the resolution of the stored timestamps. */
  type Instant = int

  const SECOND: int := 1_000_000
  const MINUTE: int := 60 * SECOND
  const HOUR: int := 60 * MINUTE
  const DAY: int := 24 * HOUR

  function Power2(n: nat): (p: nat)
    ensures p >= 1
  {
    if n == 0 then 1 else 2 * Power2(n - 1)
  }

  ghost predicate Distinct<T>(s: seq<T>) {
    forall i, j :: 0 <= i < j < |s| ==> s[i] != s[j]
  }

  function OneThrough(n: nat): (r: set<nat>)
    ensures forall v :: v in r <==> 1 <= v <= n
    ensures |r| == n
  {
    if n == 0 then {} else OneThrough(n - 1) + {n}
  }

  /** Pigeonhole: distinct numbers drawn from 1..n are at most n. */
  lemma DistinctBounded(s: seq<nat>, n: nat)
    requires Distinct(s)
    requires forall v :: v in s ==> 1 <= v <= n
    ensures |s| <= n
  {
    ElementCount(s);
    SubsetSize((set v | v in s), OneThrough(n));
  }

  lemma ElementCount<T>(s: seq<T>)
    requires Distinct(s)
    ensures |set v | v in s| == |s|
  {
    if s != [] {
      var front := s[..|s| - 1];
      ElementCount(front);
      assert s == front + [s[|s| - 1]];
      assert (set v | v in s) == (set v | v in front) + {s[|s| - 1]};
    }
  }

  lemma SubsetSize<T>(a: set<T>, b: set<T>)
    requires a <= b
    ensures |a| <= |b|
  {
    if a != {} {
      var x :| x in a;
      SubsetSize(a - {x}, b - {x});
    }
  }
}
