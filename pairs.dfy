/**
 * Python's ordering of strings and byte strings, and the conversation key
 * `tuple(sorted([a, b]))` that every server variant builds from two names.
 */
module Pairs {
  import opened Bytes

  /** Distinct elements have distinct ranks (code points, byte values). */
  ghost predicate Injective<T(!new)>(rank: T -> int)
  {
    forall x, y :: rank(x) == rank(y) ==> x == y
  }

  function CharRank(c: char): int { c as int }

  function ByteRank(b: byte): int { b }

  lemma RanksInjective()
    ensures Injective(CharRank) && Injective(ByteRank)
  {
  }

  /** Python's `a <= b` on sequences: the first differing element decides, a prefix comes first. */
  predicate LexLe<T>(a: seq<T>, b: seq<T>, rank: T -> int)
  {
    if a == [] then true
    else if b == [] then false
    else if rank(a[0]) != rank(b[0]) then rank(a[0]) < rank(b[0])
    else LexLe(a[1..], b[1..], rank)
  }

  /** Any two sequences are comparable. */
  lemma {:induction false} LexTotal<T>(a: seq<T>, b: seq<T>, rank: T -> int)
    ensures LexLe(a, b, rank) || LexLe(b, a, rank)
  {
    if a != [] && b != [] && rank(a[0]) == rank(b[0]) {
      LexTotal(a[1..], b[1..], rank);
    }
  }

  /** The order is antisymmetric when ranks identify elements. */
  lemma {:induction false} LexAntisymmetric<T(!new)>(a: seq<T>, b: seq<T>, rank: T -> int)
    requires Injective(rank)
    requires LexLe(a, b, rank) && LexLe(b, a, rank)
    ensures a == b
  {
    if a != [] {
      LexAntisymmetric(a[1..], b[1..], rank);
      assert a == [a[0]] + a[1..] && b == [b[0]] + b[1..];
    }
  }

  /** `tuple(sorted([a, b]))`: the two names, smaller first. */
  function SortedPair<T>(a: seq<T>, b: seq<T>, rank: T -> int): (k: (seq<T>, seq<T>))
    ensures k == (a, b) || k == (b, a)
    ensures LexLe(k.0, k.1, rank)
  {
    LexTotal(a, b, rank);
    if LexLe(a, b, rank) then (a, b) else (b, a)
  }

  /** Whichever of the two names comes first, the conversation key is the same. */
  lemma SortedPairSymmetric<T(!new)>(a: seq<T>, b: seq<T>, rank: T -> int)
    requires Injective(rank)
    ensures SortedPair(a, b, rank) == SortedPair(b, a, rank)
  {
    if LexLe(a, b, rank) && LexLe(b, a, rank) {
      LexAntisymmetric(a, b, rank);
    }
  }

  /** `u in key`: the user is one of the two names of the conversation key. */
  predicate InPair<T(==)>(u: seq<T>, key: (seq<T>, seq<T>))
  {
    u == key.0 || u == key.1
  }
}
