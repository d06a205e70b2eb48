/**
 * Sequence operations the Python sources apply to lists, strings and byte
 * strings: concatenation of received chunks, list comprehensions that filter,
 * `sep.join`, `str.split(sep)` and slices with Python's bound rules.
 */
module Seqs {

  /** `b"".join(cs)`: the chunks one after another. */
  function Concat<T>(cs: seq<seq<T>>): seq<T>
  {
    if cs == [] then [] else cs[0] + Concat(cs[1..])
  }

  lemma {:induction false} ConcatAppend<T>(cs: seq<seq<T>>, c: seq<T>)
    ensures Concat(cs + [c]) == Concat(cs) + c
  {
    if cs == [] {
      assert cs + [c] == [c];
    } else {
      assert (cs + [c])[1..] == cs[1..] + [c];
      ConcatAppend(cs[1..], c);
    }
  }

  /** A non-empty list is its first element followed by the rest. */
  lemma ConsAppend<T>(xs: seq<T>, ys: seq<T>)
    requires xs != []
    ensures [xs[0]] + (xs[1..] + ys) == xs + ys
  {
    assert xs == [xs[0]] + xs[1..];
  }

  /** The comprehension `[x for x in s if keep(x)]`. */
  function Filter<T>(s: seq<T>, keep: T -> bool): (r: seq<T>)
    ensures |r| <= |s|
    ensures forall i :: 0 <= i < |r| ==> r[i] in s && keep(r[i])
    ensures forall i :: 0 <= i < |s| && keep(s[i]) ==> s[i] in r
  {
    if s == [] then []
    else
      var tail := Filter(s[1..], keep);
      assert forall i :: 1 <= i < |s| ==> s[i] == s[1..][i - 1];
      (if keep(s[0]) then [s[0]] else []) + tail
  }

  /** `r` can be obtained from `s` by deleting elements (greedy matching). */
  predicate IsSubsequence<T(==)>(r: seq<T>, s: seq<T>)
    decreases |s|
  {
    if r == [] then true
    else if s == [] then false
    else if r[0] == s[0] then IsSubsequence(r[1..], s[1..])
    else IsSubsequence(r, s[1..])
  }

  lemma {:induction false} SubsequenceDropFirst<T>(r: seq<T>, s: seq<T>)
    requires r != [] && IsSubsequence(r, s)
    ensures IsSubsequence(r[1..], s)
    decreases |s|, 1
  {
    if r[0] == s[0] {
      SubsequenceCons(r[1..], s[0], s[1..]);
      assert [s[0]] + s[1..] == s;
    } else {
      SubsequenceDropFirst(r, s[1..]);
      SubsequenceCons(r[1..], s[0], s[1..]);
      assert [s[0]] + s[1..] == s;
    }
  }

  lemma {:induction false} SubsequenceCons<T>(r: seq<T>, x: T, s: seq<T>)
    requires IsSubsequence(r, s)
    ensures IsSubsequence(r, [x] + s)
    decreases |s| + 1, 0
  {
    assert ([x] + s)[1..] == s;
    if r != [] && r[0] == x {
      SubsequenceDropFirst(r, s);
    }
  }

  /** A filter keeps the survivors in their original relative order. */
  lemma {:induction false} FilterIsSubsequence<T>(s: seq<T>, keep: T -> bool)
    ensures IsSubsequence(Filter(s, keep), s)
  {
    if s != [] {
      var r := Filter(s, keep);
      FilterIsSubsequence(s[1..], keep);
      if keep(s[0]) {
        assert r == [s[0]] + Filter(s[1..], keep);
        assert r[1..] == Filter(s[1..], keep);
      } else {
        assert r == Filter(s[1..], keep);
      }
    }
  }

  /** A filter that keeps everything is the identity. */
  lemma {:induction false} FilterKeepAll<T>(s: seq<T>, keep: T -> bool)
    requires forall i :: 0 <= i < |s| ==> keep(s[i])
    ensures Filter(s, keep) == s
  {
    if s != [] {
      FilterKeepAll(s[1..], keep);
    }
  }

  /** `sep.join(parts)`. */
  function Join<T>(parts: seq<seq<T>>, sep: T): seq<T>
    decreases |parts|
  {
    if |parts| == 0 then []
    else if |parts| == 1 then parts[0]
    else parts[0] + [sep] + Join(parts[1..], sep)
  }

  /** The first position of `x` in `s` (`s.index(x)`). */
  function IndexOf<T(==)>(s: seq<T>, x: T): (i: nat)
    requires x in s
    ensures i < |s| && s[i] == x && x !in s[..i]
  {
    if s[0] == x then 0 else 1 + IndexOf(s[1..], x)
  }

  /** `s.split(sep)`: at least one piece, no piece holds `sep`, and joining gives `s` back. */
  function Split<T(==)>(s: seq<T>, sep: T): (parts: seq<seq<T>>)
    ensures |parts| >= 1
    ensures forall k :: 0 <= k < |parts| ==> sep !in parts[k]
    ensures Join(parts, sep) == s
    decreases |s|
  {
    if sep !in s then [s]
    else
      var i := IndexOf(s, sep);
      var rest := Split(s[i + 1..], sep);
      var parts := [s[..i]] + rest;
      assert parts[1..] == rest;
      assert s == s[..i] + [sep] + s[i + 1..];
      parts
  }

  /** Splitting a join of separator-free pieces gives the pieces back. */
  lemma {:induction false} SplitOfJoin<T>(parts: seq<seq<T>>, sep: T)
    requires |parts| >= 1
    requires forall k :: 0 <= k < |parts| ==> sep !in parts[k]
    ensures Split(Join(parts, sep), sep) == parts
    decreases |parts|
  {
    if |parts| > 1 {
      var s := Join(parts, sep);
      var p0 := parts[0];
      var rest := Join(parts[1..], sep);
      assert s == p0 + [sep] + rest;
      assert s[|p0|] == sep;
      var i := IndexOf(s, sep);
      assert s[..i] == p0;
      assert s[i + 1..] == rest;
      SplitOfJoin(parts[1..], sep);
      assert [p0] + parts[1..] == parts;
    }
  }

  function Min(a: int, b: int): int { if a < b then a else b }

  function Max(a: int, b: int): int { if a < b then b else a }

  /** Python's normalisation of the slice bound `k` against a length `n`. */
  function SliceBound(n: nat, k: int): (b: nat)
    ensures b <= n
  {
    if k < 0 then Max(n + k, 0) else Min(k, n)
  }

  /** `s[:k]`: the first `k` elements, or all but the last `-k` when `k` is negative. */
  function SliceTo<T>(s: seq<T>, k: int): (r: seq<T>)
    ensures |r| <= |s| && r == s[..|r|]
    ensures 0 <= k ==> |r| == Min(k, |s|)
    ensures k < 0 ==> |r| == Max(|s| + k, 0)
  {
    s[..SliceBound(|s|, k)]
  }

  /** `s[k:]`: exactly what `s[:k]` leaves over. */
  function SliceFrom<T>(s: seq<T>, k: int): (r: seq<T>)
    ensures SliceTo(s, k) + r == s
  {
    s[SliceBound(|s|, k)..]
  }

  /** The elements of `s` at the positions `idx`, in that order. */
  function Select<T>(s: seq<T>, idx: seq<nat>): (r: seq<T>)
    requires forall k :: 0 <= k < |idx| ==> idx[k] < |s|
    ensures |r| == |idx|
    ensures forall k :: 0 <= k < |idx| ==> r[k] == s[idx[k]]
  {
    seq(|idx|, k requires 0 <= k < |idx| => s[idx[k]])
  }

  /** The positions below `n` that are not listed in `ps`, in ascending order. */
  function Survivors(n: nat, ps: seq<int>): (r: seq<nat>)
    ensures forall i: nat :: i in r <==> i < n && i !in ps
    ensures forall k, l :: 0 <= k < l < |r| ==> r[k] < r[l]
  {
    if n == 0 then []
    else
      var r := Survivors(n - 1, ps);
      assert forall k :: 0 <= k < |r| ==> r[k] in r;
      r + (if n - 1 in ps then [] else [n - 1])
  }

  /** The comprehension `[x for i, x in enumerate(s) if i not in ps]`. */
  function DropPositions<T>(s: seq<T>, ps: seq<int>): (r: seq<T>)
    ensures |r| <= |s|
  {
    if s == [] then []
    else DropPositions(s[..|s| - 1], ps) + (if |s| - 1 in ps then [] else [s[|s| - 1]])
  }

  /**
   * Dropping listed positions keeps exactly the unlisted positions, in
   * ascending order: the result is `s` read at `Survivors(|s|, ps)`.
   */
  lemma {:induction false} DropPositionsSelectsSurvivors<T>(s: seq<T>, ps: seq<int>)
    ensures forall k :: 0 <= k < |Survivors(|s|, ps)| ==> Survivors(|s|, ps)[k] < |s|
    ensures DropPositions(s, ps) == Select(s, Survivors(|s|, ps))
  {
    if s != [] {
      var n := |s| - 1;
      DropPositionsSelectsSurvivors(s[..n], ps);
      var sv' := Survivors(n, ps);
      SelectPrefix(s, sv');
      if n !in ps {
        SelectSnoc(s, sv', n);
      }
    }
  }

  /** Positions that all lie before the last element read the same in `s` and in `s` without it. */
  lemma SelectPrefix<T>(s: seq<T>, idx: seq<nat>)
    requires s != [] && forall k :: 0 <= k < |idx| ==> idx[k] < |s| - 1
    ensures Select(s, idx) == Select(s[..|s| - 1], idx)
  {
  }

  /** Reading one more position appends that element. */
  lemma SelectSnoc<T>(s: seq<T>, idx: seq<nat>, j: nat)
    requires j < |s| && forall k :: 0 <= k < |idx| ==> idx[k] < |s|
    ensures Select(s, idx + [j]) == Select(s, idx) + [s[j]]
  {
    assert (idx + [j])[|idx|] == j;
  }

  /** No element occurs twice: the keys of a dictionary, in insertion order. */
  predicate Distinct<T(==)>(s: seq<T>)
  {
    forall i, j :: 0 <= i < j < |s| ==> s[i] != s[j]
  }

  /** `del d[x]` on the insertion order of a dictionary's keys. */
  function Remove<T(==)>(s: seq<T>, x: T): (r: seq<T>)
    ensures forall i :: 0 <= i < |r| ==> r[i] in s && r[i] != x
    ensures forall i :: 0 <= i < |s| && s[i] != x ==> s[i] in r
    ensures Distinct(s) ==> Distinct(r)
    ensures IsSubsequence(r, s)
  {
    if s == [] then []
    else
      var tail := Remove(s[1..], x);
      if s[0] == x then
        SubsequenceCons(tail, s[0], s[1..]);
        assert [s[0]] + s[1..] == s;
        tail
      else
        assert Distinct(s) ==> s[0] !in s[1..];
        assert ([s[0]] + tail)[1..] == tail;
        [s[0]] + tail
  }

  /**
   * `del d[x]` on a dictionary whose keys, without repeats, are `order`:
   * the order left behind lists exactly the keys that stay.
   */
  lemma RemoveKey<K, V>(order: seq<K>, m: map<K, V>, x: K)
    requires Distinct(order) && forall k :: k in order <==> k in m
    ensures Distinct(Remove(order, x)) && forall k :: k in Remove(order, x) <==> k in m - {x}
  {
  }

  /** Every element of a subsequence occurs in the sequence it was taken from. */
  lemma {:induction false} SubsequenceMembers<T>(r: seq<T>, s: seq<T>)
    requires IsSubsequence(r, s)
    ensures forall i :: 0 <= i < |r| ==> r[i] in s
    decreases |s|
  {
    if r != [] {
      if r[0] == s[0] {
        SubsequenceMembers(r[1..], s[1..]);
        assert forall i :: 1 <= i < |r| ==> r[i] == r[1..][i - 1];
      } else {
        SubsequenceMembers(r, s[1..]);
      }
    }
  }

  /** Taking a subsequence of distinct elements keeps them distinct. */
  lemma {:induction false} SubsequenceDistinct<T>(r: seq<T>, s: seq<T>)
    requires IsSubsequence(r, s) && Distinct(s)
    ensures Distinct(r)
    decreases |s|
  {
    if r != [] {
      assert Distinct(s[1..]);
      if r[0] == s[0] {
        SubsequenceDistinct(r[1..], s[1..]);
        SubsequenceMembers(r[1..], s[1..]);
        assert s[0] !in s[1..];
        assert forall i :: 1 <= i < |r| ==> r[i] == r[1..][i - 1];
      } else {
        SubsequenceDistinct(r, s[1..]);
      }
    }
  }
}
