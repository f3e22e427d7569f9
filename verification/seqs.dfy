/**
  Generic sequence operations: JavaScript's `Array.prototype.filter`, `map`,
  `reduce` to a maximum, and the index-based description of a filter used to
  state that a filter keeps the surviving elements in their original order.
*/
module Seqs {

  /** `Array.prototype.filter`: keeps the elements satisfying `p`. */
  function Filter<T(==)>(p: T -> bool, s: seq<T>): (r: seq<T>)
    ensures |r| <= |s|
    ensures forall k | 0 <= k < |r| :: p(r[k]) && r[k] in s
    ensures forall x | x in s && p(x) :: x in r
  {
    if s == [] then []
    else (if p(s[0]) then [s[0]] else []) + Filter(p, s[1..])
  }

  /** `Array.prototype.map`. */
  function Map<T, U>(f: T -> U, s: seq<T>): (r: seq<U>)
    ensures |r| == |s|
    ensures forall k | 0 <= k < |s| :: r[k] == f(s[k])
  {
    seq(|s|, k requires 0 <= k < |s| => f(s[k]))
  }

  /** `Math.max(...xs)` on a non-empty list. */
  function Max(xs: seq<int>): (m: int)
    requires |xs| > 0
    ensures m in xs
    ensures forall k | 0 <= k < |xs| :: xs[k] <= m
  {
    if |xs| == 1 then xs[0]
    else var rest := Max(xs[1..]); if xs[0] >= rest then xs[0] else rest
  }

  /** The indices of the elements of `s` that satisfy `p`, in increasing order. */
  function KeptIndices<T>(p: T -> bool, s: seq<T>): (idx: seq<nat>)
    ensures |idx| <= |s|
    ensures forall k | 0 <= k < |idx| :: idx[k] < |s|
    decreases |s|
  {
    if s == [] then []
    else
      var front := KeptIndices(p, s[..|s| - 1]);
      if p(s[|s| - 1]) then front + [|s| - 1] else front
  }

  /** The kept indices are strictly increasing positions of `s`, and they
      are exactly the positions whose element satisfies `p`. */
  lemma {:induction false} KeptIndicesSpec<T>(p: T -> bool, s: seq<T>)
    ensures var idx := KeptIndices(p, s);
      && (forall k | 0 <= k < |idx| :: idx[k] < |s| && p(s[idx[k]]))
      && (forall k, l | 0 <= k < l < |idx| :: idx[k] < idx[l])
      && (forall i | 0 <= i < |s| && p(s[i]) :: i in idx)
    decreases |s|
  {
    if s != [] {
      var init := s[..|s| - 1];
      KeptIndicesSpec(p, init);
      var idx0 := KeptIndices(p, init);
    }
  }

  /** `r` lists, in order, exactly the elements of `s` at the positions
      where `p` holds. */
  ghost predicate IsSelection<T>(r: seq<T>, s: seq<T>, p: T -> bool) {
    var idx := KeptIndices(p, s);
    |r| == |idx| && forall k | 0 <= k < |r| :: r[k] == s[idx[k]]
  }

  /** A filter keeps a single element exactly when it satisfies `p`. */
  lemma FilterSingle<T>(p: T -> bool, x: T)
    ensures Filter(p, [x]) == if p(x) then [x] else []
  {
    assert [x][1..] == [];
  }

  /** Filtering distributes over concatenation, so it never reorders. */
  lemma {:induction false} FilterConcat<T>(p: T -> bool, a: seq<T>, b: seq<T>)
    ensures Filter(p, a + b) == Filter(p, a) + Filter(p, b)
  {
    if a == [] {
      assert a + b == b;
    } else {
      assert (a + b)[1..] == a[1..] + b;
      FilterConcat(p, a[1..], b);
    }
  }

  /** A filter is the in-order selection of the elements satisfying `p`. */
  lemma {:induction false} FilterIsSelection<T>(p: T -> bool, s: seq<T>)
    ensures IsSelection(Filter(p, s), s, p)
    decreases |s|
  {
    if s != [] {
      var init, x := s[..|s| - 1], s[|s| - 1];
      var tail := if p(x) then [x] else [];
      var tailIdx := if p(x) then [|init|] else [];
      assert Filter(p, s) == Filter(p, init) + tail by {
        assert s == init + [x];
        FilterConcat(p, init, [x]);
        assert [x][1..] == [];
      }
      FilterIsSelection(p, init);
      SelectionSnoc(p, Filter(p, init), s, tail, tailIdx);
    }
  }

  /** Extending a selection of `s[..|s| - 1]` by the last element of `s`
      (or by nothing) gives a selection of `s`. */
  lemma SelectionSnoc<T>(p: T -> bool, r0: seq<T>, s: seq<T>, tail: seq<T>, tailIdx: seq<nat>)
    requires |s| > 0 && IsSelection(r0, s[..|s| - 1], p)
    requires tail == (if p(s[|s| - 1]) then [s[|s| - 1]] else [])
    requires tailIdx == (if p(s[|s| - 1]) then [|s| - 1] else [])
    ensures IsSelection(r0 + tail, s, p)
  {
    var idx0 := KeptIndices(p, s[..|s| - 1]);
    assert KeptIndices(p, s) == idx0 + tailIdx;
    forall k | 0 <= k < |r0|
      ensures r0[k] == s[idx0[k]]
    {
      assert s[..|s| - 1][idx0[k]] == s[idx0[k]];
    }
  }

  /** A filter keeps everything when every element passes. */
  lemma {:induction false} FilterAll<T>(p: T -> bool, s: seq<T>)
    requires forall k | 0 <= k < |s| :: p(s[k])
    ensures Filter(p, s) == s
  {
    if s != [] {
      FilterAll(p, s[1..]);
    }
  }

  /** A filter keeps nothing when no element passes. */
  lemma {:induction false} FilterNone<T>(p: T -> bool, s: seq<T>)
    requires forall k | 0 <= k < |s| :: !p(s[k])
    ensures Filter(p, s) == []
  {
    if s != [] {
      FilterNone(p, s[1..]);
    }
  }

  /** Filtering by `q` after filtering by a weaker `p` is filtering by `q`. */
  lemma {:induction false} FilterFilter<T>(p: T -> bool, q: T -> bool, s: seq<T>)
    requires forall k | 0 <= k < |s| :: q(s[k]) ==> p(s[k])
    ensures Filter(q, Filter(p, s)) == Filter(q, s)
  {
    if s != [] {
      FilterFilter(p, q, s[1..]);
      var head := if p(s[0]) then [s[0]] else [];
      FilterConcat(q, head, Filter(p, s[1..]));
      if p(s[0]) {
        assert [s[0]][1..] == [];
      }
    }
  }

  /** A map that does not change whether `p` holds keeps the number of
      elements satisfying `p`. */
  lemma {:induction false} FilterMapCount<T>(p: T -> bool, f: T -> T, s: seq<T>)
    requires forall k | 0 <= k < |s| :: p(f(s[k])) == p(s[k])
    ensures |Filter(p, Map(f, s))| == |Filter(p, s)|
  {
    if s != [] {
      assert Map(f, s) == [f(s[0])] + Map(f, s[1..]);
      FilterConcat(p, [f(s[0])], Map(f, s[1..]));
      assert [f(s[0])][1..] == [];
      FilterMapCount(p, f, s[1..]);
    }
  }

  /** The positions of `s` whose element satisfies `p`. */
  function MatchingPositions<T>(p: T -> bool, s: seq<T>): set<int> {
    set k | 0 <= k < |s| && p(s[k])
  }

  /** A filter keeps as many elements as there are positions where `p`
      holds. */
  lemma {:induction false} FilterCount<T>(p: T -> bool, s: seq<T>)
    ensures |Filter(p, s)| == |MatchingPositions(p, s)|
    decreases |s|
  {
    if s != [] {
      var init, x := s[..|s| - 1], s[|s| - 1];
      assert Filter(p, s) == Filter(p, init) + (if p(x) then [x] else []) by {
        assert s == init + [x];
        FilterConcat(p, init, [x]);
        assert [x][1..] == [];
      }
      FilterCount(p, init);
      MatchingPositionsSnoc(p, s);
    }
  }

  lemma MatchingPositionsSnoc<T>(p: T -> bool, s: seq<T>)
    requires |s| > 0
    ensures |MatchingPositions(p, s)|
         == |MatchingPositions(p, s[..|s| - 1])| + (if p(s[|s| - 1]) then 1 else 0)
  {
    var init := s[..|s| - 1];
    var last: set<int> := if p(s[|s| - 1]) then {|s| - 1} else {};
    assert MatchingPositions(p, s) == MatchingPositions(p, init) + last;
    assert MatchingPositions(p, init) !! last;
  }

  /** Splitting by a predicate and its negation loses nothing. */
  lemma {:induction false} FilterPartition<T>(p: T -> bool, q: T -> bool, s: seq<T>)
    requires forall k | 0 <= k < |s| :: q(s[k]) == !p(s[k])
    ensures |Filter(p, s)| + |Filter(q, s)| == |s|
  {
    if s != [] {
      FilterPartition(p, q, s[1..]);
    }
  }
  /** `key` takes a different value at every position of `s`. */
  predicate Injective<T, K(==)>(key: T -> K, s: seq<T>) {
    forall i, j | 0 <= i < j < |s| :: key(s[i]) != key(s[j])
  }

  /** A filter keeps keys distinct. */
  lemma {:induction false} FilterInjective<T, K>(p: T -> bool, key: T -> K, s: seq<T>)
    requires Injective(key, s)
    ensures Injective(key, Filter(p, s))
  {
    if s != [] {
      var rest := Filter(p, s[1..]);
      FilterInjective(p, key, s[1..]);
      if p(s[0]) {
        forall k | 0 <= k < |rest|
          ensures key(s[0]) != key(rest[k])
        {
          var j :| 0 <= j < |s[1..]| && s[1..][j] == rest[k];
          assert s[j + 1] == rest[k];
        }
      }
    }
  }

  /** Two filters can be applied in either order. */
  lemma {:induction false} FilterCommute<T>(p: T -> bool, q: T -> bool, s: seq<T>)
    ensures Filter(p, Filter(q, s)) == Filter(q, Filter(p, s))
  {
    if s != [] {
      var x := s[0];
      FilterCommute(p, q, s[1..]);
      FilterConcat(p, if q(x) then [x] else [], Filter(q, s[1..]));
      FilterConcat(q, if p(x) then [x] else [], Filter(p, s[1..]));
      assert [x][1..] == [];
    }
  }

  /** A filter that rejects exactly one position drops exactly one element. */
  lemma {:induction false} FilterDropsOne<T>(p: T -> bool, s: seq<T>, k: int)
    requires 0 <= k < |s| && !p(s[k])
    requires forall i | 0 <= i < |s| && i != k :: p(s[i])
    ensures |Filter(p, s)| == |s| - 1
  {
    if k == 0 {
      FilterAll(p, s[1..]);
    } else {
      FilterDropsOne(p, s[1..], k - 1);
    }
  }
}
