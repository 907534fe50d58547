/** Sequence operations of Python and JavaScript lists that the scripts rely on:
    prefix slicing, filtering, subsequences and distinctness. */
module Seqs {

  /** End index of the slice `s[:k]` (Python) or `s.slice(0, k)` (JavaScript)
      on a list of length `n`: a negative bound counts back from the end,
      and the index is clamped to `[0, n]`. */
  function SliceEnd(n: nat, k: int): nat
  {
    if k < 0 then (if n + k < 0 then 0 else n + k)
    else if k < n then k else n
  }

  /** The slice `s[:k]`. */
  function Prefix<T>(s: seq<T>, k: int): (r: seq<T>)
    ensures r <= s
    ensures 0 <= k ==> |r| == (if k < |s| then k else |s|)
    ensures k < 0 ==> |r| == (if |s| + k < 0 then 0 else |s| + k)
  {
    s[..SliceEnd(|s|, k)]
  }

  /** `k1 <= k2` with both bounds counted from the same end: both from the
      front or both from the back. A negative `k1` with a non-negative `k2`
      is excluded, since `s[:-1]` can be longer than `s[:0]`. */
  predicate SameSideBounds(k1: int, k2: int)
  {
    k1 <= k2 && (0 <= k1 || k2 < 0)
  }

  /** A larger bound on the same side never yields a shorter slice: the slice
      for `k1` is a prefix of the slice for `k2`. */
  lemma PrefixMonotone<T>(s: seq<T>, k1: int, k2: int)
    requires SameSideBounds(k1, k2)
    ensures Prefix(s, k1) <= Prefix(s, k2)
  {
  }


  /** `s` and `t` agree at position `i`: both end before it, or both have
      the same element there. */
  ghost predicate AgreeAt<T>(s: seq<T>, t: seq<T>, i: nat)
  {
    (i < |s| <==> i < |t|) && (i < |s| ==> s[i] == t[i])
  }

  /** Only the first `k` positions are read by the slice `s[:k]`: two lists
      that agree there have the same slice, whatever follows. */
  lemma PrefixIgnoresTail<T>(s: seq<T>, t: seq<T>, k: int)
    requires 0 <= k
    requires forall i: nat :: i < k ==> AgreeAt(s, t, i)
    ensures Prefix(s, k) == Prefix(t, k)
  {
    if |s| < k {
      assert AgreeAt(s, t, |s|);
    }
    if |t| < k {
      assert AgreeAt(s, t, |t|);
    }
    assert |Prefix(s, k)| == |Prefix(t, k)|;
    forall i | 0 <= i < |Prefix(s, k)|
      ensures Prefix(s, k)[i] == Prefix(t, k)[i]
    {
      assert AgreeAt(s, t, i);
    }
  }

  /** The elements of `s` that satisfy `p`, in their original order
      (Python's comprehension with `if`, JavaScript's `Array.filter`). */
  function Filter<T>(s: seq<T>, p: T -> bool): (r: seq<T>)
    ensures |r| <= |s|
    ensures forall i :: 0 <= i < |r| ==> p(r[i]) && r[i] in s
    ensures forall i :: 0 <= i < |s| && p(s[i]) ==> s[i] in r
  {
    if |s| == 0 then []
    else (if p(s[0]) then [s[0]] else []) + Filter(s[1..], p)
  }

  /** A filter that every element passes changes nothing. */
  lemma {:induction false} FilterKeepsAll<T>(s: seq<T>, p: T -> bool)
    requires forall i :: 0 <= i < |s| ==> p(s[i])
    ensures Filter(s, p) == s
    decreases |s|
  {
    if |s| > 0 {
      FilterKeepsAll(s[1..], p);
    }
  }

  /** `a` is obtained from `b` by deleting zero or more elements. */
  predicate IsSubsequence<T(==)>(a: seq<T>, b: seq<T>)
    decreases |b|
  {
    if |b| == 0 then |a| == 0
    else IsSubsequence(a, b[1..]) || (|a| > 0 && a[0] == b[0] && IsSubsequence(a[1..], b[1..]))
  }

  /** The result of a filter is a subsequence of its input. */
  lemma {:induction false} FilterIsSubsequence<T>(s: seq<T>, p: T -> bool)
    ensures IsSubsequence(Filter(s, p), s)
    decreases |s|
  {
    if |s| > 0 {
      FilterIsSubsequence(s[1..], p);
      var r := Filter(s, p);
      if p(s[0]) {
        assert r == [s[0]] + Filter(s[1..], p);
        assert r[0] == s[0] && r[1..] == Filter(s[1..], p);
      } else {
        assert r == Filter(s[1..], p);
        assert IsSubsequence(r, s[1..]);
      }
    }
  }

  /** Filtering by `p` and then by `q` is filtering once by their conjunction. */
  lemma {:induction false} FilterFuse<T>(s: seq<T>, p: T -> bool, q: T -> bool, pq: T -> bool)
    requires forall x :: pq(x) == (p(x) && q(x))
    ensures Filter(Filter(s, p), q) == Filter(s, pq)
    decreases |s|
  {
    if |s| > 0 {
      FilterFuse(s[1..], p, q, pq);
      var head := if p(s[0]) then [s[0]] else [];
      FilterAppend(head, Filter(s[1..], p), q);
    }
  }

  /** Filters by pointwise equal tests agree. */
  lemma {:induction false} FilterExt<T>(s: seq<T>, p: T -> bool, q: T -> bool)
    requires forall x :: p(x) == q(x)
    ensures Filter(s, p) == Filter(s, q)
    decreases |s|
  {
    if |s| > 0 {
      FilterExt(s[1..], p, q);
    }
  }

  /** Filtering distributes over concatenation. */
  lemma {:induction false} FilterAppend<T>(a: seq<T>, b: seq<T>, p: T -> bool)
    ensures Filter(a + b, p) == Filter(a, p) + Filter(b, p)
    decreases |a|
  {
    if |a| > 0 {
      FilterAppend(a[1..], b, p);
      var head := if p(a[0]) then [a[0]] else [];
      assert (a + b)[0] == a[0];
      assert (a + b)[1..] == a[1..] + b;
      assert Filter(a + b, p) == head + Filter(a[1..] + b, p);
      assert Filter(a, p) == head + Filter(a[1..], p);
    } else {
      assert a + b == b;
    }
  }

  /** No element occurs twice. */
  predicate Distinct<T(==)>(s: seq<T>)
  {
    forall i, j :: 0 <= i < j < |s| ==> s[i] != s[j]
  }

  /** Filtering a list without repetitions leaves none. */
  lemma {:induction false} FilterDistinct<T>(s: seq<T>, p: T -> bool)
    requires Distinct(s)
    ensures Distinct(Filter(s, p))
    decreases |s|
  {
    if |s| > 0 {
      FilterDistinct(s[1..], p);
      var rest := Filter(s[1..], p);
      assert s[0] !in s[1..];
      assert s[0] !in rest;
    }
  }

  /** The empty list is a subsequence of every list. */
  lemma {:induction false} EmptySubsequence<T>(b: seq<T>)
    ensures IsSubsequence([], b)
    decreases |b|
  {
    if |b| > 0 {
      EmptySubsequence(b[1..]);
    }
  }

  /** A prefix of a subsequence of `c` is a subsequence of `c`. */
  lemma {:induction false} PrefixOfSubsequence<T>(a: seq<T>, b: seq<T>, c: seq<T>)
    requires a <= b
    requires IsSubsequence(b, c)
    ensures IsSubsequence(a, c)
    decreases |c|
  {
    if |a| == 0 {
      EmptySubsequence(c);
    } else if IsSubsequence(b, c[1..]) {
      PrefixOfSubsequence(a, b, c[1..]);
    } else {
      PrefixOfSubsequence(a[1..], b[1..], c[1..]);
    }
  }

  /** The set of elements of `s`. */
  function Elems<T>(s: seq<T>): set<T>
  {
    set x | x in s
  }

  lemma {:induction false} ElemsCard<T>(s: seq<T>)
    ensures |Elems(s)| <= |s|
    decreases |s|
  {
    if |s| > 0 {
      ElemsCard(s[..|s| - 1]);
      assert Elems(s) == Elems(s[..|s| - 1]) + {s[|s| - 1]};
    }
  }
}
