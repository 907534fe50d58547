/** Recall@K of a ranked list of predicted URLs against a list of relevant
    URLs, computed as an exact ratio of naturals. */
module Recall {
  import opened Seqs

  /** URLs are compared as strings. */
  type Url = string

  /** Number of entries of `top` that occur in `relevant`, counting every
      occurrence: a relevant URL listed twice is a hit twice. */
  function Hits(top: seq<Url>, relevant: seq<Url>): (n: nat)
    ensures n <= |top|
    decreases |top|
  {
    if |top| == 0 then 0
    else Hits(top[..|top| - 1], relevant) + (if top[|top| - 1] in relevant then 1 else 0)
  }

  /** Recall@K: the hits among the first `k` predictions divided by the number
      of relevant entries, and 0 when there is no relevant entry. */
  function RecallAtK(predicted: seq<Url>, relevant: seq<Url>, k: int): (r: real)
    ensures |relevant| == 0 ==> r == 0.0
    ensures |relevant| > 0 ==> r * |relevant| as real == Hits(Prefix(predicted, k), relevant) as real
    ensures r >= 0.0
  {
    if |relevant| == 0 then 0.0
    else Hits(Prefix(predicted, k), relevant) as real / |relevant| as real
  }

  /** No hit exactly when no entry is relevant; all hits exactly when every
      entry is. */
  lemma {:induction false} HitsExtremes(top: seq<Url>, relevant: seq<Url>)
    ensures Hits(top, relevant) == 0 <==> forall i :: 0 <= i < |top| ==> top[i] !in relevant
    ensures Hits(top, relevant) == |top| <==> forall i :: 0 <= i < |top| ==> top[i] in relevant
    decreases |top|
  {
    if |top| > 0 {
      var init := top[..|top| - 1];
      HitsExtremes(init, relevant);
      assert forall i :: 0 <= i < |init| ==> init[i] == top[i];
    }
  }

  /** Recall@K is 0 exactly when there is no relevant entry or none of the
      first `k` predictions is relevant. */
  lemma RecallZeroIff(predicted: seq<Url>, relevant: seq<Url>, k: int)
    ensures var top := Prefix(predicted, k);
      RecallAtK(predicted, relevant, k) == 0.0 <==>
        |relevant| == 0 || forall i :: 0 <= i < |top| ==> top[i] !in relevant
  {
    HitsExtremes(Prefix(predicted, k), relevant);
  }

  /** Hits are additive over concatenation. */
  lemma {:induction false} HitsAppend(a: seq<Url>, b: seq<Url>, relevant: seq<Url>)
    ensures Hits(a + b, relevant) == Hits(a, relevant) + Hits(b, relevant)
    decreases |b|
  {
    if |b| == 0 {
      assert a + b == a;
    } else {
      var b' := b[..|b| - 1];
      HitsAppend(a, b', relevant);
      assert (a + b)[..|a + b| - 1] == a + b';
      assert (a + b)[|a + b| - 1] == b[|b| - 1];
    }
  }

  /** Against a single relevant URL, the hits are the multiplicity of that URL. */
  lemma {:induction false} HitsSingle(top: seq<Url>, u: Url)
    ensures Hits(top, [u]) == multiset(top)[u]
    decreases |top|
  {
    if |top| > 0 {
      var init := top[..|top| - 1];
      HitsSingle(init, u);
      assert top == init + [top[|top| - 1]];
      assert multiset(top) == multiset(init) + multiset{top[|top| - 1]};
    }
  }

  /** On a list without repetitions, the hits are the relevant elements it holds. */
  lemma {:induction false} HitsDistinct(top: seq<Url>, relevant: seq<Url>)
    requires Distinct(top)
    ensures Hits(top, relevant) == |Elems(top) * Elems(relevant)|
    decreases |top|
  {
    if |top| == 0 {
      assert Elems(top) * Elems(relevant) == {};
    } else {
      var init := top[..|top| - 1];
      var x := top[|top| - 1];
      assert top == init + [x];
      assert Distinct(init);
      assert x !in init by {
        forall i | 0 <= i < |init|
          ensures init[i] != x
        {
          assert init[i] == top[i];
        }
      }
      HitsDistinct(init, relevant);
      CommonSnoc(init, x, Elems(relevant));
    }
  }

  /** Appending an element new to `init` adds it to the common elements with
      `r` exactly when it is in `r`. */
  lemma CommonSnoc(init: seq<Url>, x: Url, r: set<Url>)
    requires x !in init
    ensures |Elems(init + [x]) * r| == |Elems(init) * r| + (if x in r then 1 else 0)
  {
    var common := Elems(init) * r;
    assert Elems(init + [x]) == Elems(init) + {x};
    if x in r {
      assert Elems(init + [x]) * r == common + {x};
    } else {
      assert Elems(init + [x]) * r == common;
    }
  }

  lemma SubsetCard(a: set, b: set)
    requires a <= b
    ensures |a| <= |b|
  {
    assert b == a + (b - a);
  }

  /** An empty relevant list scores exactly 0, whatever the predictions and `k`. */
  lemma EmptyRelevantScoresZero(predicted: seq<Url>, k: int)
    ensures RecallAtK(predicted, [], k) == 0.0
  {
  }

  /** Only the first `k` predictions matter: predictions at index `k` or later
      can be changed, added or dropped freely. */
  lemma RecallIgnoresTail(p: seq<Url>, q: seq<Url>, relevant: seq<Url>, k: int)
    requires 0 <= k
    requires forall i: nat :: i < k ==> AgreeAt(p, q, i)
    ensures RecallAtK(p, relevant, k) == RecallAtK(q, relevant, k)
  {
    PrefixIgnoresTail(p, q, k);
  }

  /** A cut-off at or beyond the list length is no cut-off. */
  lemma RecallSaturates(p: seq<Url>, relevant: seq<Url>, k: int)
    requires k >= |p|
    ensures RecallAtK(p, relevant, k) == RecallAtK(p, relevant, |p|)
  {
  }

  /** Recall never decreases as the cut-off grows, for non-negative cut-offs. */
  lemma RecallMonotone(p: seq<Url>, relevant: seq<Url>, k1: int, k2: int)
    requires SameSideBounds(k1, k2)
    ensures RecallAtK(p, relevant, k1) <= RecallAtK(p, relevant, k2)
  {
    if |relevant| > 0 {
      var a := Prefix(p, k1);
      var b := Prefix(p, k2);
      PrefixMonotone(p, k1, k2);
      assert b == a + b[|a|..];
      HitsAppend(a, b[|a|..], relevant);
      DivMonotone(Hits(a, relevant) as real, Hits(b, relevant) as real, |relevant| as real);
    }
  }

  /** Dividing by a positive number keeps the order. */
  lemma DivMonotone(a: real, b: real, n: real)
    requires n > 0.0
    requires a <= b
    ensures a / n <= b / n
  {
  }

  lemma RatioAtMostOne(x: nat, d: nat)
    requires x <= d && d > 0
    ensures x as real / d as real <= 1.0
  {
    assert x as real <= d as real;
  }

  /** With one relevant URL, Recall@K is how many times that URL occurs in the
      first `k` predictions; a repeated URL is counted again, so the value can
      exceed 1. */
  lemma RecallSingleRelevant(p: seq<Url>, u: Url, k: int)
    ensures RecallAtK(p, [u], k) == multiset(Prefix(p, k))[u] as real
  {
    HitsSingle(Prefix(p, k), u);
  }

  /** The cut-off decides: "B" ranked second is found in the top two but not
      in the top one. */
  lemma CutOffExamples()
    ensures RecallAtK(["A", "B", "C"], ["B"], 2) == 1.0
    ensures RecallAtK(["A", "B", "C"], ["B"], 1) == 0.0
  {
    RecallSingleRelevant(["A", "B", "C"], "B", 2);
    RecallSingleRelevant(["A", "B", "C"], "B", 1);
    assert Prefix(["A", "B", "C"], 2) == ["A", "B"];
    assert Prefix(["A", "B", "C"], 1) == ["A"];
    assert multiset(["A", "B"])["B"] == 1;
    assert multiset(["A"])["B"] == 0;
  }

  /** For a cut-off without repeated URLs, Recall@K is the number of distinct
      relevant URLs found in the top `k` over the length of the relevant list,
      the reading of the metric in the function's docstring. */
  lemma RecallDistinctFormula(p: seq<Url>, relevant: seq<Url>, k: int)
    requires Distinct(Prefix(p, k))
    requires |relevant| > 0
    ensures RecallAtK(p, relevant, k) == |Elems(Prefix(p, k)) * Elems(relevant)| as real / |relevant| as real
  {
    HitsDistinct(Prefix(p, k), relevant);
  }

  /** Across zero the cut-off is not monotone: `p[:-1]` keeps "A" while
      `p[:0]` keeps nothing. */
  lemma NegativeCutOffExample()
    ensures RecallAtK(["A", "B"], ["A"], -1) == 1.0
    ensures RecallAtK(["A", "B"], ["A"], 0) == 0.0
  {
    RecallSingleRelevant(["A", "B"], "A", -1);
    assert Prefix(["A", "B"], -1) == ["A"];
    assert multiset(["A"])["A"] == 1;
  }

  /** A relevant URL listed twice within the cut-off scores 2. */
  lemma DuplicateOverCounts()
    ensures RecallAtK(["A", "A"], ["A"], 2) == 2.0
  {
    RecallSingleRelevant(["A", "A"], "A", 2);
    assert Prefix(["A", "A"], 2) == ["A", "A"];
    assert multiset(["A", "A"])["A"] == 2;
  }

  /** A list without repetitions has no more hits than there are relevant entries. */
  lemma DistinctHitsBound(top: seq<Url>, relevant: seq<Url>)
    requires Distinct(top)
    ensures Hits(top, relevant) <= |relevant|
  {
    HitsDistinct(top, relevant);
    SubsetCard(Elems(top) * Elems(relevant), Elems(relevant));
    ElemsCard(relevant);
  }

  /** When the first `k` predictions hold no repetition, Recall@K is a
      fraction in [0, 1]. */
  lemma RecallBoundedWhenDistinct(p: seq<Url>, relevant: seq<Url>, k: int)
    requires Distinct(Prefix(p, k))
    ensures 0.0 <= RecallAtK(p, relevant, k) <= 1.0
  {
    if |relevant| > 0 {
      var top := Prefix(p, k);
      DistinctHitsBound(top, relevant);
      RatioAtMostOne(Hits(top, relevant), |relevant|);
    }
  }
}
