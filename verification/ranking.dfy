/** Top-k ranking of `retrieve_documents` (chatbot/utils.py, and its copy in
    app.py): `sims.argsort()[-top_k:][::-1]`, then the chunks at those
    positions. The similarity scores are given (their floating-point
    computation is not modelled), and so is the ascending order `argsort`
    returns: numpy's default sort is not stable, so among equal scores the
    model leaves the order open and only constrains `order` by `IsArgsort`. */
module Ranking {
  import opened Strings

  /** `order` lists positions so that their scores never decrease. */
  predicate Ascending(scores: seq<int>, order: seq<int>)
    requires forall k :: 0 <= k < |order| ==> 0 <= order[k] < |scores|
  {
    forall k, l :: 0 <= k < l < |order| ==> scores[order[k]] <= scores[order[l]]
  }

  predicate Distinct(s: seq<int>)
  {
    forall k, l :: 0 <= k < l < |s| ==> s[k] != s[l]
  }

  predicate InRange(s: seq<int>, n: int)
  {
    forall k :: 0 <= k < |s| ==> 0 <= s[k] < n
  }

  /** `order` is a possible result of `scores.argsort()`: a permutation of the
      positions 0..|scores|-1 listing the scores in non-decreasing order. */
  predicate IsArgsort(scores: seq<int>, order: seq<int>)
  {
    && |order| == |scores|
    && InRange(order, |scores|)
    && Distinct(order)
    && (forall j :: 0 <= j < |scores| ==> j in order)
    && Ascending(scores, order)
  }

  /** `argsort()[-top_k:][::-1]`: the last `topK` positions of the ascending
      order (a Python slice, so `topK = 0` keeps all of them), highest first. */
  function TopIndices(order: seq<int>, topK: int): (idx: seq<int>)
    ensures |idx| == ResultCount(|order|, topK)
    ensures forall k :: 0 <= k < |idx| ==> idx[k] == order[|order| - 1 - k]
  {
    var top := Slice(order, -topK, |order|);
    assert top == order[SliceBound(-topK, |order|)..];
    Reverse(top)
  }

  /** How many chunks `[-top_k:]` keeps out of `n`: min(top_k, n) for a
      positive `top_k`; all `n` for `top_k = 0`, because `-0` is `0`; and
      `n + top_k` (at least 0) for a negative one, which drops the lowest. */
  function ResultCount(n: nat, topK: int): nat
  {
    if topK >= 1 then Min(topK, n)
    else if topK == 0 then n
    else Max(0, n + topK)
  }

  /** `retrieve_documents` over given similarity scores. */
  function Retrieve(scores: seq<int>, chunks: seq<string>, order: seq<int>, topK: int): (r: seq<string>)
    requires |chunks| == |scores| && IsArgsort(scores, order)
    ensures |r| == |TopIndices(order, topK)| == ResultCount(|chunks|, topK)
    ensures forall k :: 0 <= k < |r| ==> r[k] == chunks[TopIndices(order, topK)[k]]
  {
    var idx := TopIndices(order, topK);
    TopIndicesSpec(scores, order, topK);
    seq(|idx|, k requires 0 <= k < |idx| => chunks[idx[k]])
  }

  /** The positions `retrieve_documents` picks are distinct, in range and
      in non-increasing score order. */
  lemma TopIndicesOrdered(scores: seq<int>, order: seq<int>, topK: int)
    requires IsArgsort(scores, order)
    ensures var idx := TopIndices(order, topK);
            && InRange(idx, |scores|)
            && Distinct(idx)
            && (forall k, l :: 0 <= k < l < |idx| ==> scores[idx[k]] >= scores[idx[l]])
  {
    TopInRange(order, |scores|, topK);
    TopDistinct(order, topK);
    TopDescending(scores, order, topK);
  }

  lemma TopInRange(order: seq<int>, n: int, topK: int)
    requires InRange(order, n)
    ensures InRange(TopIndices(order, topK), n)
  {
    var idx := TopIndices(order, topK);
    forall k | 0 <= k < |idx|
      ensures 0 <= idx[k] < n
    {
      assert idx[k] == order[|order| - 1 - k];
    }
  }

  lemma TopDistinct(order: seq<int>, topK: int)
    requires Distinct(order)
    ensures Distinct(TopIndices(order, topK))
  {
    var idx := TopIndices(order, topK);
    forall k, l | 0 <= k < l < |idx|
      ensures idx[k] != idx[l]
    {
      assert idx[k] == order[|order| - 1 - k] && idx[l] == order[|order| - 1 - l];
    }
  }

  lemma TopDescending(scores: seq<int>, order: seq<int>, topK: int)
    requires InRange(order, |scores|) && Ascending(scores, order)
    ensures var idx := TopIndices(order, topK);
            && InRange(idx, |scores|)
            && forall k, l :: 0 <= k < l < |idx| ==> scores[idx[k]] >= scores[idx[l]]
  {
    var idx := TopIndices(order, topK);
    TopInRange(order, |scores|, topK);
    forall k, l | 0 <= k < l < |idx|
      ensures scores[idx[k]] >= scores[idx[l]]
    {
      assert idx[k] == order[|order| - 1 - k] && idx[l] == order[|order| - 1 - l];
    }
  }

  /** Every position `retrieve_documents` picks scores at least as high as
      every position it leaves out. */
  lemma TopIndicesDominate(scores: seq<int>, order: seq<int>, topK: int, j: int)
    requires IsArgsort(scores, order)
    requires 0 <= j < |scores| && j !in TopIndices(order, topK)
    ensures forall k :: 0 <= k < |TopIndices(order, topK)| ==>
              scores[TopIndices(order, topK)[k]] >= scores[j]
  {
    assert InRange(order, |scores|) && |order| == |scores|;
    var n := |order|;
    var idx := TopIndices(order, topK);
    assert j in order;
    var p :| 0 <= p < n && order[p] == j;
    forall q | n - |idx| <= q < n
      ensures order[q] in idx
    {
      assert idx[n - 1 - q] == order[q];
    }
    assert p < n - |idx|;
    forall k | 0 <= k < |idx|
      ensures scores[idx[k]] >= scores[j]
    {
      assert idx[k] == order[n - 1 - k] && p < n - 1 - k;
      assert scores[order[p]] <= scores[order[n - 1 - k]];
    }
  }

  /** The positions `retrieve_documents` picks: there are `ResultCount` of
      them, all distinct and in range, in non-increasing score order, and
      each scores at least as high as every position left out. */
  lemma TopIndicesSpec(scores: seq<int>, order: seq<int>, topK: int)
    requires IsArgsort(scores, order)
    ensures var idx := TopIndices(order, topK);
            && |idx| == ResultCount(|scores|, topK)
            && InRange(idx, |scores|)
            && Distinct(idx)
            && (forall k, l :: 0 <= k < l < |idx| ==> scores[idx[k]] >= scores[idx[l]])
            && (forall k, j :: 0 <= k < |idx| && 0 <= j < |scores| && j !in idx ==>
                  scores[idx[k]] >= scores[j])
  {
    var idx := TopIndices(order, topK);
    TopIndicesOrdered(scores, order, topK);
    forall k, j | 0 <= k < |idx| && 0 <= j < |scores| && j !in idx
      ensures scores[idx[k]] >= scores[j]
    {
      TopIndicesDominate(scores, order, topK, j);
    }
  }

  /** Ties are ordered by `argsort`, which is not stable: the same scores
      admit two ascending orders that make `retrieve_documents` return
      different chunks. */
  lemma TieOrderUnspecified()
    ensures IsArgsort([7, 7], [0, 1]) && IsArgsort([7, 7], [1, 0])
    ensures Retrieve([7, 7], ["a", "b"], [0, 1], 1) == ["b"]
    ensures Retrieve([7, 7], ["a", "b"], [1, 0], 1) == ["a"]
  {
    TiedOrder([0, 1]);
    TiedOrder([1, 0]);
  }

  /** Either order of two tied scores is an argsort, and keeping one position
      keeps the chunk at its last entry. */
  lemma TiedOrder(order: seq<int>)
    requires order == [0, 1] || order == [1, 0]
    ensures IsArgsort([7, 7], order)
    ensures Retrieve([7, 7], ["a", "b"], order, 1) == [["a", "b"][order[1]]]
  {
    assert 0 in order && 1 in order;
    var r := Retrieve([7, 7], ["a", "b"], order, 1);
    assert |r| == 1 && TopIndices(order, 1)[0] == order[1];
  }

  /** Inserting position `j` after every position whose score is not above its own. */
  function Insert(scores: seq<int>, order: seq<int>, j: int): (r: seq<int>)
    requires 0 <= j < |scores| && InRange(order, |scores|)
    ensures |r| == |order| + 1
    ensures forall k :: 0 <= k < |r| ==> r[k] == j || r[k] in order
    ensures j in r && forall x :: x in order ==> x in r
  {
    if |order| == 0 then [j]
    else if scores[j] < scores[order[0]] then [j] + order
    else [order[0]] + Insert(scores, order[1..], j)
  }

  lemma {:induction false} InsertAscending(scores: seq<int>, order: seq<int>, j: int)
    requires 0 <= j < |scores| && InRange(order, |scores|)
    requires Ascending(scores, order)
    ensures InRange(Insert(scores, order, j), |scores|)
    ensures Ascending(scores, Insert(scores, order, j))
  {
    if |order| > 0 && scores[j] >= scores[order[0]] {
      var rest := Insert(scores, order[1..], j);
      InsertAscending(scores, order[1..], j);
      forall l | 0 <= l < |rest|
        ensures scores[order[0]] <= scores[rest[l]]
      {
        if rest[l] != j {
          var m :| 0 <= m < |order[1..]| && order[1..][m] == rest[l];
          assert order[m + 1] == rest[l];
        }
      }
    }
  }

  lemma {:induction false} InsertDistinct(scores: seq<int>, order: seq<int>, j: int)
    requires 0 <= j < |scores| && InRange(order, |scores|)
    requires Distinct(order) && j !in order
    ensures Distinct(Insert(scores, order, j))
  {
    if |order| > 0 && scores[j] >= scores[order[0]] {
      var rest := Insert(scores, order[1..], j);
      InsertDistinct(scores, order[1..], j);
      forall l | 0 <= l < |rest|
        ensures rest[l] != order[0]
      {
        if rest[l] != j {
          var m :| 0 <= m < |order[1..]| && order[1..][m] == rest[l];
          assert order[m + 1] == rest[l];
        }
      }
    }
  }

  /** One possible result of `scores.argsort()`: an insertion sort. Its
      existence shows that `IsArgsort` rules out no score sequence. */
  method Argsort(scores: seq<int>) returns (order: seq<int>)
    ensures IsArgsort(scores, order)
  {
    order := [];
    var j := 0;
    while j < |scores|
      invariant 0 <= j <= |scores|
      invariant |order| == j
      invariant InRange(order, j)
      invariant Distinct(order)
      invariant forall x :: 0 <= x < j ==> x in order
      invariant Ascending(scores, order)
    {
      var next := Insert(scores, order, j);
      InsertAscending(scores, order, j);
      InsertDistinct(scores, order, j);
      order, j := next, j + 1;
    }
  }
}
