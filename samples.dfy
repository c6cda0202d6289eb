/**
 * Labels of the samples a criterion looks at, and the per-class counts of a
 * window of sample indices.
 *
 * A classification label is a `double` whose class is obtained with
 * `static_cast<long>`, i.e. by truncation toward zero.
 */
module Samples {
  import opened Counting
  import opened Impurity

  /** `static_cast<long>(y)`. */
  function ClassOf(y: real): int
  {
    if y >= 0.0 then y.Floor else -((-y).Floor)
  }

  /** The cast truncates toward zero: it drops the fractional part of a
      non-negative label and rounds a negative one up. */
  lemma ClassOfTruncates(y: real)
    ensures y >= 0.0 ==> ClassOf(y) as real <= y < ClassOf(y) as real + 1.0
    ensures y < 0.0 ==> ClassOf(y) as real - 1.0 < y <= ClassOf(y) as real
  {
  }

  /** Every index of `ids` selects a label, and that label's class is one of
      the `K` classes. The source indexes its count vectors with the class
      unchecked, so callers must guarantee this. */
  predicate Labelled(ids: seq<int>, labels: seq<real>, K: nat)
  {
    forall i :: 0 <= i < |ids| ==> 0 <= ids[i] < |labels| && 0 <= ClassOf(labels[ids[i]]) < K
  }

  /** The sample `id` has a label of class `k`. */
  function IsClass(labels: seq<real>, k: int): int -> bool
  {
    id => 0 <= id < |labels| && ClassOf(labels[id]) == k
  }

  /** Per-class counts of the samples `ids`, built one sample at a time as the
      counting loops do. A sample whose class is out of range is not counted;
      the criteria never see one, since they require `Labelled`. */
  function ClassCounts(ids: seq<int>, labels: seq<real>, K: nat): (c: seq<int>)
    ensures |c| == K
  {
    if |ids| == 0 then Zeros(K)
    else
      var c := ClassCounts(ids[..|ids| - 1], labels, K);
      var id := ids[|ids| - 1];
      if 0 <= id < |labels| && 0 <= ClassOf(labels[id]) < K then
        var k := ClassOf(labels[id]);
        c[k := c[k] + 1]
      else c
  }

  /** Counting the sample at `pos` of a window adds one to its class. */
  lemma ClassCountsStep(q: seq<int>, s: int, pos: int, labels: seq<real>, K: nat)
    requires 0 <= s <= pos < |q| && 0 <= q[pos] < |labels| && 0 <= ClassOf(labels[q[pos]]) < K
    ensures var c, k := ClassCounts(q[s..pos], labels, K), ClassOf(labels[q[pos]]);
      ClassCounts(q[s..pos + 1], labels, K) == c[k := c[k] + 1]
  {
    assert q[s..pos + 1][..pos - s] == q[s..pos];
  }

  lemma LabelledSplit(a: seq<int>, b: seq<int>, labels: seq<real>, K: nat)
    requires Labelled(a + b, labels, K)
    ensures Labelled(a, labels, K) && Labelled(b, labels, K)
  {
    assert forall i :: 0 <= i < |a| ==> a[i] == (a + b)[i];
    assert forall i :: 0 <= i < |b| ==> b[i] == (a + b)[|a| + i];
  }

  /** Entry `k` of the counts is the number of samples of class `k`. */
  lemma {:induction false} ClassCountsCount(ids: seq<int>, labels: seq<real>, K: nat, k: int)
    requires 0 <= k < K
    ensures ClassCounts(ids, labels, K)[k] == Count(ids, IsClass(labels, k))
  {
    if |ids| > 0 {
      ClassCountsCount(ids[..|ids| - 1], labels, K, k);
    }
  }

  /** The counts depend only on the multiset of the samples, so reordering a
      window leaves them unchanged. */
  lemma ClassCountsPermutation(a: seq<int>, b: seq<int>, labels: seq<real>, K: nat)
    requires multiset(a) == multiset(b)
    ensures ClassCounts(a, labels, K) == ClassCounts(b, labels, K)
  {
    forall k | 0 <= k < K
      ensures ClassCounts(a, labels, K)[k] == ClassCounts(b, labels, K)[k]
    {
      ClassCountsCount(a, labels, K, k);
      ClassCountsCount(b, labels, K, k);
      CountPermutation(a, b, IsClass(labels, k));
    }
  }

  /** The counts of a concatenation are the elementwise sum of the counts. */
  lemma ClassCountsAppend(a: seq<int>, b: seq<int>, labels: seq<real>, K: nat)
    ensures SplitOf(ClassCounts(a + b, labels, K), ClassCounts(a, labels, K), ClassCounts(b, labels, K))
  {
    forall k | 0 <= k < K
      ensures ClassCounts(a + b, labels, K)[k] == ClassCounts(a, labels, K)[k] + ClassCounts(b, labels, K)[k]
    {
      ClassCountsCount(a + b, labels, K, k);
      ClassCountsCount(a, labels, K, k);
      ClassCountsCount(b, labels, K, k);
      CountAppend(a, b, IsClass(labels, k));
    }
  }

  /** The counts add up to the number of samples. */
  lemma {:induction false} ClassCountsSum(ids: seq<int>, labels: seq<real>, K: nat)
    requires Labelled(ids, labels, K)
    ensures Sum(ClassCounts(ids, labels, K)) == |ids|
  {
    if |ids| == 0 {
      SumZeros(K);
    } else {
      var m := |ids| - 1;
      ClassCountsSum(ids[..m], labels, K);
      SumUpdate(ClassCounts(ids[..m], labels, K), ClassOf(labels[ids[m]]), 1);
    }
  }

  lemma {:induction false} ClassCountsNonNegative(ids: seq<int>, labels: seq<real>, K: nat)
    ensures NonNegative(ClassCounts(ids, labels, K))
  {
    if |ids| > 0 {
      ClassCountsNonNegative(ids[..|ids| - 1], labels, K);
    }
  }

  /** The elementwise difference `t - l`. */
  function Minus(t: seq<int>, l: seq<int>): (r: seq<int>)
    requires |l| == |t|
    ensures SplitOf(t, l, r)
  {
    seq(|t|, k requires 0 <= k < |t| => t[k] - l[k])
  }

  /** The remainder of a split is determined by the whole and the other part. */
  lemma SplitUnique(t: seq<int>, l: seq<int>, r: seq<int>, r': seq<int>)
    requires SplitOf(t, l, r) && SplitOf(t, l, r')
    ensures r == r'
  {
  }
}
