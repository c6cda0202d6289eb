/**
 * The regression criterion: the base criterion's sample bookkeeping over a
 * window `[start, end)` of the shared sample-index array, together with the
 * running sums and sums of squares of the labels of the window, of its left
 * part `[start, cursor)` and of its right part `[cursor, end)`, and the means
 * and variances derived from them.
 */
module RegressionCriteria {
  import opened Impurity

  /** The label of sample `id`; an index outside the label vector
      contributes 0 (the criterion never sees one). */
  function Label(labels: seq<real>, id: int): real
  {
    if 0 <= id < |labels| then labels[id] else 0.0
  }

  /** Sum of the labels of the samples `ids`, accumulated from the front. */
  function LabelSum(ids: seq<int>, labels: seq<real>): real
  {
    if |ids| == 0 then 0.0 else LabelSum(ids[..|ids| - 1], labels) + Label(labels, ids[|ids| - 1])
  }

  /** Sum of the squared labels of the samples `ids`. */
  function SquareSum(ids: seq<int>, labels: seq<real>): real
  {
    if |ids| == 0 then 0.0
    else
      var y := Label(labels, ids[|ids| - 1]);
      SquareSum(ids[..|ids| - 1], labels) + y * y
  }

  /** `sum / static_cast<double>(count)`. */
  function Quotient(sum: real, count: int): real
    requires count != 0
  {
    sum / count as real
  }

  /** `sqSum / static_cast<double>(count) - mean * mean`. */
  function Spread(sqSum: real, count: int, mean: real): real
    requires count != 0
  {
    Quotient(sqSum, count) - mean * mean
  }

  function Mean(ids: seq<int>, labels: seq<real>): real
    requires |ids| > 0
  {
    Quotient(LabelSum(ids, labels), |ids|)
  }

  /** The population variance `Q/n - (S/n)^2`. */
  function Variance(ids: seq<int>, labels: seq<real>): real
    requires |ids| > 0
  {
    Spread(SquareSum(ids, labels), |ids|, Mean(ids, labels))
  }

  /** Every index of `ids` selects a label. */
  predicate Indexed(ids: seq<int>, labels: seq<real>)
  {
    forall i :: 0 <= i < |ids| ==> 0 <= ids[i] < |labels|
  }

  /** Growing a prefix of `w` by one sample adds its label `y` to the sum
      and `y * y` to the sum of squares. */
  lemma SumsStep(w: seq<int>, k: int, labels: seq<real>, y: real)
    requires 0 <= k < |w| && y == Label(labels, w[k])
    ensures LabelSum(w[..k + 1], labels) == LabelSum(w[..k], labels) + y
    ensures SquareSum(w[..k + 1], labels) == SquareSum(w[..k], labels) + y * y
  {
    assert w[..k + 1][..k] == w[..k];
  }

  lemma {:induction false} SumsAppend(a: seq<int>, b: seq<int>, labels: seq<real>)
    ensures LabelSum(a + b, labels) == LabelSum(a, labels) + LabelSum(b, labels)
    ensures SquareSum(a + b, labels) == SquareSum(a, labels) + SquareSum(b, labels)
  {
    if |b| == 0 {
      assert a + b == a;
    } else {
      assert (a + b)[..|a + b| - 1] == a + b[..|b| - 1];
      SumsAppend(a, b[..|b| - 1], labels);
    }
  }

  /** Sums over a window split at `k`: what the left part does not hold,
      the right part does. */
  lemma SplitSums(w: seq<int>, k: int, labels: seq<real>, sl: real, sr: real, ql: real, qr: real)
    requires 0 <= k <= |w|
    requires sl == LabelSum(w[..k], labels) && ql == SquareSum(w[..k], labels)
    requires sl + sr == LabelSum(w, labels) && ql + qr == SquareSum(w, labels)
    ensures sr == LabelSum(w[k..], labels) && qr == SquareSum(w[k..], labels)
  {
    assert w == w[..k] + w[k..];
    SumsAppend(w[..k], w[k..], labels);
  }

  /** `n * sum y^2 >= (sum y)^2` (Cauchy-Schwarz), and the sum of squares is
      non-negative. */
  lemma {:induction false} SquareSumDominates(ids: seq<int>, labels: seq<real>)
    ensures SquareSum(ids, labels) >= 0.0
    ensures |ids| as real * SquareSum(ids, labels) >= LabelSum(ids, labels) * LabelSum(ids, labels)
  {
    if |ids| > 0 {
      var m := |ids| - 1;
      SquareSumDominates(ids[..m], labels);
      var y := Label(labels, ids[m]);
      assert m == 0 ==> ids[..m] == [];
      DominanceStep(m as real, LabelSum(ids[..m], labels), SquareSum(ids[..m], labels), y,
                    |ids| as real, LabelSum(ids, labels), SquareSum(ids, labels));
    }
  }

  /** One more term keeps `n Q >= S^2`: the increase is
      `Q + n y^2 - 2 S y`, and `n` times it is at least `(S - n y)^2`. */
  lemma DominanceStep(n: real, s: real, q: real, y: real, n': real, s': real, q': real)
    requires n >= 0.0 && q >= 0.0 && n * q >= s * s
    requires n == 0.0 ==> s == 0.0
    requires n' == n + 1.0 && s' == s + y && q' == q + y * y
    ensures q' >= 0.0
    ensures n' * q' >= s' * s'
  {
    var d := q + n * y * y - 2.0 * s * y;
    assert (n + 1.0) * (q + y * y) - (s + y) * (s + y) == (n * q - s * s) + d;
    if n > 0.0 {
      var z := s - n * y;
      assert z * z == s * s - 2.0 * n * s * y + n * n * y * y;
      assert n * d == n * q + n * n * y * y - 2.0 * n * s * y;
      assert z * z >= 0.0;
      PositiveFactor(n, d);
    }
  }

  lemma PositiveFactor(n: real, d: real)
    requires n > 0.0 && n * d >= 0.0
    ensures d >= 0.0
  {
  }

  /** The variance of a non-empty window is never negative. */
  lemma VarianceNonNegative(ids: seq<int>, labels: seq<real>)
    requires |ids| > 0
    ensures Variance(ids, labels) >= 0.0
  {
    SquareSumDominates(ids, labels);
    SpreadNonNegative(|ids| as real, LabelSum(ids, labels), SquareSum(ids, labels));
  }

  lemma SpreadNonNegative(n: real, s: real, q: real)
    requires n > 0.0 && n * q >= s * s
    ensures q / n - (s / n) * (s / n) >= 0.0
  {
    var m := s / n;
    assert s == m * n;
    assert n * q >= n * n * m * m;
    assert q >= n * m * m by {
      PositiveFactor(n, q - n * m * m);
    }
    assert q / n >= m * m;
  }

  /** A window whose labels all equal `c` has mean `c` and variance 0. */
  lemma ConstantWindow(ids: seq<int>, labels: seq<real>, c: real)
    requires |ids| > 0
    requires forall i :: 0 <= i < |ids| ==> Label(labels, ids[i]) == c
    ensures Mean(ids, labels) == c
    ensures Variance(ids, labels) == 0.0
  {
    ConstantSums(ids, labels, c);
    var n := |ids| as real;
    assert LabelSum(ids, labels) / n == c;
    assert SquareSum(ids, labels) / n == c * c;
  }

  lemma {:induction false} ConstantSums(ids: seq<int>, labels: seq<real>, c: real)
    requires forall i :: 0 <= i < |ids| ==> Label(labels, ids[i]) == c
    ensures LabelSum(ids, labels) == |ids| as real * c
    ensures SquareSum(ids, labels) == |ids| as real * (c * c)
  {
    if |ids| > 0 {
      ConstantSums(ids[..|ids| - 1], labels, c);
    }
  }

  /** `init` as written adds the window's sum to whatever sum the previous
      node left behind; unless that was zero, the node mean it takes is not
      the mean of the window. */
  lemma CarriedSumSkewsMean(carried: real, w: seq<int>, labels: seq<real>)
    requires |w| > 0 && carried != 0.0
    ensures Quotient(carried + LabelSum(w, labels), |w|) != Mean(w, labels)
  {
    var n := |w| as real;
    assert (carried + LabelSum(w, labels)) / n - LabelSum(w, labels) / n == carried / n;
  }

  /** The same on two consecutive nodes: with labels `[1.0, 2.0]`, a node
      holding sample 0 followed by a node holding sample 1 gets the mean 3.0
      instead of 2.0. */
  lemma CarriedSumExample()
    ensures Quotient(LabelSum([0], [1.0, 2.0]) + LabelSum([1], [1.0, 2.0]), 1) == 3.0
    ensures Mean([1], [1.0, 2.0]) == 2.0
  {
    assert [0][..0] == [] && [1][..0] == [];
  }

  // ---------------------------------------------------------------------
  // The criterion's state, stated over the values of its window
  // ---------------------------------------------------------------------

  /** The running statistics of one side of the split: the sum and the sum
      of squares of its labels, and the mean and variance taken from them. */
  datatype SideStats = SideStats(sum: real, sqSum: real, mean: real, variance: real)

  /** The node statistics describe the window `w`. */
  predicate Totals(w: seq<int>, labels: seq<real>, n: int, sum: real, sqSum: real, mean: real)
  {
    |w| > 0 && n == |w| && sum == LabelSum(w, labels) && sqSum == SquareSum(w, labels)
    && mean == Mean(w, labels)
  }

  /** With the cursor `k` samples into `w`, the left sums describe `w[..k]`
      and the right sums are what remains of the node sums. */
  predicate Sides(w: seq<int>, labels: seq<real>, k: int, leftCount: int, rightCount: int,
                  left: SideStats, right: SideStats)
  {
    0 <= k <= |w| && leftCount == k && rightCount == |w| - k
    && left.sum == LabelSum(w[..k], labels) && left.sqSum == SquareSum(w[..k], labels)
    && left.sum + right.sum == LabelSum(w, labels) && left.sqSum + right.sqSum == SquareSum(w, labels)
  }

  /** The means and variances of the two sides of `w` split at `k`. */
  predicate SideMoments(w: seq<int>, labels: seq<real>, k: int, left: SideStats, right: SideStats)
  {
    0 < k < |w|
    && left.mean == Mean(w[..k], labels) && right.mean == Mean(w[k..], labels)
    && left.variance == Variance(w[..k], labels) && right.variance == Variance(w[k..], labels)
  }

  /** The reset state: nothing on the left, the whole node on the right. */
  lemma ResetSides(w: seq<int>, labels: seq<real>, left: SideStats, right: SideStats)
    requires left.sum == 0.0 && left.sqSum == 0.0
    requires right.sum == LabelSum(w, labels) && right.sqSum == SquareSum(w, labels)
    ensures Sides(w, labels, 0, 0, |w|, left, right)
  {
    assert w[..0] == [];
  }

  /** Means and variances computed from valid side sums are those of the
      two sides, and the variances are never negative. */
  lemma SideMomentsFromSums(w: seq<int>, labels: seq<real>, k: int, leftCount: int, rightCount: int,
                            left: SideStats, right: SideStats)
    requires Sides(w, labels, k, leftCount, rightCount, left, right) && 0 < k < |w|
    requires left.mean == Quotient(left.sum, leftCount) && right.mean == Quotient(right.sum, rightCount)
    requires left.variance == Spread(left.sqSum, leftCount, left.mean)
    requires right.variance == Spread(right.sqSum, rightCount, right.mean)
    ensures SideMoments(w, labels, k, left, right)
    ensures left.variance >= 0.0 && right.variance >= 0.0
  {
    SplitSums(w, k, labels, left.sum, right.sum, left.sqSum, right.sqSum);
    VarianceNonNegative(w[..k], labels);
    VarianceNonNegative(w[k..], labels);
  }

  /** The source's fields `_sumLeft`, `_sqSumLeft`, `_meanLeft`, `_varLeft`
      (and their right-hand counterparts) are grouped into one `SideStats`
      value per side. */
  class RegressionCriterion {
    /** The label vector, fixed for the lifetime of the criterion. */
    const labels: seq<real>

    /** Shared with the splitter, which reorders the window in place. */
    var sampleIndices: array?<int>
    var nodeCount: int
    var start: int
    var end: int
    var cursor: int
    var leftCount: int
    var rightCount: int
    var sumTotal: real
    var sqSumTotal: real
    var meanTotal: real
    var left: SideStats
    var right: SideStats

    /** The window is a non-empty range of the index array. */
    ghost predicate WindowOk()
      reads this`sampleIndices, this`start, this`end
    {
      sampleIndices != null && 0 <= start < end <= sampleIndices.Length
    }

    /** The sample indices of the window `[start, end)`. */
    ghost function Window(): (w: seq<int>)
      reads this`sampleIndices, this`start, this`end, sampleIndices
      ensures WindowOk() ==> w == sampleIndices[start..end]
    {
      if WindowOk() then sampleIndices[start..end] else []
    }

    /** The node sums describe the current window. */
    ghost predicate TotalsOk()
      reads this`sampleIndices, this`start, this`end, this`nodeCount, sampleIndices
      reads this`sumTotal, this`sqSumTotal, this`meanTotal
    {
      WindowOk() && Totals(Window(), labels, nodeCount, sumTotal, sqSumTotal, meanTotal)
    }

    /** The left sums describe `[start, cursor)` and the right ones the rest
        of the window. */
    ghost predicate Valid()
      reads this, sampleIndices
    {
      TotalsOk() && Sides(Window(), labels, cursor - start, leftCount, rightCount, left, right)
    }

    /** After a move to a cursor strictly inside the window: the means and
        variances of both sides are those of their samples. */
    ghost predicate Scanned()
      reads this, sampleIndices
    {
      Valid() && SideMoments(Window(), labels, cursor - start, left, right)
    }

    constructor(labels: seq<real>)
      ensures this.labels == labels && sampleIndices == null && nodeCount == 0
      ensures start == -1 && end == -1 && cursor == -1 && leftCount == 0 && rightCount == 0
      ensures sumTotal == 0.0 && sqSumTotal == 0.0 && meanTotal == 0.0
      ensures left == SideStats(0.0, 0.0, 0.0, 0.0) && right == SideStats(0.0, 0.0, 0.0, 0.0)
    {
      this.labels := labels;
      sampleIndices := null;
      nodeCount := 0;
      start, end, cursor := -1, -1, -1;
      leftCount, rightCount := 0, 0;
      sumTotal, sqSumTotal, meanTotal := 0.0, 0.0, 0.0;
      left := SideStats(0.0, 0.0, 0.0, 0.0);
      right := SideStats(0.0, 0.0, 0.0, 0.0);
    }

    /** Points the criterion at the window `[s, e)` of `a`, sums its labels
        from zero and resets the cursor. */
    method Init(a: array<int>, s: int, e: int)
      modifies this
      requires 0 <= s < e <= a.Length && Indexed(a[s..e], labels)
      ensures sampleIndices == a && start == s && end == e && nodeCount == e - s
      ensures sumTotal == LabelSum(a[s..e], labels) && sqSumTotal == SquareSum(a[s..e], labels)
      ensures meanTotal == Mean(a[s..e], labels)
      ensures cursor == s && leftCount == 0 && rightCount == e - s
      ensures left == SideStats(0.0, 0.0, 0.0, 0.0)
      ensures right.sum == sumTotal && right.sqSum == sqSumTotal && right.mean == meanTotal
      ensures right.variance == Variance(a[s..e], labels) && right.variance >= 0.0
      ensures Valid()
    {
      sampleIndices := a;
      start := s;
      end := e;
      nodeCount := e - s;
      sumTotal, sqSumTotal := 0.0, 0.0;
      InitSums();
      Reset();
      VarianceNonNegative(a[s..e], labels);
    }

    /** The source's `init` as written: the node sums are not zeroed first,
        so the window's sums are added to whatever the previous node left. */
    method InitAsWritten(a: array<int>, s: int, e: int)
      modifies this
      requires 0 <= s < e <= a.Length && Indexed(a[s..e], labels)
      ensures sampleIndices == a && start == s && end == e && nodeCount == e - s
      ensures sumTotal == old(sumTotal) + LabelSum(a[s..e], labels)
      ensures sqSumTotal == old(sqSumTotal) + SquareSum(a[s..e], labels)
      ensures meanTotal == Quotient(sumTotal, e - s)
      ensures old(sumTotal) == 0.0 && old(sqSumTotal) == 0.0 ==> Valid()
    {
      sampleIndices := a;
      start := s;
      end := e;
      nodeCount := e - s;
      InitSums();
      Reset();
    }

    /** Adds the window's labels and squared labels to the node sums and
        takes the node mean. */
    method InitSums()
      modifies this`sumTotal, this`sqSumTotal, this`meanTotal
      requires WindowOk() && nodeCount == end - start
      ensures sumTotal == old(sumTotal) + LabelSum(Window(), labels)
      ensures sqSumTotal == old(sqSumTotal) + SquareSum(Window(), labels)
      ensures meanTotal == Quotient(sumTotal, nodeCount)
    {
      ghost var w := Window();
      var a, s, n := sampleIndices, start, nodeCount;
      var sum, sqSum := sumTotal, sqSumTotal;
      var k := 0;
      while k < n
        invariant 0 <= k <= n
        invariant sum == old(sumTotal) + LabelSum(w[..k], labels)
        invariant sqSum == old(sqSumTotal) + SquareSum(w[..k], labels)
      {
        var y := Label(labels, a[s + k]);
        SumsStep(w, k, labels, y);
        sum := sum + y;
        sqSum := sqSum + y * y;
        k := k + 1;
      }
      assert w[..n] == w;
      sumTotal, sqSumTotal := sum, sqSum;
      meanTotal := Quotient(sumTotal, nodeCount);
    }

    /** Moves the cursor back to the start of the window: the right side holds
        the whole node and the left side nothing. */
    method Reset()
      modifies this`cursor, this`leftCount, this`rightCount, this`left, this`right
      requires nodeCount != 0
      ensures cursor == start && leftCount == 0 && rightCount == nodeCount
      ensures left == SideStats(0.0, 0.0, 0.0, 0.0)
      ensures right == SideStats(sumTotal, sqSumTotal, meanTotal, Spread(sqSumTotal, nodeCount, meanTotal))
      ensures TotalsOk() ==> Valid()
    {
      leftCount := 0;
      rightCount := nodeCount;
      cursor := start;
      var meanRight := meanTotal;
      var sqSumRight := sqSumTotal;
      var varRight := Spread(sqSumRight, nodeCount, meanRight);
      left := SideStats(0.0, 0.0, 0.0, 0.0);
      right := SideStats(sumTotal, sqSumRight, meanRight, varRight);
      if TotalsOk() {
        ResetSides(Window(), labels, left, right);
      }
    }

    /** Moves the cursor forward to `p`, strictly inside the window: the labels
        of `[cursor, p)` pass from the right sums to the left ones, and the
        means and variances of both sides are recomputed. */
    method Update(p: int)
      modifies this`cursor, this`leftCount, this`rightCount, this`left, this`right
      requires Valid() && cursor <= p && start < p < end
      ensures cursor == p
      ensures leftCount == old(leftCount) + (p - old(cursor))
      ensures rightCount == old(rightCount) - (p - old(cursor))
      ensures Scanned()
      ensures left.variance >= 0.0 && right.variance >= 0.0
    {
      ghost var w := Window();
      var a, s, n := sampleIndices, start, nodeCount;
      var sumLeft, sumRight, sqSumLeft, sqSumRight := left.sum, right.sum, left.sqSum, right.sqSum;
      var k := cursor - s;
      while k < p - s
        modifies {}
        invariant cursor - s <= k <= p - s
        invariant sumLeft == LabelSum(w[..k], labels) && sqSumLeft == SquareSum(w[..k], labels)
        invariant sumLeft + sumRight == LabelSum(w, labels)
        invariant sqSumLeft + sqSumRight == SquareSum(w, labels)
      {
        var y := Label(labels, a[s + k]);
        SumsStep(w, k, labels, y);
        sumLeft := sumLeft + y;
        sumRight := sumRight - y;
        sqSumLeft := sqSumLeft + y * y;
        sqSumRight := sqSumRight - y * y;
        k := k + 1;
      }
      leftCount := leftCount + (p - cursor);
      rightCount := rightCount - (p - cursor);
      cursor := p;
      var meanLeft := Quotient(sumLeft, leftCount);
      var meanRight := Quotient(sumRight, rightCount);
      var varRight := Spread(sqSumRight, n, meanRight);
      var varLeft := Spread(sqSumLeft, leftCount, meanLeft);
      varRight := Spread(sqSumRight, rightCount, meanRight);
      left := SideStats(sumLeft, sqSumLeft, meanLeft, varLeft);
      right := SideStats(sumRight, sqSumRight, meanRight, varRight);
      SideMomentsFromSums(w, labels, p - s, leftCount, rightCount, left, right);
    }

    lemma VariancesNonNegative()
      ensures TotalsOk() ==> Variance(Window(), labels) >= 0.0
      ensures Scanned() ==> left.variance >= 0.0 && right.variance >= 0.0
    {
      if TotalsOk() {
        VarianceNonNegative(Window(), labels);
      }
      if Scanned() {
        VarianceNonNegative(Window()[..cursor - start], labels);
        VarianceNonNegative(Window()[cursor - start..], labels);
      }
    }

    /** The node impurity is the variance of the window's labels, which is
        never negative. */
    function NodeImpurity(): (r: real)
      reads this, sampleIndices
      requires nodeCount != 0
      ensures TotalsOk() ==> r == Variance(Window(), labels) && r >= 0.0
    {
      VariancesNonNegative();
      Spread(sqSumTotal, nodeCount, meanTotal)
    }

    /** The variances of the two sides. */
    function ChildrenImpurity(): (r: (real, real))
      reads this, sampleIndices
      ensures Scanned() ==> r.0 == Variance(Window()[..cursor - start], labels)
      ensures Scanned() ==> r.1 == Variance(Window()[cursor - start..], labels)
      ensures Scanned() ==> r.0 >= 0.0 && r.1 >= 0.0
    {
      VariancesNonNegative();
      (left.variance, right.variance)
    }

    /** The weighted improvement of the current split over `impurity`. */
    function ImpurityImprove(impurity: real): (g: real)
      reads this
      requires nodeCount != 0 && |labels| != 0
      ensures g == ImproveFormula(nodeCount, |labels|, leftCount, rightCount, impurity,
                                  left.variance, right.variance)
    {
      var weightTotal := nodeCount as real / |labels| as real;
      var weightLeft := leftCount as real / nodeCount as real;
      var weightRight := rightCount as real / nodeCount as real;
      weightTotal * (impurity - weightRight * right.variance - weightLeft * left.variance)
    }

    /** The node value is the mean label of the window. */
    function NodeValue(): (v: real)
      reads this, sampleIndices
      ensures TotalsOk() ==> v == Mean(Window(), labels)
    {
      meanTotal
    }
  }
}
