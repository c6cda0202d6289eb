/**
 * The older, all-in-one classification criterion. Its bookkeeping is the
 * same window-and-cursor scheme as the classification criterion's, but it
 * receives the labels at `init` time and uses product impurities: the node
 * impurity is `(prod_k total[k]/n) * n` and a child's is
 * `(prod_k count[k]) / side`.
 */
module LegacyCriteria {
  import opened Counting
  import opened Impurity
  import opened Samples

  class LegacyCriterion {
    const numberOfClasses: nat

    /** Set by `Init`: the label vector and the shared sample-index array. */
    var labels: seq<real>
    var sampleIndices: array?<int>
    var nodeCount: int
    var start: int
    var end: int
    var cursor: int
    var leftCount: int
    var rightCount: int
    var total: seq<int>
    var left: seq<int>
    var right: seq<int>

    ghost predicate Shaped()
      reads this
    {
      |total| == numberOfClasses && |left| == numberOfClasses && |right| == numberOfClasses
    }

    ghost predicate WindowOk()
      reads this, sampleIndices
    {
      Shaped() && sampleIndices != null && 0 <= start <= end <= sampleIndices.Length
      && Labelled(sampleIndices[start..end], labels, numberOfClasses)
    }

    ghost predicate TotalsOk()
      reads this, sampleIndices
    {
      WindowOk() && nodeCount == end - start
      && total == ClassCounts(sampleIndices[start..end], labels, numberOfClasses)
    }

    ghost predicate Valid()
      reads this, sampleIndices
    {
      TotalsOk() && start <= cursor <= end
      && leftCount == cursor - start && rightCount == end - cursor
      && left == ClassCounts(sampleIndices[start..cursor], labels, numberOfClasses)
      && SplitOf(total, left, right)
    }

    constructor(numberOfClasses: nat)
      ensures this.numberOfClasses == numberOfClasses
      ensures labels == [] && sampleIndices == null && nodeCount == 0
      ensures start == -1 && end == -1 && cursor == -1
      ensures leftCount == 0 && rightCount == 0
      ensures total == Zeros(numberOfClasses) && left == Zeros(numberOfClasses) && right == Zeros(numberOfClasses)
      ensures Shaped()
    {
      this.numberOfClasses := numberOfClasses;
      labels := [];
      sampleIndices := null;
      nodeCount := 0;
      start, end, cursor := -1, -1, -1;
      leftCount, rightCount := 0, 0;
      total := Zeros(numberOfClasses);
      left := Zeros(numberOfClasses);
      right := Zeros(numberOfClasses);
    }

    /** Takes the labels and the window `[s, e)` of `a`, zeroes the node
        counts, counts the window's labels and resets the cursor. */
    method Init(labelData: seq<real>, a: array<int>, s: int, e: int)
      modifies this
      requires Shaped()
      requires 0 <= s <= e <= a.Length && Labelled(a[s..e], labelData, numberOfClasses)
      ensures labels == labelData && sampleIndices == a && start == s && end == e && nodeCount == e - s
      ensures total == ClassCounts(a[s..e], labelData, numberOfClasses)
      ensures Sum(total) == e - s
      ensures cursor == s && leftCount == 0 && rightCount == e - s
      ensures left == Zeros(numberOfClasses) && right == total
      ensures Valid()
    {
      labels := labelData;
      sampleIndices := a;
      start := s;
      end := e;
      nodeCount := e - s;
      InitCounts();
      Reset();
      ClassCountsSum(a[s..e], labelData, numberOfClasses);
    }

    /** Counts the labels of the window into `total`, starting from zeros. */
    method InitCounts()
      modifies this`total
      requires WindowOk()
      ensures total == ClassCounts(sampleIndices[start..end], labels, numberOfClasses)
    {
      var a, s, e := sampleIndices, start, end;
      var t := Zeros(numberOfClasses);
      var i := s;
      while i < e
        invariant s <= i <= e
        invariant t == ClassCounts(a[s..i], labels, numberOfClasses)
      {
        assert a[i] == a[s..e][i - s];
        ClassCountsStep(a[..], s, i, labels, numberOfClasses);
        var k := ClassOf(labels[a[i]]);
        t := t[k := t[k] + 1];
        i := i + 1;
      }
      total := t;
    }

    /** Nothing on the left, the whole node on the right. */
    method Reset()
      modifies this
      requires Shaped()
      ensures cursor == start && leftCount == 0 && rightCount == nodeCount
      ensures left == Zeros(numberOfClasses) && right == total
      ensures labels == old(labels) && sampleIndices == old(sampleIndices)
      ensures start == old(start) && end == old(end)
      ensures nodeCount == old(nodeCount) && total == old(total)
      ensures Shaped()
      ensures old(TotalsOk()) ==> Valid()
    {
      leftCount := 0;
      rightCount := nodeCount;
      cursor := start;
      right := total;
      left := Zeros(numberOfClasses);
    }

    /** Moves the cursor forward to `p`, passing the samples of `[cursor, p)`
        from the right counts to the left ones. */
    method Update(p: int)
      modifies this
      requires Valid() && cursor <= p <= end
      ensures labels == old(labels) && sampleIndices == old(sampleIndices)
      ensures start == old(start) && end == old(end)
      ensures nodeCount == old(nodeCount) && total == old(total)
      ensures Valid() && cursor == p
      ensures leftCount == old(leftCount) + (p - old(cursor))
      ensures rightCount == old(rightCount) - (p - old(cursor))
      ensures leftCount + rightCount == nodeCount
      ensures left == ClassCounts(sampleIndices[start..p], labels, numberOfClasses)
      ensures right == ClassCounts(sampleIndices[p..end], labels, numberOfClasses)
    {
      leftCount := leftCount + (p - cursor);
      rightCount := rightCount - (p - cursor);
      UpdateCounts(p);
      cursor := p;
      RightCounts();
    }

    method UpdateCounts(p: int)
      modifies this`left, this`right
      requires WindowOk() && start <= cursor <= p <= end
      requires left == ClassCounts(sampleIndices[start..cursor], labels, numberOfClasses)
      requires SplitOf(total, left, right)
      ensures left == ClassCounts(sampleIndices[start..p], labels, numberOfClasses)
      ensures SplitOf(total, left, right)
    {
      var a, s, e, t := sampleIndices, start, end, total;
      var l, r := left, right;
      var pos := cursor;
      while pos < p
        invariant s <= pos <= p
        invariant l == ClassCounts(a[s..pos], labels, numberOfClasses)
        invariant SplitOf(t, l, r)
      {
        assert a[pos] == a[s..e][pos - s];
        ClassCountsStep(a[..], s, pos, labels, numberOfClasses);
        var k := ClassOf(labels[a[pos]]);
        l := l[k := l[k] + 1];
        r := r[k := r[k] - 1];
        pos := pos + 1;
      }
      left, right := l, r;
    }

    /** In a valid state the right counts are those of `[cursor, end)`, and
        each side's counts add up to its sample count. */
    lemma RightCounts()
      requires Valid()
      ensures Labelled(sampleIndices[cursor..end], labels, numberOfClasses)
      ensures right == ClassCounts(sampleIndices[cursor..end], labels, numberOfClasses)
      ensures NonNegative(left) && NonNegative(right)
      ensures Sum(left) == leftCount && Sum(right) == rightCount
    {
      var a := sampleIndices;
      assert a[start..end] == a[start..cursor] + a[cursor..end];
      LabelledSplit(a[start..cursor], a[cursor..end], labels, numberOfClasses);
      ClassCountsAppend(a[start..cursor], a[cursor..end], labels, numberOfClasses);
      SplitUnique(total, left, right, ClassCounts(a[cursor..end], labels, numberOfClasses));
      ClassCountsNonNegative(a[start..cursor], labels, numberOfClasses);
      ClassCountsNonNegative(a[cursor..end], labels, numberOfClasses);
      ClassCountsSum(a[start..cursor], labels, numberOfClasses);
      ClassCountsSum(a[cursor..end], labels, numberOfClasses);
    }

    /** The node impurity `(prod_k total[k]/n) * n`. Over the window's own
        counts it is the Bernoulli impurity scaled by the node size, and a
        node missing some class has impurity 0. */
    method NodeImpurity() returns (impurity: real)
      requires Shaped() && nodeCount != 0
      ensures impurity == LegacyNodeImpurity(total, nodeCount)
      ensures Sum(total) == nodeCount ==> impurity == Bernoulli(total) * nodeCount as real
      ensures (exists j :: 0 <= j < |total| && total[j] == 0) ==> impurity == 0.0
    {
      var n := nodeCount as real;
      var entropy := 1.0;
      var k := 0;
      while k < numberOfClasses
        invariant 0 <= k <= numberOfClasses
        invariant entropy == ShareProduct(total[..k], n)
      {
        assert total[..k + 1][..k] == total[..k];
        var fraction := total[k] as real / n;
        entropy := entropy * fraction;
        k := k + 1;
      }
      assert total[..k] == total;
      impurity := entropy * n;
      if Sum(total) == nodeCount {
        LegacyNodeIsScaledBernoulli(total);
      }
      if j :| 0 <= j < |total| && total[j] == 0 {
        ShareProductWithZero(total, n, j);
      }
    }

    /** The child impurities `(prod_k left[k]) / leftCount` and
        `(prod_k right[k]) / rightCount`; a side missing some class has
        impurity 0. */
    method ChildrenImpurity() returns (impurityLeft: real, impurityRight: real)
      requires Shaped() && leftCount != 0 && rightCount != 0
      ensures impurityLeft == LegacyChildImpurity(left, leftCount)
      ensures impurityRight == LegacyChildImpurity(right, rightCount)
      ensures (exists j :: 0 <= j < |left| && left[j] == 0) ==> impurityLeft == 0.0
      ensures (exists j :: 0 <= j < |right| && right[j] == 0) ==> impurityRight == 0.0
    {
      impurityLeft := 1.0;
      impurityRight := 1.0;
      var k := 0;
      while k < numberOfClasses
        invariant 0 <= k <= numberOfClasses
        invariant impurityLeft == CountProduct(left[..k]) as real
        invariant impurityRight == CountProduct(right[..k]) as real
      {
        assert left[..k + 1][..k] == left[..k];
        assert right[..k + 1][..k] == right[..k];
        CastProduct(CountProduct(left[..k]), left[k]);
        CastProduct(CountProduct(right[..k]), right[k]);
        impurityLeft := impurityLeft * left[k] as real;
        impurityRight := impurityRight * right[k] as real;
        k := k + 1;
      }
      assert left[..k] == left && right[..k] == right;
      impurityLeft := impurityLeft / leftCount as real;
      impurityRight := impurityRight / rightCount as real;
      if j :| 0 <= j < |left| && left[j] == 0 {
        LegacyChildEmptyClass(left, leftCount, j);
      }
      if j :| 0 <= j < |right| && right[j] == 0 {
        LegacyChildEmptyClass(right, rightCount, j);
      }
    }

    /** The weighted improvement of the current split over `impurity`, with
        the product child impurities. */
    method ImpurityImprove(impurity: real) returns (improve: real)
      requires Shaped() && nodeCount != 0 && |labels| != 0
      requires leftCount != 0 && rightCount != 0
      ensures improve == ImproveFormula(nodeCount, |labels|, leftCount, rightCount, impurity,
                                        LegacyChildImpurity(left, leftCount),
                                        LegacyChildImpurity(right, rightCount))
    {
      var impurityLeft, impurityRight := ChildrenImpurity();
      var weightTotal := nodeCount as real / |labels| as real;
      var weightLeft := leftCount as real / nodeCount as real;
      var weightRight := rightCount as real / nodeCount as real;
      improve := weightTotal * (impurity - weightRight * impurityRight - weightLeft * impurityLeft);
    }

    /** The node's counts: one entry per class, adding up to the window size. */
    function NodeLabelsCount(): (v: seq<int>)
      reads this, sampleIndices
      requires TotalsOk()
      ensures |v| == numberOfClasses
      ensures v == ClassCounts(sampleIndices[start..end], labels, numberOfClasses)
      ensures Sum(v) == end - start
    {
      ClassCountsSum(sampleIndices[start..end], labels, numberOfClasses);
      total
    }
  }
}
