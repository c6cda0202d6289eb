/**
 * The classification criterion: the base criterion's sample bookkeeping over
 * a window `[start, end)` of a shared sample-index array, together with the
 * per-class count vectors of the whole window, of its left part
 * `[start, cursor)` and of its right part `[cursor, end)`.
 */
module Criterion {
  import opened Counting
  import opened Impurity
  import opened Samples

  class ClassificationCriterion {
    /** The label vector, fixed for the lifetime of the criterion. */
    const labels: seq<real>
    const numberOfClasses: nat
    /** The impurity rule the criterion is instantiated with. */
    const rule: Rule

    /** Shared with the splitter, which reorders the window in place. */
    var sampleIndices: array?<int>
    var nodeCount: int
    var start: int
    var end: int
    var cursor: int
    var leftCount: int
    var rightCount: int
    var total: seq<int>
    var left: seq<int>
    var right: seq<int>

    /** The three count vectors always have one entry per class. */
    ghost predicate Shaped()
      reads this
    {
      |total| == numberOfClasses && |left| == numberOfClasses && |right| == numberOfClasses
    }

    /** The window lies inside the index array and every sample in it has a
        label of one of the classes. */
    ghost predicate WindowOk()
      reads this, sampleIndices
    {
      Shaped() && sampleIndices != null && 0 <= start <= end <= sampleIndices.Length
      && Labelled(sampleIndices[start..end], labels, numberOfClasses)
    }

    /** The node statistics describe the current contents of the window. */
    ghost predicate TotalsOk()
      reads this, sampleIndices
    {
      WindowOk() && nodeCount == end - start
      && total == ClassCounts(sampleIndices[start..end], labels, numberOfClasses)
    }

    /** The left statistics describe `[start, cursor)` and the right ones the
        rest of the window. */
    ghost predicate Valid()
      reads this, sampleIndices
    {
      TotalsOk() && start <= cursor <= end
      && leftCount == cursor - start && rightCount == end - cursor
      && left == ClassCounts(sampleIndices[start..cursor], labels, numberOfClasses)
      && SplitOf(total, left, right)
    }

    constructor(labels: seq<real>, numberOfClasses: nat, rule: Rule)
      ensures this.labels == labels && this.numberOfClasses == numberOfClasses && this.rule == rule
      ensures sampleIndices == null && nodeCount == 0
      ensures start == -1 && end == -1 && cursor == -1
      ensures leftCount == 0 && rightCount == 0
      ensures total == Zeros(numberOfClasses) && left == Zeros(numberOfClasses) && right == Zeros(numberOfClasses)
      ensures Shaped()
    {
      this.labels := labels;
      this.numberOfClasses := numberOfClasses;
      this.rule := rule;
      sampleIndices := null;
      nodeCount := 0;
      start, end, cursor := -1, -1, -1;
      leftCount, rightCount := 0, 0;
      total := Zeros(numberOfClasses);
      left := Zeros(numberOfClasses);
      right := Zeros(numberOfClasses);
    }

    /** Points the criterion at the window `[s, e)` of `a`, counts its labels
        and resets the cursor to the start of the window. */
    method Init(a: array<int>, s: int, e: int)
      modifies this
      requires Shaped()
      requires 0 <= s <= e <= a.Length && Labelled(a[s..e], labels, numberOfClasses)
      ensures sampleIndices == a && start == s && end == e && nodeCount == e - s
      ensures total == ClassCounts(a[s..e], labels, numberOfClasses)
      ensures Sum(total) == e - s
      ensures cursor == s && leftCount == 0 && rightCount == e - s
      ensures left == Zeros(numberOfClasses) && right == total
      ensures Valid()
    {
      sampleIndices := a;
      start := s;
      end := e;
      nodeCount := e - s;
      InitCounts();
      Reset();
      ClassCountsSum(a[s..e], labels, numberOfClasses);
    }

    /** Counts the labels of the window into `total`, from zero. */
    method InitCounts()
      modifies this`total
      requires WindowOk()
      ensures total == ClassCounts(sampleIndices[start..end], labels, numberOfClasses)
    {
      var a, s, e := sampleIndices, start, end;
      var t := Zeros(numberOfClasses);
      var i := s;
      while i < e
        invariant s <= i <= e
        invariant t == ClassCounts(a[s..i], labels, numberOfClasses)
      {
        assert a[i] == a[s..e][i - s];
        ClassCountsStep(a[..], s, i, labels, numberOfClasses);
        var k := ClassOf(labels[a[i]]);
        t := t[k := t[k] + 1];
        i := i + 1;
      }
      total := t;
    }

    /** Moves the cursor back to the start of the window: nothing on the left,
        the whole node on the right. */
    method Reset()
      modifies this
      requires Shaped()
      ensures cursor == start && leftCount == 0 && rightCount == nodeCount
      ensures left == Zeros(numberOfClasses) && right == total
      ensures sampleIndices == old(sampleIndices) && start == old(start) && end == old(end)
      ensures nodeCount == old(nodeCount) && total == old(total)
      ensures Shaped()
      ensures old(TotalsOk()) ==> Valid()
    {
      leftCount := 0;
      rightCount := nodeCount;
      cursor := start;
      ResetCounts();
    }

    /** Copies the node counts to the right and zeroes the left counts. */
    method ResetCounts()
      modifies this`left, this`right
      requires Shaped()
      ensures right == total && left == Zeros(numberOfClasses)
      ensures SplitOf(total, left, right)
    {
      right := total;
      left := Zeros(numberOfClasses);
    }

    /** Moves the cursor forward to `p`: the samples of `[cursor, p)` pass
        from the right statistics to the left ones. */
    method Update(p: int)
      modifies this
      requires Valid() && cursor <= p <= end
      ensures sampleIndices == old(sampleIndices) && start == old(start) && end == old(end)
      ensures nodeCount == old(nodeCount) && total == old(total)
      ensures Valid() && cursor == p
      ensures leftCount == old(leftCount) + (p - old(cursor))
      ensures rightCount == old(rightCount) - (p - old(cursor))
      ensures leftCount + rightCount == nodeCount
      ensures left == ClassCounts(sampleIndices[start..p], labels, numberOfClasses)
      ensures right == ClassCounts(sampleIndices[p..end], labels, numberOfClasses)
    {
      leftCount := leftCount + (p - cursor);
      rightCount := rightCount - (p - cursor);
      UpdateCounts(p);
      cursor := p;
      RightCounts();
    }

    /** The counting part of `Update`: one class count moves from right to
        left for each sample in `[cursor, p)`. */
    method UpdateCounts(p: int)
      modifies this`left, this`right
      requires WindowOk() && start <= cursor <= p <= end
      requires left == ClassCounts(sampleIndices[start..cursor], labels, numberOfClasses)
      requires SplitOf(total, left, right)
      ensures left == ClassCounts(sampleIndices[start..p], labels, numberOfClasses)
      ensures SplitOf(total, left, right)
    {
      var a, s, e, t := sampleIndices, start, end, total;
      var l, r := left, right;
      var pos := cursor;
      while pos < p
        invariant s <= pos <= p
        invariant l == ClassCounts(a[s..pos], labels, numberOfClasses)
        invariant SplitOf(t, l, r)
      {
        assert a[pos] == a[s..e][pos - s];
        ClassCountsStep(a[..], s, pos, labels, numberOfClasses);
        var k := ClassOf(labels[a[pos]]);
        l := l[k := l[k] + 1];
        r := r[k := r[k] - 1];
        pos := pos + 1;
      }
      left, right := l, r;
    }

    /** In a valid state the right counts are those of `[cursor, end)`. */
    lemma RightCounts()
      requires Valid()
      ensures Labelled(sampleIndices[cursor..end], labels, numberOfClasses)
      ensures right == ClassCounts(sampleIndices[cursor..end], labels, numberOfClasses)
      ensures NonNegative(left) && NonNegative(right)
      ensures Sum(left) == leftCount && Sum(right) == rightCount
    {
      var a := sampleIndices;
      assert a[start..end] == a[start..cursor] + a[cursor..end];
      LabelledSplit(a[start..cursor], a[cursor..end], labels, numberOfClasses);
      ClassCountsAppend(a[start..cursor], a[cursor..end], labels, numberOfClasses);
      SplitUnique(total, left, right, ClassCounts(a[cursor..end], labels, numberOfClasses));
      ClassCountsNonNegative(a[start..cursor], labels, numberOfClasses);
      ClassCountsNonNegative(a[cursor..end], labels, numberOfClasses);
      ClassCountsSum(a[start..cursor], labels, numberOfClasses);
      ClassCountsSum(a[cursor..end], labels, numberOfClasses);
    }

    /** The node impurity: the rule applied to the window's counts. Gini and
        Bernoulli impurities lie in [0, 1], and a single-class node has Gini
        impurity 0. */
    function NodeImpurity(): (r: real)
      reads this
      requires Shaped() && Sum(total) != 0
      ensures NonNegative(total) && rule == GiniRule ==> 0.0 <= r <= 1.0
      ensures NonNegative(total) && rule == BernoulliRule ==> 0.0 <= r <= 1.0
      ensures (exists j :: Pure(total, j)) && rule == GiniRule ==> r == 0.0
    {
      RuleFacts(rule, total);
      Apply(rule, total)
    }

    /** The impurities of the left and right statistics. */
    function ChildrenImpurity(): (r: (real, real))
      reads this
      requires Shaped() && Sum(left) != 0 && Sum(right) != 0
      ensures NonNegative(left) && NonNegative(right) && rule == GiniRule ==>
        0.0 <= r.0 <= 1.0 && 0.0 <= r.1 <= 1.0
      ensures NonNegative(left) && NonNegative(right) && rule == BernoulliRule ==>
        0.0 <= r.0 <= 1.0 && 0.0 <= r.1 <= 1.0
    {
      RuleFacts(rule, left);
      RuleFacts(rule, right);
      (Apply(rule, left), Apply(rule, right))
    }

    /** The weighted improvement of the current split over `impurity`; it
        only reads the statistics. */
    function ImpurityImprove(impurity: real): (g: real)
      reads this
      requires Shaped() && nodeCount != 0 && |labels| != 0
      requires Sum(left) != 0 && Sum(right) != 0
      ensures g == ImproveFormula(nodeCount, |labels|, leftCount, rightCount,
                                  impurity, Apply(rule, left), Apply(rule, right))
    {
      var (impurityLeft, impurityRight) := ChildrenImpurity();
      var weightTotal := nodeCount as real / |labels| as real;
      var weightLeft := leftCount as real / nodeCount as real;
      var weightRight := rightCount as real / nodeCount as real;
      weightTotal * (impurity - weightRight * impurityRight - weightLeft * impurityLeft)
    }

    /** The counts of the node: one entry per class, adding up to the size of
        the window. */
    function NodeValue(): (v: seq<int>)
      reads this, sampleIndices
      requires TotalsOk()
      ensures |v| == numberOfClasses
      ensures v == ClassCounts(sampleIndices[start..end], labels, numberOfClasses)
      ensures Sum(v) == end - start
    {
      ClassCountsSum(sampleIndices[start..end], labels, numberOfClasses);
      total
    }
  }

  /** The bounds of the Gini and Bernoulli rules, and Gini purity. */
  lemma RuleFacts(rule: Rule, c: seq<int>)
    requires Sum(c) != 0
    ensures NonNegative(c) && rule == GiniRule ==> 0.0 <= Apply(rule, c) <= 1.0
    ensures NonNegative(c) && rule == BernoulliRule ==> 0.0 <= Apply(rule, c) <= 1.0
    ensures (exists j :: Pure(c, j)) && rule == GiniRule ==> Apply(rule, c) == 0.0
  {
    if NonNegative(c) && rule == GiniRule {
      GiniBounds(c);
    }
    if NonNegative(c) && rule == BernoulliRule {
      BernoulliBounds(c);
    }
    if (exists j :: Pure(c, j)) && rule == GiniRule {
      var j :| Pure(c, j);
      GiniPure(c, j);
    }
  }
}
