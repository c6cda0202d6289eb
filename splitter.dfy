/**
 * The splitter of the depth-first builder. For the node held in the window
 * `[startIndex, endIndex)` of the shared sample-index array it draws up to
 * `numberOfFeaturesToSplit` features at random, sorts the window by each of
 * them, scans the boundaries between distinct values for the split with the
 * largest impurity improvement, and finally partitions the window around the
 * best threshold. Features found constant on the node are moved to the front
 * of the feature-index array, where the node's descendants no longer draw
 * them.
 */
module Splitting {
  import opened Counting
  import opened Impurity
  import opened Samples
  import opened Records
  import opened Sorting
  import opened Criterion

  /** Two feature values closer than this count as equal. */
  const FeatureThreshold: real := 0.0000001

  /** Feature `f` of sample `id`, i.e. entry `(id, f)` of the training
      matrix; outside the matrix it is 0, which the splitter never reads. */
  function Value(data: seq<seq<real>>, id: int, f: int): real
  {
    if 0 <= id < |data| && 0 <= f < |data[id]| then data[id][f] else 0.0
  }

  /** A sample goes to the left child of a split on `f` at `threshold`
      exactly when its value is at most the threshold. */
  function GoesLeft(data: seq<seq<real>>, f: int, threshold: real): int -> bool
  {
    id => Value(data, id, f) <= threshold
  }

  /** Feature `f` varies by at most `FeatureThreshold` over the samples `w`. */
  ghost predicate ConstantOn(data: seq<seq<real>>, w: multiset<int>, f: int)
  {
    forall x, y :: x in w && y in w ==> Value(data, x, f) <= Value(data, y, f) + FeatureThreshold
  }

  /** Position `k` of a sorted value buffer starts a new value: it exceeds
      its predecessor by more than `FeatureThreshold`. */
  predicate Boundary(buf: seq<real>, k: int)
  {
    0 < k < |buf| && buf[k] > buf[k - 1] + FeatureThreshold
  }

  /** The record returned when no split is found: a default record whose
      split index is the end of the window. */
  function NoSplit(end: int): SplitRecord
  {
    DefaultSplit().(splitSampleIndex := end)
  }

  /** The window `[s, e)` of `a` is partitioned by `sp`: the samples before
      the split index go left, the others go right. */
  ghost predicate Partitioned(data: seq<seq<real>>, a: seq<int>, s: int, e: int, sp: SplitRecord)
  {
    0 <= s <= sp.splitSampleIndex <= e <= |a|
    && (forall i :: s <= i < sp.splitSampleIndex ==>
          Value(data, a[i], sp.featureIndexToSplit) <= sp.threshold)
    && (forall i :: sp.splitSampleIndex <= i < e ==>
          Value(data, a[i], sp.featureIndexToSplit) > sp.threshold)
  }

  /** `y` reorders the window `[s, e)` of `x` and leaves the rest alone. */
  ghost predicate Permuted(x: seq<int>, y: seq<int>, s: int, e: int)
  {
    0 <= s <= e <= |x| == |y|
    && multiset(y[s..e]) == multiset(x[s..e]) && y[..s] == x[..s] && y[e..] == x[e..]
  }

  /** Swapping two positions of the window keeps it a reordering. */
  lemma SwapPermutes(x: seq<int>, q: seq<int>, y: seq<int>, s: int, e: int, i: int, j: int)
    requires Permuted(x, q, s, e) && s <= i < e && s <= j < e
    requires y == q[i := q[j]][j := q[i]]
    ensures Permuted(x, y, s, e)
  {
    assert y[s..e] == q[s..e][i - s := q[j]][j - s := q[i]];
    assert y[..s] == q[..s] && y[e..] == q[e..];
  }

  /** Two reorderings of the window in a row are one. */
  lemma PermutedTrans(x: seq<int>, y: seq<int>, z: seq<int>, s: int, e: int)
    requires Permuted(x, y, s, e) && Permuted(y, z, s, e)
    ensures Permuted(x, z, s, e)
  {
  }

  /** A reordering of a window reorders the whole sequence. */
  lemma PermutedWhole(x: seq<int>, y: seq<int>, s: int, e: int)
    requires Permuted(x, y, s, e)
    ensures multiset(y) == multiset(x)
  {
    assert x == x[..s] + x[s..e] + x[e..];
    assert y == y[..s] + y[s..e] + y[e..];
  }

  /** The features at `[nc, c)` of `fi` are constant on the samples `m`,
      and every feature index is a column of the matrix. */
  ghost predicate ConstantPrefix(data: seq<seq<real>>, m: multiset<int>, fi: seq<int>, nc: int, c: int)
  {
    0 <= nc <= c <= |fi| && forall q :: nc <= q < c ==> ConstantOn(data, m, fi[q])
  }

  lemma ConstantPrefixMeans(data: seq<seq<real>>, m: multiset<int>, fi: seq<int>, nc: int, c: int)
    requires ConstantPrefix(data, m, fi, nc, c)
    ensures forall q :: nc <= q < c ==> ConstantOn(data, m, fi[q])
  {
  }

  /** Swapping two feature indices at or after `c` keeps the multiset of
      features, the first `nc` in place and the constant prefix; when the
      swap brings a feature constant on `m` to position `c`, the prefix
      grows by one. */
  lemma FeatureSwap(data: seq<seq<real>>, m: multiset<int>, g: seq<int>, h: seq<int>, nc: int, c: int,
                    i: int, j: int, numberOfFeatures: int)
    requires ConstantPrefix(data, m, g, nc, c) && c <= i < |g| && c <= j < |g|
    requires h == g[i := g[j]][j := g[i]]
    requires forall q :: 0 <= q < |g| ==> 0 <= g[q] < numberOfFeatures
    ensures multiset(h) == multiset(g) && h[..nc] == g[..nc]
    ensures forall q :: 0 <= q < |h| ==> 0 <= h[q] < numberOfFeatures
    ensures ConstantPrefix(data, m, h, nc, c)
    ensures j == c && ConstantOn(data, m, g[i]) ==> ConstantPrefix(data, m, h, nc, c + 1)
  {
    assert h[..nc] == g[..nc];
    forall q | nc <= q < c
      ensures h[q] == g[q]
    {
    }
  }

  /** During the partition of `[s, e)`: the samples before `m` go left,
      those from `pe` on go right. */
  ghost predicate Sides(data: seq<seq<real>>, a: seq<int>, s: int, m: int, pe: int, e: int, f: int, threshold: real)
  {
    0 <= s <= m <= pe <= e <= |a|
    && (forall i :: s <= i < m ==> Value(data, a[i], f) <= threshold)
    && (forall i :: pe <= i < e ==> Value(data, a[i], f) > threshold)
  }

  /** Swapping a sample that goes right to the new back end `pe` keeps the
      sides. */
  lemma SwapSides(data: seq<seq<real>>, q: seq<int>, y: seq<int>, s: int, m: int, pe: int, e: int,
                  f: int, threshold: real)
    requires Sides(data, q, s, m, pe + 1, e, f, threshold) && m <= pe
    requires Value(data, q[m], f) > threshold
    requires y == q[pe := q[m]][m := q[pe]]
    ensures Sides(data, y, s, m, pe, e, f, threshold)
  {
  }

  /** When the first `k` samples of the reordered window satisfy `p` and
      the others do not, `k` of the original window do. */
  lemma PartitionCount(data: seq<seq<real>>, x: seq<int>, y: seq<int>, s: int, m: int, e: int, f: int, threshold: real)
    requires Permuted(x, y, s, e) && Sides(data, y, s, m, m, e, f, threshold)
    ensures Count(x[s..e], GoesLeft(data, f, threshold)) == m - s
  {
    var w := y[s..e];
    CountPrefix(w, GoesLeft(data, f, threshold), m - s);
    CountPermutation(w, x[s..e], GoesLeft(data, f, threshold));
  }

  /** Both sides of a window of labelled samples have counts adding up to
      their sizes. */
  lemma SidesCounted(w: seq<int>, k: int, labels: seq<real>, K: nat)
    requires Labelled(w, labels, K) && 0 <= k <= |w|
    ensures |w| > 0 ==> |labels| != 0
    ensures Sum(ClassCounts(w[..k], labels, K)) == k
    ensures Sum(ClassCounts(w[k..], labels, K)) == |w| - k
  {
    assert w == w[..k] + w[k..];
    LabelledSplit(w[..k], w[k..], labels, K);
    ClassCountsSum(w[..k], labels, K);
    ClassCountsSum(w[k..], labels, K);
    if |w| > 0 {
      assert 0 <= w[0] < |labels|;
    }
  }

  /** The improvement of splitting a node into the samples `left` and
      `right`: the criterion's formula over the class counts of each side. */
  ghost function SidesGain(rule: Rule, labels: seq<real>, K: nat, left: seq<int>, right: seq<int>, impurity: real): real
    requires Labelled(left, labels, K) && Labelled(right, labels, K) && 0 < |left| && 0 < |right|
  {
    ClassCountsSum(left, labels, K);
    ClassCountsSum(right, labels, K);
    assert 0 <= left[0] < |labels|;
    ImproveFormula(|left| + |right|, |labels|, |left|, |right|, impurity,
                   Apply(rule, ClassCounts(left, labels, K)), Apply(rule, ClassCounts(right, labels, K)))
  }

  /** The improvement of splitting the window `w` after its first `k`
      samples, as a criterion with rule `rule` computes it with its cursor
      there. */
  ghost function Gain(rule: Rule, labels: seq<real>, K: nat, w: seq<int>, k: int, impurity: real): real
    requires Labelled(w, labels, K) && 0 < k < |w|
  {
    assert w == w[..k] + w[k..];
    LabelledSplit(w[..k], w[k..], labels, K);
    SidesGain(rule, labels, K, w[..k], w[k..], impurity)
  }

  /** The criterion's improvement at cursor `k`, from the counts of the two
      sides, is the gain there. */
  lemma GainIs(rule: Rule, labels: seq<real>, K: nat, w: seq<int>, k: int, impurity: real,
               n: int, l: int, r: int, left: seq<int>, right: seq<int>, g: real)
    requires Labelled(w, labels, K) && 0 < k < |w|
    requires n == |w| && l == k && r == |w| - k
    requires left == ClassCounts(w[..k], labels, K) && right == ClassCounts(w[k..], labels, K)
    requires Sum(left) != 0 && Sum(right) != 0 && |labels| != 0
    requires g == ImproveFormula(n, |labels|, l, r, impurity, Apply(rule, left), Apply(rule, right))
    ensures g == Gain(rule, labels, K, w, k, impurity)
  {
  }

  /** `gains[k]` is the gain of every split position `k` of the window `w`.
      The scan carries this table instead of the gains themselves. */
  ghost predicate Tabulates(rule: Rule, labels: seq<real>, K: nat, w: seq<int>, impurity: real, gains: seq<real>)
  {
    Labelled(w, labels, K) && |gains| == |w|
    && forall k {:trigger Gain(rule, labels, K, w, k, impurity)} :: 0 < k < |w| ==>
         gains[k] == Gain(rule, labels, K, w, k, impurity)
  }

  /** The table of the gains of the window `w`. */
  ghost function GainTable(rule: Rule, labels: seq<real>, K: nat, w: seq<int>, impurity: real): (gains: seq<real>)
    requires Labelled(w, labels, K)
    ensures Tabulates(rule, labels, K, w, impurity, gains)
  {
    seq(|w|, k => if 0 < k < |w| then Gain(rule, labels, K, w, k, impurity) else 0.0)
  }

  /** Reordering the window `[s, e)` of `x` into `y`, and nothing else, keeps
      every sample labelled and leaves the window's counts unchanged. */
  lemma PermutedWindow(x: seq<int>, y: seq<int>, s: int, e: int, labels: seq<real>, K: nat)
    requires Permuted(x, y, s, e)
    requires Labelled(x, labels, K)
    ensures Labelled(y, labels, K) && Labelled(y[s..e], labels, K)
    ensures ClassCounts(y[s..e], labels, K) == ClassCounts(x[s..e], labels, K)
  {
    forall i | 0 <= i < |y|
      ensures 0 <= y[i] < |labels| && 0 <= ClassOf(labels[y[i]]) < K
    {
      if i < s {
        assert y[i] == y[..s][i] == x[..s][i] == x[i];
      } else if i >= e {
        assert y[i] == y[e..][i - e] == x[e..][i - e] == x[i];
      } else {
        assert y[i] == y[s..e][i - s];
        assert y[i] in multiset(x[s..e]);
        var j :| 0 <= j < e - s && x[s..e][j] == y[i];
        assert x[s..e][j] == x[s + j];
      }
    }
    ClassCountsPermutation(y[s..e], x[s..e], labels, K);
  }

  /** A threshold strictly between the values at positions `k - 1` and `k`
      of the window's sorted buffer sends exactly the first `k` samples
      left. */
  lemma ThresholdCount(data: seq<seq<real>>, w: seq<int>, buf: seq<real>, f: int, k: int, threshold: real)
    requires |buf| == |w| && Ascending(buf)
    requires forall i :: 0 <= i < |w| ==> buf[i] == Value(data, w[i], f)
    requires 0 < k < |w| && buf[k - 1] < threshold < buf[k]
    ensures Count(w, GoesLeft(data, f, threshold)) == k
    ensures forall i :: 0 <= i < |w| ==> Value(data, w[i], f) != threshold
  {
    var p := GoesLeft(data, f, threshold);
    forall i | 0 <= i < k
      ensures p(w[i])
    {
      assert buf[i] <= buf[k - 1];
    }
    forall i | k <= i < |w|
      ensures !p(w[i])
    {
      assert buf[k] <= buf[i];
    }
    CountPrefix(w, p, k);
  }

  /** A sample goes to the right child exactly when its value is above the
      threshold. */
  function GoesRight(data: seq<seq<real>>, f: int, threshold: real): int -> bool
  {
    id => Value(data, id, f) > threshold
  }

  /** `threshold` is a split of the samples `w` on feature `f` that the scan
      can reach: both sides are non-empty and hold at least `minLeaf`
      samples, and every value going left lies more than `FeatureThreshold`
      below every value going right. It depends only on the multiset of `w`. */
  ghost predicate Cut(data: seq<seq<real>>, w: seq<int>, f: int, threshold: real, minLeaf: int)
  {
    var l := Count(w, GoesLeft(data, f, threshold));
    0 < l < |w| && minLeaf <= l && minLeaf <= |w| - l
    && forall x, y :: x in multiset(w) && y in multiset(w) && Value(data, x, f) <= threshold < Value(data, y, f) ==>
         Value(data, x, f) + FeatureThreshold < Value(data, y, f)
  }

  /** The samples of `w` that satisfy `p` are labelled. */
  lemma {:induction false} FilteredCounts(w: seq<int>, p: int -> bool, labels: seq<real>, K: nat)
    requires Labelled(w, labels, K)
    ensures Labelled(Filter(w, p), labels, K)
  {
    var r := Filter(w, p);
    forall i | 0 <= i < |r|
      ensures 0 <= r[i] < |labels| && 0 <= ClassOf(labels[r[i]]) < K
    {
      FilterMultiplicity(w, p, r[i]);
      assert r[i] in multiset(r);
      assert r[i] in multiset(w);
      var j :| 0 <= j < |w| && w[j] == r[i];
    }
  }

  /** Both sides of a split at `threshold` are labelled, and the right side
      holds the samples the left side does not. */
  lemma {:induction false} CutSides(data: seq<seq<real>>, w: seq<int>, f: int, threshold: real, labels: seq<real>, K: nat)
    requires Labelled(w, labels, K) && 0 < Count(w, GoesLeft(data, f, threshold)) < |w|
    ensures Labelled(Filter(w, GoesLeft(data, f, threshold)), labels, K)
    ensures Labelled(Filter(w, GoesRight(data, f, threshold)), labels, K)
    ensures |Filter(w, GoesRight(data, f, threshold))| == |w| - Count(w, GoesLeft(data, f, threshold))
  {
    FilteredCounts(w, GoesLeft(data, f, threshold), labels, K);
    FilteredCounts(w, GoesRight(data, f, threshold), labels, K);
    CountComplement(w, GoesLeft(data, f, threshold), GoesRight(data, f, threshold));
  }

  /** The improvement of splitting the samples `w` on feature `f` at
      `threshold`: the gain of the samples going left against those going
      right. Unlike `Gain`, it does not depend on the order of `w`. */
  ghost function CutGain(rule: Rule, labels: seq<real>, K: nat, data: seq<seq<real>>, w: seq<int>, f: int,
                         threshold: real, impurity: real): real
    requires Labelled(w, labels, K) && 0 < Count(w, GoesLeft(data, f, threshold)) < |w|
  {
    CutSides(data, w, f, threshold, labels, K);
    SidesGain(rule, labels, K, Filter(w, GoesLeft(data, f, threshold)), Filter(w, GoesRight(data, f, threshold)), impurity)
  }

  /** `threshold` lies halfway between the largest value of `w` below it and
      the smallest value above it, and no sample of `w` has it as its value,
      so `<` and `<=` against it agree on every sample. */
  ghost predicate Midway(data: seq<seq<real>>, w: seq<int>, f: int, threshold: real)
  {
    (exists lo, hi :: lo in multiset(w) && hi in multiset(w)
       && threshold == (Value(data, lo, f) + Value(data, hi, f)) / 2.0
       && Value(data, lo, f) < threshold < Value(data, hi, f)
       && forall x :: x in multiset(w) ==> Value(data, x, f) <= Value(data, lo, f) || Value(data, hi, f) <= Value(data, x, f))
    && forall x :: x in multiset(w) ==> Value(data, x, f) != threshold
  }

  /** Reordering the samples changes neither the splits, nor their gains,
      nor where the thresholds lie. */
  lemma {:induction false} CutPermuted(data: seq<seq<real>>, w: seq<int>, w': seq<int>, f: int, threshold: real, minLeaf: int,
                    rule: Rule, labels: seq<real>, K: nat, impurity: real)
    requires multiset(w) == multiset(w') && Labelled(w, labels, K)
    ensures Labelled(w', labels, K) && |w'| == |w|
    ensures Count(w', GoesLeft(data, f, threshold)) == Count(w, GoesLeft(data, f, threshold))
    ensures Cut(data, w', f, threshold, minLeaf) == Cut(data, w, f, threshold, minLeaf)
    ensures Midway(data, w', f, threshold) == Midway(data, w, f, threshold)
    ensures 0 < Count(w, GoesLeft(data, f, threshold)) < |w| ==>
              CutGain(rule, labels, K, data, w', f, threshold, impurity) == CutGain(rule, labels, K, data, w, f, threshold, impurity)
  {
    forall i | 0 <= i < |w'|
      ensures 0 <= w'[i] < |labels| && 0 <= ClassOf(labels[w'[i]]) < K
    {
      assert w'[i] in multiset(w);
      var j :| 0 <= j < |w| && w[j] == w'[i];
    }
    assert |w| == |multiset(w)| == |w'|;
    CountPermutation(w, w', GoesLeft(data, f, threshold));
    FilterPermutation(w, w', GoesLeft(data, f, threshold));
    FilterPermutation(w, w', GoesRight(data, f, threshold));
    if 0 < Count(w, GoesLeft(data, f, threshold)) < |w| {
      CutSides(data, w, f, threshold, labels, K);
      CutSides(data, w', f, threshold, labels, K);
      SidesGainPermuted(rule, labels, K, Filter(w, GoesLeft(data, f, threshold)), Filter(w, GoesRight(data, f, threshold)),
                        Filter(w', GoesLeft(data, f, threshold)), Filter(w', GoesRight(data, f, threshold)), impurity);
    }
  }

  /** The gain of two sides depends only on their multisets. */
  lemma SidesGainPermuted(rule: Rule, labels: seq<real>, K: nat, left: seq<int>, right: seq<int>,
                          left': seq<int>, right': seq<int>, impurity: real)
    requires Labelled(left, labels, K) && Labelled(right, labels, K) && 0 < |left| && 0 < |right|
    requires multiset(left) == multiset(left') && multiset(right) == multiset(right')
    requires Labelled(left', labels, K) && Labelled(right', labels, K)
    ensures 0 < |left'| && 0 < |right'|
    ensures SidesGain(rule, labels, K, left', right', impurity) == SidesGain(rule, labels, K, left, right, impurity)
  {
    assert |left| == |multiset(left)| == |left'| && |right| == |multiset(right)| == |right'|;
    ClassCountsPermutation(left, left', labels, K);
    ClassCountsPermutation(right, right', labels, K);
  }

  /** When exactly the first `k` samples of `w` go left, the split at
      `threshold` is the split after position `k`, with the same gain. */
  lemma {:induction false} CutGainAt(rule: Rule, labels: seq<real>, K: nat, data: seq<seq<real>>, w: seq<int>, f: int,
                  threshold: real, k: int, impurity: real)
    requires Labelled(w, labels, K) && 0 < k < |w|
    requires forall i :: 0 <= i < k ==> Value(data, w[i], f) <= threshold
    requires forall i :: k <= i < |w| ==> Value(data, w[i], f) > threshold
    ensures Count(w, GoesLeft(data, f, threshold)) == k
    ensures CutGain(rule, labels, K, data, w, f, threshold, impurity) == Gain(rule, labels, K, w, k, impurity)
  {
    var p, q := GoesLeft(data, f, threshold), GoesRight(data, f, threshold);
    CountPrefix(w, p, k);
    assert p(w[0]) && !q(w[0]);
    assert forall i :: 0 <= i < k ==> p(w[i]) && !q(w[i]);
    assert forall i :: k <= i < |w| ==> !p(w[i]) && q(w[i]);
    FilterSplit(w, p, k);
    FilterSplit(w, q, k);
    assert Filter(w, p) == w[..k];
    assert Filter(w, q) == w[k..];
  }

  /** Filtering a sequence whose first `k` elements agree on `p` and whose
      others agree on its negation. */
  lemma {:induction false} FilterSplit(w: seq<int>, p: int -> bool, k: int)
    requires 0 <= k <= |w|
    requires forall i :: 0 <= i < k ==> p(w[i]) == p(w[0])
    requires forall i :: k <= i < |w| ==> p(w[i]) == !p(w[0])
    ensures k > 0 ==> Filter(w, p) == if p(w[0]) then w[..k] else w[k..]
  {
    if k > 0 {
      assert w == w[..k] + w[k..];
      FilterAppend(w[..k], w[k..], p);
      FilterAllOrNone(w[..k], p, p(w[0]));
      FilterAllOrNone(w[k..], p, !p(w[0]));
    }
  }

  /** The first position of an ascending buffer whose value is above `t`. */
  function FirstAbove(buf: seq<real>, t: real): (m: nat)
    requires Ascending(buf)
    ensures m <= |buf|
    ensures forall i :: 0 <= i < m ==> buf[i] <= t
    ensures forall i :: m <= i < |buf| ==> buf[i] > t
  {
    if |buf| == 0 || buf[0] > t then 0 else 1 + FirstAbove(buf[1..], t)
  }

  /** Over a window sorted by feature `f`, a split at `threshold` is the
      split at a boundary of the sorted buffer with enough samples on both
      sides, and has the gain of that position. */
  lemma {:induction false} SortedCut(data: seq<seq<real>>, w: seq<int>, buf: seq<real>, f: int, threshold: real, minLeaf: int,
                  rule: Rule, labels: seq<real>, K: nat, impurity: real)
    requires |buf| == |w| && Ascending(buf) && Labelled(w, labels, K)
    requires forall i :: 0 <= i < |w| ==> buf[i] == Value(data, w[i], f)
    requires Cut(data, w, f, threshold, minLeaf)
    ensures var l := Count(w, GoesLeft(data, f, threshold));
      Boundary(buf, l) && minLeaf <= l && minLeaf <= |buf| - l
      && CutGain(rule, labels, K, data, w, f, threshold, impurity) == Gain(rule, labels, K, w, l, impurity)
  {
    var m := FirstAbove(buf, threshold);
    CountPrefix(w, GoesLeft(data, f, threshold), m);
    CutGainAt(rule, labels, K, data, w, f, threshold, m, impurity);
    assert w[m - 1] in w && w[m] in w;
  }

  /** The threshold the scan records for the boundary `k` of the sorted
      buffer, the midpoint of the values on either side, is a split of the
      window with the gain of position `k`. */
  lemma {:induction false} RecordedCut(data: seq<seq<real>>, w: seq<int>, buf: seq<real>, f: int, k: int, threshold: real,
                    minLeaf: int, rule: Rule, labels: seq<real>, K: nat, impurity: real)
    requires |buf| == |w| && Ascending(buf) && Labelled(w, labels, K)
    requires forall i :: 0 <= i < |w| ==> buf[i] == Value(data, w[i], f)
    requires Boundary(buf, k) && minLeaf <= k && minLeaf <= |w| - k
    requires threshold == (buf[k - 1] + buf[k]) / 2.0
    ensures Cut(data, w, f, threshold, minLeaf) && Midway(data, w, f, threshold)
    ensures Count(w, GoesLeft(data, f, threshold)) == k
    ensures CutGain(rule, labels, K, data, w, f, threshold, impurity) == Gain(rule, labels, K, w, k, impurity)
  {
    ThresholdCount(data, w, buf, f, k, threshold);
    WindowGap(data, w, buf, f, k);
    CutGainAt(rule, labels, K, data, w, f, threshold, k, impurity);
    RecordedMidway(data, w, buf, f, k, threshold);
  }

  /** The values of a sorted window lie on either side of the gap between
      positions `k - 1` and `k`. */
  lemma {:induction false} WindowGap(data: seq<seq<real>>, w: seq<int>, buf: seq<real>, f: int, k: int)
    requires |buf| == |w| && Ascending(buf) && 0 < k < |w|
    requires forall i :: 0 <= i < |w| ==> buf[i] == Value(data, w[i], f)
    ensures forall i :: 0 <= i < k ==> Value(data, w[i], f) <= buf[k - 1]
    ensures forall i :: k <= i < |w| ==> buf[k] <= Value(data, w[i], f)
    ensures forall x :: x in multiset(w) ==> Value(data, x, f) <= buf[k - 1] || buf[k] <= Value(data, x, f)
  {
    forall i | 0 <= i < k
      ensures Value(data, w[i], f) <= buf[k - 1]
    {
      assert buf[i] <= buf[k - 1];
    }
    forall i | k <= i < |w|
      ensures buf[k] <= Value(data, w[i], f)
    {
      assert buf[k] <= buf[i];
    }
    forall x | x in multiset(w)
      ensures Value(data, x, f) <= buf[k - 1] || buf[k] <= Value(data, x, f)
    {
      var i :| 0 <= i < |w| && w[i] == x;
    }
  }

  /** The midpoint of a gap of a sorted window lies between two neighbouring
      values of the window, and equals none. */
  lemma {:induction false} RecordedMidway(data: seq<seq<real>>, w: seq<int>, buf: seq<real>, f: int, k: int, threshold: real)
    requires |buf| == |w| && 0 < k < |w| && buf[k - 1] < buf[k]
    requires forall i :: 0 <= i < |w| ==> buf[i] == Value(data, w[i], f)
    requires forall x :: x in multiset(w) ==> Value(data, x, f) <= buf[k - 1] || buf[k] <= Value(data, x, f)
    requires threshold == (buf[k - 1] + buf[k]) / 2.0
    ensures Midway(data, w, f, threshold)
  {
    var lo, hi := w[k - 1], w[k];
    assert lo in multiset(w) && hi in multiset(w);
    assert Value(data, lo, f) == buf[k - 1] && Value(data, hi, f) == buf[k];
  }


  /** A feature constant on the samples admits no split of them. */
  lemma {:induction false} ConstantNoCut(data: seq<seq<real>>, w: seq<int>, f: int, threshold: real, minLeaf: int)
    requires ConstantOn(data, multiset(w), f)
    ensures !Cut(data, w, f, threshold, minLeaf)
  {
    if Cut(data, w, f, threshold, minLeaf) {
      var p := GoesLeft(data, f, threshold);
      var l := Count(w, p);
      CountComplement(w, p, GoesRight(data, f, threshold));
      var x := FilterWitness(w, p);
      var y := FilterWitness(w, GoesRight(data, f, threshold));
    }
  }

  /** An element of `s` that satisfies `p`, when some does. */
  lemma {:induction false} FilterWitness(s: seq<int>, p: int -> bool) returns (x: int)
    requires Count(s, p) > 0
    ensures x in s && p(x)
  {
    var r := Filter(s, p);
    x := r[0];
    FilterMultiplicity(s, p, x);
    assert x in multiset(r);
  }

  /** When the sorted buffer's last value is within `FeatureThreshold` of its
      first, the feature is constant over the window. */
  lemma ConstantFromSorted(data: seq<seq<real>>, w: seq<int>, buf: seq<real>, f: int)
    requires |buf| == |w| > 0 && Ascending(buf)
    requires forall i :: 0 <= i < |w| ==> buf[i] == Value(data, w[i], f)
    requires buf[|buf| - 1] <= buf[0] + FeatureThreshold
    ensures ConstantOn(data, multiset(w), f)
  {
    forall x, y | x in multiset(w) && y in multiset(w)
      ensures Value(data, x, f) <= Value(data, y, f) + FeatureThreshold
    {
      var i :| 0 <= i < |w| && w[i] == x;
      var j :| 0 <= j < |w| && w[j] == y;
      assert buf[i] <= buf[|buf| - 1];
      assert buf[0] <= buf[j];
    }
  }

  /** Sorting a feature buffer and its samples together by the buffer's
      stable order keeps each value next to its sample, orders the values,
      and keeps the samples. */
  lemma SortedByFeature(data: seq<seq<real>>, f: int, keys: seq<real>, values: seq<int>, keys': seq<real>, values': seq<int>)
    requires |values| == |keys|
    requires forall i :: 0 <= i < |keys| ==> keys[i] == Value(data, values[i], f)
    requires keys' == Gather(keys, StableOrder(keys)) && values' == Gather(values, StableOrder(keys))
    ensures |keys'| == |keys| && |values'| == |values| && Ascending(keys')
    ensures multiset(values') == multiset(values)
    ensures forall i :: 0 <= i < |keys'| ==> keys'[i] == Value(data, values'[i], f)
  {
    SortTwoArrayMeaning(keys, values, keys', values');
    var o := StableOrder(keys);
    GatherIndex(keys, o);
    GatherIndex(values, o);
  }

  /** The skipping step of the scan over a sorted buffer that holds the
      window `[s, e)`: from `from` it moves past every value within
      `FeatureThreshold` of its predecessor, then one step more. No boundary
      is skipped, and the result is a boundary unless it is the end. */
  method NextBoundary(buf: seq<real>, s: int, e: int, from: int) returns (sampleId: int)
    requires s <= from < e && |buf| == e - s
    ensures from < sampleId <= e
    ensures forall k :: from - s < k < sampleId - s ==> !Boundary(buf, k)
    ensures sampleId < e ==> Boundary(buf, sampleId - s)
  {
    sampleId := from;
    if sampleId + 1 < e {
      while buf[sampleId + 1 - s] <= buf[sampleId - s] + FeatureThreshold
        invariant from <= sampleId < e - 1
        invariant forall k :: from - s < k <= sampleId - s ==> !Boundary(buf, k)
        decreases e - sampleId
      {
        sampleId := sampleId + 1;
        if sampleId == e - 1 {
          break;
        }
      }
    }
    sampleId := sampleId + 1;
  }

  class Splitter {
    /** The training matrix, one row of feature values per sample. */
    const data: seq<seq<real>>
    const criterion: ClassificationCriterion
    const minSamplesInALeaf: int
    const numberOfFeaturesToSplit: int
    const numberOfFeatures: nat
    /** Shared with the builder and the criterion. */
    const sampleIndices: array<int>
    /** The feature indices: those known constant on the current node come
        first, the rest are still candidates. */
    const featureIndices: array<int>
    var startIndex: int
    var endIndex: int

    /** The matrix has one column per feature, every sample of the index
        array has a label of one of the classes, and every entry of the
        feature-index array is a feature. */
    ghost predicate Valid()
      reads this, criterion, sampleIndices, featureIndices
    {
      Layout() && criterion.Shaped() && |criterion.labels| == |data|
      && Labelled(sampleIndices[..], criterion.labels, criterion.numberOfClasses)
    }

    /** The shape of the matrix and of the feature-index array. */
    ghost predicate Layout()
      reads this, featureIndices
    {
      (forall r :: 0 <= r < |data| ==> |data[r]| == numberOfFeatures)
      && featureIndices != sampleIndices
      && featureIndices.Length == numberOfFeatures
      && (forall q :: 0 <= q < featureIndices.Length ==> 0 <= featureIndices[q] < numberOfFeatures)
    }

    /** The criterion holds the statistics of the current node. */
    ghost predicate NodeOk()
      reads this, criterion, sampleIndices, featureIndices
    {
      Valid() && criterion.sampleIndices == sampleIndices
      && criterion.start == startIndex && criterion.end == endIndex
      && criterion.TotalsOk()
    }

    /** `sp` splits the window `w`, which starts at `start`: strictly inside
        it, with at least `minSamplesInALeaf` samples on each side, a
        positive improvement, and exactly the first `split - start` samples
        going left. */
    ghost predicate Separates(w: seq<int>, start: int, sp: SplitRecord)
    {
      var p := sp.splitSampleIndex;
      start < p < start + |w|
      && p - start >= minSamplesInALeaf && start + |w| - p >= minSamplesInALeaf
      && 0 <= sp.featureIndexToSplit < numberOfFeatures
      && sp.impurityImprovement > 0.0
      && Count(w, GoesLeft(data, sp.featureIndexToSplit, sp.threshold)) == p - start
    }

    /** A boundary of the sorted buffer that leaves enough samples on both
        sides. */
    predicate Candidate(buf: seq<real>, k: int)
    {
      Boundary(buf, k) && k >= minSamplesInALeaf && |buf| - k >= minSamplesInALeaf
    }

    /** `sp` is the record the scan of feature `f` keeps for the candidate
        `k = split - start` of the sorted buffer: the threshold is the
        midpoint of the values on either side, the improvement is the gain there (entry
        `k` of the table `gains` of the window's gains), and the child
        impurities are the rule applied to each side's counts. */
    ghost predicate Recorded(w: seq<int>, buf: seq<real>, gains: seq<real>, start: int, f: int, sp: SplitRecord)
    {
      var k := sp.splitSampleIndex - start;
      |buf| == |w| && |gains| == |w| && Labelled(w, criterion.labels, criterion.numberOfClasses)
      && Separates(w, start, sp) && sp.featureIndexToSplit == f
      && Candidate(buf, k) && buf[k - 1] < sp.threshold < buf[k]
      && sp.threshold == (buf[k - 1] + buf[k]) / 2.0
      && sp.impurityImprovement == gains[k]
      && (SidesCounted(w, k, criterion.labels, criterion.numberOfClasses);
          sp.impurityLeft == Apply(criterion.rule, ClassCounts(w[..k], criterion.labels, criterion.numberOfClasses))
          && sp.impurityRight == Apply(criterion.rule, ClassCounts(w[k..], criterion.labels, criterion.numberOfClasses)))
    }

    /** Keeps the collaborators and numbers the features 0, 1, ... */
    constructor(data: seq<seq<real>>, criterion: ClassificationCriterion, minSamplesInALeaf: int,
                numberOfFeaturesToSplit: int, sampleIndices: array<int>, numberOfFeatures: nat)
      requires forall r :: 0 <= r < |data| ==> |data[r]| == numberOfFeatures
      ensures this.data == data && this.criterion == criterion && this.sampleIndices == sampleIndices
      ensures this.minSamplesInALeaf == minSamplesInALeaf && this.numberOfFeaturesToSplit == numberOfFeaturesToSplit
      ensures this.numberOfFeatures == numberOfFeatures
      ensures fresh(featureIndices) && featureIndices[..] == Range(0, numberOfFeatures)
      ensures startIndex == -1 && endIndex == -1
      ensures (|criterion.labels| == |data| && criterion.Shaped()
               && Labelled(sampleIndices[..], criterion.labels, criterion.numberOfClasses)) ==> Valid()
    {
      this.data := data;
      this.criterion := criterion;
      this.minSamplesInALeaf := minSamplesInALeaf;
      this.numberOfFeaturesToSplit := numberOfFeaturesToSplit;
      this.numberOfFeatures := numberOfFeatures;
      this.sampleIndices := sampleIndices;
      featureIndices := new int[numberOfFeatures](i => i);
      startIndex, endIndex := -1, -1;
    }

    /** Makes `[s, e)` the current node and lets the criterion count it. */
    method ResetToThisNode(s: int, e: int)
      modifies this, criterion
      requires Valid() && 0 <= s <= e <= sampleIndices.Length
      ensures startIndex == s && endIndex == e
      ensures NodeOk() && criterion.Valid() && criterion.cursor == s
      ensures criterion.total == ClassCounts(sampleIndices[s..e], criterion.labels, criterion.numberOfClasses)
    {
      startIndex := s;
      endIndex := e;
      assert sampleIndices[s..e] == sampleIndices[..][s..e];
      criterion.Init(sampleIndices, startIndex, endIndex);
    }

    /** The impurity of the current node: the criterion's rule applied to
        the counts of the window, in [0, 1] for Gini and Bernoulli. */
    function CalculateNodeImpurity(): (r: real)
      reads this, criterion, sampleIndices, featureIndices
      requires NodeOk() && startIndex < endIndex
      ensures Sum(ClassCounts(sampleIndices[startIndex..endIndex], criterion.labels, criterion.numberOfClasses)) != 0
      ensures r == Apply(criterion.rule, ClassCounts(sampleIndices[startIndex..endIndex], criterion.labels, criterion.numberOfClasses))
      ensures criterion.rule == GiniRule || criterion.rule == BernoulliRule ==> 0.0 <= r <= 1.0
    {
      ClassCountsSum(sampleIndices[startIndex..endIndex], criterion.labels, criterion.numberOfClasses);
      ClassCountsNonNegative(sampleIndices[startIndex..endIndex], criterion.labels, criterion.numberOfClasses);
      criterion.NodeImpurity()
    }

    /** The samples of the window are rows of the matrix, which has a
        column for every feature. */
    ghost predicate WindowInData()
      reads this, sampleIndices
    {
      (forall r :: 0 <= r < |data| ==> |data[r]| == numberOfFeatures)
      && 0 <= startIndex <= endIndex <= sampleIndices.Length
      && forall i :: startIndex <= i < endIndex ==> 0 <= sampleIndices[i] < |data|
    }

    lemma NodeInData()
      requires NodeOk()
      ensures WindowInData()
    {
      forall i | startIndex <= i < endIndex
        ensures 0 <= sampleIndices[i] < |data|
      {
        assert sampleIndices[i] == sampleIndices[..][i];
      }
    }

    /** Copies feature `f` of the window's samples into a buffer and sorts
        the buffer and the window together: the buffer ends ascending, entry
        `i` is the value of the window's `i`-th sample, and the window holds
        the same samples as before. */
    method SortByFeature(f: int) returns (buf: seq<real>)
      modifies sampleIndices
      requires WindowInData() && 0 <= f < numberOfFeatures
      ensures |buf| == endIndex - startIndex && Ascending(buf)
      ensures forall i :: 0 <= i < |buf| ==> buf[i] == Value(data, sampleIndices[startIndex..endIndex][i], f)
      ensures multiset(sampleIndices[startIndex..endIndex]) == old(multiset(sampleIndices[startIndex..endIndex]))
      ensures sampleIndices[..startIndex] == old(sampleIndices[..startIndex])
      ensures sampleIndices[endIndex..] == old(sampleIndices[endIndex..])
    {
      var s, e := startIndex, endIndex;
      var dataBuffer := FillBuffer(f);
      ghost var keys, values := dataBuffer[..], sampleIndices[s..e];
      SortTwoArray(dataBuffer, sampleIndices, s);
      buf := dataBuffer[..];
      ghost var values' := sampleIndices[s..e];
      SortedByFeature(data, f, keys, values, buf, values');
    }

    /** The buffer of feature `f` over the window, in window order. */
    method FillBuffer(f: int) returns (dataBuffer: array<real>)
      requires WindowInData() && 0 <= f < numberOfFeatures
      ensures fresh(dataBuffer) && dataBuffer.Length == endIndex - startIndex
      ensures forall k :: 0 <= k < dataBuffer.Length ==>
                dataBuffer[k] == Value(data, sampleIndices[startIndex..endIndex][k], f)
    {
      var s, e := startIndex, endIndex;
      var n := e - s;
      dataBuffer := new real[n];
      for sampleId := 0 to n
        invariant forall k :: 0 <= k < sampleId ==> dataBuffer[k] == Value(data, sampleIndices[k + s], f)
      {
        var dataIndex := sampleIndices[sampleId + s];
        dataBuffer[sampleId] := data[dataIndex][f];
      }
    }

    /** The criterion follows the current node. */
    ghost predicate Scanning()
      reads this, criterion, sampleIndices
    {
      criterion.sampleIndices == sampleIndices && criterion.Valid()
      && criterion.start == startIndex && criterion.end == endIndex
    }

    /** Moves the criterion's cursor to `p` and evaluates the split there:
        the improvement is the gain of splitting the window after its first
        `p - startIndex` samples, and the criterion's child impurities are
        those of the two sides. */
    method TrySplit(p: int, impurity: real, ghost w: seq<int>) returns (improvement: real)
      modifies criterion
      requires Scanning() && criterion.cursor <= p && startIndex < p < endIndex && w == sampleIndices[startIndex..endIndex]
      ensures Scanning() && criterion.cursor == p && criterion.total == old(criterion.total)
      ensures Labelled(w, criterion.labels, criterion.numberOfClasses)
      ensures improvement == Gain(criterion.rule, criterion.labels, criterion.numberOfClasses, w, p - startIndex, impurity)
      ensures Sum(criterion.left) != 0 && Sum(criterion.right) != 0
      ensures criterion.left == ClassCounts(w[..p - startIndex], criterion.labels, criterion.numberOfClasses)
      ensures criterion.right == ClassCounts(w[p - startIndex..], criterion.labels, criterion.numberOfClasses)
    {
      criterion.Update(p);
      criterion.RightCounts();
      improvement := criterion.ImpurityImprove(impurity);
      var k := p - startIndex;
      PrefixOfSlice(sampleIndices[..], startIndex, p, endIndex);
      assert w[k..] == sampleIndices[p..endIndex];
      GainIs(criterion.rule, criterion.labels, criterion.numberOfClasses, w, k, impurity,
             criterion.nodeCount, criterion.leftCount, criterion.rightCount, criterion.left, criterion.right, improvement);
    }

    /** No candidate among the first `upTo` positions of the sorted buffer
        has a gain above `bound`. */
    ghost predicate NoBetterCandidate(w: seq<int>, buf: seq<real>, upTo: int, impurity: real, bound: real)
    {
      Labelled(w, criterion.labels, criterion.numberOfClasses) && |buf| == |w|
      && forall k :: 0 < k <= upTo && Candidate(buf, k) ==>
           Gain(criterion.rule, criterion.labels, criterion.numberOfClasses, w, k, impurity) <= bound
    }

    /** The same as `NoBetterCandidate`, one position at a time and over the
        table `gains`: this is the form the scan carries from step to step. */
    ghost predicate BestSoFar(buf: seq<real>, gains: seq<real>, upTo: int, bound: real)
      decreases upTo
    {
      |buf| == |gains|
      && (upTo > 0 ==>
            BestSoFar(buf, gains, upTo - 1, bound)
            && (Candidate(buf, upTo) ==> gains[upTo] <= bound))
    }

    lemma {:induction false} BestSoFarMeans(w: seq<int>, buf: seq<real>, gains: seq<real>, upTo: int,
                                            impurity: real, bound: real)
      requires Tabulates(criterion.rule, criterion.labels, criterion.numberOfClasses, w, impurity, gains)
      requires BestSoFar(buf, gains, upTo, bound)
      ensures NoBetterCandidate(w, buf, upTo, impurity, bound)
      decreases upTo
    {
      if upTo > 0 {
        BestSoFarMeans(w, buf, gains, upTo - 1, impurity, bound);
      }
    }

    /** A bound that holds for the first `upTo` positions holds for any
        larger bound. */
    lemma {:induction false} BestSoFarRaise(buf: seq<real>, gains: seq<real>, upTo: int, bound: real, bound': real)
      requires BestSoFar(buf, gains, upTo, bound) && bound <= bound'
      ensures BestSoFar(buf, gains, upTo, bound')
      decreases upTo
    {
      if upTo > 0 {
        BestSoFarRaise(buf, gains, upTo - 1, bound, bound');
      }
    }

    /** One step of the scan: from `from`, it skips the positions that are no
        boundaries and stops at `next`, which is either past the buffer, or no
        candidate, or a candidate whose gain is at most the new bound. */
    lemma {:induction false} ScanStep(buf: seq<real>, gains: seq<real>, from: int, next: int, bound: real, bound': real)
      requires BestSoFar(buf, gains, from, bound) && bound <= bound' && from < next
      requires forall k :: from < k < next ==> !Boundary(buf, k)
      requires next < |buf| && Candidate(buf, next) ==> gains[next] <= bound'
      ensures BestSoFar(buf, gains, next, bound')
      decreases next - from
    {
      if from == next - 1 {
        BestSoFarRaise(buf, gains, from, bound, bound');
      } else {
        ScanStep(buf, gains, from, next - 1, bound, bound');
      }
    }

    /** The record the scan keeps for the candidate `k`: the threshold is
        the midpoint of the two values around the boundary. */
    lemma RecordStep(w: seq<int>, buf: seq<real>, gains: seq<real>, start: int, f: int, k: int,
                     impurityLeft: real, impurityRight: real, best0: real, sp: SplitRecord)
      requires Labelled(w, criterion.labels, criterion.numberOfClasses) && |buf| == |w| && Ascending(buf)
      requires forall i :: 0 <= i < |buf| ==> buf[i] == Value(data, w[i], f)
      requires 0 <= f < numberOfFeatures && Candidate(buf, k) && |gains| == |w| && best0 >= 0.0 && gains[k] > best0
      requires Sum(ClassCounts(w[..k], criterion.labels, criterion.numberOfClasses)) != 0
      requires Sum(ClassCounts(w[k..], criterion.labels, criterion.numberOfClasses)) != 0
      requires impurityLeft == Apply(criterion.rule, ClassCounts(w[..k], criterion.labels, criterion.numberOfClasses))
      requires impurityRight == Apply(criterion.rule, ClassCounts(w[k..], criterion.labels, criterion.numberOfClasses))
      requires sp == SplitRecord(f, start + k, (buf[k - 1] + buf[k]) / 2.0, gains[k], impurityLeft, impurityRight)
      ensures Recorded(w, buf, gains, start, f, sp)
    {
      var threshold := (buf[k - 1] + buf[k]) / 2.0;
      ThresholdCount(data, w, buf, f, k, threshold);
    }

    /** No split of the samples `w` on feature `f` has a gain above `bound`. */
    ghost predicate NoCutAbove(w: seq<int>, f: int, impurity: real, bound: real)
    {
      Labelled(w, criterion.labels, criterion.numberOfClasses)
      && forall t :: Cut(data, w, f, t, minSamplesInALeaf) ==>
           CutGain(criterion.rule, criterion.labels, criterion.numberOfClasses, data, w, f, t, impurity) <= bound
    }

    /** Every split of the samples `w` on feature `f` has a gain below
        `bound`. */
    ghost predicate NoCutReaching(w: seq<int>, f: int, impurity: real, bound: real)
    {
      Labelled(w, criterion.labels, criterion.numberOfClasses)
      && forall t :: Cut(data, w, f, t, minSamplesInALeaf) ==>
           CutGain(criterion.rule, criterion.labels, criterion.numberOfClasses, data, w, f, t, impurity) < bound
    }

    /** `sp` splits the samples `w` on its feature at a threshold halfway
        between two neighbouring values, and its improvement is the gain of
        that split. */
    ghost predicate BestCut(w: seq<int>, impurity: real, sp: SplitRecord)
    {
      Labelled(w, criterion.labels, criterion.numberOfClasses)
      && Cut(data, w, sp.featureIndexToSplit, sp.threshold, minSamplesInALeaf)
      && sp.impurityImprovement
         == CutGain(criterion.rule, criterion.labels, criterion.numberOfClasses, data, w,
                    sp.featureIndexToSplit, sp.threshold, impurity)
      && Midway(data, w, sp.featureIndexToSplit, sp.threshold)
    }

    /** What a completed scan of feature `f` over the window `w`, sorted
        into `buf`, says about the samples `w0`, which `w` reorders: no
        split on `f` beats the kept record. */
    lemma ScanMeaning(w: seq<int>, w0: seq<int>, buf: seq<real>, f: int, impurity: real, bound: real)
      requires |buf| == |w| && Ascending(buf) && (forall i :: 0 <= i < |buf| ==> buf[i] == Value(data, w[i], f))
      requires NoBetterCandidate(w, buf, |buf|, impurity, bound) && multiset(w0) == multiset(w)
      ensures NoCutAbove(w0, f, impurity, bound)
    {
      var rule, labels, K := criterion.rule, criterion.labels, criterion.numberOfClasses;
      CutPermuted(data, w, w0, f, 0.0, minSamplesInALeaf, rule, labels, K, impurity);
      forall t | Cut(data, w0, f, t, minSamplesInALeaf)
        ensures CutGain(rule, labels, K, data, w0, f, t, impurity) <= bound
      {
        CutPermuted(data, w0, w, f, t, minSamplesInALeaf, rule, labels, K, impurity);
        SortedCut(data, w, buf, f, t, minSamplesInALeaf, rule, labels, K, impurity);
        var l := Count(w, GoesLeft(data, f, t));
        assert Candidate(buf, l);
      }
    }

    /** A record the scan kept for the window `w` is a midpoint split of the
        samples `w0`, which `w` reorders, with the split's gain. */
    lemma RecordMeaning(w: seq<int>, w0: seq<int>, buf: seq<real>, gains: seq<real>, start: int, f: int,
                        impurity: real, sp: SplitRecord)
      requires |buf| == |w| && Ascending(buf) && (forall i :: 0 <= i < |buf| ==> buf[i] == Value(data, w[i], f))
      requires Tabulates(criterion.rule, criterion.labels, criterion.numberOfClasses, w, impurity, gains)
      requires Recorded(w, buf, gains, start, f, sp) && multiset(w0) == multiset(w)
      ensures BestCut(w0, impurity, sp)
    {
      var rule, labels, K := criterion.rule, criterion.labels, criterion.numberOfClasses;
      var k := sp.splitSampleIndex - start;
      assert Candidate(buf, k) && sp.featureIndexToSplit == f;
      assert sp.threshold == (buf[k - 1] + buf[k]) / 2.0 && sp.impurityImprovement == gains[k];
      assert gains[k] == Gain(rule, labels, K, w, k, impurity);
      RecordedCut(data, w, buf, f, k, sp.threshold, minSamplesInALeaf, rule, labels, K, impurity);
      CutPermuted(data, w, w0, f, sp.threshold, minSamplesInALeaf, rule, labels, K, impurity);
    }

    /** A bound on the gains of a feature holds for any larger bound, and
        strictly for a strictly larger one. */
    lemma NoCutRaise(w: seq<int>, f: int, impurity: real, bound: real, bound': real)
      requires NoCutAbove(w, f, impurity, bound) && bound <= bound'
      ensures NoCutAbove(w, f, impurity, bound')
      ensures bound < bound' ==> NoCutReaching(w, f, impurity, bound')
    {
    }

    /** The result of the split search so far over the samples `w0`: the
        features at `[from, |fi|)` of the feature indices `fi` were scanned,
        the last scanned first, and none has a split with a gain above
        `best`'s. Unless `best` is no split, its feature is the one at `at`,
        it is a midpoint split with its gain as improvement, and every
        feature scanned before it has only splits with smaller gains. */
    ghost predicate Optimal(w0: seq<int>, impurity: real, fi: seq<int>, from: int, best: SplitRecord, at: int, end: int)
    {
      0 <= from <= |fi|
      && (forall q :: from <= q < |fi| ==> NoCutAbove(w0, fi[q], impurity, best.impurityImprovement))
      && (best == NoSplit(end)
          || (from <= at < |fi| && fi[at] == best.featureIndexToSplit && BestCut(w0, impurity, best)
              && forall q :: at < q < |fi| ==> NoCutReaching(w0, fi[q], impurity, best.impurityImprovement)))
    }

    /** Changing feature indices before `from` keeps the search result. */
    lemma OptimalFrame(w0: seq<int>, impurity: real, fi: seq<int>, fi': seq<int>, from: int, best: SplitRecord, at: int, end: int)
      requires Optimal(w0, impurity, fi, from, best, at, end)
      requires |fi'| == |fi| && 0 <= from && fi'[from..] == fi[from..]
      ensures Optimal(w0, impurity, fi', from, best, at, end)
    {
      forall q | from <= q < |fi|
        ensures fi'[q] == fi[q]
      {
        assert fi'[q] == fi'[from..][q - from];
      }
    }

    /** Scanning the feature at `from - 1` extends the search result: the
        record is kept, or replaced by a strictly better split on that
        feature. */
    lemma OptimalStep(w0: seq<int>, impurity: real, fi: seq<int>, from: int, best: SplitRecord, best': SplitRecord,
                      at: int, at': int, end: int)
      requires Optimal(w0, impurity, fi, from, best, at, end) && 0 < from
      requires NoCutAbove(w0, fi[from - 1], impurity, best'.impurityImprovement)
      requires best'.impurityImprovement >= best.impurityImprovement
      requires best' == best
               || (best'.impurityImprovement > best.impurityImprovement
                   && best'.featureIndexToSplit == fi[from - 1] && BestCut(w0, impurity, best'))
      requires at' == if best' == best then at else from - 1
      ensures Optimal(w0, impurity, fi, from - 1, best', at', end)
    {
      forall q | from <= q < |fi|
        ensures NoCutAbove(w0, fi[q], impurity, best'.impurityImprovement)
        ensures best' != best ==> NoCutReaching(w0, fi[q], impurity, best'.impurityImprovement)
      {
        NoCutRaise(w0, fi[q], impurity, best.impurityImprovement, best'.impurityImprovement);
      }
    }

    /** What the scan of feature `f` knows once the first `upTo` positions
        of the sorted buffer have been tried: `best` is `best0` or a better
        record of this feature, and no candidate so far beats it. */
    ghost predicate ScanValues(w: seq<int>, buf: seq<real>, gains: seq<real>, f: int, start: int,
                               best0: SplitRecord, best: SplitRecord, upTo: int)
    {
      |buf| == |w| && Ascending(buf) && (forall i :: 0 <= i < |buf| ==> buf[i] == Value(data, w[i], f))
      && 0 <= f < numberOfFeatures && best0.impurityImprovement >= 0.0
      && best.impurityImprovement >= best0.impurityImprovement
      && (best == best0
          || (best.impurityImprovement > best0.impurityImprovement
              && Recorded(w, buf, gains, start, f, best)))
      && BestSoFar(buf, gains, upTo, best.impurityImprovement)
    }

    /** The scan moves from `from` to the next boundary `next`, keeping the
        record or replacing it with a better one for `next`. */
    lemma ScanAdvance(w: seq<int>, buf: seq<real>, gains: seq<real>, f: int, start: int,
                      best0: SplitRecord, best: SplitRecord, best': SplitRecord, from: int, next: int)
      requires ScanValues(w, buf, gains, f, start, best0, best, from) && from < next
      requires forall k :: from < k < next ==> !Boundary(buf, k)
      requires best'.impurityImprovement >= best.impurityImprovement
      requires best' == best
               || (best'.impurityImprovement > best.impurityImprovement
                   && Recorded(w, buf, gains, start, f, best'))
      requires next < |buf| && Candidate(buf, next) ==> gains[next] <= best'.impurityImprovement
      ensures ScanValues(w, buf, gains, f, start, best0, best', next)
    {
      ScanStep(buf, gains, from, next, best.impurityImprovement, best'.impurityImprovement);
    }

    /** The state of the scan between two steps: the criterion follows the
        node with its cursor at most at `sampleId`, and `gains` is the table
        of the window's gains. */
    ghost predicate Scanned(w: seq<int>, buf: seq<real>, gains: seq<real>, f: int, impurity: real, total0: seq<int>,
                            best0: SplitRecord, best: SplitRecord, sampleId: int)
      reads this, criterion, sampleIndices
    {
      startIndex <= sampleId <= endIndex
      && Scanning() && criterion.cursor <= sampleId && criterion.total == total0 && w == sampleIndices[startIndex..endIndex]
      && Tabulates(criterion.rule, criterion.labels, criterion.numberOfClasses, w, impurity, gains)
      && ScanValues(w, buf, gains, f, startIndex, best0, best, sampleId - startIndex)
    }

    /** Moving on to the next boundary `next`, which is no candidate, keeps
        the state of the scan. */
    lemma ScanSkip(w: seq<int>, buf: seq<real>, gains: seq<real>, f: int, impurity: real, total0: seq<int>,
                   best0: SplitRecord, best: SplitRecord, sampleId: int, next: int)
      requires Scanned(w, buf, gains, f, impurity, total0, best0, best, sampleId)
      requires sampleId < next <= endIndex
      requires forall k :: sampleId - startIndex < k < next - startIndex ==> !Boundary(buf, k)
      requires next - startIndex < |buf| ==> !Candidate(buf, next - startIndex)
      ensures Scanned(w, buf, gains, f, impurity, total0, best0, best, next)
    {
      var from, to := sampleId - startIndex, next - startIndex;
      ScanAdvance(w, buf, gains, f, startIndex, best0, best, best, from, to);
    }

    /** Evaluates the candidate `p` of the scan of feature `f`: a strictly
        larger improvement than the best so far gives a new record. */
    method Evaluate(p: int, impurity: real, ghost w: seq<int>, ghost gains: seq<real>, ghost k: int,
                    buf: seq<real>, f: int, best: SplitRecord)
      returns (best': SplitRecord)
      modifies criterion
      requires Scanning() && criterion.cursor <= p && startIndex < p < endIndex && w == sampleIndices[startIndex..endIndex]
      requires Tabulates(criterion.rule, criterion.labels, criterion.numberOfClasses, w, impurity, gains)
      requires k == p - startIndex
      requires |buf| == |w| && Ascending(buf) && Candidate(buf, k)
      requires forall i :: 0 <= i < |buf| ==> buf[i] == Value(data, w[i], f)
      requires 0 <= f < numberOfFeatures && best.impurityImprovement >= 0.0
      ensures Scanning() && criterion.cursor <= p && criterion.total == old(criterion.total)
      ensures best'.impurityImprovement >= best.impurityImprovement
      ensures best' == best
              || (best'.impurityImprovement > best.impurityImprovement
                  && Recorded(w, buf, gains, startIndex, f, best'))
      ensures gains[k] <= best'.impurityImprovement
    {
      var s := startIndex;
      var improvement := TrySplit(p, impurity, w);
      assert gains[k] == improvement;
      best' := best;
      if improvement > best.impurityImprovement {
        var (impurityLeft, impurityRight) := criterion.ChildrenImpurity();
        var threshold := (buf[p - 1 - s] + buf[p - s]) / 2.0;
        best' := SplitRecord(f, p, threshold, improvement, impurityLeft, impurityRight);
        RecordStep(w, buf, gains, s, f, k, impurityLeft, impurityRight, best.impurityImprovement, best');
      }
    }

    /** Tries the candidate `p`, the next boundary after `sampleId`: the
        scan then stands at `p`. */
    method Consider(p: int, impurity: real, ghost w: seq<int>, ghost gains: seq<real>, ghost total0: seq<int>,
                    buf: seq<real>, f: int, best0: SplitRecord, best: SplitRecord, sampleId: int)
      returns (best': SplitRecord)
      modifies criterion
      requires Scanned(w, buf, gains, f, impurity, total0, best0, best, sampleId)
      requires sampleId < p < endIndex && Candidate(buf, p - startIndex)
      requires forall k :: sampleId - startIndex < k < p - startIndex ==> !Boundary(buf, k)
      ensures Scanned(w, buf, gains, f, impurity, total0, best0, best', p)
    {
      ghost var k := p - startIndex;
      assert ScanValues(w, buf, gains, f, startIndex, best0, best, sampleId - startIndex);
      best' := Evaluate(p, impurity, w, gains, k, buf, f, best);
      ScanTaken(w, buf, gains, f, impurity, total0, best0, best, best', sampleId, p);
    }

    /** Trying the candidate `p`, the next boundary, moves the state of the
        scan to `p`. */
    lemma ScanTaken(w: seq<int>, buf: seq<real>, gains: seq<real>, f: int, impurity: real, total0: seq<int>,
                    best0: SplitRecord, best: SplitRecord, best': SplitRecord, sampleId: int, p: int)
      requires ScanValues(w, buf, gains, f, startIndex, best0, best, sampleId - startIndex)
      requires startIndex <= sampleId < p < endIndex
      requires forall k :: sampleId - startIndex < k < p - startIndex ==> !Boundary(buf, k)
      requires Scanning() && criterion.cursor <= p && criterion.total == total0 && w == sampleIndices[startIndex..endIndex]
      requires Tabulates(criterion.rule, criterion.labels, criterion.numberOfClasses, w, impurity, gains)
      requires best'.impurityImprovement >= best.impurityImprovement
      requires best' == best
               || (best'.impurityImprovement > best.impurityImprovement
                   && Recorded(w, buf, gains, startIndex, f, best'))
      requires gains[p - startIndex] <= best'.impurityImprovement
      ensures Scanned(w, buf, gains, f, impurity, total0, best0, best', p)
    {
      ScanAdvance(w, buf, gains, f, startIndex, best0, best, best', sampleId - startIndex, p - startIndex);
    }

    /** One step of the scan: the next boundary between distinct values is
        tried when it leaves enough samples on both sides. */
    method ScanNext(buf: seq<real>, f: int, impurity: real, ghost w: seq<int>, ghost gains: seq<real>,
                    ghost total0: seq<int>, best0: SplitRecord, best: SplitRecord, sampleId: int)
      returns (best': SplitRecord, sampleId': int)
      modifies criterion
      requires Scanned(w, buf, gains, f, impurity, total0, best0, best, sampleId) && sampleId < endIndex
      ensures Scanned(w, buf, gains, f, impurity, total0, best0, best', sampleId')
      ensures sampleId < sampleId'
    {
      var s, e := startIndex, endIndex;
      sampleId' := NextBoundary(buf, s, e, sampleId);
      if sampleId' < e && sampleId' - s >= minSamplesInALeaf && e - sampleId' >= minSamplesInALeaf {
        best' := Consider(sampleId', impurity, w, gains, total0, buf, f, best0, best, sampleId);
      } else {
        best' := best;
        ScanSkip(w, buf, gains, f, impurity, total0, best0, best, sampleId, sampleId');
      }
    }

    /** The scan over one sorted feature: every boundary between distinct
        values that leaves enough samples on both sides is tried as a split,
        and a strictly better improvement replaces the best record. The
        result is the old record or one recorded here, and no candidate of
        this feature has a gain above it. */
    method ScanFeature(buf: seq<real>, f: int, impurity: real, best0: SplitRecord) returns (best: SplitRecord)
      modifies criterion
      requires Scanning() && criterion.cursor <= startIndex && startIndex < endIndex
      requires |buf| == endIndex - startIndex && Ascending(buf)
      requires forall i :: 0 <= i < |buf| ==> buf[i] == Value(data, sampleIndices[startIndex..endIndex][i], f)
      requires 0 <= f < numberOfFeatures && best0.impurityImprovement >= 0.0
      ensures Scanning() && criterion.cursor <= endIndex && criterion.total == old(criterion.total)
      ensures best.impurityImprovement >= best0.impurityImprovement
      ensures best == best0
              || (best.impurityImprovement > best0.impurityImprovement
                  && Recorded(sampleIndices[startIndex..endIndex], buf,
                              GainTable(criterion.rule, criterion.labels, criterion.numberOfClasses,
                                        sampleIndices[startIndex..endIndex], impurity),
                              startIndex, f, best))
      ensures NoBetterCandidate(sampleIndices[startIndex..endIndex], buf, |buf|, impurity, best.impurityImprovement)
    {
      ghost var w := sampleIndices[startIndex..endIndex];
      ghost var total0 := criterion.total;
      assert Labelled(w, criterion.labels, criterion.numberOfClasses);
      ghost var gains := GainTable(criterion.rule, criterion.labels, criterion.numberOfClasses, w, impurity);
      best := best0;
      var sampleId := startIndex;
      while sampleId < endIndex
        invariant Scanned(w, buf, gains, f, impurity, total0, best0, best, sampleId)
        decreases endIndex - sampleId
      {
        best, sampleId := ScanNext(buf, f, impurity, w, gains, total0, best0, best, sampleId);
      }
      BestSoFarMeans(w, buf, gains, |buf|, impurity, best.impurityImprovement);
    }

    /** Moves the samples that go left under `best` to the front of the
        window and the others to its back, by swapping from both ends; the
        boundary ends at the split index, since that many samples go left. */
    method Partition(best: SplitRecord)
      modifies sampleIndices
      requires 0 <= startIndex <= best.splitSampleIndex <= endIndex <= sampleIndices.Length
      requires Count(sampleIndices[startIndex..endIndex], GoesLeft(data, best.featureIndexToSplit, best.threshold))
               == best.splitSampleIndex - startIndex
      ensures multiset(sampleIndices[startIndex..endIndex]) == old(multiset(sampleIndices[startIndex..endIndex]))
      ensures sampleIndices[..startIndex] == old(sampleIndices[..startIndex])
      ensures sampleIndices[endIndex..] == old(sampleIndices[endIndex..])
      ensures Partitioned(data, sampleIndices[..], startIndex, endIndex, best)
    {
      var s, e := startIndex, endIndex;
      var partitionEnd := e;
      var sampleId := s;
      var featId := best.featureIndexToSplit;
      ghost var a0 := sampleIndices[..];
      assert Permuted(a0, sampleIndices[..], s, e);
      while sampleId < partitionEnd
        invariant Sides(data, sampleIndices[..], s, sampleId, partitionEnd, e, featId, best.threshold)
        invariant Permuted(a0, sampleIndices[..], s, e)
        decreases partitionEnd - sampleId
      {
        var dataId := sampleIndices[sampleId];
        if Value(data, dataId, featId) <= best.threshold {
          sampleId := sampleId + 1;
          continue;
        }
        partitionEnd := partitionEnd - 1;
        ghost var q := sampleIndices[..];
        sampleIndices[partitionEnd], sampleIndices[sampleId] := sampleIndices[sampleId], sampleIndices[partitionEnd];
        SwapPermutes(a0, q, sampleIndices[..], s, e, partitionEnd, sampleId);
        SwapSides(data, q, sampleIndices[..], s, sampleId, partitionEnd, e, featId, best.threshold);
      }
      PartitionCount(data, a0, sampleIndices[..], s, sampleId, e, featId, best.threshold);
    }

    /** The state of the split search of `splitNode` between two features:
        the window is a reordering of `a0`'s, the features hold those of
        `features` with the first `nc` in place, the features at
        `[nc, constants)` are constant on the window, at most
        `numberOfFeaturesToSplit` features were visited, and `best` is no
        split or one that separates the current window. */
    ghost predicate Searching(a0: seq<int>, features: seq<int>, nc: int, constants: int, featIdI: int,
                              visited: int, best: SplitRecord)
      reads this, criterion, sampleIndices, featureIndices
    {
      NodeOk() && startIndex < endIndex
      && 0 <= nc <= constants <= featIdI <= numberOfFeatures
      && 0 <= visited && (visited == 0 || visited <= numberOfFeaturesToSplit)
      && visited == constants - nc + numberOfFeatures - featIdI
      && Permuted(a0, sampleIndices[..], startIndex, endIndex)
      && |features| == numberOfFeatures
      && multiset(featureIndices[..]) == multiset(features)
      && featureIndices[..nc] == features[..nc]
      && ConstantPrefix(data, multiset(a0[startIndex..endIndex]), featureIndices[..], nc, constants)
      && (best == NoSplit(endIndex) || Separates(sampleIndices[startIndex..endIndex], startIndex, best))
      && best.impurityImprovement >= 0.0
    }

    /** Sorts the window by feature `f`: the search state is kept, since
        the window is only reordered within itself. */
    method SortWindow(f: int, ghost a0: seq<int>, ghost features: seq<int>, ghost nc: int, ghost constants: int,
                      ghost featIdI: int, ghost visited: int, best: SplitRecord)
      returns (buf: seq<real>)
      modifies sampleIndices
      requires Searching(a0, features, nc, constants, featIdI, visited, best) && 0 <= f < numberOfFeatures
      ensures Searching(a0, features, nc, constants, featIdI, visited, best)
      ensures |buf| == endIndex - startIndex && Ascending(buf)
      ensures forall i :: 0 <= i < |buf| ==> buf[i] == Value(data, sampleIndices[startIndex..endIndex][i], f)
    {
      ghost var before := sampleIndices[..];
      NodeInData();
      buf := SortByFeature(f);
      Reordered(before, best);
      PermutedTrans(a0, before, sampleIndices[..], startIndex, endIndex);
    }

    /** The drawn feature at `featIdJ` is constant on the window: it swaps
        places with the first feature after the constant prefix, which grows
        by one. */
    method MoveToConstants(featIdJ: int, f: int, ghost a0: seq<int>, ghost features: seq<int>, ghost nc: int,
                           constants: int, ghost featIdI: int, ghost visited: int, ghost best: SplitRecord)
      modifies featureIndices
      requires Searching(a0, features, nc, constants, featIdI, visited, best) && visited < numberOfFeaturesToSplit
      requires constants <= featIdJ < featIdI && f == featureIndices[featIdJ]
      requires ConstantOn(data, multiset(sampleIndices[startIndex..endIndex]), f)
      ensures Searching(a0, features, nc, constants + 1, featIdI, visited + 1, best)
      ensures featureIndices[featIdI..] == old(featureIndices[featIdI..])
    {
      ghost var g := featureIndices[..];
      featureIndices[featIdJ] := featureIndices[constants];
      featureIndices[constants] := f;
      assert featureIndices[..] == g[featIdJ := g[constants]][constants := g[featIdJ]];
      FeatureSwap(data, multiset(a0[startIndex..endIndex]), g, featureIndices[..], nc, constants, featIdJ, constants, numberOfFeatures);
    }

    /** Scans the sorted feature `f` from a reset criterion: the node
        statistics are kept and the record is kept or replaced by a better
        one that separates the window. In terms of the node's samples `w0`,
        which the window reorders: no split on `f` beats the result, and a
        new record is a midpoint split on `f` with its gain. */
    method ScanForBetter(buf: seq<real>, f: int, impurity: real, best: SplitRecord, ghost w0: seq<int>)
      returns (best': SplitRecord)
      modifies criterion
      requires NodeOk() && startIndex < endIndex && multiset(w0) == multiset(sampleIndices[startIndex..endIndex])
      requires |buf| == endIndex - startIndex && Ascending(buf)
      requires forall i :: 0 <= i < |buf| ==> buf[i] == Value(data, sampleIndices[startIndex..endIndex][i], f)
      requires 0 <= f < numberOfFeatures && best.impurityImprovement >= 0.0
      requires best == NoSplit(endIndex) || Separates(sampleIndices[startIndex..endIndex], startIndex, best)
      ensures NodeOk() && best'.impurityImprovement >= best.impurityImprovement
      ensures best' == NoSplit(endIndex) || Separates(sampleIndices[startIndex..endIndex], startIndex, best')
      ensures NoCutAbove(w0, f, impurity, best'.impurityImprovement)
      ensures best' == best
              || (best'.impurityImprovement > best.impurityImprovement
                  && best'.featureIndexToSplit == f && BestCut(w0, impurity, best'))
    {
      criterion.Reset();
      best' := ScanFeature(buf, f, impurity, best);
      ghost var w := sampleIndices[startIndex..endIndex];
      ScanMeaning(w, w0, buf, f, impurity, best'.impurityImprovement);
      if best' != best {
        RecordMeaning(w, w0, buf, GainTable(criterion.rule, criterion.labels, criterion.numberOfClasses, w, impurity),
                      startIndex, f, impurity, best');
      }
    }

    /** The drawn feature at `featIdJ` is not constant: it swaps places with
        the last feature not yet scanned, and its sorted values are scanned. */
    method ScanDrawn(featIdJ: int, f: int, impurity: real, buf: seq<real>, ghost a0: seq<int>, ghost features: seq<int>,
                     ghost nc: int, constants: int, featIdI: int, ghost visited: int, best: SplitRecord, ghost at: int)
      returns (best': SplitRecord, ghost at': int)
      modifies featureIndices, criterion
      requires Searching(a0, features, nc, constants, featIdI, visited, best) && visited < numberOfFeaturesToSplit
      requires constants <= featIdJ < featIdI && f == featureIndices[featIdJ]
      requires |buf| == endIndex - startIndex && Ascending(buf)
      requires forall i :: 0 <= i < |buf| ==> buf[i] == Value(data, sampleIndices[startIndex..endIndex][i], f)
      requires Optimal(a0[startIndex..endIndex], impurity, featureIndices[..], featIdI, best, at, endIndex)
      ensures Searching(a0, features, nc, constants, featIdI - 1, visited + 1, best')
      ensures Optimal(a0[startIndex..endIndex], impurity, featureIndices[..], featIdI - 1, best', at', endIndex)
    {
      ghost var w0, fi := a0[startIndex..endIndex], featureIndices[..];
      SwapScanned(featIdJ, a0, features, nc, constants, featIdI, visited, best);
      OptimalFrame(w0, impurity, fi, featureIndices[..], featIdI, best, at, endIndex);
      assert multiset(w0) == multiset(sampleIndices[startIndex..endIndex]) by {
        assert sampleIndices[startIndex..endIndex] == sampleIndices[..][startIndex..endIndex];
      }
      best' := ScanForBetter(buf, f, impurity, best, w0);
      at' := if best' == best then at else featIdI - 1;
      OptimalStep(w0, impurity, featureIndices[..], featIdI, best, best', at, at', endIndex);
    }

    /** The drawn feature at `featIdJ`, whose sorted values span at most
        `FeatureThreshold`, is constant on the window: it joins the constant
        prefix, and the search result stands. */
    method DropConstant(featIdJ: int, f: int, ghost impurity: real, ghost buf: seq<real>, ghost a0: seq<int>,
                        ghost features: seq<int>, ghost nc: int, constants: int, ghost featIdI: int, ghost visited: int,
                        ghost best: SplitRecord, ghost at: int)
      modifies featureIndices
      requires Searching(a0, features, nc, constants, featIdI, visited, best) && visited < numberOfFeaturesToSplit
      requires constants <= featIdJ < featIdI && f == featureIndices[featIdJ]
      requires |buf| == endIndex - startIndex > 0 && Ascending(buf) && buf[|buf| - 1] <= buf[0] + FeatureThreshold
      requires forall i :: 0 <= i < |buf| ==> buf[i] == Value(data, sampleIndices[startIndex..endIndex][i], f)
      requires Optimal(a0[startIndex..endIndex], impurity, featureIndices[..], featIdI, best, at, endIndex)
      ensures Searching(a0, features, nc, constants + 1, featIdI, visited + 1, best)
      ensures Optimal(a0[startIndex..endIndex], impurity, featureIndices[..], featIdI, best, at, endIndex)
    {
      ConstantFromSorted(data, sampleIndices[startIndex..endIndex], buf, f);
      ghost var fi := featureIndices[..];
      MoveToConstants(featIdJ, f, a0, features, nc, constants, featIdI, visited, best);
      OptimalFrame(a0[startIndex..endIndex], impurity, fi, featureIndices[..], featIdI, best, at, endIndex);
    }

    /** Moves the drawn feature at `featIdJ` to the end of the features not
        yet scanned, `featIdI - 1`. */
    method SwapScanned(featIdJ: int, ghost a0: seq<int>, ghost features: seq<int>, ghost nc: int, ghost constants: int,
                       featIdI: int, ghost visited: int, ghost best: SplitRecord)
      modifies featureIndices
      requires Searching(a0, features, nc, constants, featIdI, visited, best)
      requires constants <= featIdJ < featIdI
      ensures Searching(a0, features, nc, constants, featIdI, visited, best)
      ensures featureIndices[featIdI - 1] == old(featureIndices[featIdJ])
      ensures featureIndices[featIdI..] == old(featureIndices[featIdI..])
    {
      ghost var g := featureIndices[..];
      featureIndices[featIdI - 1], featureIndices[featIdJ] := featureIndices[featIdJ], featureIndices[featIdI - 1];
      assert featureIndices[..] == g[featIdI - 1 := g[featIdJ]][featIdJ := g[featIdI - 1]];
      FeatureSwap(data, multiset(a0[startIndex..endIndex]), g, featureIndices[..], nc, constants, featIdI - 1, featIdJ, numberOfFeatures);
    }

    /** One round of the split search: a feature is drawn among those not
        known constant (the draw is left open); when it is constant on the
        window it joins the constant prefix, otherwise its sorted values are
        scanned for a better split. */
    method VisitFeature(impurity: real, ghost a0: seq<int>, ghost features: seq<int>, nc: int,
                        constants: int, featIdI: int, visited: int, best: SplitRecord, ghost at: int)
      returns (constants': int, featIdI': int, visited': int, best': SplitRecord, ghost at': int)
      modifies sampleIndices, featureIndices, criterion
      requires Searching(a0, features, nc, constants, featIdI, visited, best)
      requires Optimal(a0[startIndex..endIndex], impurity, featureIndices[..], featIdI, best, at, endIndex)
      requires featIdI > constants && visited < numberOfFeaturesToSplit
      ensures Searching(a0, features, nc, constants', featIdI', visited', best')
      ensures Optimal(a0[startIndex..endIndex], impurity, featureIndices[..], featIdI', best', at', endIndex)
      ensures visited' == visited + 1 && featIdI' - constants' < featIdI - constants
    {
      var s, e := startIndex, endIndex;
      visited' := visited + 1;
      var featIdJ :| constants <= featIdJ < featIdI;
      var f := featureIndices[featIdJ];
      var buf := SortWindow(f, a0, features, nc, constants, featIdI, visited, best);
      if buf[e - s - 1] <= buf[0] + FeatureThreshold {
        DropConstant(featIdJ, f, impurity, buf, a0, features, nc, constants, featIdI, visited, best, at);
        constants', featIdI', best', at' := constants + 1, featIdI, best, at;
      } else {
        best', at' := ScanDrawn(featIdJ, f, impurity, buf, a0, features, nc, constants, featIdI, visited, best, at);
        constants', featIdI' := constants, featIdI - 1;
      }
    }

    /** The split search of `splitNode`. Features are drawn among those not
        yet known constant; a feature constant on the node moves into the
        constant prefix of the feature-index array, any other is scanned and
        moves to the back of the features still to draw, so that the scanned
        ones end at `[scanned, numberOfFeatures)`, the first scanned last.
        The window ends reordered only within itself and, when a split is
        found, partitioned by it. The result is the best split over the
        visited features: a constant feature has no split, no split of a
        scanned feature has a larger gain, and every feature scanned before
        the winner's has only smaller gains, so the first best one is kept;
        the winner's threshold lies halfway between two neighbouring values
        of its feature, which no sample of the node takes. */
    method SplitNode(impurity: real, numberOfConstantFeatures: int)
      returns (best: SplitRecord, constants: int, ghost visited: int, ghost scanned: int, ghost at: int)
      modifies sampleIndices, featureIndices, criterion
      requires NodeOk() && startIndex < endIndex
      requires 0 <= numberOfConstantFeatures <= numberOfFeatures
      ensures NodeOk()
      ensures multiset(sampleIndices[startIndex..endIndex]) == old(multiset(sampleIndices[startIndex..endIndex]))
      ensures sampleIndices[..startIndex] == old(sampleIndices[..startIndex])
      ensures sampleIndices[endIndex..] == old(sampleIndices[endIndex..])
      ensures multiset(featureIndices[..]) == old(multiset(featureIndices[..]))
      ensures featureIndices[..numberOfConstantFeatures] == old(featureIndices[..numberOfConstantFeatures])
      ensures numberOfConstantFeatures <= constants <= scanned <= numberOfFeatures
      ensures forall q :: numberOfConstantFeatures <= q < constants ==>
                ConstantOn(data, multiset(sampleIndices[startIndex..endIndex]), featureIndices[q])
      ensures 0 <= visited && (visited == 0 || visited <= numberOfFeaturesToSplit)
      ensures visited == constants - numberOfConstantFeatures + numberOfFeatures - scanned
      ensures forall q, t :: numberOfConstantFeatures <= q < constants ==>
                !Cut(data, sampleIndices[startIndex..endIndex], featureIndices[q], t, minSamplesInALeaf)
      ensures forall q :: scanned <= q < numberOfFeatures ==>
                NoCutAbove(sampleIndices[startIndex..endIndex], featureIndices[q], impurity, best.impurityImprovement)
      ensures best == NoSplit(endIndex)
              || (Separates(sampleIndices[startIndex..endIndex], startIndex, best)
                  && Partitioned(data, sampleIndices[..], startIndex, endIndex, best)
                  && BestCut(sampleIndices[startIndex..endIndex], impurity, best)
                  && scanned <= at < numberOfFeatures && featureIndices[at] == best.featureIndexToSplit
                  && forall q :: at < q < numberOfFeatures ==>
                       NoCutReaching(sampleIndices[startIndex..endIndex], featureIndices[q], impurity, best.impurityImprovement))
    {
      ghost var a0 := sampleIndices[..];
      var featIdI;
      best, constants, featIdI, visited, at := Search(impurity, numberOfConstantFeatures);
      ConstantPrefixMeans(data, multiset(a0[startIndex..endIndex]), featureIndices[..], numberOfConstantFeatures, constants);
      ApplySplit(best, a0);
      scanned := featIdI;
      Concluded(a0[startIndex..endIndex], impurity, numberOfConstantFeatures, constants, featIdI, best, at);
    }

    /** The loop of `splitNode`: features are visited while some are not
        known constant and fewer than `numberOfFeaturesToSplit` were. */
    method Search(impurity: real, numberOfConstantFeatures: int)
      returns (best: SplitRecord, constants: int, featIdI: int, ghost visited: int, ghost at: int)
      modifies sampleIndices, featureIndices, criterion
      requires NodeOk() && startIndex < endIndex
      requires 0 <= numberOfConstantFeatures <= numberOfFeatures
      ensures Searching(old(sampleIndices[..]), old(featureIndices[..]), numberOfConstantFeatures, constants, featIdI, visited, best)
      ensures Optimal(old(sampleIndices[startIndex..endIndex]), impurity, featureIndices[..], featIdI, best, at, endIndex)
    {
      var s, e := startIndex, endIndex;
      best := NoSplit(e);
      featIdI := numberOfFeatures as int;
      constants := numberOfConstantFeatures;
      var numberOfVisitedFeatures := 0;
      ghost var a0 := sampleIndices[..];
      ghost var features := featureIndices[..];
      at := -1;
      assert Permuted(a0, sampleIndices[..], s, e);
      while featIdI > constants && numberOfVisitedFeatures < numberOfFeaturesToSplit
        invariant Searching(a0, features, numberOfConstantFeatures, constants, featIdI, numberOfVisitedFeatures, best)
        invariant Optimal(a0[s..e], impurity, featureIndices[..], featIdI, best, at, e)
        decreases featIdI - constants
      {
        constants, featIdI, numberOfVisitedFeatures, best, at :=
          VisitFeature(impurity, a0, features, numberOfConstantFeatures, constants, featIdI, numberOfVisitedFeatures, best, at);
      }
      visited := numberOfVisitedFeatures;
    }

    /** The search result over the node's samples `w0` carries over to the
        window, which reorders them: constant features admit no split and
        the bounds on the scanned features hold. */
    lemma Concluded(w0: seq<int>, impurity: real, nc: int, constants: int, from: int, best: SplitRecord, at: int)
      requires 0 <= startIndex <= endIndex <= sampleIndices.Length
      requires multiset(w0) == multiset(sampleIndices[startIndex..endIndex])
      requires Optimal(w0, impurity, featureIndices[..], from, best, at, endIndex)
      requires 0 <= nc <= constants <= featureIndices.Length
      requires forall q :: nc <= q < constants ==> ConstantOn(data, multiset(w0), featureIndices[q])
      ensures forall q, t :: nc <= q < constants ==>
                !Cut(data, sampleIndices[startIndex..endIndex], featureIndices[q], t, minSamplesInALeaf)
      ensures Optimal(sampleIndices[startIndex..endIndex], impurity, featureIndices[..], from, best, at, endIndex)
    {
      var w := sampleIndices[startIndex..endIndex];
      forall q, t | nc <= q < constants
        ensures !Cut(data, w, featureIndices[q], t, minSamplesInALeaf)
      {
        ConstantNoCut(data, w, featureIndices[q], t, minSamplesInALeaf);
      }
      OptimalPermuted(w0, w, impurity, featureIndices[..], from, best, at, endIndex);
    }

    /** The search result depends only on the multiset of the samples. */
    lemma OptimalPermuted(w0: seq<int>, w: seq<int>, impurity: real, fi: seq<int>, from: int, best: SplitRecord,
                          at: int, end: int)
      requires Optimal(w0, impurity, fi, from, best, at, end) && multiset(w0) == multiset(w)
      ensures Optimal(w, impurity, fi, from, best, at, end)
    {
      forall q | from <= q < |fi|
        ensures NoCutAbove(w, fi[q], impurity, best.impurityImprovement)
        ensures best != NoSplit(end) && at < q ==> NoCutReaching(w, fi[q], impurity, best.impurityImprovement)
      {
        NoCutPermuted(w0, w, fi[q], impurity, best.impurityImprovement);
      }
      if best != NoSplit(end) {
        var rule, labels, K := criterion.rule, criterion.labels, criterion.numberOfClasses;
        CutPermuted(data, w0, w, best.featureIndexToSplit, best.threshold, minSamplesInALeaf, rule, labels, K, impurity);
      }
    }

    /** Bounds on the gains of a feature depend only on the multiset of the
        samples. */
    lemma NoCutPermuted(w0: seq<int>, w: seq<int>, f: int, impurity: real, bound: real)
      requires multiset(w0) == multiset(w) && Labelled(w0, criterion.labels, criterion.numberOfClasses)
      ensures NoCutAbove(w, f, impurity, bound) == NoCutAbove(w0, f, impurity, bound)
      ensures NoCutReaching(w, f, impurity, bound) == NoCutReaching(w0, f, impurity, bound)
    {
      var rule, labels, K := criterion.rule, criterion.labels, criterion.numberOfClasses;
      CutPermuted(data, w0, w, f, 0.0, minSamplesInALeaf, rule, labels, K, impurity);
      forall t
        ensures Cut(data, w, f, t, minSamplesInALeaf) == Cut(data, w0, f, t, minSamplesInALeaf)
        ensures Cut(data, w0, f, t, minSamplesInALeaf) ==>
                  CutGain(rule, labels, K, data, w, f, t, impurity) == CutGain(rule, labels, K, data, w0, f, t, impurity)
      {
        CutPermuted(data, w0, w, f, t, minSamplesInALeaf, rule, labels, K, impurity);
      }
    }

    /** The end of `node_split`: when a split was found, the window is
        partitioned by it; the node statistics still hold. */
    method ApplySplit(best: SplitRecord, ghost a0: seq<int>)
      modifies sampleIndices
      requires NodeOk() && startIndex < endIndex && Permuted(a0, sampleIndices[..], startIndex, endIndex)
      requires best == NoSplit(endIndex) || Separates(sampleIndices[startIndex..endIndex], startIndex, best)
      ensures NodeOk() && Permuted(a0, sampleIndices[..], startIndex, endIndex)
      ensures best == NoSplit(endIndex)
              || (Separates(sampleIndices[startIndex..endIndex], startIndex, best)
                  && Partitioned(data, sampleIndices[..], startIndex, endIndex, best))
    {
      if best.splitSampleIndex < endIndex {
        ghost var before := sampleIndices[..];
        Partition(best);
        Reordered(before, best);
        PermutedTrans(a0, before, sampleIndices[..], startIndex, endIndex);
      }
    }

    /** After the window is reordered within itself, the criterion's node
        statistics still describe it and a split that separated it still
        does. */
    lemma Reordered(before: seq<int>, best: SplitRecord)
      requires Layout() && criterion.Shaped() && |criterion.labels| == |data|
      requires criterion.sampleIndices == sampleIndices
      requires criterion.start == startIndex && criterion.end == endIndex
      requires criterion.nodeCount == endIndex - startIndex
      requires Labelled(before, criterion.labels, criterion.numberOfClasses)
      requires Permuted(before, sampleIndices[..], startIndex, endIndex)
      requires criterion.total == ClassCounts(before[startIndex..endIndex], criterion.labels, criterion.numberOfClasses)
      requires best == NoSplit(endIndex) || Separates(before[startIndex..endIndex], startIndex, best)
      ensures NodeOk()
      ensures best == NoSplit(endIndex) || Separates(sampleIndices[startIndex..endIndex], startIndex, best)
    {
      var s, e := startIndex, endIndex;
      var after := sampleIndices[..];
      assert after[s..e] == sampleIndices[s..e];
      PermutedWindow(before, after, s, e, criterion.labels, criterion.numberOfClasses);
      if best != NoSplit(e) {
        CountPermutation(before[s..e], after[s..e], GoesLeft(data, best.featureIndexToSplit, best.threshold));
      }
    }
  }
}
