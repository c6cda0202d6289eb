/**
 * Splitting the samples of a data set into folds for cross-validation:
 * plain k-fold splitting of an index list into consecutive slices, and
 * stratified splitting, which spreads the samples of every class over the
 * folds as evenly as plain splitting spreads a list of that class's size.
 */
module Folding {
  import opened Outcome
  import opened Counting
  import opened Samples
  import opened Definitions

  // Fold sizes and boundaries

  /** The size of fold `f` when `m` positions are split into `k` folds: the
      mean size `m / k`, plus one for each of the first `m % k` folds. */
  function FoldSize(m: nat, k: nat, f: int): int
    requires k > 0
  {
    m / k + (if f < m % k then 1 else 0)
  }

  /** Where fold `f` starts: the sizes of the folds before it, added up,
      as the loop that cuts the slices advances its iterator. */
  function FoldStart(m: nat, k: nat, f: int): int
    requires k > 0
    decreases f
  {
    if f <= 0 then 0 else FoldStart(m, k, f - 1) + FoldSize(m, k, f - 1)
  }

  /** Each fold starts where the previous one stops. */
  lemma FoldStartStep(m: nat, k: nat, f: int)
    requires k > 0 && f >= 0
    ensures FoldStart(m, k, f + 1) == FoldStart(m, k, f) + FoldSize(m, k, f)
  {
  }

  /** Fold `f` starts after `f` folds of the mean size and one extra
      position for each longer fold before it. */
  lemma {:induction false} FoldStartClosed(m: nat, k: nat, f: nat)
    requires k > 0
    ensures FoldStart(m, k, f) == f * (m / k) + (if f < m % k then f else m % k)
  {
    if f > 0 {
      FoldStartClosed(m, k, f - 1);
      assert f * (m / k) == (f - 1) * (m / k) + m / k;
    }
  }

  /** The folds start at 0, never move backwards, and the last one stops at
      `m`: together they cover the `m` positions. */
  lemma {:induction false} FoldStartBounds(m: nat, k: nat, f: int, g: int)
    requires k > 0 && 0 <= f <= g <= k
    ensures FoldStart(m, k, 0) == 0 && FoldStart(m, k, k) == m
    ensures 0 <= FoldStart(m, k, f) <= FoldStart(m, k, g) <= m
  {
    FoldStartClosed(m, k, k);
    assert k * (m / k) + m % k == m;
    FoldStartMonotone(m, k, 0, f);
    FoldStartMonotone(m, k, f, g);
    FoldStartMonotone(m, k, g, k);
  }

  lemma {:induction false} FoldStartMonotone(m: nat, k: nat, f: int, g: int)
    requires k > 0 && 0 <= f <= g
    ensures FoldStart(m, k, f) <= FoldStart(m, k, g)
    decreases g - f
  {
    if f < g {
      FoldStartMonotone(m, k, f, g - 1);
    }
  }

  /** The positions of fold `f` of `order`. */
  function Fold(order: seq<int>, k: nat, f: int): (r: seq<int>)
    requires 0 <= f < k
    ensures |r| == FoldSize(|order|, k, f)
  {
    FoldStartBounds(|order|, k, f, f + 1);
    FoldStartStep(|order|, k, f);
    order[FoldStart(|order|, k, f)..FoldStart(|order|, k, f + 1)]
  }

  /** The `k` folds of `order`: consecutive slices, the first `|order| % k` of
      them one longer than the rest. */
  function Folds(order: seq<int>, k: nat): (folds: seq<seq<int>>)
    requires k > 0
    ensures |folds| == k
    ensures forall f :: 0 <= f < k ==> |folds[f]| == |order| / k + (if f < |order| % k then 1 else 0)
  {
    seq(k, f requires 0 <= f < k => Fold(order, k, f))
  }

  /** The folds laid end to end. */
  function Flatten(folds: seq<seq<int>>): seq<int>
  {
    if |folds| == 0 then [] else Flatten(folds[..|folds| - 1]) + folds[|folds| - 1]
  }

  lemma {:induction false} FlattenAppend(a: seq<seq<int>>, b: seq<seq<int>>)
    ensures Flatten(a + b) == Flatten(a) + Flatten(b)
  {
    if |b| == 0 {
      assert a + b == a;
    } else {
      assert (a + b)[..|a + b| - 1] == a + b[..|b| - 1];
      FlattenAppend(a, b[..|b| - 1]);
    }
  }

  /** Laid end to end, the folds give back `order`: no position is dropped,
      repeated or moved. */
  lemma {:induction false} FoldsCover(order: seq<int>, k: nat)
    requires k > 0
    ensures Flatten(Folds(order, k)) == order
  {
    var folds := Folds(order, k);
    for f := 0 to k
      invariant 0 <= FoldStart(|order|, k, f) <= |order|
      invariant Flatten(folds[..f]) == order[..FoldStart(|order|, k, f)]
    {
      FoldStartBounds(|order|, k, f, f + 1);
      FoldStartStep(|order|, k, f);
      assert folds[..f + 1][..f] == folds[..f];
      assert Flatten(folds[..f + 1]) == Flatten(folds[..f]) + folds[f];
      assert order[..FoldStart(|order|, k, f + 1)]
          == order[..FoldStart(|order|, k, f)] + order[FoldStart(|order|, k, f)..FoldStart(|order|, k, f + 1)];
    }
    FoldStartBounds(|order|, k, k, k);
    assert folds[..k] == folds;
    assert order[..|order|] == order;
  }

  // Plain k-fold splitting

  /** `order` lists every data index `0..n-1` once, in some order: the
      index vector after `std::shuffle`. */
  predicate Permutes(order: seq<int>, n: nat)
  {
    multiset(order) == multiset(Range(0, n))
  }

  /** The index vector `KFolds` splits: `0..n-1`, or its shuffle when one is
      given. The shuffle itself is random and is not modelled. */
  function Order(numberOfData: nat, shuffled: Option<seq<int>>): (order: seq<int>)
    requires shuffled.Some? ==> Permutes(shuffled.value, numberOfData)
    ensures Permutes(order, numberOfData)
  {
    if shuffled.Some? then shuffled.value else Range(0, numberOfData)
  }

  /** The folds of a list of `numberOfData` indices: an error unless there
      are at least two folds and no more folds than indices. */
  method KFolds(numberOfData: int, numberOfFolds: int, shuffled: Option<seq<int>>) returns (r: Result<seq<seq<int>>>)
    requires shuffled.Some? ==> numberOfData >= 0 && Permutes(shuffled.value, numberOfData)
    ensures r.Failure? <==> numberOfFolds <= 1 || numberOfFolds > numberOfData
    ensures r.Success? ==> r.value == Folds(Order(numberOfData, shuffled), numberOfFolds)
  {
    if numberOfFolds <= 1 || numberOfFolds > numberOfData {
      return Failure("Number of folds must be greater than one and no larger than number of data");
    }
    var indices := Range(0, numberOfData);
    if shuffled.Some? {
      indices := shuffled.value;
    }
    assert |indices| == numberOfData by {
      if shuffled.Some? {
        assert |multiset(indices)| == |multiset(Range(0, numberOfData))|;
      }
    }
    var meanFoldSize := numberOfData / numberOfFolds;
    var foldSizes := seq(numberOfFolds, _ => meanFoldSize);
    var unbalancedNumberOfFolds := numberOfData % numberOfFolds;
    foldSizes := seq(numberOfFolds, f requires 0 <= f < numberOfFolds =>
                       if f < unbalancedNumberOfFolds then foldSizes[f] + 1 else foldSizes[f]);
    var foldsIndices := [];
    var current := 0;
    for f := 0 to numberOfFolds
      invariant current == FoldStart(numberOfData, numberOfFolds, f)
      invariant foldsIndices == Folds(indices, numberOfFolds)[..f]
    {
      FoldStartBounds(numberOfData, numberOfFolds, f, f + 1);
      FoldStartStep(numberOfData, numberOfFolds, f);
      var stop := current + foldSizes[f];
      foldsIndices := foldsIndices + [indices[current..stop]];
      current := stop;
    }
    return Success(foldsIndices);
  }

  /** Without a shuffle, fold `f` is the run of consecutive indices from
      where it starts to where the next one starts. */
  lemma UnshuffledFolds(n: nat, k: nat, f: int)
    requires 0 <= f < k
    ensures Folds(Range(0, n), k)[f] == Range(FoldStart(n, k, f), FoldStart(n, k, f + 1))
  {
    FoldStartBounds(n, k, f, f + 1);
    FoldStartStep(n, k, f);
  }

  /** The folds of an index list partition it: every data index lies in
      exactly one fold, exactly once. */
  predicate Partition(folds: seq<seq<int>>, n: nat)
  {
    multiset(Flatten(folds)) == multiset(Range(0, n))
  }

  /** The folds of a permutation of `0..n-1` partition `0..n-1`, and a
      fold count of at most `n` leaves no fold empty. */
  lemma KFoldsPartition(order: seq<int>, n: nat, k: nat)
    requires Permutes(order, n) && 0 < k <= n
    ensures Partition(Folds(order, k), n)
    ensures forall f :: 0 <= f < k ==> |Folds(order, k)[f]| > 0
  {
    FoldsCover(order, k);
    assert |order| == n by {
      assert |multiset(order)| == |multiset(Range(0, n))|;
    }
    forall f | 0 <= f < k
      ensures |Folds(order, k)[f]| > 0
    {
      assert n / k >= 1;
    }
  }

  /** No index lies in two folds of a permutation. */
  lemma FoldsDisjoint(order: seq<int>, n: nat, k: nat, f: int, g: int, x: int)
    requires Permutes(order, n) && k > 0
    requires 0 <= f < g < k
    ensures !(x in Folds(order, k)[f] && x in Folds(order, k)[g])
  {
    var folds := Folds(order, k);
    if x in folds[f] && x in folds[g] {
      var i :| 0 <= i < |folds[f]| && folds[f][i] == x;
      var j :| 0 <= j < |folds[g]| && folds[g][j] == x;
      var a := Position(order, k, f, i);
      var b := Position(order, k, g, j);
      FoldStartBounds(|order|, k, f + 1, g);
      FoldStartStep(|order|, k, f);
      TwiceCounted(order, a, b);
      RangeMultiplicity(n, x);
    }
  }

  /** Where the `i`-th index of fold `f` sits in `order`. */
  lemma Position(order: seq<int>, k: nat, f: int, i: int) returns (a: int)
    requires 0 <= f < k && 0 <= i < |Folds(order, k)[f]|
    ensures FoldStart(|order|, k, f) <= a < FoldStart(|order|, k, f + 1)
    ensures 0 <= a < |order| && order[a] == Folds(order, k)[f][i]
  {
    FoldStartBounds(|order|, k, f, f + 1);
    FoldStartStep(|order|, k, f);
    a := FoldStart(|order|, k, f) + i;
    assert Folds(order, k)[f] == order[FoldStart(|order|, k, f)..FoldStart(|order|, k, f + 1)];
  }

  /** A value at two positions of a sequence occurs in it at least twice. */
  lemma TwiceCounted(s: seq<int>, a: int, b: int)
    requires 0 <= a < b < |s| && s[a] == s[b]
    ensures multiset(s)[s[a]] >= 2
  {
    assert s == s[..b] + [s[b]] + s[b + 1..];
    assert s[a] in s[..b];
    assert multiset(s) == multiset(s[..b]) + multiset{s[b]} + multiset(s[b + 1..]);
  }

  /** `0..n-1` holds each of its indices once and nothing else. */
  lemma {:induction false} RangeMultiplicity(n: nat, x: int)
    ensures multiset(Range(0, n))[x] == (if 0 <= x < n then 1 else 0)
  {
    if n > 0 {
      RangeMultiplicity(n - 1, x);
      assert Range(0, n) == Range(0, n - 1) + [n - 1];
    }
  }
}
