/**
 * Stratified k-fold splitting: every class is split on its own into `k`
 * folds as plain k-fold splitting splits a list of that class's size, and
 * the samples, taken in data order, go to the fold their position within
 * their class falls in.
 */
module Stratification {
  import opened Outcome
  import opened Counting
  import opened Samples
  import opened Definitions
  import opened Folding

  // The largest label and the smallest class count

  /** The smallest entry of a non-empty count vector, as `std::min_element`
      finds it. */
  function MinOf(s: seq<int>): (mn: int)
    requires |s| > 0
    ensures forall i :: 0 <= i < |s| ==> mn <= s[i]
    ensures exists i :: 0 <= i < |s| && s[i] == mn
  {
    if |s| == 1 then s[0]
    else
      var m := MinOf(s[..|s| - 1]);
      assert forall i :: 0 <= i < |s| - 1 ==> s[..|s| - 1][i] == s[i];
      if s[|s| - 1] < m then s[|s| - 1] else m
  }

  /** The class count the labels imply: one more than the class of the
      largest label. */
  function NumberOfClasses(labelData: seq<real>): int
    requires |labelData| > 0
  {
    ClassOf(MaxCoeff(labelData)) + 1
  }

  /** The number of samples of class `c`. */
  function Population(labelData: seq<real>, c: int): nat
  {
    Count(Range(0, |labelData|), IsClass(labelData, c))
  }

  /** When stratified splitting fails: a fold count outside `(1, n]`,
      regression labels, a negative label, or a class below the implied
      class count with fewer samples than folds (which covers a class with
      none). */
  predicate StratifiedRejects(labels: Labels, k: int)
  {
    var labelData := labels.labelData;
    k <= 1 || k > |labelData| || labels.labelType != Classification
    || (exists i :: 0 <= i < |labelData| && labelData[i] < 0.0)
    || (exists c :: 0 <= c < NumberOfClasses(labelData) && Population(labelData, c) < k)
  }

  // Where each sample goes

  /** How many samples before `d` share its class: its position within its
      class. */
  function Rank(labelData: seq<real>, d: int): nat
    requires 0 <= d < |labelData|
  {
    Count(Range(0, d), IsClass(labelData, ClassOf(labelData[d])))
  }

  /** Counting one more sample of `0..t` adds it when it is of class `c`. */
  lemma CountRangeStep(labelData: seq<real>, c: int, t: nat)
    ensures Count(Range(0, t + 1), IsClass(labelData, c))
         == Count(Range(0, t), IsClass(labelData, c)) + (if IsClass(labelData, c)(t) then 1 else 0)
  {
    assert Range(0, t + 1)[..t] == Range(0, t);
  }

  /** A prefix of `0..n-1` counts no more samples of a class than the whole. */
  lemma CountRangePrefix(labelData: seq<real>, c: int, t: nat, n: nat)
    requires t <= n
    ensures Count(Range(0, t), IsClass(labelData, c)) <= Count(Range(0, n), IsClass(labelData, c))
  {
    assert Range(0, n) == Range(0, t) + Range(t, n);
    CountAppend(Range(0, t), Range(t, n), IsClass(labelData, c));
  }

  /** A sample's position within its class is below its class's size. */
  lemma RankBelowPopulation(labelData: seq<real>, d: int)
    requires 0 <= d < |labelData|
    ensures Rank(labelData, d) < Population(labelData, ClassOf(labelData[d]))
  {
    CountRangeStep(labelData, ClassOf(labelData[d]), d);
    CountRangePrefix(labelData, ClassOf(labelData[d]), d + 1, |labelData|);
  }

  /** The fold that position `r` of `0..m-1` lands in when the positions are
      split into `k` folds without shuffling. */
  function FoldOf(m: nat, k: nat, r: int): (f: nat)
    requires k > 0 && 0 <= r < m
    ensures f < k && FoldStart(m, k, f) <= r < FoldStart(m, k, f + 1)
  {
    FoldStartBounds(m, k, 0, 0);
    FoldFrom(m, k, r, 0)
  }

  function FoldFrom(m: nat, k: nat, r: int, g: nat): (f: nat)
    requires k > 0 && 0 <= r < m && g < k && FoldStart(m, k, g) <= r
    ensures g <= f < k && FoldStart(m, k, f) <= r < FoldStart(m, k, f + 1)
    decreases k - g
  {
    FoldStartBounds(m, k, g + 1, k);
    if g == k - 1 || r < FoldStart(m, k, g + 1) then g else FoldFrom(m, k, r, g + 1)
  }

  /** The folds do not overlap, so one fold holds position `r`. */
  lemma FoldOfUnique(m: nat, k: nat, r: int, f: int)
    requires k > 0 && 0 <= r < m && 0 <= f < k
    requires FoldStart(m, k, f) <= r < FoldStart(m, k, f + 1)
    ensures f == FoldOf(m, k, r)
  {
    var h := FoldOf(m, k, r);
    if f < h {
      FoldStartMonotone(m, k, f + 1, h);
    } else if h < f {
      FoldStartMonotone(m, k, h + 1, f);
    }
  }

  /** The fold sample `d` is assigned to: the fold of its position within
      its class, among the folds of its class. */
  function Assigned(labelData: seq<real>, k: nat, d: int): (f: nat)
    requires k > 0 && 0 <= d < |labelData|
    ensures f < k
  {
    RankBelowPopulation(labelData, d);
    FoldOf(Population(labelData, ClassOf(labelData[d])), k, Rank(labelData, d))
  }

  /** The fold of every sample, in data order. */
  function Assignment(labelData: seq<real>, k: nat): (assign: seq<int>)
    requires k > 0
    ensures |assign| == |labelData|
    ensures forall d :: 0 <= d < |labelData| ==> 0 <= assign[d] < k
  {
    seq(|labelData|, d requires 0 <= d < |labelData| => Assigned(labelData, k, d))
  }

  /** The samples among `0..t-1` assigned to fold `f`, in increasing order. */
  function Gathered(assign: seq<int>, f: int, t: int): seq<int>
    requires 0 <= t <= |assign|
  {
    if t == 0 then [] else Gathered(assign, f, t - 1) + (if assign[t - 1] == f then [t - 1] else [])
  }

  /** The stratified folds: fold `f` lists, in increasing order, the samples
      assigned to it. */
  function StratifiedFolds(labelData: seq<real>, k: nat): (folds: seq<seq<int>>)
    requires k > 0
    ensures |folds| == k
  {
    var assign := Assignment(labelData, k);
    Gatherings(assign, k, |assign|)
  }

  /** The folds of `k` gathered from the first `t` samples. */
  function Gatherings(assign: seq<int>, k: nat, t: int): (folds: seq<seq<int>>)
    requires 0 <= t <= |assign|
    ensures |folds| == k && forall f :: 0 <= f < k ==> folds[f] == Gathered(assign, f, t)
  {
    seq(k, f => Gathered(assign, f, t))
  }

  // Properties of the gathered folds

  /** A fold holds exactly the samples assigned to it, in strictly
      increasing order. */
  lemma {:induction false} GatheredMembers(assign: seq<int>, f: int, t: int)
    requires 0 <= t <= |assign|
    ensures forall x :: x in Gathered(assign, f, t) <==> 0 <= x < t && assign[x] == f
    ensures forall i, j :: 0 <= i < j < |Gathered(assign, f, t)| ==> Gathered(assign, f, t)[i] < Gathered(assign, f, t)[j]
  {
    if t > 0 {
      GatheredMembers(assign, f, t - 1);
      var g := Gathered(assign, f, t - 1);
      forall i | 0 <= i < |g|
        ensures g[i] < t - 1
      {
        assert g[i] in g;
      }
    }
  }

  /** Empty folds laid end to end give nothing. */
  lemma {:induction false} FlattenEmpty(fs: seq<seq<int>>)
    requires forall f :: 0 <= f < |fs| ==> fs[f] == []
    ensures Flatten(fs) == []
  {
    if |fs| > 0 {
      FlattenEmpty(fs[..|fs| - 1]);
    }
  }

  /** Adding `x` to one fold adds `x` once to the folds laid end to end. */
  lemma {:induction false} FlattenInsert(fs: seq<seq<int>>, a: int, x: int)
    requires 0 <= a < |fs|
    ensures multiset(Flatten(fs[a := fs[a] + [x]])) == multiset(Flatten(fs)) + multiset{x}
  {
    var n := |fs| - 1;
    var gs := fs[a := fs[a] + [x]];
    assert gs[..n] == if a < n then fs[..n][a := fs[a] + [x]] else fs[..n];
    if a < n {
      FlattenInsert(fs[..n], a, x);
    }
  }

  /** Gathering one more sample appends it to its own fold only. */
  lemma GatheringsStep(assign: seq<int>, k: nat, t: int)
    requires 0 <= t < |assign| && 0 <= assign[t] < k
    ensures Gatherings(assign, k, t + 1)
         == Gatherings(assign, k, t)[assign[t] := Gatherings(assign, k, t)[assign[t]] + [t]]
  {
    var before, after := Gatherings(assign, k, t), Gatherings(assign, k, t + 1);
    forall f | 0 <= f < k
      ensures after[f] == before[assign[t] := before[assign[t]] + [t]][f]
    {
    }
  }

  /** The folds gathered from the first `t` samples hold each of them
      exactly once, when every sample is assigned a fold in range. */
  lemma {:induction false} GatheredCover(assign: seq<int>, k: nat, t: int)
    requires 0 <= t <= |assign|
    requires forall d :: 0 <= d < |assign| ==> 0 <= assign[d] < k
    ensures multiset(Flatten(Gatherings(assign, k, t))) == multiset(Range(0, t))
  {
    if t == 0 {
      FlattenEmpty(Gatherings(assign, k, 0));
      assert Range(0, 0) == [];
    } else {
      var s := t - 1;
      GatheredCover(assign, k, s);
      GatheredCoverStep(assign, k, s);
      RangeStep(s);
      assert s + 1 == t;
    }
  }

  lemma GatheredCoverStep(assign: seq<int>, k: nat, t: int)
    requires 0 <= t < |assign| && 0 <= assign[t] < k
    ensures multiset(Flatten(Gatherings(assign, k, t + 1))) == multiset(Flatten(Gatherings(assign, k, t))) + multiset{t}
  {
    GatheringsStep(assign, k, t);
    FlattenInsert(Gatherings(assign, k, t), assign[t], t);
  }

  lemma RangeStep(t: nat)
    ensures multiset(Range(0, t + 1)) == multiset(Range(0, t)) + multiset{t}
  {
    assert Range(0, t + 1) == Range(0, t) + [t];
  }

  /** Position `x` within a class of `m` samples lies in the fold that
      starts at `a` and stops at `b` for `Overlap(a, b, x)` of the first `x`
      positions. */
  function Overlap(a: int, b: int, x: int): int
  {
    if x <= a then 0 else if x <= b then x - a else b - a
  }

  /** Among the first `t` samples, fold `f` holds as many of class `c` as the
      first positions of class `c` seen so far share with that class's fold
      `f`. */
  lemma {:induction false} ClassInFoldPrefix(labelData: seq<real>, k: nat, f: int, c: int, t: nat)
    requires k > 0 && 0 <= f < k && t <= |labelData|
    ensures Count(Gathered(Assignment(labelData, k), f, t), IsClass(labelData, c))
         == Overlap(FoldStart(Population(labelData, c), k, f), FoldStart(Population(labelData, c), k, f + 1),
                    Count(Range(0, t), IsClass(labelData, c)))
  {
    var m := Population(labelData, c);
    var a, b := FoldStart(m, k, f), FoldStart(m, k, f + 1);
    FoldStartBounds(m, k, f, f + 1);
    if t > 0 {
      var d := t - 1;
      var assign := Assignment(labelData, k);
      var p := IsClass(labelData, c);
      ClassInFoldPrefix(labelData, k, f, c, d);
      CountRangeStep(labelData, c, d);
      var tail := if assign[d] == f then [d] else [];
      CountAppend(Gathered(assign, f, d), tail, p);
      assert [d][..0] == [];
      var x := Count(Range(0, d), p);
      var before := Count(Gathered(assign, f, d), p);
      assert before == Overlap(a, b, x);
      assert Gathered(assign, f, t) == Gathered(assign, f, d) + tail;
      OverlapStep(a, b, x);
      if p(d) {
        assert Count([d], p) == 1;
        AssignedIn(labelData, k, d, f);
        assert Count(tail, p) == (if a <= x < b then 1 else 0);
        assert Count(Range(0, t), p) == x + 1;
      } else {
        assert Count(tail, p) == 0;
        assert Count(Range(0, t), p) == x;
      }
    }
  }

  lemma OverlapStep(a: int, b: int, x: int)
    requires 0 <= a <= b
    ensures Overlap(a, b, x + 1) == Overlap(a, b, x) + (if a <= x < b then 1 else 0)
  {
  }

  /** Sample `d` is assigned to fold `f` exactly when its position within
      its class falls in that class's fold `f`. */
  lemma AssignedIn(labelData: seq<real>, k: nat, d: int, f: int)
    requires k > 0 && 0 <= d < |labelData| && 0 <= f < k
    ensures var m := Population(labelData, ClassOf(labelData[d]));
      Assignment(labelData, k)[d] == f <==> FoldStart(m, k, f) <= Rank(labelData, d) < FoldStart(m, k, f + 1)
  {
    var m := Population(labelData, ClassOf(labelData[d]));
    RankBelowPopulation(labelData, d);
    if FoldStart(m, k, f) <= Rank(labelData, d) < FoldStart(m, k, f + 1) {
      FoldOfUnique(m, k, Rank(labelData, d), f);
    }
  }

  /** Fold `f` holds as many samples of class `c` as fold `f` of a class
      of that size holds positions: the stratification is exact. */
  lemma ClassInFold(labelData: seq<real>, k: nat, f: int, c: int)
    requires k > 0 && 0 <= f < k
    ensures Count(StratifiedFolds(labelData, k)[f], IsClass(labelData, c))
         == Population(labelData, c) / k + (if f < Population(labelData, c) % k then 1 else 0)
  {
    var m := Population(labelData, c);
    ClassInFoldPrefix(labelData, k, f, c, |labelData|);
    FoldStartBounds(m, k, f, f + 1);
    FoldStartStep(m, k, f);
  }

  /** The stratified folds partition the samples, each fold lists its
      samples in increasing order, and sample `d` lies in fold `f` exactly
      when it is assigned to it. */
  lemma StratifiedPartition(labelData: seq<real>, k: nat)
    requires k > 0
    ensures Partition(StratifiedFolds(labelData, k), |labelData|)
    ensures forall f, d :: 0 <= f < k ==>
              (d in StratifiedFolds(labelData, k)[f] <==> 0 <= d < |labelData| && Assigned(labelData, k, d) == f)
    ensures forall f, i, j :: 0 <= f < k && 0 <= i < j < |StratifiedFolds(labelData, k)[f]| ==>
              StratifiedFolds(labelData, k)[f][i] < StratifiedFolds(labelData, k)[f][j]
  {
    var assign := Assignment(labelData, k);
    GatheredCover(assign, k, |assign|);
    forall f | 0 <= f < k {
      GatheredMembers(assign, f, |assign|);
    }
  }

  /** When the splitting succeeds, every fold holds at least one sample of
      every class, so no fold is empty. */
  lemma StratifiedFoldsNonEmpty(labels: Labels, k: int)
    requires !StratifiedRejects(labels, k)
    ensures forall f :: 0 <= f < k ==> |StratifiedFolds(labels.labelData, k)[f]| > 0
  {
    var labelData := labels.labelData;
    assert labelData[0] >= 0.0;
    ClassesBelow(labelData);
    var c := ClassOf(labelData[0]);
    var p := Population(labelData, c);
    assert p >= k;
    DivAtLeastOne(p, k);
    forall f | 0 <= f < k
      ensures |StratifiedFolds(labelData, k)[f]| > 0
    {
      ClassInFold(labelData, k, f, c);
    }
  }

  lemma DivAtLeastOne(p: int, k: int)
    requires 0 < k <= p
    ensures p / k >= 1
  {
    assert p == k * (p / k) + p % k;
  }

  // The splitting itself

  /** Every label is at most the largest one, so a non-negative label's
      class is below the implied class count. */
  lemma ClassesBelow(labelData: seq<real>)
    requires |labelData| > 0
    ensures forall d :: 0 <= d < |labelData| && labelData[d] >= 0.0 ==>
              labelData[d] < NumberOfClasses(labelData) as real && 0 <= ClassOf(labelData[d]) < NumberOfClasses(labelData)
  {
    var mx := MaxCoeff(labelData);
    ClassOfTruncates(mx);
    forall d | 0 <= d < |labelData| && labelData[d] >= 0.0
      ensures labelData[d] < NumberOfClasses(labelData) as real && 0 <= ClassOf(labelData[d]) < NumberOfClasses(labelData)
    {
      ClassOfTruncates(labelData[d]);
    }
  }

  /** A largest label below zero makes every label negative. */
  lemma NegativeMaximum(labelData: seq<real>)
    requires |labelData| > 0 && NumberOfClasses(labelData) < 0
    ensures labelData[0] < 0.0
  {
    ClassOfTruncates(MaxCoeff(labelData));
  }

  /** `index -> fold` for the positions of a class of `m` samples. */
  predicate MapsFolds(indexMap: seq<int>, m: nat, k: nat)
  {
    k > 0 && |indexMap| == m && forall r :: 0 <= r < m ==> indexMap[r] == FoldOf(m, k, r)
  }

  /** Walks the unshuffled folds of a class of `m` samples and records, for
      each position, the fold holding it. */
  method IndexMapToFold(m: nat, k: nat, folds: seq<seq<int>>) returns (indexMap: seq<int>)
    requires k > 0 && folds == Folds(Range(0, m), k)
    ensures MapsFolds(indexMap, m, k)
  {
    indexMap := seq(m, _ => 0);
    for foldId := 0 to k
      invariant |indexMap| == m && 0 <= FoldStart(m, k, foldId) <= m
      invariant forall r :: 0 <= r < FoldStart(m, k, foldId) ==> indexMap[r] == FoldOf(m, k, r)
    {
      FoldStartBounds(m, k, foldId, foldId + 1);
      UnshuffledFolds(m, k, foldId);
      var fold := folds[foldId];
      ghost var start := FoldStart(m, k, foldId);
      for j := 0 to |fold|
        invariant |indexMap| == m
        invariant forall r :: 0 <= r < start + j ==> indexMap[r] == FoldOf(m, k, r)
      {
        var index := fold[j];
        FoldOfUnique(m, k, index, foldId);
        indexMap := indexMap[index := foldId];
      }
    }
    FoldStartBounds(m, k, k, k);
  }

  /** The plain folds of every class, then each class's position-to-fold
      map. Every class has at least `k` samples, so no split fails. */
  method ClassFoldMaps(labelsCount: seq<int>, k: int) returns (maps: seq<seq<int>>)
    requires 1 < k && forall c :: 0 <= c < |labelsCount| ==> k <= labelsCount[c]
    ensures |maps| == |labelsCount|
    ensures forall c :: 0 <= c < |labelsCount| ==> MapsFolds(maps[c], labelsCount[c], k)
  {
    var eachClassKFolds := [];
    for classId := 0 to |labelsCount|
      invariant |eachClassKFolds| == classId
      invariant forall c :: 0 <= c < classId ==> eachClassKFolds[c] == Folds(Range(0, labelsCount[c]), k)
    {
      var folds := KFolds(labelsCount[classId], k, None);
      eachClassKFolds := eachClassKFolds + [folds.value];
    }
    maps := [];
    for classId := 0 to |labelsCount|
      invariant |maps| == classId
      invariant forall c :: 0 <= c < classId ==> MapsFolds(maps[c], labelsCount[c], k)
    {
      var indexMap := IndexMapToFold(labelsCount[classId], k, eachClassKFolds[classId]);
      maps := maps + [indexMap];
    }
  }

  /** Gives every sample, in data order, the fold its class's map names for
      the number of samples of its class seen before it. */
  method AssignFolds(labelData: seq<real>, k: nat, numberOfClasses: nat, maps: seq<seq<int>>) returns (testFolds: seq<int>)
    requires k > 0 && |maps| == numberOfClasses
    requires forall d :: 0 <= d < |labelData| ==> 0 <= ClassOf(labelData[d]) < numberOfClasses
    requires forall c :: 0 <= c < numberOfClasses ==> MapsFolds(maps[c], Population(labelData, c), k)
    ensures testFolds == Assignment(labelData, k)
  {
    testFolds := [];
    var labelsReCount := Zeros(numberOfClasses);
    for dataId := 0 to |labelData|
      invariant labelsReCount == ClassCounts(Range(0, dataId), labelData, numberOfClasses)
      invariant testFolds == Assignment(labelData, k)[..dataId]
    {
      var thisLabel := ClassOf(labelData[dataId]);
      ClassCountsCount(Range(0, dataId), labelData, numberOfClasses, thisLabel);
      RankBelowPopulation(labelData, dataId);
      var foldIndex := maps[thisLabel][labelsReCount[thisLabel]];
      testFolds := testFolds + [foldIndex];
      assert Range(0, dataId + 1)[..dataId] == Range(0, dataId);
      labelsReCount := labelsReCount[thisLabel := labelsReCount[thisLabel] + 1];
    }
  }

  /** Lists the samples of every fold in data order. */
  method GatherFolds(testFolds: seq<int>, k: nat) returns (foldsIndices: seq<seq<int>>)
    requires forall d :: 0 <= d < |testFolds| ==> 0 <= testFolds[d] < k
    ensures foldsIndices == Gatherings(testFolds, k, |testFolds|)
  {
    foldsIndices := seq(k, _ => []);
    assert foldsIndices == Gatherings(testFolds, k, 0);
    for dataId := 0 to |testFolds|
      invariant foldsIndices == Gatherings(testFolds, k, dataId)
    {
      GatheringsStep(testFolds, k, dataId);
      var foldIndex := testFolds[dataId];
      foldsIndices := foldsIndices[foldIndex := foldsIndices[foldIndex] + [dataId]];
    }
  }

  /** Counts the samples of every class, failing on a label outside
      `[0, numberOfClasses)`. */
  method CountLabels(labelData: seq<real>, numberOfClasses: nat) returns (r: Result<seq<int>>)
    ensures r.Failure? <==> exists i :: 0 <= i < |labelData| && !(0.0 <= labelData[i] < numberOfClasses as real)
    ensures r.Success? ==> r.value == ClassCounts(Range(0, |labelData|), labelData, numberOfClasses)
  {
    var labelsCount := Zeros(numberOfClasses);
    for labelIndex := 0 to |labelData|
      invariant forall i :: 0 <= i < labelIndex ==> 0.0 <= labelData[i] < numberOfClasses as real
      invariant labelsCount == ClassCounts(Range(0, labelIndex), labelData, numberOfClasses)
    {
      if labelData[labelIndex] < 0.0 || labelData[labelIndex] >= numberOfClasses as real {
        return Failure("label out of the range of classes");
      }
      assert Range(0, labelIndex + 1)[..labelIndex] == Range(0, labelIndex);
      ClassOfTruncates(labelData[labelIndex]);
      var c := ClassOf(labelData[labelIndex]);
      labelsCount := labelsCount[c := labelsCount[c] + 1];
    }
    assert Range(0, |labelData|)[..|labelData|] == Range(0, |labelData|);
    return Success(labelsCount);
  }

  /** Fails when some class has no samples, or when the least populated
      class has fewer samples than there are folds. */
  method CheckClassSizes(labelsCount: seq<int>, numberOfFolds: int) returns (r: Result<()>)
    requires |labelsCount| > 0 && numberOfFolds > 1
    ensures r.Failure? <==> exists c :: 0 <= c < |labelsCount| && labelsCount[c] < numberOfFolds
  {
    for classId := 0 to |labelsCount|
      invariant forall c :: 0 <= c < classId ==> labelsCount[c] != 0
    {
      if labelsCount[classId] == 0 {
        return Failure("a class has no data");
      }
    }
    var minLabelCount := MinOf(labelsCount);
    if numberOfFolds > minLabelCount {
      return Failure("the least populated class has fewer members than folds");
    }
    return Success(());
  }

  /** Entry `c` of the class counts of all samples is the size of class
      `c`. */
  lemma CountsArePopulations(labelData: seq<real>, numberOfClasses: nat)
    ensures forall c :: 0 <= c < numberOfClasses ==>
              ClassCounts(Range(0, |labelData|), labelData, numberOfClasses)[c] == Population(labelData, c)
  {
    forall c | 0 <= c < numberOfClasses
      ensures ClassCounts(Range(0, |labelData|), labelData, numberOfClasses)[c] == Population(labelData, c)
    {
      ClassCountsCount(Range(0, |labelData|), labelData, numberOfClasses, c);
    }
  }

  /** Splits every class into folds and gathers the samples by fold, once
      the counts are known to allow it. */
  method SplitByClass(labelData: seq<real>, k: int, numberOfClasses: nat, labelsCount: seq<int>)
    returns (foldsIndices: seq<seq<int>>)
    requires 1 < k && |labelsCount| == numberOfClasses
    requires forall d :: 0 <= d < |labelData| ==> 0 <= ClassOf(labelData[d]) < numberOfClasses
    requires labelsCount == ClassCounts(Range(0, |labelData|), labelData, numberOfClasses)
    requires forall c :: 0 <= c < numberOfClasses ==> k <= labelsCount[c]
    ensures foldsIndices == StratifiedFolds(labelData, k)
  {
    CountsArePopulations(labelData, numberOfClasses);
    var maps := ClassFoldMaps(labelsCount, k);
    var testFolds := AssignFolds(labelData, k, numberOfClasses, maps);
    foldsIndices := GatherFolds(testFolds, k);
  }

  /** Stratified k-fold splitting without shuffling: the checks, the class
      counts, the per-class folds, and the samples gathered by fold. */
  method StratifiedKFolds(labels: Labels, numberOfFolds: int) returns (r: Result<seq<seq<int>>>)
    ensures r.Failure? <==> StratifiedRejects(labels, numberOfFolds)
    ensures r.Success? ==> numberOfFolds > 0 && r.value == StratifiedFolds(labels.labelData, numberOfFolds)
  {
    var labelData := labels.labelData;
    var numberOfData := |labelData|;
    if numberOfFolds <= 1 || numberOfFolds > numberOfData {
      return Failure("Number of folds must be greater than one and no larger than number of data");
    }
    if labels.labelType != Classification {
      return Failure("Label type should be Classification");
    }
    var numberOfClasses := ClassOf(MaxCoeff(labelData)) + 1;
    if numberOfClasses < 0 {
      NegativeMaximum(labelData);
      return Failure("the class count vector cannot have a negative length");
    }
    ClassesBelow(labelData);
    var counted := CountLabels(labelData, numberOfClasses);
    if counted.Failure? {
      return Failure(counted.error);
    }
    var labelsCount := counted.value;
    assert 0 <= ClassOf(labelData[0]) < numberOfClasses;
    CountsArePopulations(labelData, numberOfClasses);
    var enough := CheckClassSizes(labelsCount, numberOfFolds);
    if enough.Failure? {
      var c :| 0 <= c < numberOfClasses && labelsCount[c] < numberOfFolds;
      assert Population(labelData, c) < numberOfFolds;
      return Failure(enough.error);
    }
    var foldsIndices := SplitByClass(labelData, numberOfFolds, numberOfClasses, labelsCount);
    return Success(foldsIndices);
  }
}
