/**
 * The value-level logic the ensemble models share: picking a label from a
 * vote or count vector, counting votes, expanding integer sample weights into
 * repeated sample indices, and drawing bootstrap index lists.
 */
module Voting {
  import opened Outcome
  import opened Counting
  import opened Samples

  /** The position `std::max_element` returns: the first index holding the
      largest entry, and 0 (the end of an empty vector) when there is none. */
  function FirstMax(v: seq<int>): (k: nat)
    ensures |v| == 0 ==> k == 0
    ensures |v| > 0 ==> k < |v|
    ensures |v| > 0 ==> forall j :: 0 <= j < |v| ==> v[j] <= v[k]
    ensures forall j :: 0 <= j < k ==> v[j] < v[k]
  {
    if |v| <= 1 then 0
    else
      var k := FirstMax(v[..|v| - 1]);
      if v[|v| - 1] > v[k] then |v| - 1 else k
  }

  /** The two properties of `FirstMax` single it out: any index holding a
      largest entry with only smaller entries before it is `FirstMax`. */
  lemma FirstMaxUnique(v: seq<int>, k: int)
    requires 0 <= k < |v|
    requires forall j :: 0 <= j < |v| ==> v[j] <= v[k]
    requires forall j :: 0 <= j < k ==> v[j] < v[k]
    ensures k == FirstMax(v)
  {
  }

  /** The vote vector of `predictions`: entry `k` counts the predictions
      whose label casts to `k`. */
  function Ballot(predictions: seq<real>, K: nat): (votes: seq<int>)
    ensures |votes| == K
  {
    ClassCounts(Range(0, |predictions|), predictions, K)
  }

  /** Every prediction is a label of one of the `K` classes. */
  predicate Votable(predictions: seq<real>, K: nat)
  {
    forall m :: 0 <= m < |predictions| ==> 0 <= ClassOf(predictions[m]) < K
  }

  /** Each prediction casts exactly one vote, so the votes add up to the
      number of predictions, and entry `k` counts the predictions of class
      `k`. */
  lemma BallotTotal(predictions: seq<real>, K: nat)
    requires Votable(predictions, K)
    ensures Sum(Ballot(predictions, K)) == |predictions|
    ensures forall k :: 0 <= k < K ==>
              Ballot(predictions, K)[k] == Count(Range(0, |predictions|), IsClass(predictions, k))
  {
    ClassCountsSum(Range(0, |predictions|), predictions, K);
    forall k | 0 <= k < K
      ensures Ballot(predictions, K)[k] == Count(Range(0, |predictions|), IsClass(predictions, k))
    {
      ClassCountsCount(Range(0, |predictions|), predictions, K, k);
    }
  }

  /** Counts one vote per prediction in a vector of `K` zeros and returns
      the smallest label with the most votes. */
  method MajorityVote(predictions: seq<real>, K: nat) returns (winner: int)
    requires Votable(predictions, K)
    ensures winner == FirstMax(Ballot(predictions, K))
    ensures K > 0 ==> 0 <= winner < K
  {
    var votes := Zeros(K);
    for m := 0 to |predictions|
      invariant votes == ClassCounts(Range(0, m), predictions, K)
    {
      assert Range(0, m + 1)[..m] == Range(0, m);
      var k := ClassOf(predictions[m]);
      votes := votes[k := votes[k] + 1];
    }
    assert Range(0, |predictions|) == Range(0, |predictions|)[..|predictions|];
    winner := FirstMax(votes);
  }

  /** When every prediction names the same class `c`, the vote picks `c`. */
  lemma {:induction false} UnanimousVote(predictions: seq<real>, K: nat, c: int)
    requires |predictions| > 0 && 0 <= c < K
    requires forall m :: 0 <= m < |predictions| ==> ClassOf(predictions[m]) == c
    ensures FirstMax(Ballot(predictions, K)) == c
  {
    var votes := Ballot(predictions, K);
    BallotTotal(predictions, K);
    forall k | 0 <= k < K && k != c
      ensures votes[k] == 0
    {
      CountNone(Range(0, |predictions|), IsClass(predictions, k));
    }
    CountAll(Range(0, |predictions|), IsClass(predictions, c));
    FirstMaxUnique(votes, c);
  }

  /** Nothing in `s` satisfies `p`, so none is counted. */
  lemma {:induction false} CountNone<T>(s: seq<T>, p: T -> bool)
    requires forall i :: 0 <= i < |s| ==> !p(s[i])
    ensures Count(s, p) == 0
  {
    if |s| > 0 {
      CountNone(s[..|s| - 1], p);
    }
  }

  /** Everything in `s` satisfies `p`, so all are counted. */
  lemma {:induction false} CountAll<T>(s: seq<T>, p: T -> bool)
    requires forall i :: 0 <= i < |s| ==> p(s[i])
    ensures Count(s, p) == |s|
  {
    if |s| > 0 {
      CountAll(s[..|s| - 1], p);
    }
  }

  /** The elementwise sum of two count vectors over the first vector's
      length, as `std::transform` with `std::plus` writes it. */
  function Plus(a: seq<int>, b: seq<int>): (c: seq<int>)
    requires |b| >= |a|
    ensures |c| == |a| && forall k :: 0 <= k < |a| ==> c[k] == a[k] + b[k]
  {
    seq(|a|, k requires 0 <= k < |a| => a[k] + b[k])
  }

  /** Elementwise sums keep the total: the sum of `Plus(a, b)` is the sum of
      both vectors. */
  lemma {:induction false} PlusSum(a: seq<int>, b: seq<int>)
    requires |a| == |b|
    ensures Sum(Plus(a, b)) == Sum(a) + Sum(b)
  {
    if |a| > 0 {
      var n := |a| - 1;
      assert Plus(a, b)[..n] == Plus(a[..n], b[..n]);
      PlusSum(a[..n], b[..n]);
    }
  }

  // Sample weights

  /** `static_cast<long>` of a weight: the number of copies it asks for. */
  function Repeatance(w: real): int
  {
    ClassOf(w)
  }

  /** The cast loses nothing: the weight is a whole number. */
  predicate Integral(w: real)
  {
    Repeatance(w) as real == w
  }

  /** The copies of `id` the repeat loop pushes for weight `w`: one per unit
      of a positive weight, none for zero or a negative weight. */
  function Copies(id: int, w: real): (r: seq<int>)
    ensures |r| == (if Repeatance(w) > 0 then Repeatance(w) else 0)
    ensures forall j :: 0 <= j < |r| ==> r[j] == id
  {
    seq(if Repeatance(w) > 0 then Repeatance(w) else 0, _ => id)
  }

  /** The training index list the weights stand for: each data index, in
      order, repeated as its weight says. */
  function Expanded(weights: seq<real>): seq<int>
  {
    if |weights| == 0 then []
    else Expanded(weights[..|weights| - 1]) + Copies(|weights| - 1, weights[|weights| - 1])
  }

  /** Turns integer sample weights into repeated data indices; a weight with
      a fractional part is an error. */
  method ExpandWeights(weights: seq<real>) returns (r: Result<seq<int>>)
    ensures r.Failure? <==> exists i :: 0 <= i < |weights| && !Integral(weights[i])
    ensures r.Success? ==> r.value == Expanded(weights)
  {
    var trainIndices: seq<int> := [];
    var dataId := 0;
    while dataId < |weights|
      invariant 0 <= dataId <= |weights|
      invariant forall i :: 0 <= i < dataId ==> Integral(weights[i])
      invariant trainIndices == Expanded(weights[..dataId])
    {
      var repeatance := Repeatance(weights[dataId]);
      if repeatance as real != weights[dataId] {
        return Failure("cannot handle general sample weights");
      }
      var rep := 0;
      while rep < repeatance
        invariant 0 <= rep && (repeatance > 0 ==> rep <= repeatance) && (repeatance <= 0 ==> rep == 0)
        invariant trainIndices == Expanded(weights[..dataId]) + seq(rep, _ => dataId)
      {
        trainIndices := trainIndices + [dataId];
        rep := rep + 1;
      }
      assert weights[..dataId + 1][..dataId] == weights[..dataId];
      assert seq(rep, _ => dataId) == Copies(dataId, weights[dataId]);
      dataId := dataId + 1;
    }
    assert weights[..|weights|] == weights;
    return Success(trainIndices);
  }

  /** The expanded list holds `id` exactly as many times as its weight asks
      (none for a non-positive weight), and nothing outside the data. */
  lemma {:induction false} ExpandedMultiplicity(weights: seq<real>, id: int)
    ensures 0 <= id < |weights| ==>
              multiset(Expanded(weights))[id] == (if Repeatance(weights[id]) > 0 then Repeatance(weights[id]) else 0)
    ensures !(0 <= id < |weights|) ==> multiset(Expanded(weights))[id] == 0
  {
    if |weights| > 0 {
      var n := |weights| - 1;
      ExpandedMultiplicity(weights[..n], id);
      CopiesMultiplicity(n, weights[n], id);
    }
  }

  lemma {:induction false} CopiesMultiplicity(id: int, w: real, x: int)
    ensures multiset(Copies(id, w))[x] == (if x == id then |Copies(id, w)| else 0)
  {
    var c := Copies(id, w);
    RepeatedMultiplicity(c, id, x);
  }

  lemma {:induction false} RepeatedMultiplicity(c: seq<int>, id: int, x: int)
    requires forall j :: 0 <= j < |c| ==> c[j] == id
    ensures multiset(c)[x] == (if x == id then |c| else 0)
  {
    if |c| > 0 {
      var n := |c| - 1;
      assert c == c[..n] + [c[n]];
      RepeatedMultiplicity(c[..n], id, x);
    }
  }

  /** The expanded list is sorted and lists only data indices. */
  lemma {:induction false} ExpandedSorted(weights: seq<real>)
    ensures forall j :: 0 <= j < |Expanded(weights)| ==> 0 <= Expanded(weights)[j] < |weights|
    ensures forall i, j :: 0 <= i <= j < |Expanded(weights)| ==> Expanded(weights)[i] <= Expanded(weights)[j]
  {
    if |weights| > 0 {
      var n := |weights| - 1;
      ExpandedSorted(weights[..n]);
      var e, c := Expanded(weights[..n]), Copies(n, weights[n]);
      assert Expanded(weights) == e + c;
      forall j | 0 <= j < |e + c|
        ensures 0 <= (e + c)[j] < |weights|
      {
        if j >= |e| {
          assert (e + c)[j] == c[j - |e|];
        }
      }
    }
  }

  // Bootstrap

  /** One bootstrap list: as many draws as there are training indices, each
      a training index picked at random (`rand() % numberOfData`). */
  method Bootstrap(trainIndices: seq<int>) returns (sample: seq<int>)
    ensures |sample| == |trainIndices|
    ensures forall j :: 0 <= j < |sample| ==> sample[j] in trainIndices
  {
    var numberOfData := |trainIndices|;
    sample := [];
    for dataId := 0 to numberOfData
      invariant |sample| == dataId
      invariant forall j :: 0 <= j < dataId ==> sample[j] in trainIndices
    {
      assert 0 <= 0 < numberOfData;
      var randomIndex :| 0 <= randomIndex < numberOfData;
      sample := sample + [trainIndices[randomIndex]];
    }
  }

  /** A list drawn from labelled training indices is labelled too. */
  lemma DrawnLabelled(trainIndices: seq<int>, sample: seq<int>, labels: seq<real>, K: nat)
    requires Labelled(trainIndices, labels, K)
    requires forall j :: 0 <= j < |sample| ==> sample[j] in trainIndices
    ensures Labelled(sample, labels, K)
  {
    forall j | 0 <= j < |sample|
      ensures 0 <= sample[j] < |labels| && 0 <= ClassOf(labels[sample[j]]) < K
    {
      var i :| 0 <= i < |trainIndices| && trainIndices[i] == sample[j];
    }
  }
}
