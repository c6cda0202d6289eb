/**
 * Impurity rules over class-count vectors and the weighted impurity
 * improvement shared by every criterion.
 *
 * Counts are integers; shares are `count / N` in exact real arithmetic,
 * where `N` is the sum of the vector. A vector whose sum is zero would make
 * the source divide by zero; the rules therefore require a non-zero sum.
 */
module Impurity {
  import opened Counting

  /** Sum of the squared shares `(c[k] / n)^2`. */
  function SquaredShares(c: seq<int>, n: real): (s: real)
    requires n != 0.0
    ensures s >= 0.0
  {
    if |c| == 0 then 0.0
    else
      var share := c[|c| - 1] as real / n;
      SquaredShares(c[..|c| - 1], n) + share * share
  }

  /** Gini impurity `1 - sum_k (c[k]/N)^2`, N the total count. */
  function Gini(c: seq<int>): (g: real)
    requires Sum(c) != 0
    ensures g <= 1.0
  {
    1.0 - SquaredShares(c, Sum(c) as real)
  }

  /** Product of the shares `c[k] / n` (the Bernoulli rule). */
  function ShareProduct(c: seq<int>, n: real): real
    requires n != 0.0
  {
    if |c| == 0 then 1.0 else ShareProduct(c[..|c| - 1], n) * (c[|c| - 1] as real / n)
  }

  /** Bernoulli impurity `prod_k c[k]/N`. */
  function Bernoulli(c: seq<int>): real
    requires Sum(c) != 0
  {
    ShareProduct(c, Sum(c) as real)
  }

  /** Entropy terms `-(c[k]/n) ln(c[k]/n)`, skipping classes with no samples.
      The logarithm is a parameter: it is not modelled. */
  function EntropyTerms(c: seq<int>, n: real, ln: real -> real): real
    requires n != 0.0
  {
    if |c| == 0 then 0.0
    else
      var rest := EntropyTerms(c[..|c| - 1], n, ln);
      if c[|c| - 1] > 0 then
        var share := c[|c| - 1] as real / n;
        rest - share * ln(share)
      else rest
  }

  function Entropy(c: seq<int>, ln: real -> real): real
    requires Sum(c) != 0
  {
    EntropyTerms(c, Sum(c) as real, ln)
  }

  /** The impurity rule a classification criterion is instantiated with. */
  datatype Rule = GiniRule | BernoulliRule | EntropyRule(ln: real -> real)

  function Apply(rule: Rule, c: seq<int>): real
    requires Sum(c) != 0
  {
    match rule
    case GiniRule => Gini(c)
    case BernoulliRule => Bernoulli(c)
    case EntropyRule(ln) => Entropy(c, ln)
  }

  /** Product of the raw counts (the older criterion's child impurity
      before division by the side size). */
  function CountProduct(c: seq<int>): int
  {
    if |c| == 0 then 1 else CountProduct(c[..|c| - 1]) * c[|c| - 1]
  }

  /** The older criterion's node impurity: `(prod_k total[k]/n) * n`. */
  function LegacyNodeImpurity(total: seq<int>, n: int): real
    requires n != 0
  {
    ShareProduct(total, n as real) * n as real
  }

  /** The older criterion's child impurity: `(prod_k count[k]) / side`. */
  function LegacyChildImpurity(counts: seq<int>, side: int): real
    requires side != 0
  {
    CountProduct(counts) as real / side as real
  }

  /** The share `count / whole` applied to `x`. */
  function Weighted(count: int, whole: int, x: real): real
    requires whole != 0
  {
    (count as real / whole as real) * x
  }

  /** The weighted improvement
      `(n/N) * (impurity - (r/n) * impurityRight - (l/n) * impurityLeft)`
      with `n` the node's sample count and `N` the size of the label vector. */
  function ImproveFormula(n: int, total: int, l: int, r: int,
                          impurity: real, impurityLeft: real, impurityRight: real): real
    requires n != 0 && total != 0
  {
    Weighted(n, total, impurity - Weighted(r, n, impurityRight) - Weighted(l, n, impurityLeft))
  }

  // ---------------------------------------------------------------------
  // The rules as the source computes them: one pass over the count vector
  // ---------------------------------------------------------------------

  /** `gini`: start from 1 and subtract the square of each share. */
  method ComputeGini(labelsCount: seq<int>) returns (impurity: real)
    requires Sum(labelsCount) != 0
    ensures impurity == Gini(labelsCount)
  {
    var n := Sum(labelsCount) as real;
    impurity := 1.0;
    var k := 0;
    while k < |labelsCount|
      invariant 0 <= k <= |labelsCount|
      invariant impurity == 1.0 - SquaredShares(labelsCount[..k], n)
    {
      var temp := labelsCount[k] as real / n;
      assert labelsCount[..k + 1][..k] == labelsCount[..k];
      impurity := impurity - temp * temp;
      k := k + 1;
    }
    assert labelsCount[..k] == labelsCount;
  }

  /** `bernoulli`: start from 1 and multiply by each share. */
  method ComputeBernoulli(labelsCount: seq<int>) returns (impurity: real)
    requires Sum(labelsCount) != 0
    ensures impurity == Bernoulli(labelsCount)
  {
    var n := Sum(labelsCount) as real;
    impurity := 1.0;
    var k := 0;
    while k < |labelsCount|
      invariant 0 <= k <= |labelsCount|
      invariant impurity == ShareProduct(labelsCount[..k], n)
    {
      assert labelsCount[..k + 1][..k] == labelsCount[..k];
      impurity := impurity * (labelsCount[k] as real / n);
      k := k + 1;
    }
    assert labelsCount[..k] == labelsCount;
  }

  /** `entropy`: start from 0 and subtract `share * ln(share)` for each
      class that has samples. */
  method ComputeEntropy(labelsCount: seq<int>, ln: real -> real) returns (impurity: real)
    requires Sum(labelsCount) != 0
    ensures impurity == Entropy(labelsCount, ln)
  {
    var n := Sum(labelsCount) as real;
    impurity := 0.0;
    var k := 0;
    while k < |labelsCount|
      invariant 0 <= k <= |labelsCount|
      invariant impurity == EntropyTerms(labelsCount[..k], n, ln)
    {
      assert labelsCount[..k + 1][..k] == labelsCount[..k];
      if labelsCount[k] > 0 {
        var temp := labelsCount[k] as real / n;
        impurity := impurity - temp * ln(temp);
      }
      k := k + 1;
    }
    assert labelsCount[..k] == labelsCount;
  }

  /** The rule the criterion was instantiated with, applied to `c`. */
  method ComputeRule(rule: Rule, c: seq<int>) returns (impurity: real)
    requires Sum(c) != 0
    ensures impurity == Apply(rule, c)
  {
    match rule
    case GiniRule =>
      impurity := ComputeGini(c);
    case BernoulliRule =>
      impurity := ComputeBernoulli(c);
    case EntropyRule(ln) =>
      impurity := ComputeEntropy(c, ln);
  }

  // ---------------------------------------------------------------------
  // Properties of the rules
  // ---------------------------------------------------------------------

  predicate NonNegative(c: seq<int>)
  {
    forall k :: 0 <= k < |c| ==> c[k] >= 0
  }

  /** `c` has all its samples in class `j`. */
  predicate Pure(c: seq<int>, j: int)
  {
    0 <= j < |c| && c[j] > 0 && forall k :: 0 <= k < |c| && k != j ==> c[k] == 0
  }

  lemma {:induction false} PureSum(c: seq<int>, j: int)
    requires 0 <= j < |c|
    requires forall k :: 0 <= k < |c| && k != j ==> c[k] == 0
    ensures Sum(c) == c[j]
  {
    var m := |c| - 1;
    if m == j {
      ZeroSum(c[..m]);
    } else {
      PureSum(c[..m], j);
    }
  }

  lemma {:induction false} ZeroSum(c: seq<int>)
    requires forall k :: 0 <= k < |c| ==> c[k] == 0
    ensures Sum(c) == 0
  {
    if |c| > 0 {
      ZeroSum(c[..|c| - 1]);
    }
  }

  lemma {:induction false} SquaredSharesPure(c: seq<int>, j: int, n: real)
    requires n != 0.0 && 0 <= j < |c|
    requires forall k :: 0 <= k < |c| && k != j ==> c[k] == 0
    ensures SquaredShares(c, n) == (c[j] as real / n) * (c[j] as real / n)
  {
    var m := |c| - 1;
    if m == j {
      SquaredSharesZero(c[..m], n);
    } else {
      SquaredSharesPure(c[..m], j, n);
    }
  }

  lemma {:induction false} SquaredSharesZero(c: seq<int>, n: real)
    requires n != 0.0
    requires forall k :: 0 <= k < |c| ==> c[k] == 0
    ensures SquaredShares(c, n) == 0.0
  {
    if |c| > 0 {
      SquaredSharesZero(c[..|c| - 1], n);
    }
  }

  /** A node holding a single class has Gini impurity 0. */
  lemma GiniPure(c: seq<int>, j: int)
    requires Pure(c, j)
    ensures Sum(c) == c[j]
    ensures Gini(c) == 0.0
  {
    PureSum(c, j);
    SquaredSharesPure(c, j, Sum(c) as real);
  }

  /** Sum of squares of the counts. */
  function SumSquares(c: seq<int>): int
  {
    if |c| == 0 then 0 else SumSquares(c[..|c| - 1]) + c[|c| - 1] * c[|c| - 1]
  }

  lemma {:induction false} SquaredSharesScaled(c: seq<int>, n: real)
    requires n != 0.0
    ensures SquaredShares(c, n) * (n * n) == SumSquares(c) as real
  {
    if |c| > 0 {
      var m := |c| - 1;
      SquaredSharesScaled(c[..m], n);
      var x := c[m] as real;
      assert (x / n) * (x / n) * (n * n) == x * x;
    }
  }

  lemma {:induction false} SumSquaresBound(c: seq<int>)
    requires NonNegative(c)
    ensures 0 <= SumSquares(c) <= Sum(c) * Sum(c)
  {
    if |c| > 0 {
      var m := |c| - 1;
      SumSquaresBound(c[..m]);
      SumNonNegative(c[..m]);
      var s := Sum(c[..m]);
      var x := c[m];
      assert (s + x) * (s + x) == s * s + 2 * s * x + x * x;
      assert s * x >= 0;
    }
  }

  lemma {:induction false} SumNonNegative(c: seq<int>)
    requires NonNegative(c)
    ensures Sum(c) >= 0
  {
    if |c| > 0 {
      SumNonNegative(c[..|c| - 1]);
    }
  }

  /** Gini impurity of non-negative counts lies in [0, 1]. */
  lemma GiniBounds(c: seq<int>)
    requires NonNegative(c) && Sum(c) != 0
    ensures 0.0 <= Gini(c) <= 1.0
  {
    var total := Sum(c);
    var n := total as real;
    var q := SumSquares(c);
    var s := SquaredShares(c, n);
    SquaredSharesScaled(c, n);
    SumSquaresBound(c);
    SumNonNegative(c);
    assert s * (n * n) == q as real;
    SquareShareScalar(s, total, n, q);
  }

  /** `s * N^2 == Q` with `0 <= Q <= N^2` puts `s` in [0, 1]. */
  lemma SquareShareScalar(s: real, total: int, n: real, q: int)
    requires total > 0 && n == total as real && 0 <= q <= total * total
    requires s * (n * n) == q as real
    ensures 0.0 <= s <= 1.0
  {
    CastProduct(total, total);
    assert q as real <= n * n;
    assert n * n > 0.0;
  }

  lemma CastProduct(a: int, b: int)
    ensures (a * b) as real == a as real * b as real
  {
  }

  lemma {:induction false} ShareProductWithZero(c: seq<int>, n: real, j: int)
    requires n != 0.0 && 0 <= j < |c| && c[j] == 0
    ensures ShareProduct(c, n) == 0.0
  {
    var m := |c| - 1;
    if j < m {
      ShareProductWithZero(c[..m], n, j);
    }
  }

  /** A class with no samples makes the Bernoulli impurity 0, so a pure node
      of a problem with at least two classes has Bernoulli impurity 0. */
  lemma BernoulliEmptyClass(c: seq<int>, j: int)
    requires Sum(c) != 0 && 0 <= j < |c| && c[j] == 0
    ensures Bernoulli(c) == 0.0
  {
    ShareProductWithZero(c, Sum(c) as real, j);
  }

  lemma {:induction false} ShareProductBounds(c: seq<int>, n: real)
    requires n > 0.0 && NonNegative(c)
    requires forall k :: 0 <= k < |c| ==> c[k] as real <= n
    ensures 0.0 <= ShareProduct(c, n) <= 1.0
  {
    if |c| > 0 {
      var m := |c| - 1;
      ShareProductBounds(c[..m], n);
      UnitShare(c[m] as real, n);
      UnitProduct(ShareProduct(c[..m], n), c[m] as real / n);
    }
  }

  lemma UnitShare(x: real, n: real)
    requires 0.0 <= x <= n && n > 0.0
    ensures 0.0 <= x / n <= 1.0
  {
  }

  lemma UnitProduct(p: real, f: real)
    requires 0.0 <= p <= 1.0 && 0.0 <= f <= 1.0
    ensures 0.0 <= p * f <= 1.0
  {
    var g := 1.0 - f;
    NonNegativeProduct(p, f);
    NonNegativeProduct(p, g);
    assert p * f == p - p * g;
  }

  lemma NonNegativeProduct(x: real, y: real)
    requires x >= 0.0 && y >= 0.0
    ensures x * y >= 0.0
  {
  }

  lemma {:induction false} ElementBelowSum(c: seq<int>, j: int)
    requires NonNegative(c) && 0 <= j < |c|
    ensures c[j] <= Sum(c)
  {
    var m := |c| - 1;
    if j < m {
      ElementBelowSum(c[..m], j);
      assert c[m] >= 0;
    } else {
      SumNonNegative(c[..m]);
    }
  }

  /** Bernoulli impurity of non-negative counts lies in [0, 1]. */
  lemma BernoulliBounds(c: seq<int>)
    requires NonNegative(c) && Sum(c) != 0
    ensures 0.0 <= Bernoulli(c) <= 1.0
  {
    SumNonNegative(c);
    forall k | 0 <= k < |c|
      ensures c[k] as real <= Sum(c) as real
    {
      ElementBelowSum(c, k);
    }
    ShareProductBounds(c, Sum(c) as real);
  }

  /** Inserting a class with no samples anywhere leaves the entropy terms
      unchanged: empty classes contribute nothing. */
  lemma {:induction false} EntropyTermsSkipEmpty(a: seq<int>, b: seq<int>, n: real, ln: real -> real)
    requires n != 0.0
    ensures EntropyTerms(a + [0] + b, n, ln) == EntropyTerms(a + b, n, ln)
  {
    if |b| == 0 {
      assert a + [0] + b == a + [0];
      assert (a + [0])[..|a|] == a;
      assert a + b == a;
    } else {
      var m := |b| - 1;
      assert (a + [0] + b)[..|a| + 1 + m] == a + [0] + b[..m];
      assert (a + b)[..|a| + m] == a + b[..m];
      EntropyTermsSkipEmpty(a, b[..m], n, ln);
    }
  }

  lemma {:induction false} EntropyTermsZero(c: seq<int>, n: real, ln: real -> real)
    requires n != 0.0
    requires forall k :: 0 <= k < |c| ==> c[k] == 0
    ensures EntropyTerms(c, n, ln) == 0.0
  {
    if |c| > 0 {
      EntropyTermsZero(c[..|c| - 1], n, ln);
    }
  }

  lemma {:induction false} EntropyTermsPure(c: seq<int>, j: int, n: real, ln: real -> real)
    requires n != 0.0 && 0 <= j < |c| && c[j] > 0
    requires forall k :: 0 <= k < |c| && k != j ==> c[k] == 0
    ensures EntropyTerms(c, n, ln) == -(c[j] as real / n) * ln(c[j] as real / n)
  {
    var m := |c| - 1;
    if m == j {
      EntropyTermsZero(c[..m], n, ln);
    } else {
      EntropyTermsPure(c[..m], j, n, ln);
    }
  }

  /** With a logarithm that maps 1 to 0, a single-class node has entropy 0. */
  lemma EntropyPure(c: seq<int>, j: int, ln: real -> real)
    requires Pure(c, j) && ln(1.0) == 0.0
    ensures Sum(c) == c[j]
    ensures Entropy(c, ln) == 0.0
  {
    PureSum(c, j);
    EntropyTermsPure(c, j, Sum(c) as real, ln);
    DivSelf(c[j] as real);
  }

  lemma DivSelf(x: real)
    requires x != 0.0
    ensures x / x == 1.0
  {
  }

  /** The older criterion's node impurity is the Bernoulli impurity scaled by
      the node size. */
  lemma LegacyNodeIsScaledBernoulli(total: seq<int>)
    requires Sum(total) != 0
    ensures LegacyNodeImpurity(total, Sum(total)) == Bernoulli(total) * Sum(total) as real
  {
  }

  lemma {:induction false} CountProductWithZero(c: seq<int>, j: int)
    requires 0 <= j < |c| && c[j] == 0
    ensures CountProduct(c) == 0
  {
    var m := |c| - 1;
    if j < m {
      CountProductWithZero(c[..m], j);
    }
  }

  /** A child missing some class has older-criterion impurity 0. */
  lemma LegacyChildEmptyClass(counts: seq<int>, side: int, j: int)
    requires side != 0 && 0 <= j < |counts| && counts[j] == 0
    ensures LegacyChildImpurity(counts, side) == 0.0
  {
    CountProductWithZero(counts, j);
  }

  /** The count vector of a node is the elementwise sum of its children's. */
  predicate SplitOf(t: seq<int>, l: seq<int>, r: seq<int>)
  {
    |l| == |t| && |r| == |t| && forall k :: 0 <= k < |t| ==> t[k] == l[k] + r[k]
  }

  lemma {:induction false} SumSplit(t: seq<int>, l: seq<int>, r: seq<int>)
    requires SplitOf(t, l, r)
    ensures Sum(t) == Sum(l) + Sum(r)
  {
    if |t| > 0 {
      var m := |t| - 1;
      SumSplit(t[..m], l[..m], r[..m]);
    }
  }

  /** A split whose children are as impure as the node gains nothing. */
  lemma ImproveUnchangedImpurity(n: int, total: int, l: int, r: int, impurity: real)
    requires n != 0 && total != 0 && l + r == n
    ensures ImproveFormula(n, total, l, r, impurity, impurity, impurity) == 0.0
  {
    var nr := n as real;
    assert (r as real / nr) * impurity + (l as real / nr) * impurity == ((r + l) as real / nr) * impurity;
    assert (r + l) as real / nr == 1.0;
  }
}
