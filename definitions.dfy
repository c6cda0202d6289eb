/**
 * The label vector every model trains on and predicts: a problem type and
 * one real value per sample. Classification labels are class numbers
 * stored as reals; -1 marks a position that was not predicted.
 */
module Definitions {

  datatype ProblemType = Classification | Regression

  datatype Labels = Labels(labelType: ProblemType, labelData: seq<real>)

  /** A row-major data matrix: one row per sample. The column count is kept
      apart from the rows, so that a matrix with no rows still has one. */
  datatype Matrix = Matrix(cols: nat, rows: seq<seq<real>>)

  /** Every row has `cols` entries. */
  predicate Rectangular(m: Matrix)
  {
    forall r :: 0 <= r < |m.rows| ==> |m.rows[r]| == m.cols
  }

  /** `v` is the label of one of `K` classes: a whole number in `[0, K)`. */
  predicate IsClassLabel(v: real, K: nat)
  {
    0.0 <= v < K as real && v == v.Floor as real
  }

  /** `lround` of the C library: the nearest integer, halves rounded away
      from zero. */
  function LRound(x: real): (n: int)
    ensures x - 0.5 <= n as real <= x + 0.5
    ensures x >= 0.0 ==> n as real > x - 0.5
    ensures x < 0.0 ==> n as real < x + 0.5
  {
    if x >= 0.0 then (x + 0.5).Floor else -((-x + 0.5).Floor)
  }

  /** Rounding gives a non-negative integer exactly for the values above
      -1/2; so the placeholder -1 rounds below zero and every class number
      rounds to itself. */
  lemma LRoundNonNegative(x: real)
    ensures LRound(x) >= 0 <==> x > -0.5
    ensures LRound(-1.0) == -1
  {
    if x < 0.0 && x > -0.5 {
      assert (-x + 0.5).Floor == 0;
    }
  }

  /** A vector of `n` copies of `v`, as `fill` leaves it. */
  function Filled(n: nat, v: real): (r: seq<real>)
    ensures |r| == n && forall i :: 0 <= i < n ==> r[i] == v
  {
    if n == 0 then [] else Filled(n - 1, v) + [v]
  }

  /** `maxCoeff` of a non-empty vector: its largest entry. */
  function MaxCoeff(s: seq<real>): (mx: real)
    requires |s| > 0
    ensures forall i :: 0 <= i < |s| ==> s[i] <= mx
    ensures exists i :: 0 <= i < |s| && s[i] == mx
  {
    if |s| == 1 then s[0]
    else
      var m := MaxCoeff(s[..|s| - 1]);
      assert forall i :: 0 <= i < |s| - 1 ==> s[..|s| - 1][i] == s[i];
      if s[|s| - 1] > m then s[|s| - 1] else m
  }

  /** `minCoeff` of a non-empty vector: its smallest entry. */
  function MinCoeff(s: seq<real>): (mn: real)
    requires |s| > 0
    ensures forall i :: 0 <= i < |s| ==> mn <= s[i]
    ensures exists i :: 0 <= i < |s| && s[i] == mn
  {
    if |s| == 1 then s[0]
    else
      var m := MinCoeff(s[..|s| - 1]);
      assert forall i :: 0 <= i < |s| - 1 ==> s[..|s| - 1][i] == s[i];
      if s[|s| - 1] < m then s[|s| - 1] else m
  }
}
