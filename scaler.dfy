/**
 * The min-max scaler: `fit` records the largest and the smallest entry of
 * every column, and `transform` maps each entry affinely so that the
 * recorded column minimum lands on the lower bound and the column maximum
 * on the upper bound. A column whose entries were all equal passes through
 * unchanged. Entries are exact reals here.
 */
module Scaling {
  import opened Outcome
  import opened Definitions

  /** Column `j` of a matrix, top to bottom. */
  function Column(data: Matrix, j: int): (c: seq<real>)
    requires Rectangular(data) && 0 <= j < data.cols
    ensures |c| == |data.rows| && forall i :: 0 <= i < |c| ==> c[i] == data.rows[i][j]
  {
    seq(|data.rows|, i requires 0 <= i < |data.rows| => data.rows[i][j])
  }

  /** A matrix `fit` can take: rectangular, and with at least one row when
      it has columns, since the extremes of an empty column do not exist. */
  predicate Fittable(data: Matrix)
  {
    Rectangular(data) && (data.cols > 0 ==> |data.rows| > 0)
  }

  /** The largest entry of each column. */
  function ColumnMaxima(data: Matrix): (mx: seq<real>)
    requires Fittable(data)
    ensures |mx| == data.cols
    ensures forall i, j :: 0 <= i < |data.rows| && 0 <= j < data.cols ==> data.rows[i][j] <= mx[j]
    ensures forall j :: 0 <= j < data.cols ==> exists i :: 0 <= i < |data.rows| && data.rows[i][j] == mx[j]
  {
    var mx := seq(data.cols, j requires 0 <= j < data.cols => MaxCoeff(Column(data, j)));
    assert forall j :: 0 <= j < data.cols ==> mx[j] == MaxCoeff(Column(data, j));
    mx
  }

  /** The smallest entry of each column. */
  function ColumnMinima(data: Matrix): (mn: seq<real>)
    requires Fittable(data)
    ensures |mn| == data.cols
    ensures forall i, j :: 0 <= i < |data.rows| && 0 <= j < data.cols ==> mn[j] <= data.rows[i][j]
    ensures forall j :: 0 <= j < data.cols ==> exists i :: 0 <= i < |data.rows| && data.rows[i][j] == mn[j]
  {
    var mn := seq(data.cols, j requires 0 <= j < data.cols => MinCoeff(Column(data, j)));
    assert forall j :: 0 <= j < data.cols ==> mn[j] == MinCoeff(Column(data, j));
    mn
  }

  /** One entry after scaling: the affine map that sends `mn` to `lower`
      and `mx` to `upper`, or the entry itself when the column was
      constant. */
  function Scaled(v: real, mn: real, mx: real, lower: real, upper: real): real
  {
    if mx == mn then v else lower + (upper - lower) / (mx - mn) * (v - mn)
  }

  /** The map back from the scaled range, defined when the scaling is
      one-to-one. */
  function Unscaled(w: real, mn: real, mx: real, lower: real, upper: real): real
    requires mx == mn || lower != upper
  {
    if mx == mn then w else mn + (mx - mn) / (upper - lower) * (w - lower)
  }

  /** The column minimum goes to the lower bound and the column maximum to
      the upper bound; a constant column keeps its value. */
  lemma ScaledEndpoints(v: real, mn: real, mx: real, lower: real, upper: real)
    ensures mx != mn ==> Scaled(mn, mn, mx, lower, upper) == lower && Scaled(mx, mn, mx, lower, upper) == upper
    ensures mx == mn ==> Scaled(v, mn, mx, lower, upper) == v
  {
    if mx != mn {
      assert (upper - lower) / (mx - mn) * (mx - mn) == upper - lower;
    }
  }

  /** With `lower <= upper`, scaling keeps the order of the entries of a
      column. */
  lemma ScaledMonotone(v: real, w: real, mn: real, mx: real, lower: real, upper: real)
    requires mn < mx && lower <= upper && v <= w
    ensures Scaled(v, mn, mx, lower, upper) <= Scaled(w, mn, mx, lower, upper)
  {
    var slope := (upper - lower) / (mx - mn);
    assert slope >= 0.0;
    assert slope * (v - mn) <= slope * (w - mn) by {
      assert slope * (w - mn) - slope * (v - mn) == slope * (w - v);
    }
  }

  /** An entry between the column's extremes lands between the bounds. */
  lemma ScaledWithin(v: real, mn: real, mx: real, lower: real, upper: real)
    requires mn < mx && lower <= upper && mn <= v <= mx
    ensures lower <= Scaled(v, mn, mx, lower, upper) <= upper
  {
    ScaledEndpoints(v, mn, mx, lower, upper);
    ScaledMonotone(mn, v, mn, mx, lower, upper);
    ScaledMonotone(v, mx, mn, mx, lower, upper);
  }

  /** Scaling loses nothing when the bounds differ: mapping back gives the
      entry. */
  lemma ScaledRoundTrip(v: real, mn: real, mx: real, lower: real, upper: real)
    requires mx == mn || lower != upper
    ensures Unscaled(Scaled(v, mn, mx, lower, upper), mn, mx, lower, upper) == v
  {
    if mx != mn {
      var slope := (upper - lower) / (mx - mn);
      var back := (mx - mn) / (upper - lower);
      assert slope * back == 1.0;
      var w := Scaled(v, mn, mx, lower, upper);
      assert w - lower == slope * (v - mn);
      assert back * (w - lower) == (back * slope) * (v - mn);
    }
  }

  /** The matrix `transform` returns: every entry scaled with the extremes
      recorded for its column. */
  function Transformed(data: Matrix, colMin: seq<real>, colMax: seq<real>, lower: real, upper: real): (t: Matrix)
    requires Rectangular(data) && |colMin| == data.cols && |colMax| == data.cols
    ensures t.cols == data.cols && |t.rows| == |data.rows| && Rectangular(t)
    ensures forall i, j :: 0 <= i < |data.rows| && 0 <= j < data.cols ==>
              t.rows[i][j] == Scaled(data.rows[i][j], colMin[j], colMax[j], lower, upper)
  {
    Matrix(data.cols, seq(|data.rows|, i requires 0 <= i < |data.rows| =>
      seq(data.cols, j requires 0 <= j < data.cols => Scaled(data.rows[i][j], colMin[j], colMax[j], lower, upper))))
  }

  /** Scaling the data the scaler was fitted on: in every column that was
      not constant, each entry lies between the bounds and both bounds are
      reached; every constant column comes back unchanged. */
  lemma FitTransformBounds(data: Matrix, lower: real, upper: real)
    requires Fittable(data) && lower <= upper
    ensures var t := Transformed(data, ColumnMinima(data), ColumnMaxima(data), lower, upper);
      forall j :: 0 <= j < data.cols && ColumnMinima(data)[j] != ColumnMaxima(data)[j] ==>
        (forall i :: 0 <= i < |data.rows| ==> lower <= t.rows[i][j] <= upper)
        && (exists i :: 0 <= i < |data.rows| && t.rows[i][j] == lower)
        && (exists i :: 0 <= i < |data.rows| && t.rows[i][j] == upper)
    ensures var t := Transformed(data, ColumnMinima(data), ColumnMaxima(data), lower, upper);
      forall i, j :: 0 <= i < |data.rows| && 0 <= j < data.cols && ColumnMinima(data)[j] == ColumnMaxima(data)[j] ==>
        t.rows[i][j] == data.rows[i][j]
  {
    var mn, mx := ColumnMinima(data), ColumnMaxima(data);
    var t := Transformed(data, mn, mx, lower, upper);
    forall j | 0 <= j < data.cols && mn[j] != mx[j]
      ensures forall i :: 0 <= i < |data.rows| ==> lower <= t.rows[i][j] <= upper
      ensures exists i :: 0 <= i < |data.rows| && t.rows[i][j] == lower
      ensures exists i :: 0 <= i < |data.rows| && t.rows[i][j] == upper
    {
      forall i | 0 <= i < |data.rows|
        ensures lower <= t.rows[i][j] <= upper
      {
        ScaledWithin(data.rows[i][j], mn[j], mx[j], lower, upper);
      }
      var a :| 0 <= a < |data.rows| && data.rows[a][j] == mn[j];
      var b :| 0 <= b < |data.rows| && data.rows[b][j] == mx[j];
      ScaledEndpoints(mn[j], mn[j], mx[j], lower, upper);
      assert t.rows[a][j] == lower;
      assert t.rows[b][j] == upper;
    }
  }

  /** The scaler. Its bounds are fixed at construction; `fit` replaces the
      recorded extremes and `clear` forgets that it was fitted. */
  class MinMaxScaler {
    const lowerBound: real
    const upperBound: real
    var numberOfFeatures: int
    var fitted: bool
    var colMax: seq<real>
    var colMin: seq<real>

    /** A fitted scaler holds one minimum and one maximum per feature, the
        minimum never above the maximum. */
    ghost predicate Valid()
      reads this
    {
      fitted ==> numberOfFeatures == |colMax| == |colMin|
                 && forall j :: 0 <= j < |colMin| ==> colMin[j] <= colMax[j]
    }

    /** A scaler to `[lowerBound, upperBound]`, by default `[-1, 1]`; it is
        not fitted. */
    constructor(lowerBound: real := -1.0, upperBound: real := 1.0)
      ensures this.lowerBound == lowerBound && this.upperBound == upperBound
      ensures !fitted && numberOfFeatures == 0 && colMax == [] && colMin == []
      ensures Valid()
    {
      this.lowerBound := lowerBound;
      this.upperBound := upperBound;
      numberOfFeatures := 0;
      fitted := false;
      colMax := [];
      colMin := [];
    }

    /** Records the extremes of every column of `data`. */
    method Fit(data: Matrix)
      modifies this
      requires Fittable(data)
      ensures fitted && numberOfFeatures == data.cols
      ensures colMax == ColumnMaxima(data) && colMin == ColumnMinima(data)
      ensures Valid()
    {
      numberOfFeatures := data.cols;
      colMax := Filled(numberOfFeatures, 0.0);
      colMin := Filled(numberOfFeatures, 0.0);
      for featIndex := 0 to numberOfFeatures
        invariant numberOfFeatures == data.cols == |colMax| == |colMin|
        invariant forall j :: 0 <= j < featIndex ==> colMax[j] == MaxCoeff(Column(data, j))
        invariant forall j :: 0 <= j < featIndex ==> colMin[j] == MinCoeff(Column(data, j))
      {
        var column := Column(data, featIndex);
        colMax := colMax[featIndex := MaxCoeff(column)];
        colMin := colMin[featIndex := MinCoeff(column)];
      }
      fitted := true;
      ExtremesOrdered(data);
    }

    /** Scales `data` with the recorded extremes: an error when the scaler
        is not fitted or `data` has a different number of features. */
    method Transform(data: Matrix) returns (r: Result<Matrix>)
      requires Valid() && Rectangular(data)
      ensures r.Failure? <==> !fitted || data.cols != numberOfFeatures
      ensures r.Success? ==> r.value == Transformed(data, colMin, colMax, lowerBound, upperBound)
    {
      if !fitted {
        return Failure("Scaler has not been fitted yet");
      }
      if data.cols != numberOfFeatures {
        return Failure("Number of features of the data differs from the scaler's");
      }
      var range := upperBound - lowerBound;
      var rows: seq<seq<real>> := [];
      for dataIndex := 0 to |data.rows|
        invariant |rows| == dataIndex
        invariant forall i :: 0 <= i < dataIndex ==> rows[i] == Transformed(data, colMin, colMax, lowerBound, upperBound).rows[i]
      {
        var row: seq<real> := [];
        for featIndex := 0 to numberOfFeatures
          invariant |row| == featIndex
          invariant forall j :: 0 <= j < featIndex ==>
                      row[j] == Scaled(data.rows[dataIndex][j], colMin[j], colMax[j], lowerBound, upperBound)
        {
          var v := data.rows[dataIndex][featIndex];
          if colMax[featIndex] == colMin[featIndex] {
            row := row + [v];
          } else {
            row := row + [lowerBound + range / (colMax[featIndex] - colMin[featIndex]) * (v - colMin[featIndex])];
          }
        }
        rows := rows + [row];
      }
      return Success(Matrix(data.cols, rows));
    }

    /** `fit` followed by `transform` on the same data, which cannot fail. */
    method FitTransform(data: Matrix) returns (transformed: Matrix)
      modifies this
      requires Fittable(data)
      ensures fitted && numberOfFeatures == data.cols
      ensures colMax == ColumnMaxima(data) && colMin == ColumnMinima(data)
      ensures Valid()
      ensures transformed == Transformed(data, ColumnMinima(data), ColumnMaxima(data), lowerBound, upperBound)
    {
      Fit(data);
      var r := Transform(data);
      return r.value;
    }

    /** Forgets the fit: no features, not fitted. The recorded extremes stay
        in place until the next `fit` overwrites them. */
    method Clear()
      modifies this
      ensures numberOfFeatures == 0 && !fitted
      ensures colMax == old(colMax) && colMin == old(colMin)
      ensures Valid()
    {
      numberOfFeatures := 0;
      fitted := false;
    }
  }

  /** In every column the smallest entry is at most the largest. */
  lemma ExtremesOrdered(data: Matrix)
    requires Fittable(data)
    ensures forall j :: 0 <= j < data.cols ==> ColumnMinima(data)[j] <= ColumnMaxima(data)[j]
  {
    forall j | 0 <= j < data.cols
      ensures ColumnMinima(data)[j] <= ColumnMaxima(data)[j]
    {
      assert data.rows[0][j] <= ColumnMaxima(data)[j];
    }
  }
}
