/**
 * `get_iqr` (utils.py): interquartile-range fences of a numeric column and,
 * on request, the rows inside the fences and the rows `get_iqr` labels as
 * outliers.  A column is the sequence of the feature's values in row order;
 * a selection of rows (what `df.loc[mask]` keeps) is the ascending sequence
 * of their 0-based positions.
 */
module Iqr {
  import opened Outcomes
  import opened Quantiles

  /** The quartiles, the interquartile range and the two fences. */
  datatype Fences = Fences(q25: real, q75: real, iqr: real, lower: real, upper: real)

  /** What `get_iqr` returns: the triple (IQR, lower, upper) or the two row selections. */
  datatype IqrOutput =
    | Range(iqr: real, lower: real, upper: real)
    | Split(inliers: seq<nat>, outliers: seq<nat>)

  /** `np.percentile` has no value on an empty column and raises. */
  datatype IqrError = EmptyColumn

  /** The interquartile range of two quartiles and the fences k interquartile ranges beyond them. */
  function FencesOf(q25: real, q75: real, kFactor: real): Fences
  {
    var iqr := q75 - q25;
    var cutOff := iqr * kFactor;
    Fences(q25, q75, iqr, q25 - cutOff, q75 + cutOff)
  }

  function ComputeFences(column: seq<real>, kFactor: real): Fences
    requires |column| > 0
  {
    FencesOf(Percentile(column, 25.0), Percentile(column, 75.0), kFactor)
  }

  /** The row filter that keeps the inliers: strictly between the fences. */
  predicate Inside(f: Fences, v: real)
  {
    f.lower < v < f.upper
  }

  /** The row filter `get_iqr` uses for outliers: below the lower AND above the upper fence. */
  predicate OutsideAsWritten(f: Fences, v: real)
  {
    v < f.lower && v > f.upper
  }

  /** The evidently intended outlier filter: below the lower OR above the upper fence. */
  predicate Outside(f: Fences, v: real)
  {
    v < f.lower || v > f.upper
  }

  /** A selection of rows of a table of n rows: positions below n, strictly ascending, so each row at most once. */
  predicate IsSelection(rows: seq<nat>, n: nat)
  {
    && (forall k :: 0 <= k < |rows| ==> rows[k] < n)
    && (forall k, l :: 0 <= k < l < |rows| ==> rows[k] < rows[l])
  }

  /** The positions of the rows whose value passes keep, in row order. */
  function RowsWhere(column: seq<real>, keep: real -> bool): (rows: seq<nat>)
    ensures IsSelection(rows, |column|)
    ensures forall i :: 0 <= i < |column| ==> (i in rows <==> keep(column[i]))
  {
    if column == [] then []
    else
      var last := |column| - 1;
      var prefix := RowsWhere(column[..last], keep);
      assert forall i :: 0 <= i < last ==> column[..last][i] == column[i];
      prefix + (if keep(column[last]) then [last] else [])
  }

  /** When no value passes the filter, no row is selected. */
  lemma {:induction false} RowsWhereNone(column: seq<real>, keep: real -> bool)
    requires forall i :: 0 <= i < |column| ==> !keep(column[i])
    ensures RowsWhere(column, keep) == []
  {
    if column != [] {
      var last := |column| - 1;
      assert forall i :: 0 <= i < last ==> column[..last][i] == column[i];
      RowsWhereNone(column[..last], keep);
    }
  }

  /** `get_iqr(df, feature, k_factor, remove)` exactly as written, with its defaults k = 1.5 and remove = true. */
  function GetIqr(column: seq<real>, kFactor: real := 1.5, remove: bool := true): (r: Result<IqrOutput, IqrError>)
    ensures r.Err? <==> |column| == 0
    ensures r.Ok? ==> (r.value.Split? <==> remove)
    ensures r.Ok? && !remove ==>
      var f := ComputeFences(column, kFactor);
      r.value == Range(f.iqr, f.lower, f.upper)
    ensures r.Ok? && remove ==> IsSelection(r.value.inliers, |column|) && IsSelection(r.value.outliers, |column|)
    ensures r.Ok? && remove ==>
      var f := ComputeFences(column, kFactor);
      forall i :: 0 <= i < |column| ==> (i in r.value.inliers <==> f.lower < column[i] < f.upper)
    ensures r.Ok? && remove ==>
      var f := ComputeFences(column, kFactor);
      forall i :: 0 <= i < |column| ==> (i in r.value.outliers <==> column[i] < f.lower && column[i] > f.upper)
  {
    if |column| == 0 then Err(EmptyColumn)
    else
      var f := ComputeFences(column, kFactor);
      if remove then
        Ok(Split(RowsWhere(column, v => Inside(f, v)), RowsWhere(column, v => OutsideAsWritten(f, v))))
      else
        Ok(Range(f.iqr, f.lower, f.upper))
  }

  /** `get_iqr` with the outlier filter corrected to a disjunction. */
  function GetIqrCorrected(column: seq<real>, kFactor: real := 1.5, remove: bool := true): (r: Result<IqrOutput, IqrError>)
    ensures r.Err? <==> |column| == 0
    ensures r.Ok? ==> (r.value.Split? <==> remove)
    ensures r.Ok? && !remove ==>
      var f := ComputeFences(column, kFactor);
      r.value == Range(f.iqr, f.lower, f.upper)
    ensures r.Ok? && remove ==> IsSelection(r.value.inliers, |column|) && IsSelection(r.value.outliers, |column|)
    ensures r.Ok? && remove ==>
      var f := ComputeFences(column, kFactor);
      forall i :: 0 <= i < |column| ==> (i in r.value.inliers <==> f.lower < column[i] < f.upper)
    ensures r.Ok? && remove ==>
      var f := ComputeFences(column, kFactor);
      forall i :: 0 <= i < |column| ==> (i in r.value.outliers <==> column[i] < f.lower || column[i] > f.upper)
  {
    if |column| == 0 then Err(EmptyColumn)
    else
      var f := ComputeFences(column, kFactor);
      if remove then
        Ok(Split(RowsWhere(column, v => Inside(f, v)), RowsWhere(column, v => Outside(f, v))))
      else
        Ok(Range(f.iqr, f.lower, f.upper))
  }

  lemma MulNonNegative(x: real, y: real)
    requires x >= 0.0 && y >= 0.0
    ensures x * y >= 0.0
  {
  }

  /** The lower quartile never exceeds the upper one, so the interquartile range is never negative. */
  lemma IqrNonNegative(column: seq<real>, kFactor: real)
    requires |column| > 0
    ensures var f := ComputeFences(column, kFactor);
      f.q25 <= f.q75 && f.iqr >= 0.0
  {
    PercentileMonotone(column, 25.0, 75.0);
  }

  /** With a non-negative k factor the fences enclose both quartiles. */
  lemma FencesEncloseQuartiles(column: seq<real>, kFactor: real)
    requires |column| > 0 && kFactor >= 0.0
    ensures var f := ComputeFences(column, kFactor);
      f.lower <= f.q25 <= f.q75 <= f.upper
  {
    IqrNonNegative(column, kFactor);
    var f := ComputeFences(column, kFactor);
    FencesAround(f.q25, f.q75, kFactor);
  }

  lemma FencesAround(q25: real, q75: real, kFactor: real)
    requires q25 <= q75 && kFactor >= 0.0
    ensures var f := FencesOf(q25, q75, kFactor);
      f.lower <= q25 && q75 <= f.upper
  {
    MulNonNegative(q75 - q25, kFactor);
  }

  /** The fences of quartiles q25 <= q75 are in order exactly when q25 == q75 or k >= -1/2. */
  lemma FenceArithmetic(q25: real, q75: real, kFactor: real)
    requires q25 <= q75
    ensures var f := FencesOf(q25, q75, kFactor);
      f.lower <= f.upper <==> (f.iqr == 0.0 || kFactor >= -0.5)
  {
    var iqr := q75 - q25;
    var width := (q75 + iqr * kFactor) - (q25 - iqr * kFactor);
    assert width == iqr * (1.0 + 2.0 * kFactor);
    if iqr > 0.0 && kFactor < -0.5 {
      MulNonNegative(iqr, -(1.0 + 2.0 * kFactor));
      assert iqr * -(1.0 + 2.0 * kFactor) != 0.0;
    } else if iqr > 0.0 {
      MulNonNegative(iqr, 1.0 + 2.0 * kFactor);
    }
  }

  /** The fences are in order exactly when the interquartile range is 0 or the k factor is at least -1/2. */
  lemma FencesOrdered(column: seq<real>, kFactor: real)
    requires |column| > 0
    ensures var f := ComputeFences(column, kFactor);
      f.lower <= f.upper <==> (f.iqr == 0.0 || kFactor >= -0.5)
  {
    IqrNonNegative(column, kFactor);
    var q25, q75 := Percentile(column, 25.0), Percentile(column, 75.0);
    assert ComputeFences(column, kFactor) == FencesOf(q25, q75, kFactor);
    FenceArithmetic(q25, q75, kFactor);
  }

  /** Whenever the fences are in order, the outlier selection as written is empty. */
  lemma OutliersEmptyWhenFencesOrdered(column: seq<real>, kFactor: real)
    requires |column| > 0
    requires ComputeFences(column, kFactor).lower <= ComputeFences(column, kFactor).upper
    ensures GetIqr(column, kFactor, true).value.outliers == []
  {
    var f := ComputeFences(column, kFactor);
    RowsWhereNone(column, v => OutsideAsWritten(f, v));
  }

  /** The outlier selection as written is empty exactly when no value lies strictly between the upper and the lower fence. */
  lemma OutliersEmptyExactly(column: seq<real>, kFactor: real)
    requires |column| > 0
    ensures var f := ComputeFences(column, kFactor);
      GetIqr(column, kFactor, true).value.outliers == [] <==>
      forall i :: 0 <= i < |column| ==> !(f.upper < column[i] < f.lower)
  {
    var f := ComputeFences(column, kFactor);
    if forall i :: 0 <= i < |column| ==> !(f.upper < column[i] < f.lower) {
      RowsWhereNone(column, v => OutsideAsWritten(f, v));
    }
  }

  /** In particular the outlier selection is empty for every k factor of at least -1/2, the default 1.5 included. */
  lemma OutliersAlwaysEmpty(column: seq<real>, kFactor: real)
    requires |column| > 0 && kFactor >= -0.5
    ensures GetIqr(column, kFactor, true).value.outliers == []
  {
    FencesOrdered(column, kFactor);
    OutliersEmptyWhenFencesOrdered(column, kFactor);
  }

  /** No row is in both selections, and a row whose value equals a fence is in neither. */
  lemma SelectionsDisjoint(column: seq<real>, kFactor: real, i: nat)
    requires i < |column|
    ensures var out := GetIqr(column, kFactor, true).value;
      && !(i in out.inliers && i in out.outliers)
      && (column[i] == ComputeFences(column, kFactor).lower || column[i] == ComputeFences(column, kFactor).upper
          ==> i !in out.inliers && i !in out.outliers)
  {
  }

  /** Every value is inside the fences, outside them, or on one of them, and only one of these. */
  lemma InsideOutsideOnFence(f: Fences, v: real)
    requires f.lower <= f.upper
    ensures var onFence := v == f.lower || v == f.upper;
      && (Inside(f, v) || Outside(f, v) || onFence)
      && !(Inside(f, v) && Outside(f, v))
      && !(Inside(f, v) && onFence)
      && !(Outside(f, v) && onFence)
  {
  }

  /**
   * With the corrected filter every row is in exactly one of: the inliers,
   * the outliers, or neither because its value equals a fence.
   */
  lemma CorrectedPartition(column: seq<real>, kFactor: real, i: nat)
    requires i < |column| && kFactor >= -0.5
    ensures var out := GetIqrCorrected(column, kFactor, true).value;
      var f := ComputeFences(column, kFactor);
      var onFence := column[i] == f.lower || column[i] == f.upper;
      && (i in out.inliers || i in out.outliers || onFence)
      && !(i in out.inliers && i in out.outliers)
      && !(i in out.inliers && onFence)
      && !(i in out.outliers && onFence)
  {
    var f := ComputeFences(column, kFactor);
    var out := GetIqrCorrected(column, kFactor, true).value;
    assert out.inliers == RowsWhere(column, v => Inside(f, v));
    assert out.outliers == RowsWhere(column, v => Outside(f, v));
    FencesOrdered(column, kFactor);
    InsideOutsideOnFence(f, column[i]);
  }

  lemma ExampleSorted(column: seq<real>)
    requires column == [1.0, 2.0, 3.0, 4.0, 5.0, 6.0, 7.0, 8.0, 9.0, 100.0]
    ensures Sort(column) == column
  {
    assert IsSorted(column);
    SortOfSorted(column);
  }

  /** The quartiles of the example column. */
  lemma ExampleQuartiles(column: seq<real>)
    requires column == [1.0, 2.0, 3.0, 4.0, 5.0, 6.0, 7.0, 8.0, 9.0, 100.0]
    ensures Percentile(column, 25.0) == 3.25
    ensures Percentile(column, 75.0) == 7.75
  {
    ExampleSorted(column);
    ExampleLowerQuartile(column);
    ExampleUpperQuartile(column);
  }

  lemma ExampleLowerQuartile(column: seq<real>)
    requires column == [1.0, 2.0, 3.0, 4.0, 5.0, 6.0, 7.0, 8.0, 9.0, 100.0]
    ensures Interpolate(column, 25.0) == 3.25
  {
    assert Position(10, 25.0) == 2.25;
    InterpolateAt(column, 25.0, 2, 0.25);
  }

  lemma ExampleUpperQuartile(column: seq<real>)
    requires column == [1.0, 2.0, 3.0, 4.0, 5.0, 6.0, 7.0, 8.0, 9.0, 100.0]
    ensures Interpolate(column, 75.0) == 7.75
  {
    assert Position(10, 75.0) == 6.75;
    InterpolateAt(column, 75.0, 6, 0.75);
  }

  /**
   * The column 1, 2, ..., 9, 100 with the default k factor 1.5: the quartiles
   * are 3.25 and 7.75, the fences -3.5 and 14.5; the value 100 in the last
   * row lies above the upper fence, yet the selection as written does not
   * report it, while the corrected one does.
   */
  lemma MissedOutlierExample(column: seq<real>)
    requires column == [1.0, 2.0, 3.0, 4.0, 5.0, 6.0, 7.0, 8.0, 9.0, 100.0]
    ensures ComputeFences(column, 1.5) == Fences(3.25, 7.75, 4.5, -3.5, 14.5)
    ensures column[9] > ComputeFences(column, 1.5).upper
    ensures 9 !in GetIqr(column, 1.5, true).value.outliers
    ensures 9 in GetIqrCorrected(column, 1.5, true).value.outliers
  {
    ExampleQuartiles(column);
  }
}
