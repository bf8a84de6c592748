/** `find_outliers`: one flag per value, by z-score or by interquartile-range fences. */
module Outliers {
  import opened Common

  const InvalidMethod := "Invalid method. Choose 'zscore' or 'iqr'."

  function Abs(x: real): real {
    if x < 0.0 then -x else x
  }

  /** The IQR test of one value: strictly below the lower fence or strictly above the upper one. */
  predicate OutsideFences(v: real, q1: real, q3: real, threshold: real) {
    var iqr := q3 - q1;
    v < q1 - threshold * iqr || v > q3 + threshold * iqr
  }

  /**
   * Dispatch on the detection method. `zscore` and `quantile` stand for `scipy.stats.zscore` and
   * `Series.quantile`; scipy returns one score per value.
   */
  function FindOutliers(column: seq<real>, kind: string, zscore: seq<real> -> seq<real>,
                        quantile: (seq<real>, real) -> real, threshold: real := 3.0): (r: Result<seq<bool>>)
    requires kind == "zscore" ==> |zscore(column)| == |column|
    ensures r.Err? <==> kind != "zscore" && kind != "iqr"
    ensures r.Err? ==> r.error == ValueError(InvalidMethod)
    ensures r.Ok? ==> |r.value| == |column|
    ensures r.Ok? && kind == "zscore" ==>
      forall i :: 0 <= i < |column| ==> (r.value[i] <==> Abs(zscore(column)[i]) > threshold)
    ensures r.Ok? && kind == "iqr" ==>
      forall i :: 0 <= i < |column| ==>
        (r.value[i] <==> OutsideFences(column[i], quantile(column, 0.25), quantile(column, 0.75), threshold))
  {
    if kind == "zscore" then
      var z := zscore(column);
      Ok(seq(|column|, i requires 0 <= i < |column| => Abs(z[i]) > threshold))
    else if kind == "iqr" then
      var q1 := quantile(column, 0.25);
      var q3 := quantile(column, 0.75);
      Ok(seq(|column|, i requires 0 <= i < |column| => OutsideFences(column[i], q1, q3, threshold)))
    else
      Err(ValueError(InvalidMethod))
  }

  lemma NonNegativeProduct(a: real, b: real)
    requires 0.0 <= a && 0.0 <= b
    ensures 0.0 <= a * b
  {
  }

  /** A value exactly on either fence is kept. */
  lemma FencesAreInside(q1: real, q3: real, threshold: real)
    requires q1 <= q3 && 0.0 <= threshold
    ensures !OutsideFences(q1 - threshold * (q3 - q1), q1, q3, threshold)
    ensures !OutsideFences(q3 + threshold * (q3 - q1), q1, q3, threshold)
  {
    NonNegativeProduct(threshold, q3 - q1);
  }

  /** With ordered quartiles and a non-negative threshold, no value between the quartiles is flagged. */
  lemma InterquartileKept(v: real, q1: real, q3: real, threshold: real)
    requires q1 <= q3 && 0.0 <= threshold
    requires q1 <= v <= q3
    ensures !OutsideFences(v, q1, q3, threshold)
  {
    NonNegativeProduct(threshold, q3 - q1);
  }

  /** Raising the threshold widens the fences: what a larger threshold flags, a smaller one flags too. */
  lemma FencesWiden(v: real, q1: real, q3: real, lower: real, higher: real)
    requires q1 <= q3 && lower <= higher
    requires OutsideFences(v, q1, q3, higher)
    ensures OutsideFences(v, q1, q3, lower)
  {
    NonNegativeProduct(higher - lower, q3 - q1);
    assert (higher - lower) * (q3 - q1) == higher * (q3 - q1) - lower * (q3 - q1);
  }

  /**
   * The z-score detector ignores the sign of the scores: a score function whose
   * results are the negations of another's gives the same flags.
   */
  lemma ZScoreSignIgnored(column: seq<real>, zscore: seq<real> -> seq<real>, negated: seq<real> -> seq<real>,
                          quantile: (seq<real>, real) -> real, threshold: real)
    requires |zscore(column)| == |column| && |negated(column)| == |column|
    requires forall i :: 0 <= i < |column| ==> negated(column)[i] == -zscore(column)[i]
    ensures FindOutliers(column, "zscore", zscore, quantile, threshold) ==
            FindOutliers(column, "zscore", negated, quantile, threshold)
  {
    var flags := FindOutliers(column, "zscore", zscore, quantile, threshold).value;
    var negatedFlags := FindOutliers(column, "zscore", negated, quantile, threshold).value;
    forall i | 0 <= i < |column|
      ensures flags[i] == negatedFlags[i]
    {
      assert Abs(negated(column)[i]) == Abs(zscore(column)[i]);
    }
    assert flags == negatedFlags;
  }
}
