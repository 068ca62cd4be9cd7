/** `group_b/data_cleaning_scripts/next_year_prediction.py`: the forecast
    with lags 1 to 4 and a dummy column per cluster label, and the scale of
    its lag columns. */
module NextYearPrediction {
  import opened Wrappers
  import opened Tables
  import opened Quarters
  import opened Dummies
  import opened SalesHistory
  import opened Forecast

  /** `preprocess`, as written: lags of the raw sales. */
  function Preprocess(raw: seq<SalesRow>, log1p: real -> real): (rows: seq<FeatureRow>)
    ensures |rows| == |raw|
  {
    FeatureTable(GroupB, raw, log1p, false)
  }

  /** `preprocess` with the lag columns on the scale the regressor was
      trained on and the forecast loop feeds it: `log1p` of the lagged
      sales. */
  function PreprocessLogLags(raw: seq<SalesRow>, log1p: real -> real): (rows: seq<FeatureRow>)
    ensures |rows| == |raw|
  {
    FeatureTable(GroupB, raw, log1p, true)
  }

  /** The forecast of the preprocessed history, decoded with the prefix
      `cluster_`: row `i * m + t`, with `m` labels, is the forecast of the
      `t`-th smallest cluster label for the `i`-th scheduled quarter,
      whatever the baseline category. */
  lemma ForecastLabels(raw: seq<SalesRow>, log1p: real -> real, logLags: bool, start: YearQuarter, steps: nat,
                       ext: Externals, baseline: string, out: seq<Prediction>, i: nat, t: nat, n: nat)
    requires ForecastMultipleQuarters(GroupB, FeatureTable(GroupB, raw, log1p, logLags), start, steps, ext) == Success(out)
    requires i < steps && t < |Labels(raw)| && n == i * |Labels(raw)| + t
    ensures var ls := Labels(raw); var names := DummyNames(DummyPrefix(GroupB), ls);
      && n < |out|
      && (forall k :: 0 <= k < |out| ==> |out[k].row.dummies| == |names|)
      && RevertClusterDummies(out, names, DummyPrefix(GroupB), baseline)[n] == Show(ls[t])
      && out[n].row.year == Schedule(start, steps)[i].year
      && out[n].row.quarter == Schedule(start, steps)[i].quarter
  {
    var ls := Labels(raw);
    ForecastDummies(GroupB, raw, log1p, logLags, start, steps, ext, out, i, t, n);
    DecodeOneHot(DummyPrefix(GroupB), ls, ls[t], baseline);
  }

  /** As written, `preprocess` leaves the lags on the raw scale while the
      future row's first lag copies the log sales: after one quarter of 9
      units, the next quarter's row gets 9 as its first lag from
      `preprocess` but `log1p(9)` from the future row. */
  lemma FutureLagScaleMismatch(log1p: real -> real)
    requires log1p(9.0) != 9.0
    ensures var raw := [SalesRow(1, 2023, 3, 9.0)];
      var fut := FutureStep(GroupB, Preprocess(raw, log1p), YearQuarter(2023, 4));
      && |fut| == 1
      && fut[0].lag1 == log1p(9.0)
      && Fill(AppendedShift(SortedSales(raw), 1, 1), log1p, false) == 9.0
      && fut[0].lag1 != Fill(AppendedShift(SortedSales(raw), 1, 1), log1p, false)
  {
    var raw := [SalesRow(1, 2023, 3, 9.0)];
    OneRowHistory(raw[0]);
    assert ValidQuarters(raw);
    AppendedShiftOfLast(raw, 1, 1);
    FirstFutureRow(GroupB, raw, log1p, false, YearQuarter(2023, 4), 0);
    PatternsAreLabels(GroupB, raw, log1p, false);
  }

  /** With the lags on the training scale, the first future row of every
      cluster carries exactly the lags `preprocess` gives a new row of that
      cluster placed after its history. */
  lemma FutureLagsMatchTraining(raw: seq<SalesRow>, log1p: real -> real, target: YearQuarter, t: nat)
    requires ValidQuarters(raw) && t < |Labels(raw)|
    ensures var s := SortedSales(raw); var c := Labels(raw)[t];
      var fut := FutureStep(GroupB, PreprocessLogLags(raw, log1p), target);
      && t < |fut|
      && fut[t].dummies == OneHot(Labels(raw), c)
      && fut[t].lag1 == Fill(AppendedShift(s, c, 1), log1p, true)
      && fut[t].lag2 == Fill(AppendedShift(s, c, 2), log1p, true)
      && fut[t].lag3 == Fill(AppendedShift(s, c, 3), log1p, true)
      && fut[t].lag4 == Fill(AppendedShift(s, c, 4), log1p, true)
  {
    var s := SortedSales(raw);
    var c := Labels(raw)[t];
    FirstFutureRow(GroupB, raw, log1p, true, target, t);
    AppendedShiftOfLast(s, c, 1);
    AppendedShiftOfLast(s, c, 2);
    AppendedShiftOfLast(s, c, 3);
  }

  /** Each pass after the first feeds on the one before: lag 1 is the log
      of the previous pass's prediction for the cluster, and lags 2 to 4
      are the previous pass's lags 1 to 3. */
  lemma PassesChain(rows: seq<FeatureRow>, start: YearQuarter, steps: nat, ext: Externals, i: nat, t: nat)
    requires ValidQuarter(start.quarter)
    requires forall k :: 0 <= k < |rows| ==> rows[k].timeIndex < TimeIndexOf(start)
    requires i + 1 < steps && t < |Patterns(rows)|
    ensures var r := Run(GroupB, rows, start, steps, ext);
      && t < |r[i]| && t < |r[i + 1]|
      && r[i + 1][t].row.lag1 == ext.log1p(r[i][t].predictedDemand)
      && r[i + 1][t].row.lag2 == r[i][t].row.lag1
      && r[i + 1][t].row.lag3 == r[i][t].row.lag2
      && r[i + 1][t].row.lag4 == r[i][t].row.lag3
  {
    RunShape(GroupB, rows, start, steps, ext, i);
    RunChains(GroupB, rows, start, steps, ext, i);
    var r: seq<seq<Prediction>> := Run(GroupB, rows, start, steps, ext);
    assert LagsFollow(GroupB, r[i][t].row, r[i + 1][t].row);
  }
}
