/** `data_cleaning_scripts/prediction_for_next_year.py`: the forecast with
    lags 1, 2 and 4 and `drop_first` dummies, trained by
    `models/random_forest_train.py` on the same feature table. */
module PredictionForNextYear {
  import opened Wrappers
  import opened Tables
  import opened Quarters
  import opened Dummies
  import opened SalesHistory
  import opened Forecast

  /** `preprocess`, which is also the training table: lags of the raw
      sales. */
  function Preprocess(raw: seq<SalesRow>, log1p: real -> real): (rows: seq<FeatureRow>)
    ensures |rows| == |raw|
  {
    FeatureTable(Variant, raw, log1p, false)
  }

  /** `df[cluster_cols].drop_duplicates()` as pandas computes it for a
      dummy frame `width` columns wide. A frame with no columns counts as
      empty, and `drop_duplicates` returns it unchanged: one empty row per
      history row. */
  function PatternsAsWritten(rows: seq<FeatureRow>, width: nat): (ps: seq<seq<real>>)
    ensures width == 0 ==> ps == DummyColumn(rows)
    ensures width > 0 ==> ps == Patterns(rows)
  {
    if width == 0 then DummyColumn(rows) else Patterns(rows)
  }

  /** `create_future_data_single_step` as written: one future row per entry
      of `PatternsAsWritten`, each built from the latest row its mask
      selects. */
  function FutureStepAsWritten(rows: seq<FeatureRow>, width: nat, target: YearQuarter): (fut: seq<FeatureRow>)
    ensures |fut| == |PatternsAsWritten(rows, width)|
    ensures forall t :: 0 <= t < |fut| ==>
      fut[t] == FutureRow(Variant, rows[LatestIndex(rows, PatternsAsWritten(rows, width)[t])], target)
  {
    var ps := PatternsAsWritten(rows, width);
    seq(|ps|, t requires 0 <= t < |ps| => FutureRow(Variant, rows[LatestIndex(rows, ps[t])], target))
  }

  /** As written, a history of one cluster loses its only dummy column to
      `drop_first`, so the future-row loop runs once per history row instead
      of once per cluster. Every such row is empty, and the all-true mask
      picks the overall latest row for each of them. The distinct dummy rows
      of the corrected loop (`Forecast.PatternsAreLabels`) are the one
      cluster's single row. */
  lemma {:induction false} OneClusterPatterns(raw: seq<SalesRow>, log1p: real -> real, c: int, target: YearQuarter)
    requires |raw| > 0 && forall i :: 0 <= i < |raw| ==> raw[i].cluster == c
    ensures var rows := Preprocess(raw, log1p);
      var width := |DummyLabels(Variant, Labels(raw))|;
      var fut := FutureStepAsWritten(rows, width, target);
      && Labels(raw) == [c]
      && width == 0
      && |PatternsAsWritten(rows, width)| == |raw|
      && (forall t :: 0 <= t < |raw| ==> PatternsAsWritten(rows, width)[t] == [])
      && Patterns(rows) == [[]]
      && |fut| == |raw| && |FutureStep(Variant, rows, target)| == 1
      && forall t :: 0 <= t < |fut| ==> fut[t] == FutureStep(Variant, rows, target)[0]
  {
    OneClusterLabels(raw, c);
    var rows := Preprocess(raw, log1p);
    DummiesOfTable(Variant, raw, log1p, false);
    PatternsAreLabels(Variant, raw, log1p, false);
    assert Patterns(rows) == [[]];
    EmptyPatternsRepeat(rows, target);
  }

  /** When every dummy row is empty, each as-written future row is the one
      future row of the corrected loop. */
  lemma EmptyPatternsRepeat(rows: seq<FeatureRow>, target: YearQuarter)
    requires Patterns(rows) == [[]]
    ensures var fut := FutureStepAsWritten(rows, 0, target);
      && |FutureStep(Variant, rows, target)| == 1
      && forall t :: 0 <= t < |fut| ==> fut[t] == FutureStep(Variant, rows, target)[0]
  {
    var fut := FutureStepAsWritten(rows, 0, target);
    forall t | 0 <= t < |fut|
      ensures fut[t] == FutureStep(Variant, rows, target)[0]
    {
      assert DummyColumn(rows)[t] in Patterns(rows);
    }
  }

  lemma AscendingHead(ls: seq<int>)
    requires |ls| > 1 && forall i, j :: 0 <= i < j < |ls| ==> ls[i] < ls[j]
    ensures ls[0] != ls[1]
  {
  }

  /** A history of one cluster has that cluster as its only label. */
  lemma OneClusterLabels(raw: seq<SalesRow>, c: int)
    requires |raw| > 0 && forall i :: 0 <= i < |raw| ==> raw[i].cluster == c
    ensures Labels(raw) == [c]
  {
    var ls := Labels(raw);
    assert ClusterColumn(raw)[0] == c;
    assert c in ls;
    forall j | 0 <= j < |ls|
      ensures ls[j] == c
    {
      assert ls[j] in ClusterColumn(raw);
    }
    if |ls| > 1 {
      AscendingHead(ls);
      assert false;
    }
  }

  /** As written, the future row's lag 1 is on the log scale while the
      regressor was trained on raw lags: after one quarter of 9 units the
      next quarter's row gets `log1p(9)` as its first lag where the
      training table would hold 9. Undoing the log, as `RawLagOne` does,
      gives `expm1(log1p(9))`. */
  lemma LagOneScaleMismatch(log1p: real -> real, expm1: real -> real)
    requires log1p(9.0) != 9.0
    ensures var raw := [SalesRow(1, 2023, 3, 9.0)];
      var fut := FutureStep(Variant, Preprocess(raw, log1p), YearQuarter(2023, 4));
      && |fut| == 1
      && fut[0].lag1 == log1p(9.0)
      && Fill(AppendedShift(SortedSales(raw), 1, 1), log1p, false) == 9.0
      && fut[0].lag1 != Fill(AppendedShift(SortedSales(raw), 1, 1), log1p, false)
      && RawLagOne(fut[0], expm1).lag1 == expm1(log1p(9.0))
  {
    var raw := [SalesRow(1, 2023, 3, 9.0)];
    OneRowHistory(raw[0]);
    assert ValidQuarters(raw);
    FeatureTableRows(Variant, raw, log1p, false, 0);
    AppendedShiftOfLast(raw, 1, 1);
    FirstFutureRow(Variant, raw, log1p, false, YearQuarter(2023, 4), 0);
    PatternsAreLabels(Variant, raw, log1p, false);
  }

  /** As written, the first future row of every cluster carries the log of
      the sales `preprocess` would put in lag 1 of a new row of that
      cluster placed after its history, and the raw lags 2 and 4 of the
      latest row moved on by one and by none. Lag 4 is carried over from
      the latest row, so it holds the sales five rows back, not four. */
  lemma FutureLagOneLogged(raw: seq<SalesRow>, log1p: real -> real, target: YearQuarter, t: nat)
    requires ValidQuarters(raw) && t < |Labels(raw)|
    ensures var s := SortedSales(raw); var c := Labels(raw)[t];
      var fut := FutureStep(Variant, Preprocess(raw, log1p), target);
      && t < |fut|
      && fut[t].dummies == OneHot(DummyLabels(Variant, Labels(raw)), c)
      && AppendedShift(s, c, 1).Some?
      && fut[t].lag1 == log1p(Fill(AppendedShift(s, c, 1), log1p, false))
      && fut[t].lag2 == Fill(AppendedShift(s, c, 2), log1p, false)
      && fut[t].lag4 == Fill(AppendedShift(s, c, 5), log1p, false)
  {
    var s := SortedSales(raw);
    var c := Labels(raw)[t];
    var rows := Preprocess(raw, log1p);
    FirstFutureRow(Variant, raw, log1p, false, target, t);
    var j := LastOf(ClusterColumn(s), c);
    var fut := FutureStep(Variant, rows, target);
    assert fut[t] == FutureRow(Variant, rows[j], target);
    FeatureTableRows(Variant, raw, log1p, false, j);
    ShiftOfSorted(raw, j, 1);
    ShiftOfSorted(raw, j, 4);
    AppendedShiftOfLast(s, c, 1);
    AppendedShiftOfLast(s, c, 4);
    assert fut[t].lag2 == rows[j].lag1 == Fill(Shift(s, j, 1), log1p, false);
    assert fut[t].lag4 == rows[j].lag4 == Fill(Shift(s, j, 4), log1p, false);
  }

  /** The future row with lag 1 put back on the raw scale of the training
      lags. */
  function RawLagOne(f: FeatureRow, expm1: real -> real): (g: FeatureRow)
    ensures g.lag1 == expm1(f.lag1) && g == f.(lag1 := g.lag1)
  {
    f.(lag1 := expm1(f.lag1))
  }

  /** With `expm1` inverting `log1p`, undoing the log in lag 1 gives every
      cluster's first future row as lags 1 and 2 exactly what `preprocess`
      gives a new row of that cluster placed after its history. */
  lemma FutureLagsMatchTraining(raw: seq<SalesRow>, log1p: real -> real, expm1: real -> real, target: YearQuarter, t: nat)
    requires ValidQuarters(raw) && t < |Labels(raw)|
    requires forall x :: expm1(log1p(x)) == x
    ensures var s := SortedSales(raw); var c := Labels(raw)[t];
      var fut := FutureStep(Variant, Preprocess(raw, log1p), target);
      && t < |fut|
      && RawLagOne(fut[t], expm1).dummies == OneHot(DummyLabels(Variant, Labels(raw)), c)
      && RawLagOne(fut[t], expm1).lag1 == Fill(AppendedShift(s, c, 1), log1p, false)
      && RawLagOne(fut[t], expm1).lag2 == Fill(AppendedShift(s, c, 2), log1p, false)
      && RawLagOne(fut[t], expm1).lag4 == Fill(AppendedShift(s, c, 5), log1p, false)
  {
    FutureLagOneLogged(raw, log1p, target, t);
  }

  /** The forecast of the preprocessed history, decoded with the prefix
      `cluster_label_`: row `i * m + t`, with `m` labels, belongs to the
      `i`-th scheduled quarter and decodes to the `t`-th smallest label,
      except that the smallest label, which has no dummy column, decodes to
      the baseline category. So the labels come back exactly when the
      baseline is the smallest label. */
  lemma ForecastLabels(raw: seq<SalesRow>, log1p: real -> real, start: YearQuarter, steps: nat,
                       ext: Externals, baseline: string, out: seq<Prediction>, i: nat, t: nat, n: nat)
    requires ForecastMultipleQuarters(Variant, Preprocess(raw, log1p), start, steps, ext) == Success(out)
    requires i < steps && t < |Labels(raw)| && n == i * |Labels(raw)| + t
    ensures var ls := Labels(raw); var names := DummyNames(DummyPrefix(Variant), DummyLabels(Variant, ls));
      && n < |out|
      && (forall k :: 0 <= k < |out| ==> |out[k].row.dummies| == |names|)
      && RevertClusterDummies(out, names, DummyPrefix(Variant), baseline)[n]
         == (if t == 0 then baseline else Show(ls[t]))
      && out[n].row.year == Schedule(start, steps)[i].year
      && out[n].row.quarter == Schedule(start, steps)[i].quarter
  {
    var ls := Labels(raw);
    ForecastDummies(Variant, raw, log1p, false, start, steps, ext, out, i, t, n);
    assert DummyLabels(Variant, ls) == ls[1..];
    DecodeLabel(ls, out[n].row.dummies, t, baseline);
  }

  /** The dummy row of the `t`-th of distinct labels decodes to that label,
      or to the baseline for the first. */
  lemma DecodeLabel(ls: seq<int>, v: seq<real>, t: nat, baseline: string)
    requires NoDuplicates(ls) && t < |ls| && v == OneHot(ls[1..], ls[t])
    ensures Decode(DummyNames(DummyPrefix(Variant), ls[1..]), v, DummyPrefix(Variant), baseline)
         == if t == 0 then baseline else Show(ls[t])
  {
    DecodeDropFirst(DummyPrefix(Variant), ls, ls[t], baseline);
    assert ls[t] == ls[0] <==> t == 0;
  }

  /** Each pass after the first feeds on the one before: lag 1 is the log
      of the previous pass's predicted demand for the cluster, lag 2 the
      previous pass's lag 1, and lag 4 stays. */
  lemma PassesChain(rows: seq<FeatureRow>, start: YearQuarter, steps: nat, ext: Externals, i: nat, t: nat)
    requires ValidQuarter(start.quarter)
    requires forall k :: 0 <= k < |rows| ==> rows[k].timeIndex < TimeIndexOf(start)
    requires i + 1 < steps && t < |Patterns(rows)|
    ensures var r := Run(Variant, rows, start, steps, ext);
      && t < |r[i]| && t < |r[i + 1]|
      && r[i + 1][t].row.lag1 == ext.log1p(r[i][t].predictedDemand)
      && r[i + 1][t].row.lag2 == r[i][t].row.lag1
      && r[i + 1][t].row.lag4 == r[i][t].row.lag4
  {
    RunShape(Variant, rows, start, steps, ext, i);
    RunChains(Variant, rows, start, steps, ext, i);
    var r: seq<seq<Prediction>> := Run(Variant, rows, start, steps, ext);
    assert LagsFollow(Variant, r[i][t].row, r[i + 1][t].row);
  }
}
