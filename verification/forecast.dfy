/** The quarterly demand forecast both forecasting scripts implement: the
    feature table built from the sales history, one future row per cluster
    built from the cluster's latest row, the quarter-by-quarter loop that
    feeds every prediction back as history, and the decoding of the
    cluster dummies. `group_b/data_cleaning_scripts/next_year_prediction.py`
    and `data_cleaning_scripts/prediction_for_next_year.py` differ in their
    lag columns, their dummy columns and their future rows; `Script` tells
    them apart. The regressor, `log1p` and `expm1` are parameters. */
module Forecast {
  import opened Wrappers
  import opened Tables
  import opened Quarters
  import opened Dummies
  import opened SalesHistory

  /** `GroupB` is `next_year_prediction.py`: lags 1 to 4 and a dummy column
      per label. `Variant` is `prediction_for_next_year.py`: lags 1, 2 and 4,
      and `drop_first` dummies. */
  datatype Script = GroupB | Variant

  /** A row of the feature table: `year`, `quarter`, `time_index`, the log
      sales, the lag columns and the cluster dummies. The variant has no
      lag 3 column; its rows hold 0 there and its features leave it out. */
  datatype FeatureRow = FeatureRow(
    year: int, quarter: int, timeIndex: real, numSales: real,
    lag1: real, lag2: real, lag3: real, lag4: real,
    dummies: seq<real>)

  /** The functions the scripts call but do not define: the regressor's
      `predict` on one feature vector, and numpy's `log1p` and `expm1`. */
  datatype Externals = Externals(predict: seq<real> -> real, log1p: real -> real, expm1: real -> real)

  // ---------------------------------------------------------------------
  // Feature table

  /** The labels that get a dummy column, in column order. */
  function DummyLabels(script: Script, labels: seq<int>): seq<int> {
    if script.GroupB? || |labels| == 0 then labels else labels[1..]
  }

  /** The column-name prefix `revert_cluster_dummies` strips. */
  function DummyPrefix(script: Script): string {
    if script.GroupB? then "cluster_" else "cluster_label_"
  }

  /** A lag column after `fillna(0)`: the shifted sales, on the raw scale
      (`logLags` false, as both `preprocess` functions leave them) or
      log-transformed (as `group_b/demand/random_forest_train.py` trains
      on them). */
  function Fill(o: Option<real>, log1p: real -> real, logLags: bool): real {
    match o
    case None => 0.0
    case Some(v) => if logLags then log1p(v) else v
  }

  function PreprocessRow(script: Script, s: seq<SalesRow>, labels: seq<int>, i: nat,
                         log1p: real -> real, logLags: bool): FeatureRow
    requires i < |s|
  {
    var r := s[i];
    FeatureRow(
      r.year, r.quarter, TimeIndex(r.year, r.quarter), log1p(r.numSales),
      Fill(Shift(s, i, 1), log1p, logLags), Fill(Shift(s, i, 2), log1p, logLags),
      if script.GroupB? then Fill(Shift(s, i, 3), log1p, logLags) else 0.0,
      Fill(Shift(s, i, 4), log1p, logLags),
      OneHot(DummyLabels(script, labels), r.cluster))
  }

  /** `preprocess`: sort, time index, lags, dummies, log sales. */
  function FeatureTable(script: Script, raw: seq<SalesRow>, log1p: real -> real, logLags: bool): (rows: seq<FeatureRow>)
    ensures |rows| == |raw|
  {
    var s := SortedSales(raw);
    seq(|s|, i requires 0 <= i < |s| => PreprocessRow(script, s, Labels(raw), i, log1p, logLags))
  }

  /** Row `i` of the feature table describes row `i` of the history sorted
      by cluster, year and quarter: its period and time index, its log
      sales, as lag `k` the sales of the row `k` places earlier when that
      row is of the same cluster (0 otherwise), and the dummy row of its
      cluster. */
  lemma FeatureTableRows(script: Script, raw: seq<SalesRow>, log1p: real -> real, logLags: bool, i: nat)
    requires i < |raw|
    ensures var s := SortedSales(raw); var r := FeatureTable(script, raw, log1p, logLags)[i];
      && r.year == s[i].year && r.quarter == s[i].quarter
      && r.timeIndex == TimeIndex(s[i].year, s[i].quarter)
      && r.numSales == log1p(s[i].numSales)
      && r.lag1 == Fill(EarlierSales(s, i, 1), log1p, logLags)
      && r.lag2 == Fill(EarlierSales(s, i, 2), log1p, logLags)
      && r.lag3 == (if script.GroupB? then Fill(EarlierSales(s, i, 3), log1p, logLags) else 0.0)
      && r.lag4 == Fill(EarlierSales(s, i, 4), log1p, logLags)
      && r.dummies == OneHot(DummyLabels(script, Labels(raw)), s[i].cluster)
  {
    var s := SortedSales(raw);
    assert FeatureTable(script, raw, log1p, logLags)[i] == PreprocessRow(script, s, Labels(raw), i, log1p, logLags);
    ShiftOfSorted(raw, i, 1);
    ShiftOfSorted(raw, i, 2);
    ShiftOfSorted(raw, i, 3);
    ShiftOfSorted(raw, i, 4);
  }

  /** Both encodings give distinct labels distinct dummy rows. */
  lemma DummiesInjective(script: Script, labels: seq<int>, a: int, b: int)
    requires NoDuplicates(labels) && a in labels && b in labels
    requires OneHot(DummyLabels(script, labels), a) == OneHot(DummyLabels(script, labels), b)
    ensures a == b
  {
    if script.GroupB? {
      OneHotInjective(labels, a, b);
    } else {
      DropFirstInjective(labels, a, b);
    }
  }

  // ---------------------------------------------------------------------
  // Clusters of the feature table

  function DummyColumn(rows: seq<FeatureRow>): (ps: seq<seq<real>>)
    ensures |ps| == |rows| && forall i :: 0 <= i < |rows| ==> ps[i] == rows[i].dummies
  {
    seq(|rows|, i requires 0 <= i < |rows| => rows[i].dummies)
  }

  /** `df[cluster_cols].drop_duplicates()`: the dummy rows present, in order
      of first appearance. */
  function Patterns(rows: seq<FeatureRow>): (ps: seq<seq<real>>)
    ensures NoDuplicates(ps)
    ensures forall p :: p in ps <==> p in DummyColumn(rows)
  {
    Distinct(DummyColumn(rows))
  }

  function HasDummies(p: seq<real>): FeatureRow -> bool {
    (r: FeatureRow) => r.dummies == p
  }

  function TimeRank(r: FeatureRow): real {
    r.timeIndex
  }

  /** The row `create_future_data_single_step` builds from: among the rows
      of dummy row `p`, one with the latest period, and of those the last in
      table order. */
  function LatestIndex(rows: seq<FeatureRow>, p: seq<real>): (j: nat)
    requires p in DummyColumn(rows)
    ensures j < |rows| && rows[j].dummies == p
    ensures forall i :: 0 <= i < |rows| && rows[i].dummies == p ==> rows[i].timeIndex <= rows[j].timeIndex
    ensures forall i :: j < i < |rows| && rows[i].dummies == p ==> rows[i].timeIndex < rows[j].timeIndex
  {
    var r := LatestIn(rows, HasDummies(p), TimeRank, |rows|);
    assert r.Some? by {
      var i :| 0 <= i < |rows| && DummyColumn(rows)[i] == p;
      assert HasDummies(p)(rows[i]);
    }
    r.value
  }

  /** The dummy rows of the feature table are those of the labels, in
      ascending label order. */
  lemma PatternsAreLabels(script: Script, raw: seq<SalesRow>, log1p: real -> real, logLags: bool)
    ensures var ls := Labels(raw);
      Patterns(FeatureTable(script, raw, log1p, logLags))
        == seq(|ls|, j requires 0 <= j < |ls| => OneHot(DummyLabels(script, ls), ls[j]))
  {
    ClusterDummiesInjective(script, raw);
    DummiesOfTable(script, raw, log1p, logLags);
    PatternsOfClusters(FeatureTable(script, raw, log1p, logLags), ClusterColumn(SortedSales(raw)), DummyLabels(script, Labels(raw)));
  }

  /** Row `i` of the feature table carries the dummy row of sorted row
      `i`'s cluster. */
  lemma DummiesOfTable(script: Script, raw: seq<SalesRow>, log1p: real -> real, logLags: bool)
    ensures var rows := FeatureTable(script, raw, log1p, logLags); var cs := ClusterColumn(SortedSales(raw));
      |rows| == |cs| && forall i :: 0 <= i < |cs| ==> rows[i].dummies == OneHot(DummyLabels(script, Labels(raw)), cs[i])
  {
    var rows := FeatureTable(script, raw, log1p, logLags);
    var s := SortedSales(raw);
    forall i | 0 <= i < |s|
      ensures rows[i].dummies == OneHot(DummyLabels(script, Labels(raw)), s[i].cluster)
    {
      assert rows[i] == PreprocessRow(script, s, Labels(raw), i, log1p, logLags);
    }
  }

  /** When the dummy rows encode a cluster column injectively, the distinct
      dummy rows encode the distinct clusters, in the same order. */
  lemma PatternsOfClusters(rows: seq<FeatureRow>, cs: seq<int>, d: seq<int>)
    requires |rows| == |cs| && forall i :: 0 <= i < |cs| ==> rows[i].dummies == OneHot(d, cs[i])
    requires forall x, y :: x in cs && y in cs && OneHot(d, x) == OneHot(d, y) ==> x == y
    ensures var ds := Distinct(cs); Patterns(rows) == seq(|ds|, j requires 0 <= j < |ds| => OneHot(d, ds[j]))
  {
    var ds := Distinct(cs);
    DistinctImage(cs, DummyColumn(rows), (c: int) => OneHot(d, c), seq(|ds|, j requires 0 <= j < |ds| => OneHot(d, ds[j])));
  }

  /** Distinct clusters of the history have distinct dummy rows. */
  lemma ClusterDummiesInjective(script: Script, raw: seq<SalesRow>)
    ensures var cs := ClusterColumn(SortedSales(raw)); var d := DummyLabels(script, Labels(raw));
      forall x, y :: x in cs && y in cs && OneHot(d, x) == OneHot(d, y) ==> x == y
  {
    var cs := ClusterColumn(SortedSales(raw));
    var ls := Labels(raw);
    SortedSalesSameRows(raw);
    forall x, y | x in cs && y in cs && OneHot(DummyLabels(script, ls), x) == OneHot(DummyLabels(script, ls), y)
      ensures x == y
    {
      DummiesInjective(script, ls, x, y);
    }
  }

  /** In the feature table of a history with quarters 1 to 4, the latest
      row of a cluster's dummy row is the cluster's last row in sorted
      order. */
  lemma LatestIsLastOfCluster(script: Script, raw: seq<SalesRow>, log1p: real -> real, logLags: bool, c: int)
    requires ValidQuarters(raw) && c in ClusterColumn(raw)
    ensures var rows := FeatureTable(script, raw, log1p, logLags);
      var p := OneHot(DummyLabels(script, Labels(raw)), c);
      && c in ClusterColumn(SortedSales(raw))
      && p in DummyColumn(rows)
      && LatestIndex(rows, p) == LastOf(ClusterColumn(SortedSales(raw)), c)
  {
    var rows := FeatureTable(script, raw, log1p, logLags);
    var s := SortedSales(raw);
    var ls := Labels(raw);
    var p := OneHot(DummyLabels(script, ls), c);
    SortedSalesSameRows(raw);
    var j := LastOf(ClusterColumn(s), c);
    assert rows[j].dummies == p;
    assert DummyColumn(rows)[j] == p;
    forall i | 0 <= i < |rows| && HasDummies(p)(rows[i])
      ensures i <= j && TimeRank(rows[i]) <= TimeRank(rows[j])
    {
      SameDummiesNoLater(script, raw, log1p, logLags, c, j, i);
    }
    LatestInUnique(rows, HasDummies(p), TimeRank, |rows|, j);
  }

  /** A row of the feature table with the dummy row of cluster `c` comes
      no later than the cluster's last row `j`. */
  lemma SameDummiesNoLater(script: Script, raw: seq<SalesRow>, log1p: real -> real, logLags: bool, c: int, j: nat, i: nat)
    requires ValidQuarters(raw) && c in ClusterColumn(raw)
    requires c in ClusterColumn(SortedSales(raw)) && j == LastOf(ClusterColumn(SortedSales(raw)), c)
    requires var rows := FeatureTable(script, raw, log1p, logLags);
      i < |rows| && rows[i].dummies == OneHot(DummyLabels(script, Labels(raw)), c)
    ensures var rows := FeatureTable(script, raw, log1p, logLags);
      i <= j && TimeRank(rows[i]) <= TimeRank(rows[j])
  {
    var s := SortedSales(raw);
    var ls := Labels(raw);
    var rows := FeatureTable(script, raw, log1p, logLags);
    assert rows[i].dummies == OneHot(DummyLabels(script, ls), s[i].cluster);
    DummiesInjective(script, ls, c, s[i].cluster);
    LastRowIsLatest(raw, c, i);
  }

  /** The first future row of the `t`-th label is built from the label's
      last row in the sorted history. */
  lemma FirstFutureRow(script: Script, raw: seq<SalesRow>, log1p: real -> real, logLags: bool,
                       target: YearQuarter, t: nat)
    requires ValidQuarters(raw) && t < |Labels(raw)|
    ensures var rows := FeatureTable(script, raw, log1p, logLags); var c := Labels(raw)[t];
      var s := SortedSales(raw);
      && c in ClusterColumn(s)
      && t < |FutureStep(script, rows, target)|
      && FutureStep(script, rows, target)[t] == FutureRow(script, rows[LastOf(ClusterColumn(s), c)], target)
  {
    var rows := FeatureTable(script, raw, log1p, logLags);
    var ls := Labels(raw);
    PatternsAreLabels(script, raw, log1p, logLags);
    assert Patterns(rows)[t] == OneHot(DummyLabels(script, ls), ls[t]);
    LatestIsLastOfCluster(script, raw, log1p, logLags, ls[t]);
  }

  // ---------------------------------------------------------------------
  // Future rows

  /** `create_future_data_single_step` for one cluster: the latest row with
      the target period, no sales, and the lags moved one quarter back.
      Both scripts move the log sales into lag 1. `GroupB` moves every lag
      one place on; `Variant` moves lag 1 to lag 2 and keeps lag 4. */
  function FutureRow(script: Script, last: FeatureRow, target: YearQuarter): FeatureRow {
    var f := last.(year := target.year, quarter := target.quarter, timeIndex := TimeIndexOf(target), numSales := 0.0);
    match script
    case GroupB => f.(lag1 := last.numSales, lag2 := last.lag1, lag3 := last.lag2, lag4 := last.lag3)
    case Variant => f.(lag1 := last.numSales, lag2 := last.lag1)
  }

  /** `create_future_data_single_step`: one future row per dummy row, in
      order of first appearance. */
  function FutureStep(script: Script, rows: seq<FeatureRow>, target: YearQuarter)
    : (fut: seq<FeatureRow>)
    ensures |fut| == |Patterns(rows)|
    ensures forall t :: 0 <= t < |fut| ==> fut[t].dummies == Patterns(rows)[t]
    ensures forall t :: 0 <= t < |fut| ==>
      fut[t] == FutureRow(script, rows[LatestIndex(rows, Patterns(rows)[t])], target)
  {
    var ps := Patterns(rows);
    seq(|ps|, t requires 0 <= t < |ps| => FutureRow(script, rows[LatestIndex(rows, ps[t])], target))
  }

  /** The columns the regressor sees, in table order: every column but
      `num_sales`, `year` and `quarter` for `GroupB`, every column but
      `num_sales` for `Variant`. */
  function Features(script: Script, r: FeatureRow): seq<real> {
    match script
    case GroupB => [r.timeIndex, r.lag1, r.lag2, r.lag3, r.lag4] + r.dummies
    case Variant => [r.year as real, r.quarter as real, r.timeIndex, r.lag1, r.lag2, r.lag4] + r.dummies
  }

  /** A forecast row: the future row, with the log of the prediction as its
      sales, and the predicted demand. */
  datatype Prediction = Prediction(row: FeatureRow, predictedDemand: real)

  /** Pass `ps` forecasts, for quarter `q`, one row per dummy row of `pat`,
      in that order. */
  ghost predicate Shaped(ps: seq<Prediction>, pat: seq<seq<real>>, q: YearQuarter) {
    && |ps| == |pat|
    && forall t :: 0 <= t < |ps| ==>
      && ps[t].row.dummies == pat[t]
      && ps[t].row.year == q.year && ps[t].row.quarter == q.quarter
      && ps[t].row.timeIndex == TimeIndexOf(q)
  }

  /** One pass of the forecast loop: predict the log demand of every future
      row and undo the log. */
  function Step(script: Script, rows: seq<FeatureRow>, target: YearQuarter, ext: Externals): (ps: seq<Prediction>)
    ensures Shaped(ps, Patterns(rows), target)
    ensures forall t :: 0 <= t < |ps| ==>
      && ps[t].predictedDemand == ext.expm1(ext.predict(Features(script, FutureStep(script, rows, target)[t])))
      && ps[t].row == FutureStep(script, rows, target)[t].(numSales := ext.log1p(ps[t].predictedDemand))
  {
    var fut := FutureStep(script, rows, target);
    seq(|fut|, t requires 0 <= t < |fut| =>
      var d := ext.expm1(ext.predict(Features(script, fut[t])));
      Prediction(fut[t].(numSales := ext.log1p(d)), d))
  }

  function PredictedRows(ps: seq<Prediction>): (rows: seq<FeatureRow>)
    ensures |rows| == |ps| && forall t :: 0 <= t < |ps| ==> rows[t] == ps[t].row
  {
    seq(|ps|, t requires 0 <= t < |ps| => ps[t].row)
  }

  /** The loop of `forecast_multiple_quarters`: each pass predicts the
      current quarter, appends its rows to the history and moves to the
      next quarter. */
  function Run(script: Script, rows: seq<FeatureRow>, target: YearQuarter, steps: nat, ext: Externals)
    : (r: seq<seq<Prediction>>)
    ensures |r| == steps
    decreases steps
  {
    if steps == 0 then []
    else
      var ps := Step(script, rows, target, ext);
      [ps] + Run(script, rows + PredictedRows(ps), NextQuarter(target), steps - 1, ext)
  }

  /** Rows that repeat dummy rows already present leave the set and order
      of dummy rows as they were. */
  lemma PatternsKept(rows: seq<FeatureRow>, ps: seq<Prediction>, q: YearQuarter)
    requires Shaped(ps, Patterns(rows), q)
    ensures Patterns(rows + PredictedRows(ps)) == Patterns(rows)
  {
    var extra := PredictedRows(ps);
    assert DummyColumn(rows + extra) == DummyColumn(rows) + DummyColumn(extra);
    forall x | x in DummyColumn(extra)
      ensures x in DummyColumn(rows)
    {
      var t :| 0 <= t < |extra| && DummyColumn(extra)[t] == x;
      assert x == Patterns(rows)[t];
    }
    DistinctAppendKnown(DummyColumn(rows), DummyColumn(extra));
  }

  /** Every pass forecasts one row per dummy row of the history, in the
      same order, for the quarter the schedule gives that pass. */
  lemma {:induction false} RunShape(script: Script, rows: seq<FeatureRow>, target: YearQuarter, steps: nat,
                                    ext: Externals, i: nat)
    requires i < steps
    ensures Shaped(Run(script, rows, target, steps, ext)[i], Patterns(rows), Schedule(target, steps)[i])
    decreases i
  {
    var ps := Step(script, rows, target, ext);
    if i == 0 {
      assert Run(script, rows, target, steps, ext)[0] == ps;
    } else {
      var rows' := rows + PredictedRows(ps);
      PatternsKept(rows, ps, target);
      RunShape(script, rows', NextQuarter(target), steps - 1, ext, i - 1);
      RunTail(script, rows, target, steps, ext, i);
      ScheduleTail(target, steps, i);
    }
  }

  /** Pass `i > 0` of the loop is pass `i - 1` of the loop that starts one
      quarter later from the history with the first pass appended. */
  lemma RunTail(script: Script, rows: seq<FeatureRow>, target: YearQuarter, steps: nat, ext: Externals, i: nat)
    requires 0 < i < steps
    ensures var rows' := rows + PredictedRows(Step(script, rows, target, ext));
      Run(script, rows, target, steps, ext)[i] == Run(script, rows', NextQuarter(target), steps - 1, ext)[i - 1]
  {
  }

  /** When quarter `q` comes after every row of the history, the rows of a
      pass for `q` become the latest rows of their dummy rows. */
  lemma LatestOfAppended(rows: seq<FeatureRow>, ps: seq<Prediction>, q: YearQuarter, t: nat)
    requires Shaped(ps, Patterns(rows), q) && t < |ps|
    requires forall i :: 0 <= i < |rows| ==> rows[i].timeIndex < TimeIndexOf(q)
    ensures Patterns(rows)[t] in DummyColumn(rows + PredictedRows(ps))
    ensures LatestIndex(rows + PredictedRows(ps), Patterns(rows)[t]) == |rows| + t
  {
    var rows' := rows + PredictedRows(ps);
    var pat := Patterns(rows);
    var j := |rows| + t;
    assert rows'[j] == ps[t].row;
    assert DummyColumn(rows')[j] == pat[t];
    forall i | 0 <= i < |rows'| && HasDummies(pat[t])(rows'[i])
      ensures (i < |rows| || i == j) && TimeRank(rows'[i]) <= TimeRank(rows'[j])
    {
      if i >= |rows| {
        assert rows'[i] == ps[i - |rows|].row;
        assert pat[i - |rows|] == pat[t];
      }
    }
    LatestInUnique(rows', HasDummies(pat[t]), TimeRank, |rows'|, j);
  }

  /** The lags of a cluster's row in one pass, given its row in the pass
      before. */
  ghost predicate LagsFollow(script: Script, prev: FeatureRow, next: FeatureRow) {
    match script
    case GroupB =>
      && next.lag1 == prev.numSales && next.lag2 == prev.lag1
      && next.lag3 == prev.lag2 && next.lag4 == prev.lag3
    case Variant =>
      && next.lag1 == prev.numSales && next.lag2 == prev.lag1
      && next.lag3 == prev.lag3 && next.lag4 == prev.lag4
  }

  /** Pass `next` builds on pass `prev`, cluster by cluster: the earlier
      row holds the log of its prediction as its sales, and the later row's
      lags follow from the earlier row. */
  ghost predicate Chained(script: Script, prev: seq<Prediction>, next: seq<Prediction>, ext: Externals) {
    && |next| == |prev|
    && forall t :: 0 <= t < |prev| ==>
      && prev[t].row.numSales == ext.log1p(prev[t].predictedDemand)
      && LagsFollow(script, prev[t].row, next[t].row)
  }

  /** After a pass for quarter `q`, every row of the history comes before
      the next quarter. */
  lemma AppendedBefore(rows: seq<FeatureRow>, ps: seq<Prediction>, q: YearQuarter)
    requires Shaped(ps, Patterns(rows), q) && ValidQuarter(q.quarter)
    requires forall i :: 0 <= i < |rows| ==> rows[i].timeIndex < TimeIndexOf(q)
    ensures var rows' := rows + PredictedRows(ps);
      forall i :: 0 <= i < |rows'| ==> rows'[i].timeIndex < TimeIndexOf(NextQuarter(q))
  {
    var rows' := rows + PredictedRows(ps);
    forall i | 0 <= i < |rows'|
      ensures rows'[i].timeIndex < TimeIndexOf(NextQuarter(q))
    {
      if i >= |rows| {
        assert rows'[i] == ps[i - |rows|].row;
      }
    }
  }

  /** A pass for a quarter after the history, and the pass after it. */
  lemma StepChained(script: Script, rows: seq<FeatureRow>, target: YearQuarter, ext: Externals)
    requires forall i :: 0 <= i < |rows| ==> rows[i].timeIndex < TimeIndexOf(target)
    ensures var ps := Step(script, rows, target, ext);
      Chained(script, ps, Step(script, rows + PredictedRows(ps), NextQuarter(target), ext), ext)
  {
    var ps := Step(script, rows, target, ext);
    var rows' := rows + PredictedRows(ps);
    var next := NextQuarter(target);
    PatternsKept(rows, ps, target);
    var ps' := Step(script, rows', next, ext);
    var fut := FutureStep(script, rows', next);
    forall t | 0 <= t < |ps|
      ensures LagsFollow(script, ps[t].row, ps'[t].row)
    {
      LatestOfAppended(rows, ps, target, t);
      assert rows'[|rows| + t] == ps[t].row;
      assert fut[t] == FutureRow(script, ps[t].row, next);
    }
  }

  /** Starting after the history, each pass of the loop builds on the one
      before it. */
  lemma {:induction false} RunChains(script: Script, rows: seq<FeatureRow>, target: YearQuarter, steps: nat,
                                     ext: Externals, i: nat)
    requires ValidQuarter(target.quarter)
    requires forall k :: 0 <= k < |rows| ==> rows[k].timeIndex < TimeIndexOf(target)
    requires i + 1 < steps
    ensures var r := Run(script, rows, target, steps, ext);
      Chained(script, r[i], r[i + 1], ext)
    decreases i
  {
    var ps := Step(script, rows, target, ext);
    var rows' := rows + PredictedRows(ps);
    var next := NextQuarter(target);
    var r := Run(script, rows, target, steps, ext);
    var r' := Run(script, rows', next, steps - 1, ext);
    if i == 0 {
      StepChained(script, rows, target, ext);
      SameChain(script, ps, Step(script, rows', next, ext), r[0], r[1], ext);
    } else {
      AppendedBefore(rows, ps, target);
      RunChains(script, rows', next, steps - 1, ext, i - 1);
      SameChain(script, r'[i - 1], r'[i], r[i], r[i + 1], ext);
    }
  }

  lemma SameChain(script: Script, a: seq<Prediction>, b: seq<Prediction>, a': seq<Prediction>, b': seq<Prediction>,
                  ext: Externals)
    requires Chained(script, a, b, ext) && a' == a && b' == b
    ensures Chained(script, a', b', ext)
  {
  }

  /** `forecast_multiple_quarters`: the passes concatenated. Zero passes
      leave nothing to concatenate, and an empty history leaves the
      regressor an empty feature matrix; both raise in the source. */
  function ForecastMultipleQuarters(script: Script, rows: seq<FeatureRow>, start: YearQuarter, steps: nat,
                                    ext: Externals): (r: Result<seq<Prediction>>)
    ensures r.Success? <==> steps > 0 && |rows| > 0
    ensures r.Success? ==> |r.value| == steps * |Patterns(rows)|
  {
    if steps == 0 then Failure("No objects to concatenate")
    else if |rows| == 0 then Failure("Found array with 0 sample(s)")
    else
      var frames := Run(script, rows, start, steps, ext);
      assert forall a :: 0 <= a < steps ==> |frames[a]| == |Patterns(rows)| by {
        forall a | 0 <= a < steps
          ensures |frames[a]| == |Patterns(rows)|
        {
          RunShape(script, rows, start, steps, ext, a);
        }
      }
      FlattenLength(frames, |Patterns(rows)|);
      Success(Flatten(frames))
  }

  /** Row `i * m + t` of the forecast, with `m` dummy rows, is the forecast
      of dummy row `t` for quarter `i` of the schedule, and every row's
      dummies are one of the history's dummy rows. */
  lemma ForecastRows(script: Script, rows: seq<FeatureRow>, start: YearQuarter, steps: nat, ext: Externals,
                     out: seq<Prediction>, i: nat, t: nat, n: nat)
    requires ForecastMultipleQuarters(script, rows, start, steps, ext) == Success(out)
    requires i < steps && t < |Patterns(rows)| && n == i * |Patterns(rows)| + t
    ensures var q := Schedule(start, steps)[i];
      && n < |out|
      && out[n].row.dummies == Patterns(rows)[t]
      && out[n].row.year == q.year && out[n].row.quarter == q.quarter
    ensures forall k :: 0 <= k < |out| ==> out[k].row.dummies in Patterns(rows)
  {
    var frames := Run(script, rows, start, steps, ext);
    forall a | 0 <= a < steps
      ensures Shaped(frames[a], Patterns(rows), Schedule(start, steps)[a])
    {
      RunShape(script, rows, start, steps, ext, a);
    }
    FlattenShaped(frames, Patterns(rows), Schedule(start, steps), out, i, t, n);
  }

  lemma FlattenShaped(frames: seq<seq<Prediction>>, pat: seq<seq<real>>, q: seq<YearQuarter>,
                      out: seq<Prediction>, i: nat, t: nat, n: nat)
    requires |q| == |frames| && forall a :: 0 <= a < |frames| ==> Shaped(frames[a], pat, q[a])
    requires out == Flatten(frames) && i < |frames| && t < |pat| && n == i * |pat| + t
    ensures && n < |out|
      && out[n].row.dummies == pat[t]
      && out[n].row.year == q[i].year && out[n].row.quarter == q[i].quarter
    ensures forall k :: 0 <= k < |out| ==> out[k].row.dummies in pat
  {
    FlattenAt(frames, |pat|, i, t);
    assert Shaped(frames[i], pat, q[i]);
    forall k | 0 <= k < |out|
      ensures out[k].row.dummies in pat
    {
      FlattenMember(frames, out[k]);
      var a :| 0 <= a < |frames| && out[k] in frames[a];
      var b :| 0 <= b < |frames[a]| && frames[a][b] == out[k];
      assert Shaped(frames[a], pat, q[a]);
    }
  }

  // ---------------------------------------------------------------------
  // Decoding the forecast

  /** `revert_cluster_dummies`: the label column recovered from the dummy
      columns `names`. */
  function RevertClusterDummies(preds: seq<Prediction>, names: seq<string>, prefix: string, baseline: string)
    : (labels: seq<string>)
    requires forall i :: 0 <= i < |preds| ==> |preds[i].row.dummies| == |names|
    ensures |labels| == |preds|
  {
    seq(|preds|, i requires 0 <= i < |preds| => Decode(names, preds[i].row.dummies, prefix, baseline))
  }

  /** The forecast of a feature table, row by row: row `i * m + t`, with
      `m` labels, carries the dummy row of the `t`-th smallest label and the
      `i`-th scheduled quarter, and every row has one dummy per dummy
      column. */
  lemma ForecastDummies(script: Script, raw: seq<SalesRow>, log1p: real -> real, logLags: bool,
                        start: YearQuarter, steps: nat, ext: Externals, out: seq<Prediction>, i: nat, t: nat, n: nat)
    requires ForecastMultipleQuarters(script, FeatureTable(script, raw, log1p, logLags), start, steps, ext) == Success(out)
    requires i < steps && t < |Labels(raw)| && n == i * |Labels(raw)| + t
    ensures var ls := Labels(raw);
      && n < |out|
      && (forall k :: 0 <= k < |out| ==> |out[k].row.dummies| == |DummyLabels(script, ls)|)
      && out[n].row.dummies == OneHot(DummyLabels(script, ls), ls[t])
      && out[n].row.year == Schedule(start, steps)[i].year
      && out[n].row.quarter == Schedule(start, steps)[i].quarter
  {
    PatternsAreLabels(script, raw, log1p, logLags);
    ForecastOneHot(script, FeatureTable(script, raw, log1p, logLags), start, steps, ext, out, i, t, n,
                   DummyLabels(script, Labels(raw)), Labels(raw));
  }

  /** The same for any feature table whose dummy rows are the one-hot rows
      of `ls` over the columns `d`. */
  lemma ForecastOneHot(script: Script, rows: seq<FeatureRow>, start: YearQuarter, steps: nat, ext: Externals,
                       out: seq<Prediction>, i: nat, t: nat, n: nat, d: seq<int>, ls: seq<int>)
    requires ForecastMultipleQuarters(script, rows, start, steps, ext) == Success(out)
    requires Patterns(rows) == seq(|ls|, j requires 0 <= j < |ls| => OneHot(d, ls[j]))
    requires i < steps && t < |ls| && n == i * |ls| + t
    ensures && n < |out|
      && (forall k :: 0 <= k < |out| ==> |out[k].row.dummies| == |d|)
      && out[n].row.dummies == OneHot(d, ls[t])
      && out[n].row.year == Schedule(start, steps)[i].year
      && out[n].row.quarter == Schedule(start, steps)[i].quarter
  {
    var pat := Patterns(rows);
    ForecastRows(script, rows, start, steps, ext, out, i, t, n);
    forall k | 0 <= k < |out|
      ensures |out[k].row.dummies| == |d|
    {
      var b :| 0 <= b < |pat| && pat[b] == out[k].row.dummies;
    }
  }
}
