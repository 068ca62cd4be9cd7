/** The demand-based price adjustment of `models/demand_price_adjustment.py`
    and `group_b/pricing/demand_price_adjustment.py` (the two differ only
    in where they load the regressor and the data from):
    `get_parameters` picks a cluster's row of the previous quarter and
    shifts its lags one quarter on, and `get_baseprice_pct` turns the
    forecast for that row into a price change between -25% and +25% in
    steps of 0.5%. The regressor is a parameter. */
module Pricing {
  import opened Wrappers
  import opened Tables
  import opened Numerics
  import opened Quarters
  import opened Dummies

  // ---------------------------------------------------------------------
  // The quantiser

  /** A numpy float quotient: finite, or the infinity or NaN a division by
      zero gives. */
  datatype Quotient = Finite(v: real) | PosInf | NegInf | NaN

  /** `(forecast - baseline) / baseline` on numpy floats, which divide by
      zero without raising. */
  function DemandDiff(forecast: real, baseline: real): (q: Quotient)
    ensures baseline != 0.0 ==> q == Finite((forecast - baseline) / baseline)
    ensures baseline == 0.0 ==> (q.PosInf? <==> forecast > 0.0) && (q.NegInf? <==> forecast < 0.0)
    ensures q.NaN? <==> forecast == 0.0 && baseline == 0.0
  {
    if baseline != 0.0 then Finite((forecast - baseline) / baseline)
    else if forecast > 0.0 then PosInf
    else if forecast < 0.0 then NegInf
    else NaN
  }

  /** `max(min(x, 0.25), -0.25)`. */
  function Clamp(x: real): (c: real)
    ensures -0.25 <= c <= 0.25
    ensures -0.25 <= x <= 0.25 ==> c == x
    ensures x > 0.25 ==> c == 0.25
    ensures x < -0.25 ==> c == -0.25
  {
    if x > 0.25 then 0.25 else if x < -0.25 then -0.25 else x
  }

  lemma ClampMonotone(x: real, y: real)
    requires x <= y
    ensures Clamp(x) <= Clamp(y)
  {
  }

  /** `round(c / 0.005)`: the number of half-percent steps nearest `c`. */
  function Steps(c: real): int {
    RoundHalfEven(c * 200.0)
  }

  /** The suggested change as a whole number of half-percent steps, with
      the demand change divided by the price elasticity 1.5 and clamped.
      The infinities clamp to the bounds; `round` of NaN raises. */
  function PriceSteps(forecast: real, baseline: real): (r: Result<int>)
    ensures r.Failure? <==> forecast == 0.0 && baseline == 0.0
    ensures r.Success? ==> -50 <= r.value <= 50
  {
    match DemandDiff(forecast, baseline)
    case Finite(d) =>
      var c := Clamp(d / 1.5);
      StepsBounded(c);
      Success(Steps(c))
    case PosInf => Success(Steps(0.25))
    case NegInf => Success(Steps(-0.25))
    case NaN => Failure("cannot convert float NaN to integer")
  }

  lemma StepsBounded(c: real)
    requires -0.25 <= c <= 0.25
    ensures -50 <= Steps(c) <= 50
  {
    RoundHalfEvenMonotone(-50.0, c * 200.0);
    RoundHalfEvenMonotone(c * 200.0, 50.0);
    assert RoundHalfEven(50.0) == 50;
    assert RoundHalfEven(-50.0) == -50;
  }

  /** `get_baseprice_pct`'s result for a forecast and a baseline: a
      multiple of 0.005 between -0.25 and 0.25. */
  function PriceChange(forecast: real, baseline: real): (r: Result<real>)
    ensures r.Failure? <==> forecast == 0.0 && baseline == 0.0
    ensures r.Success? ==> -0.25 <= r.value <= 0.25
    ensures r.Success? ==> (r.value * 200.0).Floor as real == r.value * 200.0
  {
    match PriceSteps(forecast, baseline)
    case Success(k) =>
      StepValue(k);
      Success(k as real * 0.005)
    case Failure(e) => Failure(e)
  }

  /** `k` steps of 0.005 are a whole number of steps within the bounds. */
  lemma StepValue(k: int)
    requires -50 <= k <= 50
    ensures -0.25 <= k as real * 0.005 <= 0.25
    ensures ((k as real * 0.005) * 200.0).Floor as real == (k as real * 0.005) * 200.0
  {
    assert (k as real * 0.005) * 200.0 == k as real;
  }

  /** The step count is the nearest to the clamped change: no multiple of
      0.005 is closer, and a tie goes to the even step. */
  lemma NearestStep(forecast: real, baseline: real)
    requires baseline != 0.0
    ensures var c := Clamp((forecast - baseline) / baseline / 1.5);
      && PriceSteps(forecast, baseline) == Success(Steps(c))
      && IsRoundHalfEven(c * 200.0, Steps(c))
      && -0.0025 <= c - Steps(c) as real * 0.005 <= 0.0025
  {
  }

  /** A change that is already a whole number of steps within the bounds
      comes out unchanged. */
  lemma StepsOfStep(k: int)
    requires -50 <= k <= 50
    ensures Steps(Clamp(k as real * 0.005)) == k
  {
    assert Clamp(k as real * 0.005) * 200.0 == k as real;
    assert IsRoundHalfEven(k as real, k);
    RoundHalfEvenUnique(k as real, RoundHalfEven(k as real), k);
  }

  /** With a positive baseline, forecasting at least the baseline never
      lowers the price, and forecasting at most the baseline never raises
      it. */
  lemma SignPreserved(forecast: real, baseline: real)
    requires baseline > 0.0
    ensures forecast >= baseline ==> PriceSteps(forecast, baseline).value >= 0
    ensures forecast <= baseline ==> PriceSteps(forecast, baseline).value <= 0
  {
    var c := Clamp((forecast - baseline) / baseline / 1.5);
    if forecast >= baseline {
      assert (forecast - baseline) / baseline >= 0.0;
      RoundHalfEvenMonotone(0.0, c * 200.0);
      assert RoundHalfEven(0.0) == 0;
    }
    if forecast <= baseline {
      assert (forecast - baseline) / baseline <= 0.0;
      RoundHalfEvenMonotone(c * 200.0, 0.0);
      assert RoundHalfEven(0.0) == 0;
    }
  }

  /** With a positive baseline, a larger forecast never gives a smaller
      price change. */
  lemma MonotoneInForecast(f1: real, f2: real, baseline: real)
    requires baseline > 0.0 && f1 <= f2
    ensures PriceSteps(f1, baseline).value <= PriceSteps(f2, baseline).value
  {
    var d1 := (f1 - baseline) / baseline;
    var d2 := (f2 - baseline) / baseline;
    DivideMonotone(f1 - baseline, f2 - baseline, baseline);
    ClampMonotone(d1 / 1.5, d2 / 1.5);
    RoundHalfEvenMonotone(Clamp(d1 / 1.5) * 200.0, Clamp(d2 / 1.5) * 200.0);
  }

  lemma DivideMonotone(a: real, b: real, c: real)
    requires a <= b && c > 0.0
    ensures a / c <= b / c
  {
    assert b / c - a / c == (b - a) / c;
  }

  /** A forecast at least 37.5% above a positive baseline gives the full
      +25%, one at least 37.5% below it the full -25%, and a zero baseline
      gives a bound for any non-zero forecast. */
  lemma Saturation(forecast: real, baseline: real)
    ensures baseline > 0.0 && forecast >= baseline * 1.375 ==> PriceChange(forecast, baseline) == Success(0.25)
    ensures baseline > 0.0 && forecast <= baseline * 0.625 ==> PriceChange(forecast, baseline) == Success(-0.25)
    ensures baseline == 0.0 && forecast > 0.0 ==> PriceChange(forecast, baseline) == Success(0.25)
    ensures baseline == 0.0 && forecast < 0.0 ==> PriceChange(forecast, baseline) == Success(-0.25)
  {
    StepsOfStep(50);
    StepsOfStep(-50);
    if baseline > 0.0 && forecast >= baseline * 1.375 {
      RiseSaturates(forecast, baseline);
    }
    if baseline > 0.0 && forecast <= baseline * 0.625 {
      FallSaturates(forecast, baseline);
    }
  }

  lemma RiseSaturates(forecast: real, baseline: real)
    requires baseline > 0.0 && forecast >= baseline * 1.375
    ensures Clamp((forecast - baseline) / baseline / 1.5) == 0.25
  {
    DivideMonotone(baseline * 0.375, forecast - baseline, baseline);
    assert baseline * 0.375 / baseline == 0.375;
  }

  lemma FallSaturates(forecast: real, baseline: real)
    requires baseline > 0.0 && forecast <= baseline * 0.625
    ensures Clamp((forecast - baseline) / baseline / 1.5) == -0.25
  {
    DivideMonotone(forecast - baseline, baseline * -0.375, baseline);
    assert baseline * -0.375 / baseline == -0.375;
  }

  // ---------------------------------------------------------------------
  // Parameters for the forecast

  /** A row of the pricing data set: its time index, its sales, its four
      lag columns and its `cluster_<label>` flags. */
  datatype PriceRow = PriceRow(timeIndex: real, numSales: real, lag1: real, lag2: real, lag3: real, lag4: real,
                               flags: seq<bool>)

  /** The data set: the names of the flag columns and the rows. */
  datatype PriceData = PriceData(flagNames: seq<string>, rows: seq<PriceRow>)

  /** The columns are distinct and every row has one flag per flag column. */
  ghost predicate WellFormed(data: PriceData) {
    && NoDuplicates(data.flagNames)
    && forall i :: 0 <= i < |data.rows| ==> |data.rows[i].flags| == |data.flagNames|
  }

  /** A row of the parameter frame: the row with its lags moved one quarter
      on and no `num_sales` column. */
  datatype Params = Params(timeIndex: real, lag1: real, lag2: real, lag3: real, lag4: real, flags: seq<bool>)

  /** The four column assignments of `get_parameters`, in their order,
      followed by dropping `num_sales`. Going from lag 4 down to lag 1,
      every lag receives the old value of the one before it. */
  function ShiftLags(r: PriceRow): (p: Params)
    ensures p.lag1 == r.numSales && p.lag2 == r.lag1 && p.lag3 == r.lag2 && p.lag4 == r.lag3
    ensures p.timeIndex == r.timeIndex && p.flags == r.flags
  {
    var a := r.(lag4 := r.lag3);
    var b := a.(lag3 := a.lag2);
    var c := b.(lag2 := b.lag1);
    var d := c.(lag1 := c.numSales);
    Params(d.timeIndex, d.lag1, d.lag2, d.lag3, d.lag4, d.flags)
  }

  /** The shift forgets the oldest lag and nothing else: two rows give the
      same parameters exactly when they differ at most in lag 4. */
  lemma ShiftLagsForgetsLag4(r1: PriceRow, r2: PriceRow)
    ensures ShiftLags(r1) == ShiftLags(r2) <==> r1.(lag4 := 0.0) == r2.(lag4 := 0.0)
  {
  }

  /** The position of a flag column. */
  function ColumnIndex(names: seq<string>, name: string): (j: nat)
    requires name in names
    ensures j < |names| && names[j] == name
    ensures forall i :: 0 <= i < j ==> names[i] != name
  {
    if names[0] == name then 0 else 1 + ColumnIndex(names[1..], name)
  }

  /** A row of the cluster flag `j` at time index `ti`. */
  function Selects(j: nat, ti: real): PriceRow -> bool {
    (r: PriceRow) => j < |r.flags| && r.flags[j] && r.timeIndex == ti
  }

  /** `get_parameters`: the rows flagged for the cluster at the time index
      of `year` and `quarter`, with their lags shifted. A cluster without a
      flag column raises `KeyError`. */
  function GetParameters(cluster: int, year: int, quarter: int, data: PriceData): (r: Result<seq<Params>>)
    requires WellFormed(data)
    ensures r.Success? <==> "cluster_" + Show(cluster) in data.flagNames
    ensures r.Success? ==> forall p :: p in r.value <==>
      exists row :: row in data.rows && p == ShiftLags(row) && row.timeIndex == TimeIndex(year, quarter)
                  && row.flags[ColumnIndex(data.flagNames, "cluster_" + Show(cluster))]
    ensures r.Success? ==>
      r.value == Shifted(Filter(data.rows, Selects(ColumnIndex(data.flagNames, "cluster_" + Show(cluster)), TimeIndex(year, quarter))))
  {
    var name := "cluster_" + Show(cluster);
    if name !in data.flagNames then Failure("KeyError: " + name)
    else
      var j := ColumnIndex(data.flagNames, name);
      var sel := Filter(data.rows, Selects(j, TimeIndex(year, quarter)));
      ShiftedMembers(sel);
      assert forall row :: row in data.rows ==> |row.flags| == |data.flagNames|;
      Success(Shifted(sel))
  }

  /** The selected rows with their lags shifted, in order. */
  function Shifted(sel: seq<PriceRow>): (ps: seq<Params>)
    ensures |ps| == |sel| && forall i :: 0 <= i < |sel| ==> ps[i] == ShiftLags(sel[i])
  {
    seq(|sel|, i requires 0 <= i < |sel| => ShiftLags(sel[i]))
  }

  lemma ShiftedMembers(sel: seq<PriceRow>)
    ensures forall p :: p in Shifted(sel) <==> exists row :: row in sel && p == ShiftLags(row)
  {
    var ps := Shifted(sel);
    forall p
      ensures p in ps <==> exists row :: row in sel && p == ShiftLags(row)
    {
      if p in ps {
        var i :| 0 <= i < |ps| && ps[i] == p;
        assert sel[i] in sel;
      }
      if exists row :: row in sel && p == ShiftLags(row) {
        var row :| row in sel && p == ShiftLags(row);
        var i :| 0 <= i < |sel| && sel[i] == row;
        assert ps[i] == p;
      }
    }
  }

  function LagTotal(p: Params): real {
    p.lag1 + p.lag2 + p.lag3 + p.lag4
  }

  /** The four lags of every parameter row summed. */
  function LagSum(ps: seq<Params>): real {
    if |ps| == 0 then 0.0 else LagSum(ps[..|ps| - 1]) + LagTotal(ps[|ps| - 1])
  }

  /** `parameters[lag columns].sum().sum() / 4`: the four lags of every
      parameter row summed, over four. An empty frame sums to 0. */
  function BaselineDemand(ps: seq<Params>): (b: real)
    ensures |ps| == 0 ==> b == 0.0
    ensures |ps| == 1 ==> b == (ps[0].lag1 + ps[0].lag2 + ps[0].lag3 + ps[0].lag4) / 4.0
  {
    assert |ps| == 1 ==> ps[..0] == [] && LagSum(ps) == LagSum(ps[..0]) + LagTotal(ps[0]);
    LagSum(ps) / 4.0
  }

  /** Every further parameter row adds a quarter of its four lags to the
      baseline: the baseline sums over the rows, it does not average them. */
  lemma BaselineAppend(ps: seq<Params>, p: Params)
    ensures BaselineDemand(ps + [p]) == BaselineDemand(ps) + (p.lag1 + p.lag2 + p.lag3 + p.lag4) / 4.0
  {
    assert (ps + [p])[..|ps|] == ps;
  }

  /** The sales and three newest lags of every row, summed. */
  function RecentSum(rows: seq<PriceRow>): real {
    if |rows| == 0 then 0.0
    else
      var r := rows[|rows| - 1];
      RecentSum(rows[..|rows| - 1]) + (r.numSales + r.lag1 + r.lag2 + r.lag3)
  }

  /** The baseline of the shifted rows is a quarter of their sales and
      three newest lags, summed over the rows. */
  lemma {:induction false} BaselineOfShifted(sel: seq<PriceRow>)
    ensures BaselineDemand(Shifted(sel)) == RecentSum(sel) / 4.0
  {
    if |sel| > 0 {
      var init := sel[..|sel| - 1];
      BaselineOfShifted(init);
      assert Shifted(sel) == Shifted(init) + [ShiftLags(sel[|sel| - 1])];
      BaselineAppend(Shifted(init), ShiftLags(sel[|sel| - 1]));
    }
  }

  /** For every cluster with a flag column, the baseline of its parameter
      frame is a quarter of the sales and three newest lags of all its rows
      at that quarter, each row counted once per occurrence. */
  lemma ParametersBaseline(cluster: int, year: int, quarter: int, data: PriceData)
    requires WellFormed(data) && "cluster_" + Show(cluster) in data.flagNames
    ensures var sel := Filter(data.rows, Selects(ColumnIndex(data.flagNames, "cluster_" + Show(cluster)), TimeIndex(year, quarter)));
      && GetParameters(cluster, year, quarter, data).Success?
      && BaselineDemand(GetParameters(cluster, year, quarter, data).value) == RecentSum(sel) / 4.0
  {
    var sel := Filter(data.rows, Selects(ColumnIndex(data.flagNames, "cluster_" + Show(cluster)), TimeIndex(year, quarter)));
    BaselineOfShifted(sel);
  }

  /** `get_baseprice_pct`: the change for the regressor's forecast of the
      first parameter row against the baseline. An empty parameter frame
      leaves the regressor no sample, which raises. */
  function BasePricePct(ps: seq<Params>, predict: Params -> real): (r: Result<real>)
    ensures r.Failure? <==> |ps| == 0 || (predict(ps[0]) == 0.0 && BaselineDemand(ps) == 0.0)
    ensures r.Success? ==> -0.25 <= r.value <= 0.25
  {
    if |ps| == 0 then Failure("Found array with 0 sample(s)")
    else PriceChange(predict(ps[0]), BaselineDemand(ps))
  }

  /** For a cluster with exactly one row at the previous quarter, the
      baseline is the mean of that quarter's sales and its three most
      recent lags, and a forecast at or above it never lowers the price. */
  lemma AdjustmentFromPreviousQuarter(cluster: int, year: int, quarter: int, data: PriceData,
                                      predict: Params -> real, row: PriceRow)
    requires WellFormed(data)
    requires GetParameters(cluster, year, quarter, data) == Success([ShiftLags(row)])
    ensures BaselineDemand([ShiftLags(row)]) == (row.numSales + row.lag1 + row.lag2 + row.lag3) / 4.0
    ensures var b := BaselineDemand([ShiftLags(row)]);
      b > 0.0 && predict(ShiftLags(row)) >= b ==>
        BasePricePct([ShiftLags(row)], predict).Success? && BasePricePct([ShiftLags(row)], predict).value >= 0.0
  {
    var b := BaselineDemand([ShiftLags(row)]);
    if b > 0.0 && predict(ShiftLags(row)) >= b {
      SignPreserved(predict(ShiftLags(row)), b);
    }
  }
}
