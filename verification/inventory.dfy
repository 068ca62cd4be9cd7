/** The quarterly inventory-policy engine of
    `models/qn2_inventory_optimization.py`: safety stock, reorder point,
    economic order quantity and the restock list, per (cluster, quarter)
    group of the demand table. */
module Inventory {
  import opened Wrappers
  import opened Numerics
  import opened Tables

  // ---------------------------------------------------------------------
  // Data model

  /** One row of the demand table. `period` is the `year_quarter` period as
      an ordinal (quarters counted in calendar order); a quarter may hold
      several rows, one per date. A missing `moving_avg_demand` is NaN. */
  datatype DemandRow = DemandRow(
    cluster: int,
    period: int,
    predictedDemand: real,
    movingAvgDemand: Option<real>)

  /** One row of the stock table. */
  datatype StockProfile = StockProfile(
    stockQuantity: real,
    leadTimeMonths: real,
    orderCost: real,
    holdingCost: real)

  /** The stock table, keyed by `cluster_label`. */
  type StockTable = map<int, StockProfile>

  /** A `(cluster_label, year_quarter)` group key. */
  datatype Key = Key(cluster: int, period: int)

  function KeyOf(r: DemandRow): Key {
    Key(r.cluster, r.period)
  }

  /** Group keys sort by cluster, then by quarter. */
  function Rank(k: Key): seq<int> {
    [k.cluster, k.period]
  }

  function Keys(demand: seq<DemandRow>): (ks: seq<Key>)
    ensures |ks| == |demand|
    ensures forall i :: 0 <= i < |demand| ==> ks[i] == KeyOf(demand[i])
  {
    seq(|demand|, i requires 0 <= i < |demand| => KeyOf(demand[i]))
  }

  /** Strictly ascending keys. */
  ghost predicate StrictlySorted(ks: seq<Key>) {
    SortedBy(ks, Rank) && NoDuplicates(ks)
  }

  /** The keys of `groupby(['cluster_label', 'year_quarter'])`: every key of
      the demand table, once. */
  function Groups(demand: seq<DemandRow>): (g: seq<Key>)
    ensures forall k :: k in g <==> k in Keys(demand)
  {
    var sorted := SortBy(Keys(demand), Rank);
    assert forall k :: k in sorted <==> k in multiset(Keys(demand));
    Distinct(sorted)
  }

  /** The groups come out in ascending key order, each once. */
  lemma GroupsAscending(demand: seq<DemandRow>)
    ensures StrictlySorted(Groups(demand))
  {
    DistinctSorted(SortBy(Keys(demand), Rank), Rank);
  }

  /** The groups whose cluster has a stock row. */
  function Stocked(stock: StockTable): Key -> bool {
    (k: Key) => k.cluster in stock
  }

  /** The groups that survive an inner merge with the stock table. */
  function StockedGroups(demand: seq<DemandRow>, stock: StockTable): (g: seq<Key>)
    ensures forall k :: k in g <==> k in Keys(demand) && k.cluster in stock
  {
    Filter(Groups(demand), Stocked(stock))
  }

  /** The stocked groups keep the ascending key order. */
  lemma StockedGroupsAscending(demand: seq<DemandRow>, stock: StockTable)
    ensures StrictlySorted(StockedGroups(demand, stock))
  {
    GroupsAscending(demand);
    FilterSorted(Groups(demand), Stocked(stock), Rank);
    FilterNoDuplicates(Groups(demand), Stocked(stock));
  }

  /** The present `moving_avg_demand` values of group `k`, in row order. */
  function GroupValues(demand: seq<DemandRow>, k: Key): seq<real> {
    if |demand| == 0 then []
    else
      var last := demand[|demand| - 1];
      GroupValues(demand[..|demand| - 1], k)
        + (if KeyOf(last) == k && last.movingAvgDemand.Some? then [last.movingAvgDemand.value] else [])
  }

  // ---------------------------------------------------------------------
  // Group statistics

  /** The pandas group `mean()`: missing when the group has no value. */
  function Mean(vs: seq<real>): (m: Option<real>)
    ensures m.Some? <==> |vs| > 0
    ensures m.Some? ==> m.value * |vs| as real == Sum(vs)
  {
    if |vs| == 0 then None else Some(Sum(vs) / |vs| as real)
  }

  function SquaredDeviations(vs: seq<real>, mean: real): real {
    if |vs| == 0 then 0.0
    else SquaredDeviations(vs[..|vs| - 1], mean) + Sq(vs[|vs| - 1] - mean)
  }

  /** The sum of squared deviations is never negative, so the variance the
      square root is taken of is never negative either. */
  lemma {:induction false} SquaredDeviationsNonNegative(vs: seq<real>, mean: real)
    ensures SquaredDeviations(vs, mean) >= 0.0
  {
    if |vs| > 0 {
      SquaredDeviationsNonNegative(vs[..|vs| - 1], mean);
      var e := vs[|vs| - 1] - mean;
      assert Sq(e) >= 0.0 by {
        if e < 0.0 {
          SqMonotone(0.0, -e);
          assert Sq(-e) == Sq(e);
        } else {
          SqMonotone(0.0, e);
        }
      }
    }
  }

  /** The pandas group `std()` (`ddof = 1`): missing when the group has fewer
      than two values. The square root is a parameter. */
  function SampleStd(vs: seq<real>, sqrt: real -> real): (s: Option<real>)
    ensures s.Some? <==> |vs| >= 2
    ensures s.Some? ==> Mean(vs).Some? && s.value == sqrt(SquaredDeviations(vs, Mean(vs).value) / (|vs| - 1) as real)
    ensures s.Some? ==> exists v :: v >= 0.0 && s.value == sqrt(v)
  {
    if |vs| < 2 then None
    else
      var v := SquaredDeviations(vs, Sum(vs) / |vs| as real) / (|vs| - 1) as real;
      SquaredDeviationsNonNegative(vs, Sum(vs) / |vs| as real);
      Some(sqrt(v))
  }

  function SumSquares(vs: seq<real>): real {
    if |vs| == 0 then 0.0 else SumSquares(vs[..|vs| - 1]) + Sq(vs[|vs| - 1])
  }

  /** The squared deviations from any centre, expanded into the sums of the
      values and of their squares. */
  lemma {:induction false} DeviationsByMoments(vs: seq<real>, m: real)
    ensures SquaredDeviations(vs, m) == SumSquares(vs) - 2.0 * m * Sum(vs) + |vs| as real * Sq(m)
  {
    if |vs| > 0 {
      var init, x := vs[..|vs| - 1], vs[|vs| - 1];
      DeviationsByMoments(init, m);
      assert SquaredDeviations(vs, m) == SquaredDeviations(init, m) + Sq(x - m);
      assert SumSquares(vs) == SumSquares(init) + Sq(x);
      assert Sum(vs) == Sum(init) + x;
      ExpandStep(SquaredDeviations(init, m), SumSquares(init), Sum(init), |init| as real, x, m,
                 SquaredDeviations(vs, m), SumSquares(vs), Sum(vs), |vs| as real);
    }
  }

  /** One more value adds its squared deviation to both sides of the
      expansion. */
  lemma ExpandStep(d: real, ss: real, s: real, k: real, x: real, m: real, d': real, ss': real, s': real, k': real)
    requires d == ss - 2.0 * m * s + k * Sq(m)
    requires d' == d + Sq(x - m) && ss' == ss + Sq(x) && s' == s + x && k' == k + 1.0
    ensures d' == ss' - 2.0 * m * s' + k' * Sq(m)
  {
    assert Sq(x - m) == Sq(x) - 2.0 * m * x + Sq(m);
    assert 2.0 * m * (s + x) == 2.0 * m * s + 2.0 * m * x;
    assert (k + 1.0) * Sq(m) == k * Sq(m) + Sq(m);
  }

  /** A group whose values are all equal has standard deviation
      `sqrt(0)`. */
  lemma {:induction false} ConstantValuesStd(vs: seq<real>, c: real, sqrt: real -> real)
    requires |vs| >= 2 && forall i :: 0 <= i < |vs| ==> vs[i] == c
    ensures SampleStd(vs, sqrt) == Some(sqrt(0.0))
  {
    ConstantSum(vs, c);
    assert Sum(vs) / |vs| as real == c;
    ConstantDeviations(vs, c);
  }

  lemma {:induction false} ConstantSum(vs: seq<real>, c: real)
    requires forall i :: 0 <= i < |vs| ==> vs[i] == c
    ensures Sum(vs) == |vs| as real * c
  {
    if |vs| > 0 {
      ConstantSum(vs[..|vs| - 1], c);
    }
  }

  lemma {:induction false} ConstantDeviations(vs: seq<real>, c: real)
    requires forall i :: 0 <= i < |vs| ==> vs[i] == c
    ensures SquaredDeviations(vs, c) == 0.0
  {
    if |vs| > 0 {
      ConstantDeviations(vs[..|vs| - 1], c);
    }
  }

  // ---------------------------------------------------------------------
  // Safety stock

  /** `ceil(lead_time_months / 3)`: whole quarters covering the lead time. */
  function LeadTimeQuarters(months: real): (q: int)
    ensures 3.0 * (q - 1) as real < months <= 3.0 * q as real
    ensures months > 0.0 ==> q >= 1
  {
    Ceil(months / 3.0)
  }

  function Max(a: real, b: real): real {
    if a >= b then a else b
  }

  /** `quarterly_pd_std` of group `k`: its sample standard deviation, or 1.0
      when that is missing. */
  function PdStd(demand: seq<DemandRow>, k: Key, sqrt: real -> real): real {
    SampleStd(GroupValues(demand, k), sqrt).GetOr(1.0)
  }

  /** `z * std * sqrt(max(lead_time_quarters, 1))`: the demand deviation
      covered at the service level over the lead time. */
  function ServiceBuffer(z: real, std: real, leadTimeMonths: real, sqrt: real -> real): real {
    z * std * sqrt(Max(LeadTimeQuarters(leadTimeMonths) as real, 1.0))
  }

  /** The safety stock: the service buffer, but never below five units. */
  function SafetyStock(z: real, std: real, leadTimeMonths: real, sqrt: real -> real): (ss: real)
    ensures ss >= 5.0
    ensures ss >= ServiceBuffer(z, std, leadTimeMonths, sqrt)
    ensures ss == 5.0 || ss == ServiceBuffer(z, std, leadTimeMonths, sqrt)
  {
    Max(ServiceBuffer(z, std, leadTimeMonths, sqrt), 5.0)
  }

  /** A row of `get_quarterly_safety_stock`'s result. */
  datatype SafetyRow = SafetyRow(key: Key, pdStd: real, leadTimeMonths: real, safetyStock: real)

  function SafetyRowAt(demand: seq<DemandRow>, stock: StockTable, k: Key, z: real, sqrt: real -> real): SafetyRow
    requires k.cluster in stock
  {
    var std := PdStd(demand, k, sqrt);
    var months := stock[k.cluster].leadTimeMonths;
    SafetyRow(k, std, months, SafetyStock(z, std, months, sqrt))
  }

  /** `get_quarterly_safety_stock`: one row per group whose cluster has a
      stock row, in key order, carrying that group's standard deviation (1.0
      when undefined), its cluster's lead time and the safety stock of the
      two. */
  function QuarterlySafetyStock(demand: seq<DemandRow>, stock: StockTable, z: real, sqrt: real -> real)
    : (rows: seq<SafetyRow>)
    ensures |rows| == |StockedGroups(demand, stock)|
    ensures forall i :: 0 <= i < |rows| ==>
      var k := rows[i].key;
      && k == StockedGroups(demand, stock)[i]
      && rows[i].leadTimeMonths == stock[k.cluster].leadTimeMonths
      && rows[i].pdStd == PdStd(demand, k, sqrt)
      && rows[i].safetyStock == SafetyStock(z, rows[i].pdStd, rows[i].leadTimeMonths, sqrt)
  {
    var g := StockedGroups(demand, stock);
    seq(|g|, i requires 0 <= i < |g| => SafetyRowAt(demand, stock, g[i], z, sqrt))
  }

  /** Every safety stock is at least five units. */
  lemma SafetyStockFloor(demand: seq<DemandRow>, stock: StockTable, z: real, sqrt: real -> real)
    ensures forall r :: r in QuarterlySafetyStock(demand, stock, z, sqrt) ==> r.safetyStock >= 5.0
  {
    var rows := QuarterlySafetyStock(demand, stock, z, sqrt);
    forall r | r in rows
      ensures r.safetyStock >= 5.0
    {
      var i :| 0 <= i < |rows| && rows[i] == r;
    }
  }

  /** A group with fewer than two observed moving averages gets the default
      standard deviation 1.0, so its safety stock is
      that of a unit deviation. */
  lemma SingleObservationSafetyStock(demand: seq<DemandRow>, stock: StockTable, z: real, sqrt: real -> real, r: SafetyRow)
    requires r in QuarterlySafetyStock(demand, stock, z, sqrt)
    requires |GroupValues(demand, r.key)| < 2
    ensures r.pdStd == 1.0
    ensures r.safetyStock == SafetyStock(z, 1.0, r.leadTimeMonths, sqrt)
  {
    var rows := QuarterlySafetyStock(demand, stock, z, sqrt);
    var i :| 0 <= i < |rows| && rows[i] == r;
  }

  // ---------------------------------------------------------------------
  // Reorder point

  /** `quarterly_avg_pd` of group `k`: its mean, 0 when missing. */
  function AvgDemand(demand: seq<DemandRow>, k: Key): real {
    Mean(GroupValues(demand, k)).GetOr(0.0)
  }

  /** A row of `get_quarterly_reorder_point`'s result. */
  datatype ReorderRow = ReorderRow(
    key: Key,
    avgDemand: real,
    leadTimeMonths: Option<real>,
    safetyStock: real,
    leadTimeQuarters: int,
    reorderPoint: real)

  /** The first row of a table whose key is `k`: the row a merge on the
      key finds. */
  function Lookup<R>(rows: seq<R>, key: R -> Key, k: Key): (r: Option<R>)
    ensures r.Some? ==> r.value in rows && key(r.value) == k
    ensures r.None? ==> forall i :: 0 <= i < |rows| ==> key(rows[i]) != k
  {
    if |rows| == 0 then None
    else if key(rows[0]) == k then Some(rows[0])
    else Lookup(rows[1..], key, k)
  }

  function SafetyKey(r: SafetyRow): Key { r.key }

  /** The outer merge finds a safety stock for a group exactly when its
      cluster has a stock row, and it is that group's safety stock. */
  lemma SafetyLookupFinds(demand: seq<DemandRow>, stock: StockTable, z: real, sqrt: real -> real, k: Key)
    requires k in Groups(demand)
    ensures var found := Lookup(QuarterlySafetyStock(demand, stock, z, sqrt), SafetyKey, k);
      && (found.Some? <==> k.cluster in stock)
      && (found.Some? ==>
            && found.value.leadTimeMonths == stock[k.cluster].leadTimeMonths
            && found.value.safetyStock == SafetyStock(z, PdStd(demand, k, sqrt), stock[k.cluster].leadTimeMonths, sqrt))
  {
    var rows := QuarterlySafetyStock(demand, stock, z, sqrt);
    var found := Lookup(rows, SafetyKey, k);
    if found.Some? {
      var i :| 0 <= i < |rows| && rows[i] == found.value;
    }
  }

  /** Reorder point = average demand over the lead time + safety stock. */
  function ReorderPointFormula(avgDemand: real, leadTimeQuarters: int, safetyStock: real): real {
    avgDemand * leadTimeQuarters as real + safetyStock
  }

  /** A non-negative demand over a non-negative lead time adds to the
      safety stock. */
  lemma FormulaCoversSafetyStock(avgDemand: real, leadTimeQuarters: int, safetyStock: real)
    requires avgDemand >= 0.0 && leadTimeQuarters >= 0
    ensures ReorderPointFormula(avgDemand, leadTimeQuarters, safetyStock) >= safetyStock
  {
  }

  /** The reorder row of group `k` from its mean demand and the row the
      outer merge found for it in the safety-stock table. */
  function ReorderFromSafety(k: Key, avg: real, found: Option<SafetyRow>, stock: StockTable): (r: ReorderRow)
    ensures r.key == k && r.avgDemand == avg
    ensures r.leadTimeMonths == (if found.Some? then Some(found.value.leadTimeMonths) else None)
    ensures r.safetyStock == (if found.Some? then found.value.safetyStock else 0.0)
    ensures r.leadTimeQuarters == (if k.cluster in stock then LeadTimeQuarters(stock[k.cluster].leadTimeMonths) else 1)
    ensures r.reorderPoint == ReorderPointFormula(r.avgDemand, r.leadTimeQuarters, r.safetyStock)
  {
    var months := if found.Some? then Some(found.value.leadTimeMonths) else None;
    var ss := if found.Some? then found.value.safetyStock else 0.0;
    var ltq := if k.cluster in stock then LeadTimeQuarters(stock[k.cluster].leadTimeMonths) else 1;
    ReorderRow(k, avg, months, ss, ltq, ReorderPointFormula(avg, ltq, ss))
  }

  /** `get_quarterly_reorder_point`: one row per group, in key order (the
      outer merge keeps the groups of clusters without a stock row), with
      `reorder_point = quarterly_avg_pd * lead_time_quarters + safety_stock`
      where the missing mean, safety stock and lead time in quarters default
      to 0, 0 and 1. */
  function QuarterlyReorderPoint(demand: seq<DemandRow>, stock: StockTable, z: real, sqrt: real -> real)
    : (rows: seq<ReorderRow>)
    ensures |rows| == |Groups(demand)|
    ensures forall i :: 0 <= i < |rows| ==>
      rows[i].key == Groups(demand)[i] && rows[i].avgDemand == AvgDemand(demand, rows[i].key)
    ensures forall i :: 0 <= i < |rows| && rows[i].key.cluster in stock ==>
      && rows[i].leadTimeQuarters == LeadTimeQuarters(stock[rows[i].key.cluster].leadTimeMonths)
      && rows[i].safetyStock == SafetyStock(z, PdStd(demand, rows[i].key, sqrt), stock[rows[i].key.cluster].leadTimeMonths, sqrt)
    ensures forall i :: 0 <= i < |rows| && rows[i].key.cluster !in stock ==>
      rows[i].leadTimeQuarters == 1 && rows[i].safetyStock == 0.0
    ensures forall i :: 0 <= i < |rows| ==>
      rows[i].reorderPoint == ReorderPointFormula(rows[i].avgDemand, rows[i].leadTimeQuarters, rows[i].safetyStock)
  {
    var g := Groups(demand);
    seq(|g|, i requires 0 <= i < |g| => ReorderRowOf(demand, stock, z, sqrt, g[i]))
  }

  /** The row of group `k` in the reorder-point table. */
  function ReorderRowOf(demand: seq<DemandRow>, stock: StockTable, z: real, sqrt: real -> real, k: Key): (r: ReorderRow)
    requires k in Groups(demand)
    ensures r.key == k && r.avgDemand == AvgDemand(demand, k)
    ensures k.cluster in stock ==>
      && r.leadTimeQuarters == LeadTimeQuarters(stock[k.cluster].leadTimeMonths)
      && r.safetyStock == SafetyStock(z, PdStd(demand, k, sqrt), stock[k.cluster].leadTimeMonths, sqrt)
    ensures k.cluster !in stock ==> r.leadTimeQuarters == 1 && r.safetyStock == 0.0
    ensures r.reorderPoint == ReorderPointFormula(r.avgDemand, r.leadTimeQuarters, r.safetyStock)
  {
    SafetyLookupFinds(demand, stock, z, sqrt, k);
    ReorderFromSafety(k, AvgDemand(demand, k), Lookup(QuarterlySafetyStock(demand, stock, z, sqrt), SafetyKey, k), stock)
  }

  /** The reorder point of group `k` as the formula comment of
      `get_quarterly_reorder_point` states it: quarterly average demand times
      the lead time in quarters, plus safety stock; a cluster without a stock row has
      neither safety stock nor a lead time beyond one quarter. */
  function ReorderPointOf(demand: seq<DemandRow>, stock: StockTable, k: Key, z: real, sqrt: real -> real): real {
    if k.cluster in stock then
      var months := stock[k.cluster].leadTimeMonths;
      ReorderPointFormula(AvgDemand(demand, k), LeadTimeQuarters(months), SafetyStock(z, PdStd(demand, k, sqrt), months, sqrt))
    else
      ReorderPointFormula(AvgDemand(demand, k), 1, 0.0)
  }

  /** The reorder-point table holds, for every group, the reorder point of
      that formula. */
  lemma ReorderPointMatchesFormula(demand: seq<DemandRow>, stock: StockTable, z: real, sqrt: real -> real, r: ReorderRow)
    requires r in QuarterlyReorderPoint(demand, stock, z, sqrt)
    ensures r.key in Groups(demand)
    ensures r.reorderPoint == ReorderPointOf(demand, stock, r.key, z, sqrt)
  {
    var rows := QuarterlyReorderPoint(demand, stock, z, sqrt);
    var i :| 0 <= i < |rows| && rows[i] == r;
  }

  /** With a non-negative mean demand and a non-negative lead time, a
      stocked group's reorder point covers its safety stock, hence is at
      least five. */
  lemma ReorderPointCoversSafetyStock(demand: seq<DemandRow>, stock: StockTable, z: real, sqrt: real -> real, r: ReorderRow)
    requires r in QuarterlyReorderPoint(demand, stock, z, sqrt)
    requires r.key.cluster in stock && r.avgDemand >= 0.0 && r.leadTimeQuarters >= 0
    ensures r.reorderPoint >= r.safetyStock >= 5.0
  {
    var rows := QuarterlyReorderPoint(demand, stock, z, sqrt);
    var i :| 0 <= i < |rows| && rows[i] == r;
    var k := r.key;
    var ss := SafetyStock(z, PdStd(demand, k, sqrt), stock[k.cluster].leadTimeMonths, sqrt);
    assert r.safetyStock == ss;
    FormulaCoversSafetyStock(r.avgDemand, r.leadTimeQuarters, r.safetyStock);
  }

  // ---------------------------------------------------------------------
  // Economic order quantity

  /** `np.round(np.sqrt(2 * D * S / H)).astype(int)` for one group. The cast
      raises on NaN (a missing mean, a negative ratio) and on infinity
      (division by a zero holding cost). */
  function OptimalQty(avgDemand: Option<real>, orderCost: real, holdingCost: real): (q: Result<int>)
    ensures q.Success? <==>
      avgDemand.Some? && holdingCost != 0.0 && 2.0 * avgDemand.value * orderCost / holdingCost >= 0.0
    ensures q.Success? ==> q.value >= 0 && IsRoundSqrt(2.0 * avgDemand.value * orderCost / holdingCost, q.value)
  {
    if avgDemand.None? then Failure("cannot convert float NaN to integer")
    else if holdingCost == 0.0 then Failure("cannot convert float infinity to integer")
    else
      var ratio := 2.0 * avgDemand.value * orderCost / holdingCost;
      if ratio < 0.0 then Failure("cannot convert float NaN to integer")
      else Success(RoundSqrt(ratio))
  }

  /** With a known non-negative demand, a non-negative ordering cost and a
      positive holding cost the order quantity exists. */
  lemma OptimalQtyDefined(d: real, s: real, h: real)
    requires d >= 0.0 && s >= 0.0 && h > 0.0
    ensures OptimalQty(Some(d), s, h).Success?
  {
    assert 2.0 * d * s >= 0.0;
  }

  /** Demand 200, ordering cost 50 and holding cost 2 give an order quantity
      of 100, the square root of 10000. */
  lemma OptimalQtyExample()
    ensures OptimalQty(Some(200.0), 50.0, 2.0) == Success(100)
  {
    var q := OptimalQty(Some(200.0), 50.0, 2.0);
    assert 2.0 * 200.0 * 50.0 / 2.0 == 10000.0;
    assert IsRoundSqrt(10000.0, 100);
    RoundSqrtUnique(10000.0, q.value, 100);
  }

  /** A row of `get_quarterly_eoq`'s result. */
  datatype EoqRow = EoqRow(key: Key, avgDemand: real, optimalQty: int)

  /** The order quantity of group `k` of a stocked cluster. */
  function GroupQty(demand: seq<DemandRow>, stock: StockTable, k: Key): Result<int>
    requires k.cluster in stock
  {
    OptimalQty(Mean(GroupValues(demand, k)), stock[k.cluster].orderCost, stock[k.cluster].holdingCost)
  }

  function EoqRows(demand: seq<DemandRow>, stock: StockTable, g: seq<Key>): (r: Result<seq<EoqRow>>)
    requires forall i :: 0 <= i < |g| ==> g[i].cluster in stock
    ensures r.Success? <==> forall i :: 0 <= i < |g| ==> GroupQty(demand, stock, g[i]).Success?
    ensures r.Success? ==> |r.value| == |g| && forall i :: 0 <= i < |g| ==>
      r.value[i] == EoqRow(g[i], AvgDemand(demand, g[i]), GroupQty(demand, stock, g[i]).value)
  {
    if |g| == 0 then Success([])
    else
      var init :- EoqRows(demand, stock, g[..|g| - 1]);
      var k := g[|g| - 1];
      var q :- GroupQty(demand, stock, k);
      Success(init + [EoqRow(k, AvgDemand(demand, k), q)])
  }

  /** `get_quarterly_eoq`: one row per group whose cluster has a stock row,
      in key order, with that group's mean demand and order quantity; it
      raises when any of those groups has no defined order quantity. */
  function QuarterlyEoq(demand: seq<DemandRow>, stock: StockTable): (r: Result<seq<EoqRow>>)
    ensures r.Success? <==> forall k :: k in StockedGroups(demand, stock) ==> GroupQty(demand, stock, k).Success?
    ensures r.Success? ==> |r.value| == |StockedGroups(demand, stock)|
    ensures r.Success? ==> forall i :: 0 <= i < |r.value| ==>
      var k := r.value[i].key;
      && k == StockedGroups(demand, stock)[i]
      && r.value[i].avgDemand == AvgDemand(demand, k)
      && r.value[i].optimalQty == GroupQty(demand, stock, k).value
  {
    var g := StockedGroups(demand, stock);
    var r := EoqRows(demand, stock, g);
    assert (forall k :: k in g ==> GroupQty(demand, stock, k).Success?)
       <==> (forall i :: 0 <= i < |g| ==> GroupQty(demand, stock, g[i]).Success?);
    r
  }

  /** A group with no observed moving average makes the whole EOQ table
      fail, as the integer cast of NaN raises. */
  lemma EoqFailsOnMissingMean(demand: seq<DemandRow>, stock: StockTable, k: Key)
    requires k in StockedGroups(demand, stock) && GroupValues(demand, k) == []
    ensures QuarterlyEoq(demand, stock).Failure?
  {
    assert GroupQty(demand, stock, k).Failure?;
  }

  // ---------------------------------------------------------------------
  // Restock decision

  /** The restock rule: stock at or below a positive reorder point, with a
      positive order quantity. */
  predicate NeedsRestock(stockQuantity: real, reorderPoint: real, optimalQty: int) {
    stockQuantity <= reorderPoint && reorderPoint > 0.0 && optimalQty > 0
  }

  /** A row of the merged reorder/EOQ/stock table, with its restock flag. */
  datatype Candidate = Candidate(
    key: Key,
    reorderPoint: real,
    optimalQty: int,
    stockQuantity: real,
    toRestock: int)

  function ReorderKey(r: ReorderRow): Key { r.key }

  function Flag(stockQuantity: real, reorderPoint: real, optimalQty: int): int {
    if NeedsRestock(stockQuantity, reorderPoint, optimalQty) then 1 else 0
  }

  /** The inner merge of the EOQ rows with the reorder rows on the key and
      with the stock table on the cluster. Both tables are in key order, so
      the merged rows follow the EOQ rows. */
  function Join(eoq: seq<EoqRow>, reorder: seq<ReorderRow>, stock: StockTable): seq<Candidate> {
    if |eoq| == 0 then []
    else
      var e := eoq[|eoq| - 1];
      Join(eoq[..|eoq| - 1], reorder, stock)
        + match Lookup(reorder, ReorderKey, e.key)
          case Some(r) =>
            if e.key.cluster in stock then
              var s := stock[e.key.cluster].stockQuantity;
              [Candidate(e.key, r.reorderPoint, e.optimalQty, s, Flag(s, r.reorderPoint, e.optimalQty))]
            else []
          case None => []
  }

  /** When every EOQ row finds its reorder row and its stock row, the merge
      drops nothing. */
  lemma {:induction false} JoinKeepsAll(eoq: seq<EoqRow>, reorder: seq<ReorderRow>, stock: StockTable)
    requires forall i :: 0 <= i < |eoq| ==> eoq[i].key.cluster in stock && Lookup(reorder, ReorderKey, eoq[i].key).Some?
    ensures |Join(eoq, reorder, stock)| == |eoq|
    ensures forall i :: 0 <= i < |eoq| ==>
      var c := Join(eoq, reorder, stock)[i];
      && c.key == eoq[i].key
      && c.reorderPoint == Lookup(reorder, ReorderKey, eoq[i].key).value.reorderPoint
      && c.optimalQty == eoq[i].optimalQty
      && c.stockQuantity == stock[eoq[i].key.cluster].stockQuantity
      && c.toRestock == Flag(c.stockQuantity, c.reorderPoint, c.optimalQty)
  {
    if |eoq| > 0 {
      JoinKeepsAll(eoq[..|eoq| - 1], reorder, stock);
    }
  }

  /** Whether group `k` of a stocked cluster needs a restock. */
  predicate GroupNeedsRestock(demand: seq<DemandRow>, stock: StockTable, k: Key, z: real, sqrt: real -> real)
    requires k.cluster in stock && GroupQty(demand, stock, k).Success?
  {
    NeedsRestock(stock[k.cluster].stockQuantity, ReorderPointOf(demand, stock, k, z, sqrt), GroupQty(demand, stock, k).value)
  }

  /** The flagged table both `get_quarterly_restock` functions build: one
      row per group whose cluster has a stock row, in key order, joining
      the group's reorder point, order quantity and the cluster's stock, with
      `to_restock` set exactly when the restock rule holds. */
  function Candidates(demand: seq<DemandRow>, stock: StockTable, z: real, sqrt: real -> real)
    : (r: Result<seq<Candidate>>)
    ensures r.Success? <==> QuarterlyEoq(demand, stock).Success?
    ensures r.Success? ==> |r.value| == |StockedGroups(demand, stock)|
    ensures r.Success? ==> forall i :: 0 <= i < |r.value| ==>
      r.value[i].key == StockedGroups(demand, stock)[i]
    ensures r.Success? ==> forall i :: 0 <= i < |r.value| ==>
      && r.value[i].reorderPoint == ReorderPointOf(demand, stock, r.value[i].key, z, sqrt)
      && r.value[i].optimalQty == GroupQty(demand, stock, r.value[i].key).value
      && r.value[i].stockQuantity == stock[r.value[i].key.cluster].stockQuantity
    ensures r.Success? ==> forall i :: 0 <= i < |r.value| ==>
      && (r.value[i].toRestock == 1 <==> GroupNeedsRestock(demand, stock, r.value[i].key, z, sqrt))
      && (r.value[i].toRestock == 0 <==> !GroupNeedsRestock(demand, stock, r.value[i].key, z, sqrt))
  {
    var eoq :- QuarterlyEoq(demand, stock);
    var reorder := QuarterlyReorderPoint(demand, stock, z, sqrt);
    ReorderLookupFinds(demand, stock, z, sqrt, eoq);
    JoinKeepsAll(eoq, reorder, stock);
    Success(Join(eoq, reorder, stock))
  }

  lemma ReorderLookupFinds(demand: seq<DemandRow>, stock: StockTable, z: real, sqrt: real -> real, eoq: seq<EoqRow>)
    requires QuarterlyEoq(demand, stock) == Success(eoq)
    ensures forall i :: 0 <= i < |eoq| ==>
      var found := Lookup(QuarterlyReorderPoint(demand, stock, z, sqrt), ReorderKey, eoq[i].key);
      && eoq[i].key.cluster in stock
      && found.Some?
      && found.value.reorderPoint == ReorderPointOf(demand, stock, eoq[i].key, z, sqrt)
  {
    var reorder := QuarterlyReorderPoint(demand, stock, z, sqrt);
    forall i | 0 <= i < |eoq|
      ensures var found := Lookup(reorder, ReorderKey, eoq[i].key);
        && eoq[i].key.cluster in stock
        && found.Some?
        && found.value.reorderPoint == ReorderPointOf(demand, stock, eoq[i].key, z, sqrt)
    {
      var k := eoq[i].key;
      assert k in StockedGroups(demand, stock);
      var g := Groups(demand);
      var j :| 0 <= j < |g| && g[j] == k;
      assert reorder[j].key == k;
      var found := Lookup(reorder, ReorderKey, k);
      ReorderPointMatchesFormula(demand, stock, z, sqrt, found.value);
    }
  }

  /** A row of `get_quarterly_restock`'s result. */
  datatype RestockRow = RestockRow(key: Key, toRestock: int, optimalQty: int)

  function RestockOf(c: Candidate): RestockRow {
    RestockRow(c.key, c.toRestock, c.optimalQty)
  }

  /** The candidates flagged for a restock, in order. */
  function Flagged(cands: seq<Candidate>): (rows: seq<RestockRow>)
    ensures forall i :: 0 <= i < |rows| ==>
      exists j :: 0 <= j < |cands| && rows[i] == RestockOf(cands[j]) && cands[j].toRestock == 1
    ensures forall j :: 0 <= j < |cands| && cands[j].toRestock == 1 ==> RestockOf(cands[j]) in rows
  {
    if |cands| == 0 then []
    else
      var c := cands[|cands| - 1];
      var init := Flagged(cands[..|cands| - 1]);
      assert forall j :: 0 <= j < |cands| - 1 ==> cands[..|cands| - 1][j] == cands[j];
      init + (if c.toRestock == 1 then [RestockOf(c)] else [])
  }

  function RestockKeys(rows: seq<RestockRow>): (ks: seq<Key>)
    ensures |ks| == |rows| && forall i :: 0 <= i < |rows| ==> ks[i] == rows[i].key
  {
    seq(|rows|, i requires 0 <= i < |rows| => rows[i].key)
  }

  /** `get_quarterly_restock` of `qn2_inventory_optimization.py`: exactly the
      groups of stocked clusters that need a restock, each with
      `to_restock = 1` and its positive order quantity; it raises when the
      EOQ step raises. */
  function QuarterlyRestock(demand: seq<DemandRow>, stock: StockTable, z: real, sqrt: real -> real)
    : (r: Result<seq<RestockRow>>)
    ensures r.Success? <==> QuarterlyEoq(demand, stock).Success?
    ensures r.Success? ==> forall i :: 0 <= i < |r.value| ==>
      var k := r.value[i].key;
      && k in StockedGroups(demand, stock)
      && r.value[i].toRestock == 1
      && r.value[i].optimalQty > 0
      && r.value[i].optimalQty == GroupQty(demand, stock, k).value
      && GroupNeedsRestock(demand, stock, k, z, sqrt)
    ensures r.Success? ==> forall k ::
      k in StockedGroups(demand, stock) && GroupNeedsRestock(demand, stock, k, z, sqrt)
      ==> k in RestockKeys(r.value)
  {
    var cands :- Candidates(demand, stock, z, sqrt);
    forall i | 0 <= i < |Flagged(cands)|
      ensures var k := Flagged(cands)[i].key;
        && k in StockedGroups(demand, stock)
        && Flagged(cands)[i].toRestock == 1
        && Flagged(cands)[i].optimalQty > 0
        && Flagged(cands)[i].optimalQty == GroupQty(demand, stock, k).value
        && GroupNeedsRestock(demand, stock, k, z, sqrt)
    {
      FlaggedRowNeedsRestock(demand, stock, z, sqrt, cands, i);
    }
    forall k | k in StockedGroups(demand, stock) && GroupNeedsRestock(demand, stock, k, z, sqrt)
      ensures k in RestockKeys(Flagged(cands))
    {
      DepletedGroupFlagged(demand, stock, z, sqrt, cands, k);
    }
    Success(Flagged(cands))
  }

  /** A flagged row is a stocked group that needs a restock. */
  lemma FlaggedRowNeedsRestock(demand: seq<DemandRow>, stock: StockTable, z: real, sqrt: real -> real,
                               cands: seq<Candidate>, i: nat)
    requires Candidates(demand, stock, z, sqrt) == Success(cands)
    requires i < |Flagged(cands)|
    ensures var k := Flagged(cands)[i].key;
      && k in StockedGroups(demand, stock)
      && Flagged(cands)[i].toRestock == 1
      && Flagged(cands)[i].optimalQty > 0
      && Flagged(cands)[i].optimalQty == GroupQty(demand, stock, k).value
      && GroupNeedsRestock(demand, stock, k, z, sqrt)
  {
    var j :| 0 <= j < |cands| && Flagged(cands)[i] == RestockOf(cands[j]) && cands[j].toRestock == 1;
    assert cands[j].key == StockedGroups(demand, stock)[j];
  }

  /** A stocked group that needs a restock is flagged. */
  lemma DepletedGroupFlagged(demand: seq<DemandRow>, stock: StockTable, z: real, sqrt: real -> real,
                             cands: seq<Candidate>, k: Key)
    requires Candidates(demand, stock, z, sqrt) == Success(cands)
    requires k in StockedGroups(demand, stock) && GroupNeedsRestock(demand, stock, k, z, sqrt)
    ensures k in RestockKeys(Flagged(cands))
  {
    var sg := StockedGroups(demand, stock);
    var j :| 0 <= j < |sg| && sg[j] == k;
    FlaggedKey(cands, j);
  }

  /** A candidate flagged for a restock has its key in the restock table. */
  lemma FlaggedKey(cands: seq<Candidate>, j: nat)
    requires j < |cands| && cands[j].toRestock == 1
    ensures cands[j].key in RestockKeys(Flagged(cands))
  {
    var rows := Flagged(cands);
    var i :| 0 <= i < |rows| && rows[i] == RestockOf(cands[j]);
    assert RestockKeys(rows)[i] == cands[j].key;
  }

  /** A row of the restock table is a group whose cluster has stock, whose
      reorder point is positive and whose stock has fallen to it: zero stock
      never triggers a restock when the reorder point is not positive. */
  lemma RestockedGroupsAreDepleted(demand: seq<DemandRow>, stock: StockTable, z: real, sqrt: real -> real, rows: seq<RestockRow>, i: nat)
    requires QuarterlyRestock(demand, stock, z, sqrt) == Success(rows)
    requires i < |rows|
    ensures rows[i].key.cluster in stock
    ensures ReorderPointOf(demand, stock, rows[i].key, z, sqrt) > 0.0
    ensures stock[rows[i].key.cluster].stockQuantity <= ReorderPointOf(demand, stock, rows[i].key, z, sqrt)
  {
    var k := rows[i].key;
    assert k in StockedGroups(demand, stock) && GroupNeedsRestock(demand, stock, k, z, sqrt);
  }
}
