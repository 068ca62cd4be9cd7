/** The policy comparison of `potential_scenarios/normal_scenario.py`: the
    naive baseline policy, the per-row stock simulation of the optimised
    policy, and the two-row KPI comparison of both. */
module Scenario {
  import opened Wrappers
  import opened Numerics
  import opened Tables
  import opened Inventory

  // ---------------------------------------------------------------------
  // Column helpers

  /** `c * v` on a value that may be NaN. */
  function Scale(c: real, v: Option<real>): (r: Option<real>)
    ensures r.Some? <==> v.Some?
    ensures r.Some? ==> r.value == c * v.value
  {
    match v
    case Some(x) => Some(c * x)
    case None => None
  }

  /** `a < b` on values that may be NaN: a comparison with NaN is false. */
  predicate Less(a: Option<real>, b: Option<real>) {
    a.Some? && b.Some? && a.value < b.value
  }

  /** `Series.min()` of a column of quarters: missing for an empty table. */
  function MinPeriod(ps: seq<int>): (m: Option<int>)
    ensures m.Some? <==> |ps| > 0
    ensures m.Some? ==> m.value in ps && forall i :: 0 <= i < |ps| ==> m.value <= ps[i]
  {
    if |ps| == 0 then None
    else
      match MinPeriod(ps[..|ps| - 1])
      case None => Some(ps[|ps| - 1])
      case Some(m) => Some(if ps[|ps| - 1] < m then ps[|ps| - 1] else m)
  }

  /** The rolling-stock base of row `i`: the group shift of the stock column
      by cluster, except that the rows of the earliest quarter of the table
      take their own stock. */
  function RollingBase(clusters: seq<int>, stocks: seq<Option<real>>, periods: seq<int>, i: nat): Option<real>
    requires |clusters| == |stocks| == |periods| && i < |clusters|
  {
    if MinPeriod(periods) == Some(periods[i]) then stocks[i]
    else GroupShift(clusters, stocks, i, 1).GetOr(None)
  }

  /** `rolling_stock - demand + order_qty`, NaN when any term is. */
  function Rolling(base: Option<real>, demand: Option<real>, orderQty: real): (r: Option<real>)
    ensures r.Some? <==> base.Some? && demand.Some?
    ensures r.Some? ==> r.value == base.value - demand.value + orderQty
  {
    if base.Some? && demand.Some? then Some(base.value - demand.value + orderQty) else None
  }

  /** `abs(x) if x < 0 else 0`; a NaN rolling stock is not below zero. */
  function Unmet(rolling: Option<real>): (u: real)
    ensures u >= 0.0
    ensures rolling.Some? ==> rolling.value + u >= 0.0
    ensures u > 0.0 <==> rolling.Some? && rolling.value < 0.0
    ensures u > 0.0 ==> u == -rolling.value
  {
    if rolling.Some? && rolling.value < 0.0 then -rolling.value else 0.0
  }

  /** The `stock_quantity` a left merge with the stock table attaches to a
      cluster: NaN when the cluster has no stock row. */
  function StockOf(stock: StockTable, cluster: int): (s: Option<real>)
    ensures s.Some? <==> cluster in stock
    ensures s.Some? ==> s.value == stock[cluster].stockQuantity
  {
    if cluster in stock then Some(stock[cluster].stockQuantity) else None
  }

  // ---------------------------------------------------------------------
  // Naive baseline policy

  /** Rows sort by cluster, then by quarter. */
  function RowRank(r: DemandRow): seq<int> {
    [r.cluster, r.period]
  }

  /** `sort_values(by=["cluster_label", "year_quarter"])`. */
  function SortedDemand(demand: seq<DemandRow>): (s: seq<DemandRow>)
    ensures SortedBy(s, RowRank) && multiset(s) == multiset(demand) && |s| == |demand|
  {
    SortBy(demand, RowRank)
  }

  function Clusters(rows: seq<DemandRow>): (cs: seq<int>)
    ensures |cs| == |rows| && forall i :: 0 <= i < |rows| ==> cs[i] == rows[i].cluster
  {
    seq(|rows|, i requires 0 <= i < |rows| => rows[i].cluster)
  }

  function Periods(rows: seq<DemandRow>): (ps: seq<int>)
    ensures |ps| == |rows| && forall i :: 0 <= i < |rows| ==> ps[i] == rows[i].period
  {
    seq(|rows|, i requires 0 <= i < |rows| => rows[i].period)
  }

  function Demands(rows: seq<DemandRow>): (ds: seq<real>)
    ensures |ds| == |rows| && forall i :: 0 <= i < |rows| ==> ds[i] == rows[i].predictedDemand
  {
    seq(|rows|, i requires 0 <= i < |rows| => rows[i].predictedDemand)
  }

  function StockColumn(rows: seq<DemandRow>, stock: StockTable): (ss: seq<Option<real>>)
    ensures |ss| == |rows| && forall i :: 0 <= i < |rows| ==> ss[i] == StockOf(stock, rows[i].cluster)
  {
    seq(|rows|, i requires 0 <= i < |rows| => StockOf(stock, rows[i].cluster))
  }

  /** A row of `apply_naive_inventory_strategy`'s result. */
  datatype NaiveRow = NaiveRow(
    row: DemandRow,
    lastQuarterDemand: Option<real>,
    naiveReorderPoint: Option<real>,
    naiveSafetyStock: Option<real>,
    stockQuantity: Option<real>,
    naiveRestock: bool,
    naiveOrderQty: real,
    rollingStock: Option<real>,
    unmetDemand: real)

  /** Row `i` of the naive strategy over the sorted demand rows. */
  function NaiveRowAt(sorted: seq<DemandRow>, stock: StockTable, i: nat): (r: NaiveRow)
    requires i < |sorted|
    ensures r.row == sorted[i]
    ensures r.lastQuarterDemand == GroupShift(Clusters(sorted), Demands(sorted), i, 1)
    ensures r.stockQuantity == StockOf(stock, sorted[i].cluster)
    ensures r.naiveReorderPoint == Scale(0.8, r.lastQuarterDemand)
    ensures r.naiveSafetyStock == Scale(0.2, r.lastQuarterDemand)
    ensures r.naiveRestock <==> Less(r.stockQuantity, r.naiveReorderPoint)
    ensures r.naiveRestock ==> r.lastQuarterDemand.Some? && r.naiveOrderQty == 1.1 * r.lastQuarterDemand.value
    ensures !r.naiveRestock ==> r.naiveOrderQty == 0.0
    ensures r.rollingStock == Rolling(RollingBase(Clusters(sorted), StockColumn(sorted, stock), Periods(sorted), i),
                                      Some(sorted[i].predictedDemand), r.naiveOrderQty)
    ensures r.unmetDemand == Unmet(r.rollingStock)
  {
    var last := GroupShift(Clusters(sorted), Demands(sorted), i, 1);
    var rop := Scale(0.8, last);
    var order := Scale(1.1, last);
    var sq := StockOf(stock, sorted[i].cluster);
    var restock := Less(sq, rop);
    var qty := if restock then order.value else 0.0;
    var base := RollingBase(Clusters(sorted), StockColumn(sorted, stock), Periods(sorted), i);
    var rolling := Rolling(base, Some(sorted[i].predictedDemand), qty);
    NaiveRow(sorted[i], last, rop, Scale(0.2, last), sq, restock, qty, rolling, Unmet(rolling))
  }

  /** `apply_naive_inventory_strategy`: the demand rows sorted by cluster
      and quarter, each with the naive policy's decision and the rolling
      stock that results. */
  function NaiveStrategy(demand: seq<DemandRow>, stock: StockTable): (rows: seq<NaiveRow>)
    ensures |rows| == |demand|
    ensures forall i :: 0 <= i < |rows| ==> rows[i] == NaiveRowAt(SortedDemand(demand), stock, i)
  {
    var sorted := SortedDemand(demand);
    seq(|sorted|, i requires 0 <= i < |sorted| => NaiveRowAt(sorted, stock, i))
  }

  /** The naive result lists every demand row once, sorted by cluster and
      quarter. */
  lemma NaiveRowsArePermutation(demand: seq<DemandRow>, stock: StockTable)
    ensures var rows := NaiveStrategy(demand, stock);
      var inputs := seq(|rows|, i requires 0 <= i < |rows| => rows[i].row);
      multiset(inputs) == multiset(demand) && SortedBy(inputs, RowRank)
  {
    var rows := NaiveStrategy(demand, stock);
    var inputs := seq(|rows|, i requires 0 <= i < |rows| => rows[i].row);
    assert inputs == SortedDemand(demand);
  }

  /** After sorting, `last_quarter_demand` is the demand of the previous row
      when it belongs to the same cluster, and missing on a cluster's first
      row. */
  lemma NaiveLastQuarterDemand(demand: seq<DemandRow>, stock: StockTable, i: nat)
    requires i < |demand|
    ensures var sorted := SortedDemand(demand);
      NaiveStrategy(demand, stock)[i].lastQuarterDemand
        == if i > 0 && sorted[i - 1].cluster == sorted[i].cluster then Some(sorted[i - 1].predictedDemand) else None
  {
    var sorted := SortedDemand(demand);
    SortedContiguous(sorted, RowRank, Clusters(sorted));
    GroupShiftContiguous(Clusters(sorted), Demands(sorted), i, 1);
  }

  /** The naive policy restocks exactly when the stock is below 80 % of the
      previous quarter's demand, and so never on a cluster's first row. */
  lemma NaiveRestockRule(demand: seq<DemandRow>, stock: StockTable, i: nat)
    requires i < |demand|
    ensures var sorted := SortedDemand(demand);
      var r := NaiveStrategy(demand, stock)[i];
      && (r.naiveRestock <==>
            && i > 0 && sorted[i - 1].cluster == sorted[i].cluster
            && sorted[i].cluster in stock
            && stock[sorted[i].cluster].stockQuantity < 0.8 * sorted[i - 1].predictedDemand)
      && (r.naiveRestock ==> r.naiveOrderQty == 1.1 * sorted[i - 1].predictedDemand)
      && (!r.naiveRestock ==> r.naiveOrderQty == 0.0)
  {
    NaiveLastQuarterDemand(demand, stock, i);
  }

  /** The rolling stock is not carried from quarter to quarter: every row
      starts again from its cluster's static stock (or from nothing, on a
      cluster's first row outside the table's earliest quarter). */
  lemma NaiveRollingFromStaticStock(demand: seq<DemandRow>, stock: StockTable, i: nat)
    requires i < |demand|
    ensures var sorted := SortedDemand(demand);
      var r := NaiveStrategy(demand, stock)[i];
      var first := MinPeriod(Periods(sorted)) != Some(sorted[i].period)
                   && !(i > 0 && sorted[i - 1].cluster == sorted[i].cluster);
      && (first ==> r.rollingStock.None? && r.unmetDemand == 0.0)
      && (!first ==> r.rollingStock == Rolling(StockOf(stock, sorted[i].cluster), Some(sorted[i].predictedDemand), r.naiveOrderQty))
  {
    var sorted := SortedDemand(demand);
    SortedContiguous(sorted, RowRank, Clusters(sorted));
    GroupShiftContiguous(Clusters(sorted), StockColumn(sorted, stock), i, 1);
  }

  // ---------------------------------------------------------------------
  // Optimised policy simulation

  /** A row of the simulation variant of `get_quarterly_restock`. */
  datatype SimRow = SimRow(
    candidate: Candidate,
    orderQty: int,
    rollingStock: Option<real>,
    unmetDemand: Option<real>)

  function CandClusters(cands: seq<Candidate>): (cs: seq<int>)
    ensures |cs| == |cands| && forall i :: 0 <= i < |cands| ==> cs[i] == cands[i].key.cluster
  {
    seq(|cands|, i requires 0 <= i < |cands| => cands[i].key.cluster)
  }

  function CandPeriods(cands: seq<Candidate>): (ps: seq<int>)
    ensures |ps| == |cands| && forall i :: 0 <= i < |cands| ==> ps[i] == cands[i].key.period
  {
    seq(|cands|, i requires 0 <= i < |cands| => cands[i].key.period)
  }

  function CandStocks(cands: seq<Candidate>): (ss: seq<Option<real>>)
    ensures |ss| == |cands| && forall i :: 0 <= i < |cands| ==> ss[i] == Some(cands[i].stockQuantity)
  {
    seq(|cands|, i requires 0 <= i < |cands| => Some(cands[i].stockQuantity))
  }

  /** The simulated row `i` of the flagged table, given the demand its
      rolling stock is charged with. The EOQ is added on every row, flagged
      for a restock or not. */
  function SimRowAt(cands: seq<Candidate>, charged: Option<real>, i: nat): (r: SimRow)
    requires i < |cands|
    ensures r.candidate == cands[i] && r.orderQty == cands[i].optimalQty
    ensures r.rollingStock == Rolling(RollingBase(CandClusters(cands), CandStocks(cands), CandPeriods(cands), i),
                                      charged, cands[i].optimalQty as real)
    ensures r.unmetDemand == Some(Unmet(r.rollingStock))
  {
    var base := RollingBase(CandClusters(cands), CandStocks(cands), CandPeriods(cands), i);
    var rolling := Rolling(base, charged, cands[i].optimalQty as real);
    SimRow(cands[i], cands[i].optimalQty, rolling, Some(Unmet(rolling)))
  }

  /** The demand the code charges to row `i` of the flagged table: the
      `predicted_demand` of the demand table's `i`-th raw row, whatever its
      cluster and quarter (the subtraction aligns the two tables by row
      number), and NaN past its end. */
  function PositionalDemand(demand: seq<DemandRow>, i: nat): Option<real> {
    if i < |demand| then Some(demand[i].predictedDemand) else None
  }

  /** The simulation exactly as the code computes it. */
  function SimulateAsWritten(cands: seq<Candidate>, demand: seq<DemandRow>): (rows: seq<SimRow>)
    ensures |rows| == |cands|
    ensures forall i :: 0 <= i < |rows| ==> rows[i] == SimRowAt(cands, PositionalDemand(demand, i), i)
  {
    seq(|cands|, i requires 0 <= i < |cands| => SimRowAt(cands, PositionalDemand(demand, i), i))
  }

  /** The total `predicted_demand` of group `k`. */
  function KeyDemand(demand: seq<DemandRow>, k: Key): real {
    if |demand| == 0 then 0.0
    else
      var last := demand[|demand| - 1];
      KeyDemand(demand[..|demand| - 1], k) + (if KeyOf(last) == k then last.predictedDemand else 0.0)
  }

  /** When row `j` is the only row of its group, the group's demand is
      that row's demand. */
  lemma {:induction false} KeyDemandOfOwnRow(demand: seq<DemandRow>, j: nat)
    requires j < |demand|
    requires forall i :: 0 <= i < |demand| && i != j ==> KeyOf(demand[i]) != KeyOf(demand[j])
    ensures KeyDemand(demand, KeyOf(demand[j])) == demand[j].predictedDemand
  {
    var n := |demand|;
    var init := demand[..n - 1];
    if j < n - 1 {
      KeyDemandOfOwnRow(init, j);
    } else {
      KeyDemandAbsent(init, KeyOf(demand[j]));
    }
  }

  /** A group with no rows has no demand. */
  lemma {:induction false} KeyDemandAbsent(demand: seq<DemandRow>, k: Key)
    requires forall i :: 0 <= i < |demand| ==> KeyOf(demand[i]) != k
    ensures KeyDemand(demand, k) == 0.0
  {
    if |demand| > 0 {
      KeyDemandAbsent(demand[..|demand| - 1], k);
    }
  }

  /** The simulation as evidently intended: each row is charged with its own
      group's demand. */
  function Simulate(cands: seq<Candidate>, demand: seq<DemandRow>): (rows: seq<SimRow>)
    ensures |rows| == |cands|
    ensures forall i {:trigger rows[i]} :: 0 <= i < |rows| ==> rows[i] == SimRowAt(cands, Some(KeyDemand(demand, cands[i].key)), i)
  {
    seq(|cands|, i requires 0 <= i < |cands| => SimRowAt(cands, Some(KeyDemand(demand, cands[i].key)), i))
  }

  /** The simulation variant of `get_quarterly_restock`: the flagged table
      of the inventory engine, one row per stocked group in key order, with
      the simulated rolling stock; it raises when the EOQ step raises. */
  function OptimisedSimulation(demand: seq<DemandRow>, stock: StockTable, z: real, sqrt: real -> real)
    : (r: Result<seq<SimRow>>)
    ensures r.Success? <==> Candidates(demand, stock, z, sqrt).Success?
    ensures r.Success? ==> |r.value| == |Candidates(demand, stock, z, sqrt).value|
    ensures r.Success? ==> forall i :: 0 <= i < |r.value| ==>
      r.value[i].candidate == Candidates(demand, stock, z, sqrt).value[i]
    ensures r.Success? ==> r.value == Simulate(Candidates(demand, stock, z, sqrt).value, demand)
  {
    var cands :- Candidates(demand, stock, z, sqrt);
    Success(Simulate(cands, demand))
  }

  /** In the optimised simulation, a row after its cluster's first (or in
      the table's earliest quarter) has rolling stock static stock − its
      group's demand + EOQ, and its unmet demand is the shortfall of that. */
  lemma OptimisedRollingStock(demand: seq<DemandRow>, stock: StockTable, z: real, sqrt: real -> real, i: nat)
    requires Candidates(demand, stock, z, sqrt).Success? && i < |Candidates(demand, stock, z, sqrt).value|
    requires var cands := Candidates(demand, stock, z, sqrt).value;
      MinPeriod(CandPeriods(cands)) == Some(cands[i].key.period)
      || (i > 0 && cands[i - 1].key.cluster == cands[i].key.cluster)
    ensures var cands := Candidates(demand, stock, z, sqrt).value;
      var rows := OptimisedSimulation(demand, stock, z, sqrt).value;
      var rolling := stock[cands[i].key.cluster].stockQuantity - KeyDemand(demand, cands[i].key) + cands[i].optimalQty as real;
      && cands[i].key.cluster in stock
      && rows[i].rollingStock == Some(rolling)
      && rows[i].unmetDemand == Some(Unmet(Some(rolling)))
  {
    var cands := Candidates(demand, stock, z, sqrt).value;
    assert OptimisedSimulation(demand, stock, z, sqrt).value == Simulate(cands, demand);
    CandidatesContiguous(demand, stock, z, sqrt);
    CandidatesStaticStock(demand, stock, z, sqrt);
    SimulationFromStaticStock(cands, demand, stock, i);
  }

  /** The flagged table has one contiguous run of rows per cluster. */
  lemma CandidatesContiguous(demand: seq<DemandRow>, stock: StockTable, z: real, sqrt: real -> real)
    requires Candidates(demand, stock, z, sqrt).Success?
    ensures Contiguous(CandClusters(Candidates(demand, stock, z, sqrt).value))
  {
    var cands := Candidates(demand, stock, z, sqrt).value;
    var sg := StockedGroups(demand, stock);
    StockedGroupsAscending(demand, stock);
    SortedContiguous(sg, Rank, CandClusters(cands));
  }

  /** Every flagged row carries its cluster's row of the stock table. */
  ghost predicate StaticStock(cands: seq<Candidate>, stock: StockTable) {
    forall j :: 0 <= j < |cands| ==>
      cands[j].key.cluster in stock && cands[j].stockQuantity == stock[cands[j].key.cluster].stockQuantity
  }

  /** The flagged table of the inventory engine carries the static stock. */
  lemma CandidatesStaticStock(demand: seq<DemandRow>, stock: StockTable, z: real, sqrt: real -> real)
    requires Candidates(demand, stock, z, sqrt).Success?
    ensures StaticStock(Candidates(demand, stock, z, sqrt).value, stock)
  {
  }

  /** In the simulation, every row of a stocked cluster after its first (or
      in the table's earliest quarter) starts from the cluster's static stock
      and adds the EOQ whether or not the row is flagged for a restock. */
  lemma SimulationFromStaticStock(cands: seq<Candidate>, demand: seq<DemandRow>, stock: StockTable, i: nat)
    requires Contiguous(CandClusters(cands)) && StaticStock(cands, stock) && i < |cands|
    requires MinPeriod(CandPeriods(cands)) == Some(cands[i].key.period)
          || (i > 0 && cands[i - 1].key.cluster == cands[i].key.cluster)
    ensures var rolling := stock[cands[i].key.cluster].stockQuantity - KeyDemand(demand, cands[i].key) + cands[i].optimalQty as real;
      && Simulate(cands, demand)[i].rollingStock == Some(rolling)
      && Simulate(cands, demand)[i].unmetDemand == Some(Unmet(Some(rolling)))
  {
    var d := KeyDemand(demand, cands[i].key);
    SimRowFromStaticStock(cands, stock, d, i);
    assert Simulate(cands, demand)[i] == SimRowAt(cands, Some(d), i);
  }

  /** A row so placed, charged with demand `d`, has rolling stock static
      stock − `d` + EOQ. */
  lemma SimRowFromStaticStock(cands: seq<Candidate>, stock: StockTable, d: real, i: nat)
    requires Contiguous(CandClusters(cands)) && StaticStock(cands, stock) && i < |cands|
    requires MinPeriod(CandPeriods(cands)) == Some(cands[i].key.period)
          || (i > 0 && cands[i - 1].key.cluster == cands[i].key.cluster)
    ensures SimRowAt(cands, Some(d), i).rollingStock
         == Some(stock[cands[i].key.cluster].stockQuantity - d + cands[i].optimalQty as real)
  {
    SimBaseIsStaticStock(cands, stock, i);
  }

  /** The rolling-stock base of such a row is its cluster's static stock. */
  lemma SimBaseIsStaticStock(cands: seq<Candidate>, stock: StockTable, i: nat)
    requires Contiguous(CandClusters(cands)) && StaticStock(cands, stock) && i < |cands|
    requires MinPeriod(CandPeriods(cands)) == Some(cands[i].key.period)
          || (i > 0 && cands[i - 1].key.cluster == cands[i].key.cluster)
    ensures RollingBase(CandClusters(cands), CandStocks(cands), CandPeriods(cands), i)
         == Some(stock[cands[i].key.cluster].stockQuantity)
  {
    if MinPeriod(CandPeriods(cands)) != Some(cands[i].key.period) {
      GroupShiftContiguous(CandClusters(cands), CandStocks(cands), i, 1);
    }
  }

  /** Three quarters of demand 30 against a stock of 100, with no orders,
      leave a rolling stock of 70 in every quarter: nothing is depleted
      across quarters. */
  lemma NoDepletionExample()
    ensures var cands := [Candidate(Key(1, 0), 0.0, 0, 100.0, 0), Candidate(Key(1, 1), 0.0, 0, 100.0, 0),
                          Candidate(Key(1, 2), 0.0, 0, 100.0, 0)];
      var demand := [DemandRow(1, 0, 30.0, None), DemandRow(1, 1, 30.0, None), DemandRow(1, 2, 30.0, None)];
      var rows := Simulate(cands, demand);
      rows[0].rollingStock == Some(70.0) && rows[1].rollingStock == Some(70.0) && rows[2].rollingStock == Some(70.0)
  {
    var cands := [Candidate(Key(1, 0), 0.0, 0, 100.0, 0), Candidate(Key(1, 1), 0.0, 0, 100.0, 0),
                  Candidate(Key(1, 2), 0.0, 0, 100.0, 0)];
    var demand := [DemandRow(1, 0, 30.0, None), DemandRow(1, 1, 30.0, None), DemandRow(1, 2, 30.0, None)];
    assert Contiguous(CandClusters(cands));
    assert MinPeriod(CandPeriods(cands)) == Some(0);
    KeyDemandOfOwnRow(demand, 0);
    KeyDemandOfOwnRow(demand, 1);
    KeyDemandOfOwnRow(demand, 2);
    SimulationFromStaticStock(cands, demand, map[1 := StockProfile(100.0, 1.0, 0.0, 0.0)], 0);
    SimulationFromStaticStock(cands, demand, map[1 := StockProfile(100.0, 1.0, 0.0, 0.0)], 1);
    SimulationFromStaticStock(cands, demand, map[1 := StockProfile(100.0, 1.0, 0.0, 0.0)], 2);
  }

  /** The code charges the `i`-th raw demand row, not the row's own group:
      with the demand table listing cluster 2 before cluster 1, cluster 1's
      row is charged with cluster 2's demand. */
  lemma PositionalDemandMismatch()
    ensures var cands := [Candidate(Key(1, 0), 0.0, 0, 100.0, 0), Candidate(Key(2, 0), 0.0, 0, 100.0, 0)];
      var demand := [DemandRow(2, 0, 10.0, None), DemandRow(1, 0, 50.0, None)];
      && SimulateAsWritten(cands, demand)[0].rollingStock == Some(90.0)
      && Simulate(cands, demand)[0].rollingStock == Some(50.0)
  {
    var cands := [Candidate(Key(1, 0), 0.0, 0, 100.0, 0), Candidate(Key(2, 0), 0.0, 0, 100.0, 0)];
    var demand := [DemandRow(2, 0, 10.0, None), DemandRow(1, 0, 50.0, None)];
    assert MinPeriod(CandPeriods(cands)) == Some(0);
    assert demand[..1] == [demand[0]];
    assert KeyDemand(demand, Key(1, 0)) == 50.0;
  }

  // ---------------------------------------------------------------------
  // Policy comparison

  /** What the comparison reads from one simulated row. */
  datatype Outcome = Outcome(cluster: int, orderQty: real, rollingStock: Option<real>, unmetDemand: real)

  function NaiveOutcomes(rows: seq<NaiveRow>): seq<Outcome> {
    seq(|rows|, i requires 0 <= i < |rows| =>
      Outcome(rows[i].row.cluster, rows[i].naiveOrderQty, rows[i].rollingStock, rows[i].unmetDemand))
  }

  function SimOutcomes(rows: seq<SimRow>): seq<Outcome> {
    seq(|rows|, i requires 0 <= i < |rows| =>
      Outcome(rows[i].candidate.key.cluster, rows[i].orderQty as real, rows[i].rollingStock,
              rows[i].unmetDemand.GetOr(0.0)))
  }

  /** A row of the comparison table. */
  datatype Summary = Summary(
    model: string,
    totalUnmetDemand: real,
    stockoutRate: real,
    serviceLevel: real,
    totalOrderingCost: real,
    avgHoldingCost: real)

  /** The number of rows with unmet demand. */
  function StockoutCount(rows: seq<Outcome>): (n: nat)
    ensures n <= |rows|
  {
    if |rows| == 0 then 0
    else StockoutCount(rows[..|rows| - 1]) + (if rows[|rows| - 1].unmetDemand > 0.0 then 1 else 0)
  }

  /** `count / n * 100`. */
  function Percent(count: nat, n: nat): real
    requires n > 0
  {
    count as real / n as real * 100.0
  }

  /** A share of the rows is a percentage between 0 and 100. */
  lemma PercentBounds(count: nat, n: nat)
    requires 0 < n && count <= n
    ensures 0.0 <= Percent(count, n) <= 100.0
  {
    var f := count as real / n as real;
    assert f * n as real == count as real;
    assert f <= 1.0 by {
      assert (1.0 - f) * n as real == (n - count) as real;
      NonNegativeFactor(1.0 - f, n as real);
    }
  }

  lemma NonNegativeFactor(a: real, b: real)
    requires b > 0.0 && a * b >= 0.0
    ensures a >= 0.0
  {
  }

  function TotalUnmet(rows: seq<Outcome>): real {
    if |rows| == 0 then 0.0 else TotalUnmet(rows[..|rows| - 1]) + rows[|rows| - 1].unmetDemand
  }

  /** `a * b` where `b` is a cost column after a left merge: a NaN cost
      gives NaN, which the column sum skips. */
  function CostTerm(a: real, cost: Option<real>): real {
    match cost
    case Some(c) => a * c
    case None => 0.0
  }

  function OrderCostOf(stock: StockTable, cluster: int): Option<real> {
    if cluster in stock then Some(stock[cluster].orderCost) else None
  }

  function HoldingCostOf(stock: StockTable, cluster: int): Option<real> {
    if cluster in stock then Some(stock[cluster].holdingCost) else None
  }

  /** `rolling_stock.where(rolling_stock > 0, 0)`: NaN and non-positive
      stock count as zero. */
  function PositiveStock(rolling: Option<real>): (p: real)
    ensures p >= 0.0
    ensures rolling.Some? && rolling.value > 0.0 ==> p == rolling.value
    ensures !(rolling.Some? && rolling.value > 0.0) ==> p == 0.0
  {
    if rolling.Some? && rolling.value > 0.0 then rolling.value else 0.0
  }

  /** `(order_qty * order_cost).sum()`. */
  function OrderingCost(rows: seq<Outcome>, stock: StockTable): real {
    if |rows| == 0 then 0.0
    else
      var o := rows[|rows| - 1];
      OrderingCost(rows[..|rows| - 1], stock) + CostTerm(o.orderQty, OrderCostOf(stock, o.cluster))
  }

  /** `(positive_rolling_stock * holding_cost).sum()`. */
  function HoldingCost(rows: seq<Outcome>, stock: StockTable): real {
    if |rows| == 0 then 0.0
    else
      var o := rows[|rows| - 1];
      HoldingCost(rows[..|rows| - 1], stock) + CostTerm(PositiveStock(o.rollingStock), HoldingCostOf(stock, o.cluster))
  }

  /** `total / max(n, 1)`. */
  function PerRow(total: real, n: nat): real {
    total / (if n > 1 then n else 1) as real
  }

  /** The KPIs of one policy. The stockout rate divides by the row count,
      so an empty table raises. */
  function Metrics(model: string, rows: seq<Outcome>, stock: StockTable): (r: Result<Summary>)
    ensures r.Success? <==> |rows| > 0
    ensures r.Success? ==> r.value.model == model
    ensures r.Success? ==> r.value.stockoutRate == Round2(Percent(StockoutCount(rows), |rows|))
    ensures r.Success? ==> r.value.serviceLevel == Round2(100.0 - Percent(StockoutCount(rows), |rows|))
    ensures r.Success? ==> r.value.totalUnmetDemand == TotalUnmet(rows)
    ensures r.Success? ==> r.value.totalOrderingCost == Round2(OrderingCost(rows, stock))
    ensures r.Success? ==> r.value.avgHoldingCost == Round2(PerRow(HoldingCost(rows, stock), |rows|))
  {
    if |rows| == 0 then Failure("division by zero")
    else
      var rate := Percent(StockoutCount(rows), |rows|);
      Success(Summary(model, TotalUnmet(rows), Round2(rate), Round2(100.0 - rate),
                      Round2(OrderingCost(rows, stock)), Round2(PerRow(HoldingCost(rows, stock), |rows|))))
  }

  /** `compare_inventory_models`: two rows, the optimised policy first. */
  function Compare(optimised: seq<Outcome>, baseline: seq<Outcome>, stock: StockTable): (r: Result<seq<Summary>>)
    ensures r.Success? <==> |optimised| > 0 && |baseline| > 0
    ensures r.Success? ==> |r.value| == 2
    ensures r.Success? ==> r.value[0] == Metrics("Our Algorithm", optimised, stock).value
    ensures r.Success? ==> r.value[1] == Metrics("Naive Strategy", baseline, stock).value
  {
    var ours :- Metrics("Our Algorithm", optimised, stock);
    var naive :- Metrics("Naive Strategy", baseline, stock);
    Success([ours, naive])
  }

  /** In every comparison row the stockout rate lies in [0, 100] and the
      rounded service level and stockout rate add up to exactly 100. */
  lemma ServiceLevelComplementsStockouts(model: string, rows: seq<Outcome>, stock: StockTable)
    requires |rows| > 0
    ensures var s := Metrics(model, rows, stock).value;
      && 0.0 <= s.stockoutRate <= 100.0
      && 0.0 <= s.serviceLevel <= 100.0
      && s.serviceLevel + s.stockoutRate == 100.0
  {
    var rate := Percent(StockoutCount(rows), |rows|);
    PercentBounds(StockoutCount(rows), |rows|);
    Round2Bounds(rate, 0, 100);
    Round2Complement(rate);
  }

  /** A row whose rolling stock is negative or NaN adds no holding cost. */
  lemma StockoutAddsNoHoldingCost(rows: seq<Outcome>, stock: StockTable)
    requires |rows| > 0
    requires var o := rows[|rows| - 1]; !(o.rollingStock.Some? && o.rollingStock.value > 0.0)
    ensures HoldingCost(rows, stock) == HoldingCost(rows[..|rows| - 1], stock)
  {
  }

  lemma CostTermNonNegative(a: real, cost: Option<real>)
    requires a >= 0.0 && (cost.Some? ==> cost.value >= 0.0)
    ensures CostTerm(a, cost) >= 0.0
  {
  }

  /** With non-negative holding costs the average holding cost is never
      negative. */
  lemma {:induction false} HoldingCostNonNegative(rows: seq<Outcome>, stock: StockTable)
    requires forall c :: c in stock ==> stock[c].holdingCost >= 0.0
    ensures HoldingCost(rows, stock) >= 0.0
    ensures PerRow(HoldingCost(rows, stock), |rows|) >= 0.0
  {
    if |rows| > 0 {
      HoldingCostNonNegative(rows[..|rows| - 1], stock);
      var o := rows[|rows| - 1];
      CostTermNonNegative(PositiveStock(o.rollingStock), HoldingCostOf(stock, o.cluster));
    }
  }

  /** With non-negative unmet demand on every row, the total is non-negative,
      and it is zero exactly when no row has a stockout. */
  lemma {:induction false} TotalUnmetNonNegative(rows: seq<Outcome>)
    requires forall i :: 0 <= i < |rows| ==> rows[i].unmetDemand >= 0.0
    ensures TotalUnmet(rows) >= 0.0
    ensures TotalUnmet(rows) == 0.0 <==> StockoutCount(rows) == 0
  {
    if |rows| > 0 {
      TotalUnmetNonNegative(rows[..|rows| - 1]);
    }
  }

  /** The simulated rows always report a non-negative unmet demand. */
  lemma SimOutcomesUnmetNonNegative(rows: seq<SimRow>, cands: seq<Candidate>, demand: seq<DemandRow>)
    requires rows == Simulate(cands, demand)
    ensures forall i :: 0 <= i < |SimOutcomes(rows)| ==> SimOutcomes(rows)[i].unmetDemand >= 0.0
  {
  }
}
