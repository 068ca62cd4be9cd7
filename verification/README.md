# Inventory, forecast and pricing core of the DSA3101 retail analytics project

This project is a Dafny model of the deterministic core of a retail analytics
code base written in Python with pandas and numpy. The core has five parts:

- **Inventory-policy engine** (`models/qn2_inventory_optimization.py`). For
  every (cluster, quarter) group of the demand table it computes:
  - the safety stock: `max(z·σ·√max(ltq, 1), 5)`, where σ defaults to 1.0
    when the standard deviation is undefined;
  - the reorder point: average demand × lead time in quarters + safety
    stock, where a missing mean, safety stock and lead time default to 0, 0
    and 1;
  - the economic order quantity `round(√(2DS/H))`;
  - the restock list: the groups whose stock is at or below a positive
    reorder point and whose order quantity is positive.

  The scenario script (`potential_scenarios/normal_scenario.py`) adds three
  things:
  - a naive baseline policy that orders 110 % of the previous quarter's
    demand when stock falls below 80 % of it;
  - a per-row stock simulation of the optimised policy;
  - a two-row KPI comparison of the two policies.
- **Forecast bookkeeping** (`group_b/data_cleaning_scripts/next_year_prediction.py`
  and its variant `data_cleaning_scripts/prediction_for_next_year.py`):
  - the feature table: sorting, time index, within-cluster lags and one-hot
    cluster columns;
  - one future row per cluster, with the lags moved one quarter on;
  - the multi-quarter forecast loop, which feeds each pass's predictions
    into the next pass;
  - decoding the one-hot columns back to a cluster label.
- **Price-adjustment quantiser** (both `demand_price_adjustment.py` files).
  It takes the relative change of the forecast against a baseline, a quarter
  of the four lags summed over the parameter rows, and divides it by the
  elasticity 1.5. It clamps the result to ±25 % and
  rounds it to a multiple of 0.5 %. It also models the lag shift that builds
  the next quarter's parameters.
- **Review text normaliser** `_clean` (both `img_builder.py` files). It lower-
  cases the text, strips ASCII punctuation, splits on whitespace and drops
  stop words. It joins the rest with single spaces, or returns `none` when no
  word is left.
- **Image URL fallback** `amazon_url` / `get_url`
  (`group_a/gen_ai/src/data_preprocess.py`). Position by position, it takes
  the `hi_res` URL, else the `large` one, else the `thumb` one, with numpy
  broadcasting.

Quantities are exact reals. A pandas NaN is `None` of an `Option`. An
exception is `Failure` of a `Result`. Some functions the code calls but
does not define are parameters of the model: the z-score, `sqrt`, `log1p`,
`expm1` and the regressor's `predict`. Python's and numpy's rounding, `ceil`
and `round(√x)` are computed exactly.

The modules:

| module | file | what it holds |
|---|---|---|
| `Wrappers` | `wrappers.dfy` | `Option` and `Result` |
| `Numerics` | `numerics.dfy` | ceiling, round-half-even, `round(x, 2)`, rounded square root |
| `Tables` | `tables.dfy` | sorting, filtering, `drop_duplicates`, group shifts, flattening |
| `Inventory` | `inventory.dfy` | the inventory engine |
| `Scenario` | `scenario.dfy` | naive policy, simulation, comparison |
| `Quarters` | `quarters.dfy` | time index and quarter stepping |
| `Dummies` | `dummies.dfy` | one-hot columns, `str`, `str.replace`, `idxmax`, decoding |
| `SalesHistory` | `sales_history.dfy` | the raw sales table, its sort and its lags |
| `Forecast` | `forecast.dfy` | the feature table, future rows and forecast loop, for both scripts |
| `NextYearPrediction` | `next_year_prediction.dfy` | the `group_b` script |
| `PredictionForNextYear` | `prediction_for_next_year.dfy` | the lag-1/2/4 variant |
| `Pricing` | `pricing.dfy` | the price quantiser and `get_parameters` |
| `TextClean` | `text_clean.dfy` | `_clean` |
| `ImageUrls` | `image_urls.dfy` | `amazon_url` / `get_url` |

## Model

| member | source | states |
|---|---|---|
| Numerics.Ceil | models/qn2_inventory_optimization.py:37 | the result is the least integer not below its argument |
| Numerics.RoundHalfEven | models/demand_price_adjustment.py:24 | the result is the nearest integer, with an exact half going to the even neighbour |
| Numerics.RoundHalfEvenUnique | models/demand_price_adjustment.py:24 | only one integer is nearest-ties-to-even, so the rounding is determined |
| Numerics.RoundHalfEvenMonotone | group_b/pricing/demand_price_adjustment.py:28 | rounding never reverses the order of two values |
| Numerics.RoundHalfEvenReflect | potential_scenarios/normal_scenario.py:156-157 | rounding commutes with subtraction from an even integer |
| Numerics.Round2Complement | potential_scenarios/normal_scenario.py:156-157 | `round(100 - x, 2) == 100 - round(x, 2)` for every `x` |
| Numerics.Round2Bounds | potential_scenarios/normal_scenario.py:156-157 | two-decimal rounding keeps a value inside an interval with integer ends |
| Numerics.SqMonotone | models/qn2_inventory_optimization.py:82 | squaring is monotone on non-negative reals, strictly so for distinct values |
| Numerics.RoundSqrt | models/qn2_inventory_optimization.py:82 | the result is the integer nearest the square root of a non-negative real, ties to even, characterised without a square root |
| Numerics.RoundSqrtUnique | models/qn2_inventory_optimization.py:82 | that integer is unique |
| Inventory.Keys | models/qn2_inventory_optimization.py:30 | the group key of each demand row, row by row |
| Inventory.Groups | models/qn2_inventory_optimization.py:30 | a key is a group exactly when some demand row has it |
| Inventory.GroupsAscending | models/qn2_inventory_optimization.py:30 | the groups come out strictly ascending by cluster, then quarter, so each appears once |
| Inventory.StockedGroups | models/qn2_inventory_optimization.py:31 | a group survives the inner merge with the stock table exactly when its cluster has a stock row |
| Inventory.StockedGroupsAscending | models/qn2_inventory_optimization.py:31 | the surviving groups are still strictly ascending |
| Inventory.Mean | models/qn2_inventory_optimization.py:50 | the mean is missing exactly for an empty group, and otherwise times the count gives the sum |
| Inventory.SquaredDeviationsNonNegative | models/qn2_inventory_optimization.py:30 | the sum of squared deviations is never negative, so the variance is a valid square-root argument |
| Inventory.SampleStd | models/qn2_inventory_optimization.py:30 | the `ddof=1` standard deviation is defined exactly for two or more values, and is the square root of the squared deviations from the mean over n - 1, a non-negative number |
| Inventory.DeviationsByMoments | models/qn2_inventory_optimization.py:30 | around any centre m, the squared deviations equal Σx² - 2m·Σx + n·m² |
| Inventory.ConstantValuesStd | models/qn2_inventory_optimization.py:30 | two or more equal values have standard deviation `sqrt(0)` |
| Inventory.LeadTimeQuarters | models/qn2_inventory_optimization.py:37 | the quarters cover the lead time with less than one quarter to spare, and are at least one for a positive lead time |
| Inventory.SafetyStock | models/qn2_inventory_optimization.py:40-43 | the safety stock is at least 5, at least the service buffer, and equal to one of the two |
| Inventory.QuarterlySafetyStock | models/qn2_inventory_optimization.py:26-45 | one row per stocked group in key order, with the group's standard deviation (1.0 when undefined), its cluster's lead time and their safety stock |
| Inventory.SafetyStockFloor | models/qn2_inventory_optimization.py:40-43 | every safety stock of the table is at least five units |
| Inventory.SingleObservationSafetyStock | models/qn2_inventory_optimization.py:30-34 | a group with fewer than two observations uses a deviation of 1.0 |
| Inventory.Lookup | models/qn2_inventory_optimization.py:56 | a merge on the key (the outer merge of the safety stock, the inner merge of the reorder points) finds a row of the table with that key, or the table has none |
| Inventory.SafetyLookupFinds | models/qn2_inventory_optimization.py:55-57 | the outer merge finds a safety stock for a group exactly when its cluster has stock, and it is that group's safety stock |
| Inventory.FormulaCoversSafetyStock | models/qn2_inventory_optimization.py:68 | with non-negative demand and lead time the reorder point is at least the safety stock |
| Inventory.ReorderFromSafety | models/qn2_inventory_optimization.py:56-68 | a missing safety stock defaults to 0, a missing lead time to 1 quarter, and the reorder point is demand × lead time + safety stock |
| Inventory.QuarterlyReorderPoint | models/qn2_inventory_optimization.py:48-70 | one row per group (outer merge), with the mean demand (0 if missing) and the defaults for clusters without stock |
| Inventory.ReorderPointMatchesFormula | models/qn2_inventory_optimization.py:67-68 | every reorder row holds the reorder point of its group by the formula comment at line 67: quarterly average demand × lead time in quarters + safety stock |
| Inventory.ReorderPointCoversSafetyStock | models/qn2_inventory_optimization.py:68 | for a stocked group with non-negative demand the reorder point is at least the safety stock, hence at least 5 |
| Inventory.OptimalQty | models/qn2_inventory_optimization.py:82 | the cast succeeds exactly when the mean exists, the holding cost is non-zero and the ratio is non-negative; the value is the rounded square root |
| Inventory.OptimalQtyDefined | models/qn2_inventory_optimization.py:82 | non-negative demand and ordering cost with a positive holding cost always give an order quantity |
| Inventory.OptimalQtyExample | models/qn2_inventory_optimization.py:82 | demand 200, ordering cost 50 and holding cost 2 give 100 |
| Inventory.EoqRows | models/qn2_inventory_optimization.py:79-82 | the EOQ rows succeed exactly when every group's quantity does, one row per group in order |
| Inventory.QuarterlyEoq | models/qn2_inventory_optimization.py:74-85 | one row per stocked group in key order with its mean and order quantity, and a failure when any quantity is undefined |
| Inventory.EoqFailsOnMissingMean | models/qn2_inventory_optimization.py:82 | a stocked group with no observed demand makes the EOQ table raise |
| Inventory.JoinKeepsAll | models/qn2_inventory_optimization.py:93-94 | when every EOQ row has a reorder row and a stock row, the inner merges drop nothing and carry the joined values |
| Inventory.Candidates | models/qn2_inventory_optimization.py:88-99 | one row per stocked group in key order; `to_restock` is 1 exactly when stock ≤ reorder point, the reorder point is positive and the quantity is positive |
| Inventory.ReorderLookupFinds | models/qn2_inventory_optimization.py:93 | every EOQ group finds its reorder point in the reorder table |
| Inventory.Flagged | models/qn2_inventory_optimization.py:102 | the filter keeps every flagged row and only flagged rows |
| Inventory.QuarterlyRestock | models/qn2_inventory_optimization.py:88-104 | the result holds exactly the stocked groups that need a restock, each with `to_restock = 1` and a positive order quantity |
| Inventory.RestockedGroupsAreDepleted | models/qn2_inventory_optimization.py:97-99 | a restocked group has stock at or below a positive reorder point |
| Scenario.Scale | potential_scenarios/normal_scenario.py:24-30 | a multiple of a NaN is NaN, and otherwise is the product |
| Scenario.MinPeriod | potential_scenarios/normal_scenario.py:44 | the minimum quarter exists exactly for a non-empty table; it is in the table and not above any quarter |
| Scenario.Rolling | potential_scenarios/normal_scenario.py:48-49 | the rolling stock is base − demand + order, and NaN when either operand is |
| Scenario.Unmet | potential_scenarios/normal_scenario.py:52 | unmet demand is non-negative and covers a negative rolling stock exactly; it is positive exactly when the stock is negative |
| Scenario.StockOf | potential_scenarios/normal_scenario.py:33-34 | the left merge attaches the cluster's stock, or NaN when the cluster has no stock row |
| Scenario.SortedDemand | potential_scenarios/normal_scenario.py:18 | a permutation of the demand rows sorted by cluster and quarter |
| Scenario.NaiveRowAt | potential_scenarios/normal_scenario.py:18-52 | the previous-quarter demand is the group shift; the policy restocks exactly when stock is below 80 % of it and then orders 110 %, else 0 |
| Scenario.NaiveStrategy | potential_scenarios/normal_scenario.py:7-54 | one row per demand row, each computed by the naive policy over the sorted table |
| Scenario.NaiveRowsArePermutation | potential_scenarios/normal_scenario.py:18 | the naive result lists every demand row exactly once, sorted |
| Scenario.NaiveLastQuarterDemand | potential_scenarios/normal_scenario.py:18-21 | the previous-quarter demand is the previous row's when it is the same cluster, and missing on a cluster's first row |
| Scenario.NaiveRestockRule | potential_scenarios/normal_scenario.py:24-40 | restock exactly when not the cluster's first row, the cluster has stock, and stock < 0.8 × previous demand; order 1.1 × previous demand then, 0 otherwise |
| Scenario.NaiveRollingFromStaticStock | potential_scenarios/normal_scenario.py:43-49 | each row starts from the cluster's static stock, not the previous rolling stock; a cluster's first row outside the earliest quarter has NaN stock |
| Scenario.SimRowAt | potential_scenarios/normal_scenario.py:88-99 | the EOQ is added on every row, flagged or not, and the unmet demand follows the rolling stock |
| Scenario.SimulateAsWritten | potential_scenarios/normal_scenario.py:95-96 | each row is charged the demand of the raw demand row at the same position |
| Scenario.KeyDemandOfOwnRow | potential_scenarios/normal_scenario.py:95-96 | a group with a single row has that row's demand |
| Scenario.KeyDemandAbsent | potential_scenarios/normal_scenario.py:95-96 | a group with no rows has no demand |
| Scenario.Simulate | potential_scenarios/normal_scenario.py:88-99 | each row is charged its own group's demand |
| Scenario.OptimisedSimulation | potential_scenarios/normal_scenario.py:58-101 | the simulation succeeds exactly when the flagged table does, one row per flagged-table row, same order; it is the corrected `Simulate`, charging each row its own group's demand |
| Scenario.OptimisedRollingStock | potential_scenarios/normal_scenario.py:88-99 | in the optimised simulation, a row after its cluster's first (or in the earliest quarter) has rolling stock = static stock − its group's demand + EOQ, and unmet demand the shortfall of that |
| Scenario.CandidatesContiguous | potential_scenarios/normal_scenario.py:88 | the flagged table has one contiguous run per cluster |
| Scenario.CandidatesStaticStock | potential_scenarios/normal_scenario.py:76 | every flagged row carries its cluster's static stock |
| Scenario.SimulationFromStaticStock | potential_scenarios/normal_scenario.py:88-99 | a row after its cluster's first, or in the earliest quarter, has rolling stock = static stock − group demand + EOQ, and unmet demand the shortfall of that |
| Scenario.NoDepletionExample | potential_scenarios/normal_scenario.py:88-96 | three quarters of demand 30 against stock 100 leave 70 each quarter: the stock is not carried over |
| Scenario.PositionalDemandMismatch | potential_scenarios/normal_scenario.py:95-96 | with demand listed in another order than the flagged table, the code charges a row another cluster's demand |
| Scenario.StockoutCount | potential_scenarios/normal_scenario.py:134 | the stockout count never exceeds the row count |
| Scenario.PercentBounds | potential_scenarios/normal_scenario.py:134 | a share of the rows is a percentage in [0, 100] |
| Scenario.PositiveStock | potential_scenarios/normal_scenario.py:139 | positive rolling stock is kept; NaN and non-positive stock count as 0 |
| Scenario.Metrics | potential_scenarios/normal_scenario.py:133-141 | the KPIs exist exactly for a non-empty table, with stockout rate, service level, total unmet, ordering cost and average holding cost |
| Scenario.Compare | potential_scenarios/normal_scenario.py:153-160 | exactly two rows, "Our Algorithm" then "Naive Strategy", and a failure when either table is empty |
| Scenario.ServiceLevelComplementsStockouts | potential_scenarios/normal_scenario.py:134-135 | the rounded stockout rate and service level lie in [0, 100] and add up to exactly 100 |
| Scenario.StockoutAddsNoHoldingCost | potential_scenarios/normal_scenario.py:139-140 | a row with negative or NaN rolling stock adds no holding cost |
| Scenario.CostTermNonNegative | potential_scenarios/normal_scenario.py:140 | a non-negative quantity times a non-negative or NaN cost adds a non-negative term |
| Scenario.HoldingCostNonNegative | potential_scenarios/normal_scenario.py:138-141 | with non-negative holding costs the total and the per-row average holding cost are non-negative |
| Scenario.TotalUnmetNonNegative | potential_scenarios/normal_scenario.py:133 | total unmet demand is non-negative, and zero exactly when no row has a stockout |
| Scenario.SimOutcomesUnmetNonNegative | potential_scenarios/normal_scenario.py:99 | the simulated rows report non-negative unmet demand |
| Quarters.TimeIndexOrder | group_b/data_cleaning_scripts/next_year_prediction.py:26 | for quarters 1 to 4 the time index orders periods exactly as the calendar does, and equal indices mean equal periods |
| Quarters.NextQuarter | group_b/data_cleaning_scripts/next_year_prediction.py:131-135 | stepping keeps the quarter in 1 to 4 and advances the time index by one quarter |
| Quarters.NextQuarterInverse | data_cleaning_scripts/prediction_for_next_year.py:85-89 | stepping forward and back returns to the same quarter |
| Quarters.Schedule | group_b/data_cleaning_scripts/next_year_prediction.py:112-135 | the loop visits `steps` quarters, starting at the start, each the step of the one before |
| Quarters.ScheduleConsecutive | data_cleaning_scripts/prediction_for_next_year.py:85-89 | from a valid start every visited quarter is valid, and the i-th lies i quarters of a year after the start |
| Dummies.Show | group_b/data_cleaning_scripts/next_year_prediction.py:36 | `str` of an integer is a non-empty string of digits and a minus sign |
| Dummies.RemoveAll | group_b/data_cleaning_scripts/next_year_prediction.py:157 | `str.replace(p, "")` never lengthens the text |
| Dummies.RemoveAllAbsent | group_b/data_cleaning_scripts/next_year_prediction.py:157 | a text missing a character of the pattern is unchanged |
| Dummies.RemoveAllPrefix | group_b/data_cleaning_scripts/next_year_prediction.py:157 | a leading occurrence of the pattern is removed |
| Dummies.ShowInjective | group_b/data_cleaning_scripts/next_year_prediction.py:36 | distinct integers render differently, so distinct clusters get distinct `cluster_<n>` column names |
| Dummies.ShowNegative | group_b/data_cleaning_scripts/next_year_prediction.py:36 | a negative integer renders as a minus sign followed by its magnitude |
| Dummies.ShowNonNegative | group_b/data_cleaning_scripts/next_year_prediction.py:36 | a non-negative integer renders without a minus sign |
| Dummies.OneHot | group_b/data_cleaning_scripts/next_year_prediction.py:36 | one dummy per label, 1 exactly at the row's own label |
| Dummies.DummyNames | group_b/data_cleaning_scripts/next_year_prediction.py:36 | the column of a label is named prefix + `str(label)` |
| Dummies.OneHotSum | group_b/data_cleaning_scripts/next_year_prediction.py:154 | the dummies sum to 1 for a label with a column and to 0 otherwise |
| Dummies.OneHotInjective | group_b/data_cleaning_scripts/next_year_prediction.py:36 | distinct clusters get distinct dummy rows |
| Dummies.ArgMax | group_b/data_cleaning_scripts/next_year_prediction.py:157 | `idxmax` is the first position holding the maximum |
| Dummies.DecodeOneHot | group_b/data_cleaning_scripts/next_year_prediction.py:151-157 | decoding a one-hot row gives back `str` of the cluster label |
| Dummies.DecodeDropFirst | data_cleaning_scripts/prediction_for_next_year.py:108-116 | with `drop_first`, the smallest label decodes to the baseline and every other label to itself |
| Dummies.DropFirstInjective | data_cleaning_scripts/prediction_for_next_year.py:11 | with `drop_first`, distinct clusters still get distinct dummy rows |
| Dummies.ArrangeColumns | group_b/data_cleaning_scripts/next_year_prediction.py:39-41 | a permutation of the columns: the other columns first, in their order, then the dummy columns by integer suffix |
| Dummies.SortedDummies | group_b/data_cleaning_scripts/next_year_prediction.py:39-40 | the dummy columns, each once, sorted by integer suffix |
| SalesHistory.SortedSales | group_b/data_cleaning_scripts/next_year_prediction.py:25 | a permutation of the sales rows sorted by cluster, year and quarter |
| SalesHistory.SortedSalesSameRows | data_cleaning_scripts/prediction_for_next_year.py:6 | sorting keeps the set of clusters and the valid quarters |
| SalesHistory.Labels | group_b/data_cleaning_scripts/next_year_prediction.py:36 | the dummy categories are the distinct clusters in strictly ascending order |
| SalesHistory.ShiftOfSorted | group_b/data_cleaning_scripts/next_year_prediction.py:29-32 | after sorting, the group shift by k is the sales k rows earlier when that row is of the same cluster |
| SalesHistory.AppendedShiftOfLast | group_b/data_cleaning_scripts/next_year_prediction.py:75-78 | a new row appended after a cluster's history has the cluster's last sales as lag 1, and as lag k+1 the last row's lag k |
| SalesHistory.LastRowIsLatest | data_cleaning_scripts/prediction_for_next_year.py:28-30 | in the sorted history the last row of a cluster has its latest period |
| Forecast.FeatureTable | group_b/data_cleaning_scripts/next_year_prediction.py:25-47 | `preprocess` keeps one row per sales row |
| Forecast.FeatureTableRows | data_cleaning_scripts/prediction_for_next_year.py:5-14 | row i has the sorted row's period and time index, the log of its sales, lag k = the sales k rows earlier in the cluster (0 if none), and its cluster's dummies |
| Forecast.DummiesInjective | data_cleaning_scripts/prediction_for_next_year.py:11 | both encodings give distinct labels distinct dummy rows |
| Forecast.Patterns | group_b/data_cleaning_scripts/next_year_prediction.py:63-64 | `drop_duplicates` holds each dummy row of the table exactly once |
| Forecast.LatestIndex | group_b/data_cleaning_scripts/next_year_prediction.py:68-71 | the row built from has the dummy row and the latest time index, and is the last such row in table order |
| Forecast.PatternsAreLabels | group_b/data_cleaning_scripts/next_year_prediction.py:63-64 | the distinct dummy rows are those of the labels, in ascending label order |
| Forecast.DummiesOfTable | group_b/data_cleaning_scripts/next_year_prediction.py:36 | row i of the feature table carries the dummy row of sorted row i's cluster |
| Forecast.ClusterDummiesInjective | group_b/data_cleaning_scripts/next_year_prediction.py:36 | distinct clusters of the history have distinct dummy rows |
| Forecast.PatternsOfClusters | group_b/data_cleaning_scripts/next_year_prediction.py:63-64 | when dummy rows encode a cluster column injectively, the distinct dummy rows are those of the distinct clusters, in first-appearance order |
| Forecast.LatestIsLastOfCluster | data_cleaning_scripts/prediction_for_next_year.py:26-30 | the latest row of a cluster's dummy row is the cluster's last row in sorted order |
| Forecast.FirstFutureRow | group_b/data_cleaning_scripts/next_year_prediction.py:67-84 | the first future row of each label is built from the label's last historical row |
| Forecast.FutureStep | group_b/data_cleaning_scripts/next_year_prediction.py:63-87 | exactly one future row per distinct dummy row, in order, built from that dummy row's latest row |
| Forecast.Step | group_b/data_cleaning_scripts/next_year_prediction.py:113-126 | one prediction per dummy row for the target quarter: `expm1` of the regressor's output, with `log1p` of it as the row's sales |
| Forecast.PredictedRows | data_cleaning_scripts/prediction_for_next_year.py:81 | the rows appended to the history are the pass's rows |
| Forecast.Run | group_b/data_cleaning_scripts/next_year_prediction.py:112 | the loop makes exactly `steps` passes |
| Forecast.PatternsKept | group_b/data_cleaning_scripts/next_year_prediction.py:128 | appending a pass does not change the distinct dummy rows or their order |
| Forecast.RunShape | data_cleaning_scripts/prediction_for_next_year.py:65-89 | pass i forecasts one row per dummy row, in order, for the i-th scheduled quarter |
| Forecast.LatestOfAppended | data_cleaning_scripts/prediction_for_next_year.py:81 | the rows of a pass for a later quarter become their clusters' latest rows |
| Forecast.AppendedBefore | group_b/data_cleaning_scripts/next_year_prediction.py:128-135 | after a pass every history row comes before the next quarter |
| Forecast.StepChained | data_cleaning_scripts/prediction_for_next_year.py:67-81 | a pass and the pass after it are chained cluster by cluster |
| Forecast.RunChains | data_cleaning_scripts/prediction_for_next_year.py:65-89 | each pass of the loop derives its lags from the pass before |
| Forecast.ForecastMultipleQuarters | group_b/data_cleaning_scripts/next_year_prediction.py:103-137 | the forecast succeeds exactly for a positive number of passes over a non-empty history, with one row per pass and dummy row |
| Forecast.ForecastRows | data_cleaning_scripts/prediction_for_next_year.py:91 | row i·m + t is dummy row t forecast for the i-th scheduled quarter, and every row's dummies come from the history |
| Forecast.FlattenShaped | group_b/data_cleaning_scripts/next_year_prediction.py:137 | the concatenation places pass a, row b at a·m + b |
| Forecast.RevertClusterDummies | group_b/data_cleaning_scripts/next_year_prediction.py:151-160 | one decoded label per forecast row |
| Forecast.ForecastDummies | data_cleaning_scripts/prediction_for_next_year.py:48-92 | row i·m + t has the t-th label's dummies and the i-th scheduled quarter, with one dummy per dummy column |
| NextYearPrediction.Preprocess | group_b/data_cleaning_scripts/next_year_prediction.py:25-49 | `preprocess` as written keeps one row per sales row |
| NextYearPrediction.PreprocessLogLags | group_b/demand/random_forest_train.py:37-41 | the corrected `preprocess`, with the log lags its regressor is trained on, keeps one row per sales row |
| NextYearPrediction.ForecastLabels | group_b/data_cleaning_scripts/next_year_prediction.py:151-159 | decoding forecast row i·m + t gives back the t-th label for the i-th scheduled quarter, whatever the baseline |
| NextYearPrediction.FutureLagScaleMismatch | group_b/data_cleaning_scripts/next_year_prediction.py:29-75 | after one quarter of 9 units, the future row's lag 1 is `log1p(9)` while `preprocess` would give that row 9 |
| NextYearPrediction.FutureLagsMatchTraining | group_b/data_cleaning_scripts/next_year_prediction.py:75-78 | with log lags, each cluster's first future row has exactly the lags 1 to 4 `preprocess` gives a row appended after its history |
| NextYearPrediction.PassesChain | group_b/data_cleaning_scripts/next_year_prediction.py:126-128 | in the next pass, lag 1 is `log1p` of the previous prediction and lags 2 to 4 are the previous lags 1 to 3 |
| PredictionForNextYear.Preprocess | data_cleaning_scripts/prediction_for_next_year.py:5-14 | `preprocess` keeps one row per sales row |
| PredictionForNextYear.LagOneScaleMismatch | data_cleaning_scripts/prediction_for_next_year.py:37 | after one quarter of 9 units, the future row the forecast loop builds has lag 1 = `log1p(9)` where the training table holds 9; undoing the log with `RawLagOne` gives `expm1(log1p(9))` |
| PredictionForNextYear.FutureLagOneLogged | data_cleaning_scripts/prediction_for_next_year.py:17-41 | as written, every cluster's first future row has lag 1 = `log1p` of the raw sales `preprocess` puts in lag 1 of a row appended after the history, lag 2 the appended row's raw lag 2, and lag 4 the raw sales five rows back |
| PredictionForNextYear.FutureLagsMatchTraining | data_cleaning_scripts/prediction_for_next_year.py:37-39 | corrected: with lag 1 put back on the raw scale (`RawLagOne`) and `expm1` inverting `log1p`, the future row's lags 1 and 2 are what `preprocess` gives an appended row; lag 4 holds the sales five rows back |
| PredictionForNextYear.PatternsAsWritten | data_cleaning_scripts/prediction_for_next_year.py:22-23 | as written: with no dummy column, `drop_duplicates` keeps one empty row per history row; otherwise it is the distinct dummy rows |
| PredictionForNextYear.FutureStepAsWritten | data_cleaning_scripts/prediction_for_next_year.py:26-41 | as written: one future row per entry of `PatternsAsWritten`, built from the latest row its mask selects |
| PredictionForNextYear.OneClusterLabels | data_cleaning_scripts/prediction_for_next_year.py:11 | a history of one cluster has that cluster as its only label |
| PredictionForNextYear.OneClusterPatterns | data_cleaning_scripts/prediction_for_next_year.py:11-27 | as written, for every one-cluster history of n rows `drop_first` leaves no dummy column, the loop makes n future rows, and each is the single future row of the corrected loop |
| PredictionForNextYear.EmptyPatternsRepeat | data_cleaning_scripts/prediction_for_next_year.py:26-29 | when every dummy row is empty, the all-true mask gives every as-written future row the same latest row |
| PredictionForNextYear.ForecastLabels | data_cleaning_scripts/prediction_for_next_year.py:108-142 | row i·m + t decodes to the t-th label, except the smallest label (no `drop_first` column), which decodes to the baseline |
| PredictionForNextYear.PassesChain | data_cleaning_scripts/prediction_for_next_year.py:67-81 | as written, in the next pass lag 1 is `log1p` of the previous predicted demand (the log sales line 37 copies), lag 2 the previous lag 1, and lag 4 stays |
| Pricing.DemandDiff | models/demand_price_adjustment.py:20 | the relative change is finite for a non-zero baseline, ±inf by the forecast's sign over a zero baseline, and NaN for 0/0 |
| Pricing.Clamp | models/demand_price_adjustment.py:24 | the clamp lies in [−0.25, 0.25], keeps values inside it and sends values outside to the nearer end |
| Pricing.ClampMonotone | group_b/pricing/demand_price_adjustment.py:28 | the clamp is monotone |
| Pricing.PriceSteps | models/demand_price_adjustment.py:20-24 | the step count exists unless forecast and baseline are both 0, and lies in [−50, 50] |
| Pricing.StepsBounded | group_b/pricing/demand_price_adjustment.py:28 | a clamped change has between −50 and 50 steps |
| Pricing.PriceChange | group_b/pricing/demand_price_adjustment.py:24-28 | the change fails only for 0/0, lies in [−0.25, 0.25] and is a whole multiple of 0.005 |
| Pricing.NearestStep | models/demand_price_adjustment.py:24 | no multiple of 0.005 is closer to the clamped change, ties going to the even step |
| Pricing.StepsOfStep | group_b/pricing/demand_price_adjustment.py:28 | a change that is already a whole step within bounds is unchanged |
| Pricing.SignPreserved | models/demand_price_adjustment.py:20-24 | over a positive baseline, a forecast at least the baseline never lowers the price and one at most it never raises it |
| Pricing.MonotoneInForecast | group_b/pricing/demand_price_adjustment.py:24-28 | over a positive baseline a larger forecast never gives a smaller change |
| Pricing.Saturation | models/demand_price_adjustment.py:23-24 | 37.5 % above the baseline gives +25 %, 37.5 % below gives −25 %, and a zero baseline gives ±25 % by the forecast's sign |
| Pricing.ShiftLags | models/demand_price_adjustment.py:44-48 | the four assignments in their order leave lag 1 = sales and lag k+1 = old lag k, and nothing else changes |
| Pricing.ShiftLagsForgetsLag4 | group_b/pricing/demand_price_adjustment.py:51-55 | two rows give the same parameters exactly when they differ at most in lag 4 |
| Tables.Filter | models/demand_price_adjustment.py:42-43 | the selected rows are exactly the rows satisfying the mask, no more rows than the table |
| Tables.FilterAppend | models/demand_price_adjustment.py:42-43 | selecting from two stacked tables selects from each in turn, so the kept rows stay in table order |
| Tables.FilterSingle | models/demand_price_adjustment.py:42-43 | a one-row table keeps its row exactly when the mask holds |
| Tables.FilterCount | models/demand_price_adjustment.py:42-43 | a selected row occurs as often as in the table, any other not at all |
| Pricing.ColumnIndex | models/demand_price_adjustment.py:42 | the first position of the flag column |
| Pricing.GetParameters | models/demand_price_adjustment.py:28-50 | fails exactly when the cluster has no flag column; otherwise the parameters are the rows of the cluster at the time index of the given quarter, selected in table order (`Filter`) and each shifted (`ShiftLags`) |
| Pricing.BaselineDemand | group_b/pricing/demand_price_adjustment.py:20-21 | an empty parameter frame has baseline 0; for one parameter row the baseline is the mean of its four lags |
| Pricing.BaselineAppend | group_b/pricing/demand_price_adjustment.py:20-21 | each further parameter row adds a quarter of its four lags: the baseline is a sum over the rows, not a mean |
| Pricing.BaselineOfShifted | models/demand_price_adjustment.py:44-48 | once the lags are shifted, the baseline is a quarter of the sales and three newest lags summed over all the rows |
| Pricing.ParametersBaseline | models/demand_price_adjustment.py:42-50 | for every cluster with a flag column, the baseline of its parameters is a quarter of the sales and three newest lags of all its rows at that quarter, each occurrence counted |
| Pricing.BasePricePct | models/demand_price_adjustment.py:4-26 | fails exactly for an empty parameter frame or 0/0, and otherwise lies in [−0.25, 0.25] |
| Pricing.AdjustmentFromPreviousQuarter | group_b/pricing/demand_price_adjustment.py:17-55 | from one row, the baseline is the mean of its sales and three newest lags, and a forecast at or above a positive baseline never lowers the price |
| TextClean.LowerChar | group_a/customer_satisfaction/modules/img_builder.py:18 | the result is not upper case, is unchanged when not upper case, and keeps whitespace |
| TextClean.Lower | customer_analysis/modules/img_builder.py:13 | `lower` maps the text character by character |
| TextClean.StripPunctuation | group_a/customer_satisfaction/modules/img_builder.py:19 | the result has exactly the text's characters that are not punctuation |
| TextClean.StripPunctuationNone | customer_analysis/modules/img_builder.py:14 | a text without punctuation is unchanged |
| TextClean.TakeWord | customer_analysis/modules/img_builder.py:16 | the longest whitespace-free prefix |
| TextClean.Split | group_a/customer_satisfaction/modules/img_builder.py:21 | `split()` gives non-empty words without whitespace |
| TextClean.SplitMaximalRuns | group_a/customer_satisfaction/modules/img_builder.py:21 | every word `split()` returns is a maximal run of non-whitespace characters of the text: it stands at a position preceded by whitespace or the start, and followed by whitespace or the end |
| TextClean.NonSpaceAppend | customer_analysis/modules/img_builder.py:16 | removing whitespace distributes over concatenation |
| TextClean.NonSpaceOfWord | customer_analysis/modules/img_builder.py:16 | a word has no whitespace to remove |
| TextClean.SplitKeepsCharacters | group_a/customer_satisfaction/modules/img_builder.py:21 | the words, put together, are the text's non-whitespace characters in order |
| TextClean.TakeWordBeforeSpace | customer_analysis/modules/img_builder.py:16 | a word followed by whitespace or the end is the first word |
| TextClean.SplitJoin | group_a/customer_satisfaction/modules/img_builder.py:21-23 | joining words with single spaces and splitting again gives the words back |
| TextClean.JoinCharacters | customer_analysis/modules/img_builder.py:18 | the join adds only spaces to the words' characters |
| TextClean.Keep | group_a/customer_satisfaction/modules/img_builder.py:22 | a word is kept exactly when it is not a stop word, as often as it occurs, in order |
| TextClean.KeepNone | customer_analysis/modules/img_builder.py:17 | with no stop word present all words are kept |
| TextClean.KeptWords | group_a/customer_satisfaction/modules/img_builder.py:18-22 | the kept words are the words of the lower-cased text without punctuation that are not stop words: no stop word, every other word kept as often as it occurs, in order |
| TextClean.Clean | group_a/customer_satisfaction/modules/img_builder.py:12-26 | the output is never empty; its words are the kept words, or it is `none` when none is kept; single spaces; no upper case; no punctuation |
| TextClean.NoneIsWord | customer_analysis/modules/img_builder.py:19-20 | `none` is one word, free of upper case and punctuation |
| TextClean.NoneLetters | customer_analysis/modules/img_builder.py:20 | the letters of `none` are lower case, not whitespace, not punctuation |
| TextClean.CleanCharacters | customer_analysis/modules/img_builder.py:13-18 | the joined kept words contain no upper-case or punctuation character |
| TextClean.WordCharacters | customer_analysis/modules/img_builder.py:16 | a character of a word is a character of the text |
| TextClean.ConcatMember | customer_analysis/modules/img_builder.py:16 | a character of a word is a character of the concatenation |
| TextClean.NonSpaceMember | customer_analysis/modules/img_builder.py:16 | removing whitespace adds no character |
| TextClean.CleanIdempotent | customer_analysis/modules/img_builder.py:12-21 | cleaning a cleaned text changes nothing, when `none` is not a stop word |
| TextClean.CleanOfCleaned | customer_analysis/modules/img_builder.py:12-21 | a non-empty single-spaced text of lower-case non-stop words without punctuation is its own cleaning |
| TextClean.LowerNone | customer_analysis/modules/img_builder.py:13 | a text without upper case is its own lower case |
| ImageUrls.BroadcastLength | group_a/gen_ai/src/data_preprocess.py:27 | the broadcast length is the common length, or the longer one against length 1 |
| ImageUrls.FillMissing | group_a/gen_ai/src/data_preprocess.py:27-28 | `np.where(a == None, b, a)` succeeds exactly for broadcastable lengths and takes `a`'s URL where present, `b`'s otherwise |
| ImageUrls.GetUrl | group_a/gen_ai/src/data_preprocess.py:18-29 | `get_url` succeeds exactly when the three arrays broadcast together |
| ImageUrls.FirstPresent | group_a/gen_ai/src/data_preprocess.py:27-28 | the first present candidate is present exactly when some candidate is |
| ImageUrls.GetUrlPrefersResolution | group_a/gen_ai/src/data_preprocess.py:24-29 | for equal lengths the result has that length; each position is `hi_res` if present, else `large`, else `thumb`, and missing only when all three are |
| ImageUrls.ThumbsCompleteResult | group_a/gen_ai/src/data_preprocess.py:28 | when every thumbnail is present, every position gets a URL |
| ImageUrls.AmazonUrl | group_a/gen_ai/src/data_preprocess.py:31 | one resolved array per product, in order, failing exactly when some product's arrays do not broadcast |

## Left out

- Module-level scripts are left out: the CSV, parquet and joblib loading, the file output and the drivers. They are I/O, and the model takes the tables as values.
- The z-score (`norm.ppf`), `np.sqrt` in the standard deviation and safety stock, `log1p`, `expm1` and the regressor's `predict` are function parameters. They are floating-point or machine-learning library calls with no exact Dafny counterpart.
- Floating-point rounding is not modelled: all quantities are exact reals. For example, `0.25 / 0.005` is exactly 50 here.
- `sort_values(by="time_index")` at `group_b/data_cleaning_scripts/next_year_prediction.py:69` sorts on one key with an unstable quicksort, so the order of rows with equal time index is unspecified there. The model keeps their table order. The multi-key sorts are stable in pandas too, and the model sorts them the same way.
- `year_quarter` is a quarter ordinal. A quarter may hold several demand rows, one per date.
- The stock table is modelled as a map from cluster to its row, so a cluster has at most one stock row. Duplicate stock rows would duplicate merged rows in pandas.
- pandas index alignment at `potential_scenarios/normal_scenario.py:95` is modelled positionally (`Scenario.SimulateAsWritten`) and as corrected per group (`Scenario.Simulate`). Alignment of other index labels is not modelled.
- The naive docstring (`potential_scenarios/normal_scenario.py:13`) says the safety stock is 50 % of last quarter's demand. The code uses 20 % (line 27), and the model follows the code. That value is informational only and feeds nothing.
- The demand and sales tables are assumed to have no NaN demand in `predicted_demand` or `num_sales`. Only `moving_avg_demand` and the merged columns may be missing.
- The sales CSV is assumed to hold exactly `cluster_label`, `year`, `quarter` and `num_sales`. Any further column would also become a regressor feature.
- `Forecast.Features`: the variant has no lag-3 column. Its rows carry 0 there and its features leave it out.
- The `group_b` loop drops `year` and `quarter` from the rows it appends to the history. `group_b` never reads them from the history (it sorts by `time_index`, and its features exclude them), so the model keeps them.
- The variant picks a cluster's latest row by sorting on (`year`, `quarter`). The model sorts on the time index, which agrees for quarters 1 to 4.
- Both forecast loops run on the future row as written: lag 1 is the latest row's log sales. The `group_b` loop can also be given the corrected feature table with log lags. The variant's corrected row (`PredictionForNextYear.RawLagOne`) is stated only for the first future row, and the loop is not re-run on it.
- `Forecast.Patterns`: the forecast loops use the distinct dummy rows, one per cluster. For the variant with a one-cluster history, `drop_first` leaves no dummy column. pandas then treats the zero-column frame as empty, and `drop_duplicates` keeps all n rows. The program makes n future rows per pass, and the history doubles each pass. `PredictionForNextYear.PatternsAsWritten` and `OneClusterPatterns` state the first pass as written (see Findings). The loop is not run as written.
- `Forecast.PatternsAreLabels` states the corrected patterns (one per label). For a one-cluster variant history the program gets n empty rows instead.
- `Forecast.ForecastMultipleQuarters` promises one row per pass and label. For a one-cluster variant history of n rows the program emits n·(2^steps − 1) rows.
- `Forecast.ForecastDummies` promises one row per label per pass. For a one-cluster variant history the program gives one row per history row in each pass.
- `PredictionForNextYear.ForecastLabels` decodes one row per label per pass. For a one-cluster variant history the program decodes n·(2^steps − 1) baseline rows.
- `PredictionForNextYear.FutureLagsMatchTraining` does not state lag 4 as the training table's lag 4. The source carries lag 4 over unchanged, so it holds the sales five rows back. The lemma states exactly that.
- `Pricing.PriceSteps`: `round` of NaN (0/0) is modelled as raising. Older numpy versions return NaN instead.
- `TextClean.Lower` lower-cases the ASCII letters only. Python's `str.lower` also maps other Unicode letters.
- `ImageUrls.GetUrl` takes each variant as a numpy array of URLs or `None`. Python lists, which `==` compares as a whole, are not modelled.
- The NLTK stop words are a parameter. Their download is I/O.
- The rest of both `img_builder.py` files, `download_images`, the Q-learning scripts, the price optimisers, the data clients and the scenario generators are not part of this model.

## Findings

| source | as written | input that shows it | evidently intended | confidence | as-written member | corrected member |
|---|---|---|---|---|---|---|
| potential_scenarios/normal_scenario.py:95-96 | `rolling_stock - df_1["predicted_demand"]` aligns the raw demand table with the flagged table by row number | flagged rows for clusters 1 and 2; demand listing cluster 2 (10 units) before cluster 1 (50 units); stock 100; no orders. Cluster 1 is charged 10, giving 90 | each row is charged its own (cluster, quarter) demand, giving 50 | not executed | Scenario.PositionalDemandMismatch | Scenario.Simulate |
| group_b/data_cleaning_scripts/next_year_prediction.py:29-75 | `preprocess` leaves the lags on the raw scale, but the future row's lag 1 copies the log-transformed `num_sales` (the training script logs all lags) | one quarter of 9 units: the next row's lag 1 is `log1p(9)` from the future row but 9 from `preprocess` | lags on the log scale in `preprocess` too, as in `group_b/demand/random_forest_train.py:37-41` | not executed | NextYearPrediction.FutureLagScaleMismatch | NextYearPrediction.FutureLagsMatchTraining |
| data_cleaning_scripts/prediction_for_next_year.py:22-23 | with one cluster, `drop_first` leaves no `cluster_label_` column, and `drop_duplicates` of the zero-column frame keeps every row, so the loop makes one future row per history row | raw = [(cluster 1, 2023 Q2, 5), (cluster 1, 2023 Q3, 9)]: two identical future rows for 2023 Q4, and four in the next pass | one future row per cluster | not executed | PredictionForNextYear.OneClusterPatterns | Forecast.PatternsAreLabels |
| data_cleaning_scripts/prediction_for_next_year.py:37 | the future row's lag 1 is the latest row's `num_sales`, which is `log1p` of the sales, while the regressor is trained on raw-scale lags | one quarter of 9 units: the future lag 1 is `log1p(9)`, but the training table would hold 9 | lag 1 = `expm1` of the latest row's `num_sales`, the raw sales | not executed | PredictionForNextYear.LagOneScaleMismatch | PredictionForNextYear.FutureLagsMatchTraining |
