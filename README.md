# Thermal energy network demo — a Dafny model

This project models the computational core of a React dashboard for a
thermal energy network (TEN). In that network, 36 buildings and three
borefields share one ground loop. For every simulated hour, a CSV gives each
building's thermal load and what the network's ground-source heat pumps
("geo") and standalone air-source heat pumps ("air") would draw to serve
that load.

The model covers the following parts of the dashboard:

* **`ThermalNetworkDataProcessor`** (`src/utils/dataProcessor.js`) is a class
  with the fields `rawData`, `processedData`, `buildings` and `currentHour`:
  * the building roster is discovered from the column names, with duplicates
    removed, and sorted numerically;
  * each row becomes an hour snapshot with per-building efficiency and
    system metrics;
  * it answers hour lookups, time series and the per-building network list;
  * it holds the static borefield asset catalogue, sorted by network value.
* **`App.js`** derives these figures:
  * borefield utilisation;
  * the building detail card (type, borefield, COP rating, flexibility,
    demand-response value);
  * the demand-response and pumping optimisation panels;
  * the value of a new asset.
* **`NetworkVisualization.js`** supplies:
  * the 40-node ring topology;
  * each node's figures, colour and size;
  * the ring of connections.
* **`AssetValuation.js`** supplies the filter, sort, top ten, summary and
  type counts of the asset list.
* **`EfficiencyDashboard.js`** supplies the kW figures, cost saving, payback
  and first-week trend.

## How values are represented

* **Numbers.** JavaScript numbers are modelled as exact `real`s. A value
  that may be missing or degenerate is an `Option<real>`. `None` stands for
  `undefined`, or for the `NaN`/`Infinity` that a division by zero gives.
  * `x || 0` is `OrZero`, so both `None` and `0` give `0`.
  * `x || d` is `OrElse`.
  * A division whose denominator may be 0 is `Div` or `GainPercent`, and
    returns `None` for that case.
* **Rows and hours.** A CSV row is its list of `(column, cell)` pairs in
  header order. An hour's `buildings` object is the sequence of its building
  records in insertion (roster) order, and looking a key up finds the
  record with that id.
* **Sorting.** `Array.prototype.sort` is stable, so it is modelled as a
  stable insertion sort that puts larger keys first (`SortByKey`). An
  ascending comparator negates its key, and a comparator that always
  returns 0 keeps the input order.
* **Imperative code.** The processor keeps its own form: a class whose
  methods update its fields. The source's loops appear as methods proved
  against specification functions:
  * `ExtractBuildingList`, `ProcessHourlyData` and `ProcessRows`;
  * `CountAssetTypes`;
  * `BuildTopology` and `Connect`.
* **The rest** is functions and lemmas.

## Model

| member | source | states |
|---|---|---|
| Text.NatToString | src/components/NetworkVisualization.js:36-43 | The decimal numeral used in `` `b_${i}` ``: non-empty, only digits, no leading zero, and reading it back gives `n`. |
| Text.NatToStringInjective | src/components/NetworkVisualization.js:36-43 | Different numbers give different numerals. |
| Text.ParseLeadingInt | src/utils/dataProcessor.js:40-41 | `parseInt`: a number exactly when the text starts with a digit. That number is the value of the leading run of digits. |
| Text.ParseLeadingIntOfDigits | src/utils/dataProcessor.js:40-41 | `parseInt` of an all-digit string is its decimal value. |
| Text.ToLower | src/components/AssetValuation.js:18 | `toLowerCase`: same length, and each character lower-cased (A–Z shifted by 32, the rest kept). |
| Text.ContainsIffOccurs | src/components/AssetValuation.js:18 | `includes` holds exactly when the pattern occurs at some position. |
| Collections.Dedup | src/utils/dataProcessor.js:30-37 | The `Set` of ids: no duplicates and exactly the same members. |
| Collections.SortByKey | src/utils/dataProcessor.js:39-43 | A permutation of the input, with keys non-increasing. |
| Collections.SortByKeyStable | src/components/AssetValuation.js:19-29 | Stable, as `Array.prototype.sort` is: for every key value, the elements with that key appear in the result in their input order. |
| Collections.SortByKeyAllTies | src/components/AssetValuation.js:26 | A comparator that always returns 0 leaves the order unchanged. |
| Roster.Cell | src/utils/dataProcessor.js:56-72 | `row[column]`: the cell of the last column with that name (a repeated header overwrites), and missing when no column has the name. |
| Roster.MatchBuildingColumnIff | src/utils/dataProcessor.js:33-36 | `/^b_(\d+)_/` matches with group `d` exactly when `d` is a non-empty digit string and the column starts with `b_d_`. |
| Roster.ColumnBuildingIds | src/utils/dataProcessor.js:32-37 | An id is collected exactly when some column yields it. |
| Roster.ExtractBuildingList | src/utils/dataProcessor.js:29-44 | The loop over the first row's keys builds the roster: the distinct ids, sorted by number. |
| Roster.RosterDistinct | src/utils/dataProcessor.js:30-39 | The roster has no duplicates. |
| Roster.RosterMembers | src/utils/dataProcessor.js:32-37 | An id is in the roster exactly when some column of the first row yields it. |
| Roster.RosterIdsWellFormed | src/utils/dataProcessor.js:33-36 | Every roster id is `b_` followed by digits, and its number is their decimal value. |
| Roster.RosterSorted | src/utils/dataProcessor.js:39-43 | Roster numbers never decrease. |
| Roster.RosterNumericOrder | src/utils/dataProcessor.js:39-43 | `b_2` comes before `b_10`: the order is numeric, not lexicographic. |
| Roster.SplitSecondOfBuildingId | src/utils/dataProcessor.js:40 | `id.split('_')[1]` of a roster id is its digit suffix. |
| Hourly.Difference | src/utils/dataProcessor.js:91 | `air.electric - geo.electric` is defined exactly when both readings are, and adds back to the air reading. |
| Hourly.CalculateBuildingEfficiency | src/utils/dataProcessor.js:82-93 | The COPs default to 0. The gain is defined exactly when the air COP is non-zero, and then `gain * air == (geo - air) * 100`. Savings are air draw minus geo draw. |
| Hourly.EfficiencyGainExample | src/utils/dataProcessor.js:85 | COP 4 against 2 is a 100 % gain. |
| Hourly.EnergySavingsExample | src/utils/dataProcessor.js:91 | 1000 W against 400 W saves 600 W. |
| Hourly.BuildingSnapshotOf | src/utils/dataProcessor.js:56-74 | A building record reads its own `<id>_…` columns, and its efficiency comes from those readings. |
| Hourly.HeatingPart | src/utils/dataProcessor.js:114-117 | A building's contribution to the heating sum is never positive. |
| Hourly.CoolingPart | src/utils/dataProcessor.js:119-122 | A building's contribution to the cooling sum is never negative. |
| Hourly.CalculateSystemMetrics | src/utils/dataProcessor.js:95-147 | Heating ≤ 0 ≤ cooling, and the building load is their sum. Total load is cooling minus heating, so it is ≥ 0. Savings and peak reduction are air minus geo. Each average COP is defined exactly when its draw is non-zero, with `cop * draw == totalLoad`. The gain is defined exactly when both COPs are and air is non-zero. |
| Hourly.SystemMetricsLoadSums | src/utils/dataProcessor.js:114-122 | Heating and cooling loads are the sums of the per-building parts. |
| Hourly.SystemMetricsOrderIndependent | src/utils/dataProcessor.js:95-147 | The metrics do not depend on the order of the buildings. |
| Hourly.SystemMetricsAddBuilding | src/utils/dataProcessor.js:109-124 | Adding a building adds its abs(load) to the total load, and its load to heating when negative, to cooling when positive, to neither when 0. |
| Hourly.HourSnapshotOf | src/utils/dataProcessor.js:46-80 | The hour comes from the `hour` column. There is one record per roster id, in roster order. The metrics are computed from those records. |
| Hourly.Ids | src/utils/dataProcessor.js:75 | The keys of the hour's `buildings` object, in order. |
| Hourly.HourSnapshotKeys | src/utils/dataProcessor.js:56-76 | An hour's keys are exactly the roster. |
| Processor.ProcessedRowsKeys | src/utils/dataProcessor.js:26 | Every processed hour is keyed by exactly the roster. |
| Hourly.ProcessHourlyData | src/utils/dataProcessor.js:46-80 | The `forEach` over the roster builds the snapshot the specification function describes. |
| Hourly.LookupBuilding | src/utils/dataProcessor.js:178 | `buildings[id]` finds a record with that id, or none when no record has it. |
| Hourly.LookupBuildingAt | src/utils/dataProcessor.js:178 | With distinct keys, looking up the i-th key finds the i-th record. |
| Processor.ProcessedRows | src/utils/dataProcessor.js:26 | `rawData.map(processHourlyData)`: one snapshot per row, in row order. |
| Processor.ProcessRows | src/utils/dataProcessor.js:26 | The loop produces exactly `ProcessedRows`. |
| Processor.FindHour | src/utils/dataProcessor.js:151 | `find`: none exactly when no hour matches, otherwise a matching hour from the data. |
| Processor.DenseHoursLookup | src/utils/dataProcessor.js:149-152 | On hours numbered 1..N in order, asking for hour h gives row h−1 when h is a whole number in range, and nothing otherwise. |
| Processor.TimeSeriesPointOf | src/utils/dataProcessor.js:166-173 | A point carries the hour, outdoor °C, both draws, savings and both COPs of its snapshot. |
| Processor.TimeSeries | src/utils/dataProcessor.js:162-174 | Empty before loading. After loading, one point per hour, in order. |
| Processor.TimeSeriesSavings | src/utils/dataProcessor.js:144 | In every processed hour, the plotted savings are air minus geo. |
| Processor.GridX | src/utils/dataProcessor.js:188 | The x position is between 50 and 650. |
| Processor.GridY | src/utils/dataProcessor.js:189 | The y position is at least 50. |
| Processor.GridPositionsDistinct | src/utils/dataProcessor.js:188-189 | Different indices get different grid positions. |
| Processor.BuildingNodeOf | src/utils/dataProcessor.js:183-197 | A network record: a heat sink exactly when the load is negative, with load `abs(load)`, or missing when the load is. Its name is `Building ` plus the id's suffix and its position is its grid cell. Temperature, COPs, savings and gain are copied from the building. |
| Processor.ThermalNetworkDataProcessor.constructor | src/utils/dataProcessor.js:4-9 | No data, an empty roster, and cursor 1. |
| Processor.ThermalNetworkDataProcessor.ProcessData | src/utils/dataProcessor.js:22-27 | With no raw data, nothing changes. With empty data, it fails and nothing changes. Otherwise it installs the first row's roster and one snapshot per row, and keeps `Valid`: distinct roster, every hour keyed by it. |
| Processor.ProcessDataset | src/utils/dataProcessor.js:25-26 | On a non-empty dataset: the roster is the first row's, it has no duplicates, and one snapshot per row is keyed by it. |
| Processor.ThermalNetworkDataProcessor.LoadRows | src/utils/dataProcessor.js:11-20 | Stores the rows, then processes them. A failure is passed on with the derived state unchanged. |
| Processor.ThermalNetworkDataProcessor.GetHourlyData | src/utils/dataProcessor.js:149-152 | "Not loaded" exactly before processing. "Not found" exactly when no hour matches. Otherwise it returns the first matching hour. |
| Processor.ThermalNetworkDataProcessor.GetCurrentHourData | src/utils/dataProcessor.js:154-156 | The lookup of the cursor, whose hour is the cursor. |
| Processor.ThermalNetworkDataProcessor.SetCurrentHour | src/utils/dataProcessor.js:158-160 | The cursor takes the given value. |
| Processor.ThermalNetworkDataProcessor.GetTimeSeriesData | src/utils/dataProcessor.js:162-174 | The time series of the processed data, with one point per hour. |
| Processor.ThermalNetworkDataProcessor.GetBuildingNetworkData | src/utils/dataProcessor.js:176-199 | Empty when nothing is loaded or the current hour is missing. Otherwise one record per roster id, in roster order, built from that id's building. |
| Processor.ReloadIsIdempotent | src/utils/dataProcessor.js:11-27 | Loading the same non-empty rows twice succeeds both times and leaves the same roster and data as loading them once. |
| Assets.GetAssetValuation | src/utils/dataProcessor.js:201-249 | The catalogue, permuted and sorted by network value, descending. |
| Assets.AssetValuationOrder | src/utils/dataProcessor.js:204-248 | The order is borefield 2, borefield 3, borefield 1. |
| Assets.NetworkEffectMultiplier | src/utils/dataProcessor.js:204-245 | Every asset's network value is 1.2 × its annual savings. |
| Assets.CatalogueIsHeatExchangers | src/utils/dataProcessor.js:204-248 | Every valued asset has the type `Geothermal Heat Exchanger`. |
| AssetView.FilterAssets | src/components/AssetValuation.js:18 | Keeps exactly the assets that pass the filter, each as many times as it occurs in the input. |
| AssetView.FilterAssetsOrder | src/components/AssetValuation.js:18 | The filter keeps the input order: it filters a concatenation part by part, and keeps or drops a single asset whole. |
| AssetView.FilterAllKeepsEverything | src/components/AssetValuation.js:18 | Filter `all` keeps the whole list. |
| AssetView.FilterBySubstring | src/components/AssetValuation.js:18 | Any other filter keeps an asset exactly when its lower-cased type contains the lower-cased filter. |
| AssetView.GeothermalFilterKeepsCatalogue | src/components/AssetValuation.js:183-184 | The `geothermal` option keeps all three borefields. |
| AssetView.SortAssets | src/components/AssetValuation.js:19-28 | A permutation, ordered by the chosen key. |
| AssetView.SortAssetsStable | src/components/AssetValuation.js:19-29 | Assets that tie on the chosen key keep their filtered order. |
| AssetView.SortAssetsOrder | src/components/AssetValuation.js:21-25 | Each sort option's order: network value, savings, efficiency and utilisation descending; payback ascending. |
| AssetView.SortUnknownKeepsOrder | src/components/AssetValuation.js:26 | An unknown sort option keeps the input order. |
| AssetView.TopAssets | src/components/AssetValuation.js:31 | The first `min(10, n)` assets. |
| AssetView.Summarize | src/components/AssetValuation.js:34-37 | The averages are defined exactly when the list is non-empty, and average × count is the sum. |
| AssetView.SummaryIgnoresSortOrder | src/components/AssetValuation.js:34-37 | Sorting does not change the summary. |
| AssetView.AverageEfficiencyWithinBounds | src/components/AssetValuation.js:35 | When every asset's efficiency lies between two bounds, so does the average. |
| AssetView.KeyIndex | src/components/AssetValuation.js:41 | Finds the entry for a type, or reports that there is none. |
| AssetView.CountAssetTypes | src/components/AssetValuation.js:40-43 | The counting loop builds exactly `TypeCounts`. |
| AssetView.BumpEntry | src/components/AssetValuation.js:41 | One `reduce` step: the type's entry goes up by one, or the type is added at the end with count 1. |
| AssetView.TypeCountsTotal | src/components/AssetValuation.js:40-43 | The counts add up to the number of assets. |
| AssetView.TypeCountsDistinctKeys | src/components/AssetValuation.js:40-43 | Each type appears once. |
| AssetView.TypeCountsLookup | src/components/AssetValuation.js:40-43 | The count for a type is the number of assets of that type. |
| AssetView.BumpLookup | src/components/AssetValuation.js:41 | One step raises only the asset's own type, by one. |
| AssetView.CopPercent | src/components/AssetValuation.js:109 | COP as a percentage of 5. |
| AssetView.BarWidth | src/components/AssetValuation.js:114 | The bar width is the COP percentage clamped to 100 %, `Math.min(100, p)`. It equals the COP percentage up to COP 5 and is full above. |
| AssetView.AssetValuationView | src/components/AssetValuation.js:8-43 | Loading exactly when there is no data or it is empty. Otherwise: the filtered list sorted by the chosen key (`SortAssets` of `FilterAssets`); the top ten, which is `TopAssets` of it; the summary of the filtered assets; and the type counts, which are `TypeCounts` of the list, total its length and have distinct keys. |
| Borefields.BuildingId | src/App.js:60-64 | `` `b_${n}` `` is a roster-shaped id whose suffix is n's numeral. |
| Borefields.BuildingIdNumber | src/App.js:60-64 | The id's number reads back as n. |
| Borefields.BuildingIdInjective | src/App.js:60-64 | Different numbers give different ids. |
| Borefields.BuildingIdParses | src/App.js:276-291 | `parseInt(id.split('_')[1])` of `b_n` is n. |
| Borefields.IdRange | src/App.js:60-64 | `Array.from({length}, i => b_${first+i})`. |
| Borefields.IdRangeMembers | src/App.js:60-64 | `b_n` is in the range exactly when n is in it. |
| Borefields.ServedByAsRanges | src/App.js:60-64 | Borefield 1 serves 16..36, borefield 2 serves 1..3, borefield 3 serves 4..15. |
| Borefields.ServedByMembers | src/App.js:60-64 | Membership of `b_n` for each borefield, and list sizes 21, 3 and 12. |
| Borefields.ServedByPartition | src/App.js:60-64 | Each of b_1..b_36 is served by exactly one borefield, and no other `b_n` is served. |
| Borefields.ServedByUnknown | src/App.js:66 | An unknown borefield serves nobody. |
| Borefields.MemberLoad | src/App.js:70-71 | A missing building adds 0. |
| Borefields.CalculateBorefieldMetrics | src/App.js:56-83 | Null without buildings. Otherwise the served load in kW, utilisation ≥ 0 with `pct * 440 == abs(kW) * 100`, and the building count; 0 and 0 for an unknown borefield. |
| Borefields.BorefieldLoadsAddUp | src/App.js:56-83 | With buildings b_1..b_36, the three borefields' loads add up to the whole network's load. |
| Borefields.Status | src/App.js:860-875 | Low below 50 %, moderate from 50 % to below 80 %, high from 80 %. |
| Borefields.StatusMonotone | src/App.js:860-875 | More utilisation never lowers the status. |
| Borefields.AssetValue | src/App.js:731-735 | `value * 100 == load * gain * 265`, i.e. $15 + $250 per kW saved. |
| Borefields.BorefieldPanelOf | src/App.js:712-763 | Load is abs(kW), and available plus load is 440. The bar width is utilisation clamped to 100 %, `Math.min(100, u)`: equal to utilisation up to 100 and 100 above. Headroom to 352 kW is between 0 and 352. Additional buildings is floor(headroom / 20), in 0..17. The asset values are at the current load and at 352 kW. The status follows utilisation. |
| Borefields.IdleBorefieldExpansion | src/App.js:722-724 | An idle borefield has room for 17 more buildings. |
| Borefields.AssetValueBelowPotential | src/App.js:731-740 | With a non-negative gain and a load within 352 kW, the asset value is at most the potential. |
| Borefields.NewAssetValue | src/App.js:638-656 | Null without buildings. Otherwise `value * 100 == abs(bf2 kW) * 3 * 265`. |
| Borefields.NewAssetValueIgnoresGain | src/App.js:646-655 | The value does not depend on the current efficiency gain, which cancels out. |
| BuildingDetail.Classify | src/App.js:283-291 | b_1..b_5 are the named buildings, and only they are. Borefield 2 serves exactly b_1..b_3. Everything else is residential, on borefield 1 or 3. |
| BuildingDetail.ClassifyAgreesWithMembership | src/App.js:283-291 | For b_1..b_36 the card's borefield agrees with the membership lists. |
| BuildingDetail.ClassifyResidence | src/App.js:283-291 | b_6..b_36 are residences: on borefield 1 from b_16, on borefield 3 before. |
| BuildingDetail.MaxDemand | src/App.js:300-305 | Peak demand by type, at least 15 kW, and 15 kW for a residence. |
| BuildingDetail.GeoRating | src/App.js:293-295 | Excellent at COP ≥ 4.5, good from 3.5, fair from 2.5, poor below. A missing COP counts as 0. |
| BuildingDetail.GeoRatingMonotone | src/App.js:293-295 | A higher COP never gets a lower rating. |
| BuildingDetail.LoadRatio | src/App.js:298-307 | `ratio * maxDemand == abs(load or 0)`, and the ratio is ≥ 0. |
| BuildingDetail.FlexPotential | src/App.js:307-309 | Low up to 0.33, medium up to 0.67, high above. |
| BuildingDetail.SmallResidentialLoadIsLowFlex | src/App.js:298-309 | A residence within ±4.95 kW is low. |
| BuildingDetail.EnrolledBuildings | src/App.js:312 | Exactly b_6, b_15 and b_36 are enrolled. |
| BuildingDetail.DrValue | src/App.js:315-316 | $0 unless heating. When heating, `value * 2000 == -load`. |
| Optimization.DrOf | src/App.js:487-494 | A missing building contributes 0, and no building contributes a negative amount. |
| Optimization.DrOptimization | src/App.js:481-506 | Null without buildings. Otherwise the enrolled value is the DR value of b_6 plus b_15 plus b_36, and 0 ≤ enrolled value ≤ full potential. The additional value is their difference (≥ 0), and the counts are 3 and the number of buildings. |
| Optimization.HeatingDraw | src/App.js:489-491 | A building's heating draw is minus its heating part, and 2000 × its DR value. |
| Optimization.DrPotentialIsHeatingLoad | src/App.js:496-504 | For a processed hour, the full DR potential × 2000 is minus the hour's heating load. |
| Optimization.PumpingOptimization | src/App.js:566-582 | Null without buildings. There is an opportunity exactly when some building heats and some building cools. The totals are ≥ 0. The balanced load is the smaller of the two totals, so it is 0 without an opportunity. Savings are 7.5 % of the balanced load. |
| Optimization.PumpingMatchesSystemMetrics | src/App.js:570-576 | The panel's totals are the hour's heating and cooling loads, in kW. |
| NetworkView.Residential | src/components/NetworkVisualization.js:36-43 | A residence node is a building with id `b_i`. |
| NetworkView.FlowTopology | src/components/NetworkVisualization.js:23-61 | The ring has 40 nodes. |
| NetworkView.BuildTopology | src/components/NetworkVisualization.js:23-61 | The literal head and the two loops build exactly `FlowTopology`. |
| NetworkView.TopologyBuilding | src/components/NetworkVisualization.js:23-61 | `b_n` sits at its flow position as a building. Residences b_6..b_36 are named `Res n-5` and `Rn-5`. |
| NetworkView.TopologyPositions | src/components/NetworkVisualization.js:23-61 | Only positions 0, 4, 5 and 18 hold non-buildings. Every other position holds some b_n. |
| NetworkView.TopologyIdsDistinct | src/components/NetworkVisualization.js:66-73 | No two nodes share an id, so keying `nodePositions` by id loses none. |
| NetworkView.EnhanceNode | src/components/NetworkVisualization.js:80-104 | A building with data gets its own figures, with defaults 50 °F and 0. A borefield gets 54 °F, 5000, COP 5. Anything else, including a building without data, gets 59 °F and 1000. The load is never negative. |
| NetworkView.EnhancedNodes | src/components/NetworkVisualization.js:9 | No nodes without data. Otherwise 40, each the enhanced node at its flow position. |
| NetworkView.GetNodeColor | src/components/NetworkVisualization.js:107-119 | Green exactly for borefields and yellow exactly for the pump. A building is red exactly when its load is known and negative, blue exactly when it is known and ≥ 0, and gray exactly when there is no data or no load. |
| NetworkView.GetNodeSize | src/components/NetworkVisualization.js:121-128 | 25 for a borefield and 20 for the pump. A building's size is load/500 clamped to [8, 20]: load/500 inside the range, 20 above it, 8 below it. |
| NetworkView.Next | src/components/NetworkVisualization.js:134 | The successor index is in range. |
| NetworkView.Connect | src/components/NetworkVisualization.js:131-136 | One edge per node, from each node to its ring successor. |
| NetworkView.RingTargetsOnce | src/components/NetworkVisualization.js:131-136 | Every node is the target of exactly one edge, from its predecessor. |
| Dashboard.PaybackPeriod | src/components/EfficiencyDashboard.js:28-29 | Between 0 and 5,000,000 years, `years * max(1, annual) == 5e6`, and 5e6 when the annual saving is at most $1. |
| Dashboard.PaybackMonotone | src/components/EfficiencyDashboard.js:28-29 | Larger savings never lengthen the payback. |
| Dashboard.DashboardFigures | src/components/EfficiencyDashboard.js:5-29 | Loading unless both the hour and its metrics are present. Otherwise the kW figures, annual = kW × 0.12 × 8760, peak = kW saved, and payback against `max(1, annual)`. |
| Dashboard.DashboardSavingsOfHour | src/components/EfficiencyDashboard.js:14-24 | For a processed hour, kW saved is air minus geo kW. When geo draws no more than air, the annual saving is ≥ 0. |
| Dashboard.DashboardExample | src/components/EfficiencyDashboard.js:14-29 | 4.5 kW saved gives $4,730.40 a year and a payback of just under 1,057 years. |
| Dashboard.WeekTrend | src/components/EfficiencyDashboard.js:142-146 | No chart without points. Otherwise a prefix of `min(168, n)` points. |
| Dashboard.WeekTrendWhole | src/components/EfficiencyDashboard.js:146 | The chart shows the whole series exactly when it has at most 168 points. |

## Where the code and its description differ

* **Missing cells.** The description has missing per-building cells default
  to 0 when a row is transformed. The code stores the raw cell and applies
  `|| 0` only where a value is used. The model follows the code, so:
  * a missing `load` makes a network record a heat source with a missing load;
  * a building node's colour is gray.
* **Empty dataset.** The description has `load` fail only on I/O or parse
  errors. The code also throws on a dataset with no rows, because
  `Object.keys(undefined)` fails. `ProcessData` returns `Fail` there and
  assigns nothing.
* **Buildings without data.** In the network view, a building without data
  for the hour gets the fallback meant for the pump: 59 °F, 1000 W and size
  8. This is modelled as written.

## Left out

- Fetching and parsing the CSV (`d3.csv` with `autoType`) is not modelled: `LoadRows` takes the parsed rows as a parameter. A fetch or parse failure is only passed on, and is not modelled.
- Logging (`console.log`, `console.error`) is not modelled.
- Rendering is not modelled: JSX, d3 drawing, trigonometric ring positions, tooltips, `toFixed` and locale formatting.
- IEEE floating point (rounding, signed zero) is not modelled. `NaN` and `±Infinity` are collapsed into `None`.
- `Infinity || 0` is `Infinity` in JavaScript, but `OrZero(None)` is 0.
- `null` and `undefined` are not distinguished. `autoType` turns an empty cell into `null`, which counts as 0 in arithmetic and passes `!== undefined` in the colour rule. In the model it is `None`.
- Roster.Names: a repeated header is listed once per column, whereas `Object.keys` lists it once, at its first position. The roster does not change, because its ids are de-duplicated. `Roster.Cell` reads the last such column, as the object would.
- Roster.MatchBuildingColumn: `\d` is the ASCII digits only, as in JavaScript.
- Text.ToLower: the lower-casing covers ASCII letters only. JavaScript's full Unicode case mapping is not modelled.
- Text.ParseLeadingInt: it does not skip leading whitespace or accept a sign, as `parseInt` does. Every string it is applied to here is the digit part of a roster id, or a node id.
- The enrolment-rate percentage (src/App.js:554) is a rounded display figure only, and is not modelled.
- Borefields.CalculateBorefieldMetrics: a borefield id that names an `Object.prototype` member (for example `constructor`) is treated as unknown. JavaScript would find the inherited member.
- AssetView.TypeCounts: the `reduce` into `acc[asset.type]` is modelled as a list of (type, count) pairs in first-occurrence order. On a plain JavaScript object, a type that names an `Object.prototype` member (for example `constructor`) would start from the inherited value, not from 0. Integer-like type names would be enumerated first. Neither case arises with the fixed catalogue, whose entries all share one type.
- React state, effects and event handlers are not modelled. Their values appear as parameters: the current hour, sort and filter choices, the selected node and the hour data passed to each component.
- The landing page, the about page and styling are outside this model.
