/**
 * The per-hour transform of src/utils/dataProcessor.js: `processHourlyData`,
 * `calculateBuildingEfficiency` and `calculateSystemMetrics`.
 *
 * Sign convention: a negative `load` is heating, a positive one cooling.
 */
module Hourly {
  import opened Common
  import opened Roster
  import opened Collections

  datatype Temperature = Temperature(celsius: Option<real>, fahrenheit: Option<real>)

  /** The readings of one candidate system (the network, "geo", or a standalone heat pump, "air"). */
  datatype SystemReading = SystemReading(cop: Option<real>, electric: Option<real>)

  datatype Efficiency = Efficiency(
    geoEfficiency: real,
    airEfficiency: real,
    efficiencyGain: Option<real>,
    energySavings: Option<real>)

  datatype BuildingSnapshot = BuildingSnapshot(
    id: string,
    inletTemp: Temperature,
    load: Option<real>,
    geo: SystemReading,
    air: SystemReading,
    efficiency: Efficiency)

  datatype SystemMetrics = SystemMetrics(
    totalGeoElectric: real,
    totalAirElectric: real,
    totalLoad: real,
    totalBuildingLoad: real,
    heatingLoad: real,
    coolingLoad: real,
    avgGeoCOP: Option<real>,
    avgAirCOP: Option<real>,
    systemEfficiencyGain: Option<real>,
    totalEnergySavings: real,
    peakDemandReduction: real)

  /** One simulated hour; `buildings` is the hour's `buildings` object, its entries in roster order. */
  datatype HourSnapshot = HourSnapshot(
    hour: Option<real>,
    outdoorTemp: Temperature,
    buildings: seq<BuildingSnapshot>,
    systemMetrics: SystemMetrics)

  /** `a - b` on two raw readings: NaN (here `None`) when either is missing. */
  function Difference(a: Option<real>, b: Option<real>): (r: Option<real>)
    ensures r.Some? <==> a.Some? && b.Some?
    ensures r.Some? ==> r.value + b.value == a.value
  {
    if a.Some? && b.Some? then Some(a.value - b.value) else None
  }

  /**
   * `calculateBuildingEfficiency`: the COPs default to 0 through `|| 0`, the
   * gain is the ratio formula (undefined when the air COP is 0) and the savings
   * are the raw electric difference, which is not defaulted.
   */
  function CalculateBuildingEfficiency(geo: SystemReading, air: SystemReading): (e: Efficiency)
    ensures e.geoEfficiency == OrZero(geo.cop) && e.airEfficiency == OrZero(air.cop)
    ensures e.efficiencyGain.Some? <==> e.airEfficiency != 0.0
    ensures e.efficiencyGain.Some? ==>
              e.efficiencyGain.value * e.airEfficiency == (e.geoEfficiency - e.airEfficiency) * 100.0
    ensures e.energySavings.Some? <==> geo.electric.Some? && air.electric.Some?
    ensures e.energySavings.Some? ==> geo.electric.value + e.energySavings.value == air.electric.value
  {
    var geoEfficiency := OrZero(geo.cop);
    var airEfficiency := OrZero(air.cop);
    Efficiency(geoEfficiency, airEfficiency, GainPercent(geoEfficiency, airEfficiency),
               Difference(air.electric, geo.electric))
  }

  /** Worked example: a geo COP of 4 against an air COP of 2 is a 100% gain. */
  lemma EfficiencyGainExample()
    ensures CalculateBuildingEfficiency(SystemReading(Some(4.0), None), SystemReading(Some(2.0), None)).efficiencyGain
            == Some(100.0)
  {
  }

  /** Worked example: 1000 W on the air side against 400 W on the geo side saves 600 W. */
  lemma EnergySavingsExample()
    ensures CalculateBuildingEfficiency(SystemReading(None, Some(400.0)), SystemReading(None, Some(1000.0))).energySavings
            == Some(600.0)
  {
  }

  /** The building object `processHourlyData` builds for one roster id: every reading copied as-is. */
  function BuildingSnapshotOf(row: RawRow, id: string): (b: BuildingSnapshot)
    ensures b.id == id
    ensures b.load == Cell(row, id + "_load_w")
    ensures b.efficiency == CalculateBuildingEfficiency(b.geo, b.air)
  {
    var geo := SystemReading(Cell(row, id + "_geo_cop"), Cell(row, id + "_geo_electric_w"));
    var air := SystemReading(Cell(row, id + "_air_cop"), Cell(row, id + "_air_electric_w"));
    BuildingSnapshot(
      id,
      Temperature(Cell(row, id + "_inlet_temp_c"), Cell(row, id + "_inlet_temp_f")),
      Cell(row, id + "_load_w"),
      geo,
      air,
      CalculateBuildingEfficiency(geo, air))
  }

  // The per-building summands of `calculateSystemMetrics`; each reads its field through `|| 0`.

  function GeoElectric(b: BuildingSnapshot): real { OrZero(b.geo.electric) }

  function AirElectric(b: BuildingSnapshot): real { OrZero(b.air.electric) }

  function LoadOf(b: BuildingSnapshot): real { OrZero(b.load) }

  function AbsLoad(b: BuildingSnapshot): real { Abs(OrZero(b.load)) }

  /** A building's contribution to `heatingLoad`: its load when negative, else nothing. */
  function HeatingPart(b: BuildingSnapshot): (r: real)
    ensures r <= 0.0
  {
    var load := OrZero(b.load); if load < 0.0 then load else 0.0
  }

  /** A building's contribution to `coolingLoad`: its load when positive, else nothing. */
  function CoolingPart(b: BuildingSnapshot): (r: real)
    ensures r >= 0.0
  {
    var load := OrZero(b.load); if load > 0.0 then load else 0.0
  }

  /**
   * `calculateSystemMetrics` over the hour's buildings (in `Object.values`
   * order).  The quotients are undefined when their denominator is 0.
   */
  function CalculateSystemMetrics(buildings: seq<BuildingSnapshot>): (m: SystemMetrics)
    ensures m.heatingLoad <= 0.0 <= m.coolingLoad
    ensures m.totalBuildingLoad == m.heatingLoad + m.coolingLoad
    ensures m.totalLoad == m.coolingLoad - m.heatingLoad && m.totalLoad >= 0.0
    ensures m.totalEnergySavings == m.totalAirElectric - m.totalGeoElectric
    ensures m.peakDemandReduction == m.totalEnergySavings
    ensures m.avgGeoCOP.Some? <==> m.totalGeoElectric != 0.0
    ensures m.avgGeoCOP.Some? ==> m.avgGeoCOP.value * m.totalGeoElectric == m.totalLoad
    ensures m.avgAirCOP.Some? <==> m.totalAirElectric != 0.0
    ensures m.avgAirCOP.Some? ==> m.avgAirCOP.value * m.totalAirElectric == m.totalLoad
    ensures m.systemEfficiencyGain.Some? <==> m.avgGeoCOP.Some? && m.avgAirCOP.Some? && m.avgAirCOP.value != 0.0
    ensures m.systemEfficiencyGain.Some? ==>
              m.systemEfficiencyGain.value * m.avgAirCOP.value == (m.avgGeoCOP.value - m.avgAirCOP.value) * 100.0
  {
    var totalGeoElectric := SumOf(buildings, GeoElectric);
    var totalAirElectric := SumOf(buildings, AirElectric);
    var totalLoad := SumOf(buildings, AbsLoad);
    var heatingLoad := SumOf(buildings, HeatingPart);
    var coolingLoad := SumOf(buildings, CoolingPart);
    SumOfNonPositive(buildings, HeatingPart);
    SumOfNonNegative(buildings, CoolingPart);
    SumOfDifference(buildings, AbsLoad, CoolingPart, HeatingPart);
    var avgGeoCOP := Div(totalLoad, totalGeoElectric);
    var avgAirCOP := Div(totalLoad, totalAirElectric);
    var gain := if avgGeoCOP.Some? && avgAirCOP.Some? then GainPercent(avgGeoCOP.value, avgAirCOP.value) else None;
    SystemMetrics(
      totalGeoElectric, totalAirElectric, totalLoad,
      heatingLoad + coolingLoad, heatingLoad, coolingLoad,
      avgGeoCOP, avgAirCOP, gain,
      totalAirElectric - totalGeoElectric,
      totalAirElectric - totalGeoElectric)
  }

  /** The heating and cooling figures are the sums of the per-building parts. */
  lemma SystemMetricsLoadSums(buildings: seq<BuildingSnapshot>)
    ensures CalculateSystemMetrics(buildings).heatingLoad == SumOf(buildings, HeatingPart)
    ensures CalculateSystemMetrics(buildings).coolingLoad == SumOf(buildings, CoolingPart)
  {
  }

  /** The aggregates only depend on which buildings there are, not on their order. */
  lemma SystemMetricsOrderIndependent(buildings: seq<BuildingSnapshot>, reordered: seq<BuildingSnapshot>)
    requires multiset(buildings) == multiset(reordered)
    ensures CalculateSystemMetrics(buildings) == CalculateSystemMetrics(reordered)
  {
    SumOfPermutation(buildings, reordered, GeoElectric);
    SumOfPermutation(buildings, reordered, AirElectric);
    SumOfPermutation(buildings, reordered, AbsLoad);
    SumOfPermutation(buildings, reordered, HeatingPart);
    SumOfPermutation(buildings, reordered, CoolingPart);
  }

  /**
   * Sign convention: one more building adds its load to `heatingLoad` when the
   * load is negative, to `coolingLoad` when positive, and to neither when 0;
   * either way its absolute load is added to `totalLoad`.
   */
  lemma SystemMetricsAddBuilding(buildings: seq<BuildingSnapshot>, b: BuildingSnapshot)
    ensures var before, after, load := CalculateSystemMetrics(buildings), CalculateSystemMetrics(buildings + [b]), LoadOf(b);
      && (load < 0.0 ==> after.heatingLoad == before.heatingLoad + load && after.coolingLoad == before.coolingLoad)
      && (load > 0.0 ==> after.coolingLoad == before.coolingLoad + load && after.heatingLoad == before.heatingLoad)
      && (load == 0.0 ==> after.heatingLoad == before.heatingLoad && after.coolingLoad == before.coolingLoad)
      && after.totalLoad == before.totalLoad + Abs(load)
  {
    var s := buildings + [b];
    assert s[..|s| - 1] == buildings;
  }

  /** `processHourlyData` for one raw row (specification of the method below). */
  function HourSnapshotOf(row: RawRow, roster: seq<string>): (h: HourSnapshot)
    ensures h.hour == Cell(row, "hour")
    ensures |h.buildings| == |roster|
    ensures forall i :: 0 <= i < |roster| ==> h.buildings[i] == BuildingSnapshotOf(row, roster[i])
    ensures h.systemMetrics == CalculateSystemMetrics(h.buildings)
  {
    var buildings := Map(roster, BuildingFn(row));
    HourSnapshot(
      Cell(row, "hour"),
      Temperature(Cell(row, "outdoor_air_temp_c"), Cell(row, "outdoor_air_temp_f")),
      buildings,
      CalculateSystemMetrics(buildings))
  }

  function BuildingFn(row: RawRow): string -> BuildingSnapshot
  {
    id => BuildingSnapshotOf(row, id)
  }

  /** The ids of an hour's buildings: the keys of its `buildings` object, in insertion order. */
  function Ids(buildings: seq<BuildingSnapshot>): (ids: seq<string>)
    ensures |ids| == |buildings| && forall i :: 0 <= i < |buildings| ==> ids[i] == buildings[i].id
  {
    seq(|buildings|, i requires 0 <= i < |buildings| => buildings[i].id)
  }

  /** The keys of every snapshot's `buildings` are exactly the roster, in roster order. */
  lemma HourSnapshotKeys(row: RawRow, roster: seq<string>)
    ensures Ids(HourSnapshotOf(row, roster).buildings) == roster
  {
  }

  /**
   * `processHourlyData`: copies the hour and outdoor temperature, attaches one
   * building object per roster id in roster order, then the hour's metrics.
   */
  method ProcessHourlyData(row: RawRow, roster: seq<string>) returns (h: HourSnapshot)
    ensures h == HourSnapshotOf(row, roster)
  {
    var buildings: seq<BuildingSnapshot> := [];
    var i := 0;
    while i < |roster|
      invariant 0 <= i <= |roster|
      invariant buildings == Map(roster[..i], BuildingFn(row))
    {
      var building := BuildingSnapshotOf(row, roster[i]);
      MapExtend(roster, BuildingFn(row), i);
      buildings := buildings + [building];
      i := i + 1;
    }
    assert roster[..i] == roster;
    h := HourSnapshot(
      Cell(row, "hour"),
      Temperature(Cell(row, "outdoor_air_temp_c"), Cell(row, "outdoor_air_temp_f")),
      buildings,
      CalculateSystemMetrics(buildings));
  }

  /** `currentData.buildings[id]`: the building with that key, if any. */
  function LookupBuilding(buildings: seq<BuildingSnapshot>, id: string): (r: Option<BuildingSnapshot>)
    ensures r.Some? ==> r.value in buildings && r.value.id == id
    ensures r.None? ==> forall i :: 0 <= i < |buildings| ==> buildings[i].id != id
    decreases |buildings|
  {
    if buildings == [] then None
    else if buildings[0].id == id then Some(buildings[0])
    else
      var r := LookupBuilding(buildings[1..], id);
      assert forall i :: 1 <= i < |buildings| ==> buildings[i] == buildings[1..][i - 1];
      r
  }

  /** With distinct keys, looking a building up by its own key finds that building. */
  lemma {:induction false} LookupBuildingAt(buildings: seq<BuildingSnapshot>, i: nat)
    requires i < |buildings|
    requires forall j, k :: 0 <= j < k < |buildings| ==> buildings[j].id != buildings[k].id
    ensures LookupBuilding(buildings, buildings[i].id) == Some(buildings[i])
    decreases |buildings|
  {
    if i > 0 {
      LookupBuildingAt(buildings[1..], i - 1);
    }
  }
}
