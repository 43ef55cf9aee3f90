/**
 * The network optimisation panels of src/App.js: the demand-response
 * aggregate over the enrolled buildings against all buildings, and the
 * pumping balance between heating and cooling buildings.
 */
module Optimization {
  import opened Common
  import opened Hourly
  import opened BuildingDetail

  const EnrolledIds: seq<string> := ["b_6", "b_15", "b_36"]

  /** `building && building.load < 0 ? |load| / 1000 * 0.1 * 5 : 0` for the building with that id. */
  function DrOf(buildings: seq<BuildingSnapshot>, id: string): (v: real)
    ensures v >= 0.0
    ensures LookupBuilding(buildings, id).None? ==> v == 0.0
  {
    match LookupBuilding(buildings, id)
    case Some(b) => DrValue(b.load)
    case None => 0.0
  }

  function DrFn(buildings: seq<BuildingSnapshot>): string -> real
  {
    id => DrOf(buildings, id)
  }

  datatype DrSummary = DrSummary(
    currentDRValue: real,
    totalPotentialDRValue: real,
    additionalValue: real,
    enrolledCount: nat,
    totalBuildings: nat)

  /**
   * The demand-response panel: the value of the three enrolled buildings,
   * the value if every building were enrolled, and the difference; `null`
   * without a current hour.  The enrolled value never exceeds the full
   * potential, so the additional opportunity is never negative.
   */
  function DrOptimization(currentData: Option<HourSnapshot>): (r: Option<DrSummary>)
    ensures r.None? <==> currentData.None?
    ensures r.Some? ==> 0.0 <= r.value.currentDRValue <= r.value.totalPotentialDRValue
    ensures r.Some? ==> r.value.additionalValue >= 0.0
    ensures r.Some? ==> r.value.additionalValue == r.value.totalPotentialDRValue - r.value.currentDRValue
    ensures r.Some? ==> r.value.enrolledCount == 3 && r.value.totalBuildings == |currentData.value.buildings|
    ensures r.Some? ==>
              var bs := currentData.value.buildings;
              r.value.currentDRValue == DrOf(bs, "b_6") + DrOf(bs, "b_15") + DrOf(bs, "b_36")
  {
    match currentData
    case None => None
    case Some(h) =>
      var f := DrFn(h.buildings);
      var allBuildings := Ids(h.buildings);
      var currentDRValue := SumOf(EnrolledIds, f);
      var totalPotentialDRValue := SumOf(allBuildings, f);
      SumOfNonNegative(EnrolledIds, f);
      SumOfThree("b_6", "b_15", "b_36", f);
      forall id | id in EnrolledIds && f(id) != 0.0 ensures id in allBuildings {
        var b := LookupBuilding(h.buildings, id).value;
        var k :| 0 <= k < |h.buildings| && h.buildings[k] == b;
        assert allBuildings[k] == id;
      }
      SumOfSubList(EnrolledIds, allBuildings, f);
      Some(DrSummary(currentDRValue, totalPotentialDRValue, totalPotentialDRValue - currentDRValue, |EnrolledIds|, |allBuildings|))
  }

  function DrValueOf(b: BuildingSnapshot): real
  {
    DrValue(b.load)
  }

  /** A building's heating draw, W: minus its heating part. */
  function HeatingDraw(b: BuildingSnapshot): (w: real)
    ensures w == -HeatingPart(b)
    ensures w == 2000.0 * DrValue(b.load)
  {
    if b.load.Some? && b.load.value < 0.0 then Abs(b.load.value) else 0.0
  }

  /** The heating draw summed over any buildings is minus their heating parts summed. */
  lemma {:induction false} HeatingDrawSum(buildings: seq<BuildingSnapshot>)
    ensures SumOf(buildings, HeatingDraw) == -SumOf(buildings, HeatingPart)
  {
    forall b | b in buildings ensures HeatingDraw(b) == -1.0 * HeatingPart(b) {
    }
    SumOfScale(buildings, HeatingPart, HeatingDraw, -1.0);
  }

  /** Summed over an hour's buildings, the DR value is the heating draw at $0.5 per kW. */
  lemma {:induction false} DrSumIsHeatingDraw(buildings: seq<BuildingSnapshot>)
    requires forall i, j :: 0 <= i < j < |buildings| ==> buildings[i].id != buildings[j].id
    ensures SumOf(Ids(buildings), DrFn(buildings)) * 2000.0 == SumOf(buildings, HeatingDraw)
  {
    DrSumByKey(buildings);
    DrSumScaled(buildings);
  }

  /** Summed over any buildings, the heating draw is 2000 times the DR value. */
  lemma {:induction false} DrSumScaled(buildings: seq<BuildingSnapshot>)
    ensures SumOf(buildings, HeatingDraw) == 2000.0 * SumOf(buildings, DrValueOf)
  {
    forall b | b in buildings ensures HeatingDraw(b) == 2000.0 * DrValueOf(b) {
    }
    SumOfScale(buildings, DrValueOf, HeatingDraw, 2000.0);
  }

  /** With distinct ids, looking each key up finds that key's own building. */
  lemma {:induction false} DrSumByKey(buildings: seq<BuildingSnapshot>)
    requires forall i, j :: 0 <= i < j < |buildings| ==> buildings[i].id != buildings[j].id
    ensures SumOf(Ids(buildings), DrFn(buildings)) == SumOf(buildings, DrValueOf)
  {
    var ids := Ids(buildings);
    forall i | 0 <= i < |ids| ensures DrFn(buildings)(ids[i]) == DrValueOf(buildings[i]) {
      LookupBuildingAt(buildings, i);
    }
    SumOfPointwise(ids, DrFn(buildings), buildings, DrValueOf);
  }

  /**
   * With distinct building ids (always the case for a processed hour), the
   * full potential is half a dollar per kW of the hour's heating load.
   */
  lemma DrPotentialIsHeatingLoad(h: HourSnapshot)
    requires forall i, j :: 0 <= i < j < |h.buildings| ==> h.buildings[i].id != h.buildings[j].id
    requires h.systemMetrics == CalculateSystemMetrics(h.buildings)
    ensures DrOptimization(Some(h)).value.totalPotentialDRValue * 2000.0 == -h.systemMetrics.heatingLoad
  {
    assert DrOptimization(Some(h)).value.totalPotentialDRValue == SumOf(Ids(h.buildings), DrFn(h.buildings));
    DrSumIsHeatingDraw(h.buildings);
    HeatingDrawSum(h.buildings);
    SystemMetricsLoadSums(h.buildings);
  }

  // ---------------------------------------------------------------- pumping

  predicate IsHeating(b: BuildingSnapshot) { b.load.Some? && b.load.value < 0.0 }

  predicate IsCooling(b: BuildingSnapshot) { b.load.Some? && b.load.value > 0.0 }

  datatype PumpingSummary = PumpingSummary(
    hasOptimizationOpportunity: bool,
    totalHeatingLoad: real,
    totalCoolingLoad: real,
    balancedLoad: real,
    estimatedSavings: real)

  /** Pump efficiency assumed by the estimate. */
  const PumpingEfficiency: real := 0.85

  /**
   * The pumping panel: heating and cooling buildings, their loads in kW, the
   * load that can be balanced between them and the estimated pumping saving;
   * `null` without a current hour.
   */
  function PumpingOptimization(currentData: Option<HourSnapshot>): (r: Option<PumpingSummary>)
    ensures r.None? <==> currentData.None?
    ensures r.Some? ==> (r.value.hasOptimizationOpportunity <==>
              (exists b :: b in currentData.value.buildings && IsHeating(b))
              && (exists b :: b in currentData.value.buildings && IsCooling(b)))
    ensures r.Some? ==> r.value.totalHeatingLoad >= 0.0 && r.value.totalCoolingLoad >= 0.0
    ensures r.Some? ==> r.value.balancedLoad >= 0.0
    ensures r.Some? ==> r.value.balancedLoad == Min(r.value.totalHeatingLoad, r.value.totalCoolingLoad)
    ensures r.Some? && !r.value.hasOptimizationOpportunity ==> r.value.balancedLoad == 0.0
    ensures r.Some? ==> r.value.estimatedSavings >= 0.0 && r.value.estimatedSavings * 40.0 == r.value.balancedLoad * 3.0
  {
    match currentData
    case None => None
    case Some(h) =>
      var heatingBuildings := Filter(h.buildings, IsHeating);
      var coolingBuildings := Filter(h.buildings, IsCooling);
      var hasOptimizationOpportunity := |heatingBuildings| > 0 && |coolingBuildings| > 0;
      SumOfNonNegative(heatingBuildings, HeatingDraw);
      SumOfNonNegative(coolingBuildings, LoadOf);
      var totalHeatingLoad := SumOf(heatingBuildings, HeatingDraw) / 1000.0;
      var totalCoolingLoad := SumOf(coolingBuildings, LoadOf) / 1000.0;
      var balancedLoad := Min(totalHeatingLoad, totalCoolingLoad);
      assert heatingBuildings != [] ==> heatingBuildings[0] in heatingBuildings;
      assert coolingBuildings != [] ==> coolingBuildings[0] in coolingBuildings;
      Some(PumpingSummary(
        hasOptimizationOpportunity,
        totalHeatingLoad,
        totalCoolingLoad,
        balancedLoad,
        balancedLoad * (1.0 - PumpingEfficiency) * 0.5))
  }

  /**
   * The pumping panel's totals are the hour's metrics in kW: the heating
   * total is minus `heatingLoad`, the cooling total is `coolingLoad`.
   */
  lemma PumpingMatchesSystemMetrics(h: HourSnapshot)
    requires h.systemMetrics == CalculateSystemMetrics(h.buildings)
    ensures PumpingOptimization(Some(h)).value.totalHeatingLoad * 1000.0 == -h.systemMetrics.heatingLoad
    ensures PumpingOptimization(Some(h)).value.totalCoolingLoad * 1000.0 == h.systemMetrics.coolingLoad
  {
    var p := PumpingOptimization(Some(h)).value;
    assert p.totalHeatingLoad * 1000.0 == SumOf(Filter(h.buildings, IsHeating), HeatingDraw);
    assert p.totalCoolingLoad * 1000.0 == SumOf(Filter(h.buildings, IsCooling), LoadOf);
    HeatingBuildingsSum(h.buildings);
    HeatingDrawSum(h.buildings);
    CoolingBuildingsSum(h.buildings);
    SystemMetricsLoadSums(h.buildings);
  }

  /** Summing the heating buildings' draw is summing every building's draw (the others draw nothing). */
  lemma {:induction false} HeatingBuildingsSum(buildings: seq<BuildingSnapshot>)
    ensures SumOf(Filter(buildings, IsHeating), HeatingDraw) == SumOf(buildings, HeatingDraw)
  {
    forall b | b in buildings ensures HeatingDraw(b) == (if IsHeating(b) then HeatingDraw(b) else 0.0) {
    }
    SumOfFilter(buildings, IsHeating, HeatingDraw, HeatingDraw);
  }

  /** Summing the cooling buildings' load is summing every building's cooling part. */
  lemma {:induction false} CoolingBuildingsSum(buildings: seq<BuildingSnapshot>)
    ensures SumOf(Filter(buildings, IsCooling), LoadOf) == SumOf(buildings, CoolingPart)
  {
    forall b | b in buildings ensures CoolingPart(b) == (if IsCooling(b) then LoadOf(b) else 0.0) {
    }
    SumOfFilter(buildings, IsCooling, LoadOf, CoolingPart);
  }
}
