/**
 * The three borefields of src/App.js: which buildings each one serves,
 * `calculateBorefieldMetrics`, the per-borefield expansion and asset-value
 * panel, and the "new asset" value of a data-centre connection.
 */
module Borefields {
  import opened Common
  import opened Text
  import opened Roster
  import opened Hourly

  /** `` `b_${n}` ``. */
  function BuildingId(n: nat): (id: string)
    ensures IsBuildingId(id) && id[2..] == NatToString(n)
  {
    "b_" + NatToString(n)
  }

  /** The number a generated id carries is the one it was made from. */
  lemma BuildingIdNumber(n: nat)
    ensures IdNumber(BuildingId(n)) == n
  {
    IdNumberOfBuildingId(BuildingId(n));
  }

  lemma BuildingIdInjective(m: nat, n: nat)
    requires BuildingId(m) == BuildingId(n)
    ensures m == n
  {
    BuildingIdNumber(m);
    BuildingIdNumber(n);
  }

  /** `parseInt(id.split('_')[1])` for a generated id is the number it was made from. */
  lemma BuildingIdParses(n: nat)
    ensures SplitSecond(BuildingId(n)).Some?
    ensures ParseLeadingInt(SplitSecond(BuildingId(n)).value) == Some(n)
  {
    SplitSecondOfBuildingId(BuildingId(n));
    ParseLeadingIntOfDigits(NatToString(n));
  }

  /** `` Array.from({length: count}, (_, i) => `b_${i + first}`) ``. */
  function IdRange(first: nat, count: nat): (r: seq<string>)
    ensures |r| == count
    ensures forall i :: 0 <= i < count ==> r[i] == BuildingId(first + i)
  {
    seq(count, i requires 0 <= i < count => BuildingId(first + i))
  }

  lemma IdRangeMembers(first: nat, count: nat, n: nat)
    ensures BuildingId(n) in IdRange(first, count) <==> first <= n < first + count
  {
    var r := IdRange(first, count);
    if BuildingId(n) in r {
      var i :| 0 <= i < count && r[i] == BuildingId(n);
      BuildingIdInjective(first + i, n);
    }
    if first <= n < first + count {
      assert r[n - first] == BuildingId(n);
    }
  }

  lemma LowIds()
    ensures BuildingId(1) == "b_1" && BuildingId(2) == "b_2" && BuildingId(3) == "b_3"
    ensures BuildingId(4) == "b_4" && BuildingId(5) == "b_5"
  {
  }

  /** `buildingsByBorefield[borefieldId] || []`. */
  function ServedBy(borefieldId: string): (ids: seq<string>)
  {
    if borefieldId == "borefield_1" then IdRange(16, 21)
    else if borefieldId == "borefield_2" then ["b_1", "b_2", "b_3"]
    else if borefieldId == "borefield_3" then ["b_4", "b_5"] + IdRange(6, 10)
    else []
  }

  predicate KnownBorefield(borefieldId: string)
  {
    borefieldId == "borefield_1" || borefieldId == "borefield_2" || borefieldId == "borefield_3"
  }

  /** Borefield 2 serves b_1..b_3 and borefield 3 serves b_4..b_15, in that order. */
  lemma ServedByAsRanges()
    ensures ServedBy("borefield_1") == IdRange(16, 21)
    ensures ServedBy("borefield_2") == IdRange(1, 3)
    ensures ServedBy("borefield_3") == IdRange(4, 12)
  {
    LowIds();
    var r2 := IdRange(1, 3);
    assert r2[0] == "b_1" && r2[1] == "b_2" && r2[2] == "b_3";
    Borefield3Range();
  }

  lemma Borefield3Range()
    ensures ["b_4", "b_5"] + IdRange(6, 10) == IdRange(4, 12)
  {
    LowIds();
    var r3, tail := IdRange(4, 12), IdRange(6, 10);
    assert r3[0] == "b_4" && r3[1] == "b_5";
    assert forall k :: 2 <= k < 12 ==> r3[k] == tail[k - 2];
  }

  /**
   * Membership: borefield 1 serves b_16..b_36 (21 buildings), borefield 2
   * serves b_1..b_3 and borefield 3 serves b_4..b_15 (12 buildings).
   */
  lemma ServedByMembers(n: nat)
    ensures BuildingId(n) in ServedBy("borefield_1") <==> 16 <= n <= 36
    ensures BuildingId(n) in ServedBy("borefield_2") <==> 1 <= n <= 3
    ensures BuildingId(n) in ServedBy("borefield_3") <==> 4 <= n <= 15
    ensures |ServedBy("borefield_1")| == 21 && |ServedBy("borefield_2")| == 3 && |ServedBy("borefield_3")| == 12
  {
    ServedByAsRanges();
    IdRangeMembers(16, 21, n);
    IdRangeMembers(1, 3, n);
    IdRangeMembers(4, 12, n);
  }

  /** Every building b_1..b_36 is served by exactly one borefield, and nothing else is served. */
  lemma ServedByPartition(n: nat)
    ensures 1 <= n <= 36 ==>
              (if BuildingId(n) in ServedBy("borefield_1") then 1 else 0)
              + (if BuildingId(n) in ServedBy("borefield_2") then 1 else 0)
              + (if BuildingId(n) in ServedBy("borefield_3") then 1 else 0) == 1
    ensures !(1 <= n <= 36) ==>
              forall b :: BuildingId(n) !in ServedBy(b)
  {
    ServedByMembers(n);
    forall b ensures !(1 <= n <= 36) ==> BuildingId(n) !in ServedBy(b) {
    }
  }

  /** Any other borefield id serves nobody. */
  lemma ServedByUnknown(borefieldId: string)
    requires !KnownBorefield(borefieldId)
    ensures ServedBy(borefieldId) == []
  {
  }

  // ---------------------------------------------------------------- metrics

  datatype BorefieldMetrics = BorefieldMetrics(currentLoadKW: real, capacityPercent: real, buildingsCount: nat)

  /** Rated capacity of each borefield, kW. */
  const CapacityKW: real := 440.0

  /** `currentData.buildings[id]?.load || 0`. */
  function MemberLoad(buildings: seq<BuildingSnapshot>, id: string): (w: real)
    ensures LookupBuilding(buildings, id).None? ==> w == 0.0
  {
    match LookupBuilding(buildings, id)
    case Some(b) => OrZero(b.load)
    case None => 0.0
  }

  function MemberLoadFn(buildings: seq<BuildingSnapshot>): string -> real
  {
    id => MemberLoad(buildings, id)
  }

  /** The signed load, in W, of the buildings a borefield serves. */
  function ServedLoad(buildings: seq<BuildingSnapshot>, borefieldId: string): real
  {
    SumOf(ServedBy(borefieldId), MemberLoadFn(buildings))
  }

  /**
   * `calculateBorefieldMetrics`: `null` without a current hour, otherwise the
   * served load in kW (heating negative), its share of the 440 kW capacity and
   * the number of served buildings.
   */
  function CalculateBorefieldMetrics(currentData: Option<HourSnapshot>, borefieldId: string): (r: Option<BorefieldMetrics>)
    ensures r.None? <==> currentData.None?
    ensures r.Some? ==> r.value.currentLoadKW * 1000.0 == ServedLoad(currentData.value.buildings, borefieldId)
    ensures r.Some? ==> r.value.capacityPercent >= 0.0
    ensures r.Some? ==> r.value.capacityPercent * CapacityKW == Abs(r.value.currentLoadKW) * 100.0
    ensures r.Some? ==> r.value.buildingsCount == |ServedBy(borefieldId)|
    ensures r.Some? && !KnownBorefield(borefieldId) ==> r.value.currentLoadKW == 0.0 && r.value.buildingsCount == 0
  {
    match currentData
    case None => None
    case Some(h) =>
      var currentLoadKW := ServedLoad(h.buildings, borefieldId) / 1000.0;
      Some(BorefieldMetrics(currentLoadKW, Abs(currentLoadKW) / CapacityKW * 100.0, |ServedBy(borefieldId)|))
  }

  /**
   * When the hour's buildings are exactly b_1..b_36 in order, the three
   * borefields' loads add up to the whole network's signed load.
   */
  lemma BorefieldLoadsAddUp(buildings: seq<BuildingSnapshot>)
    requires Ids(buildings) == IdRange(1, 36)
    ensures ServedLoad(buildings, "borefield_2") + ServedLoad(buildings, "borefield_3") + ServedLoad(buildings, "borefield_1")
            == SumOf(buildings, LoadOf)
  {
    var f := MemberLoadFn(buildings);
    var all := IdRange(1, 36);
    ServedByAsRanges();
    assert all == IdRange(1, 3) + IdRange(4, 12) + IdRange(16, 21);
    SumOfAppend(IdRange(1, 3) + IdRange(4, 12), IdRange(16, 21), f);
    SumOfAppend(IdRange(1, 3), IdRange(4, 12), f);
    forall i | 0 <= i < |all| ensures f(all[i]) == LoadOf(buildings[i]) {
      forall j, k | 0 <= j < k < |buildings| ensures buildings[j].id != buildings[k].id {
        assert buildings[j].id == all[j] == BuildingId(1 + j);
        assert buildings[k].id == all[k] == BuildingId(1 + k);
        BuildingIdNumber(1 + j);
        BuildingIdNumber(1 + k);
      }
      assert buildings[i].id == all[i];
      LookupBuildingAt(buildings, i);
    }
    SumOfPointwise(all, f, buildings, LoadOf);
  }

  // ---------------------------------------------------------------- panel

  datatype UtilizationStatus = LowUtilization | ModerateUtilization | HighUtilization

  /** The status badge: below 50 %, below 80 %, or above. */
  function Status(utilizationPercent: real): (s: UtilizationStatus)
    ensures s == LowUtilization <==> utilizationPercent < 50.0
    ensures s == ModerateUtilization <==> 50.0 <= utilizationPercent < 80.0
    ensures s == HighUtilization <==> utilizationPercent >= 80.0
  {
    if utilizationPercent < 50.0 then LowUtilization
    else if utilizationPercent < 80.0 then ModerateUtilization
    else HighUtilization
  }

  /** The badge never improves as utilization grows. */
  lemma StatusMonotone(u: real, v: real)
    requires u <= v
    ensures Status(u) == HighUtilization ==> Status(v) == HighUtilization
    ensures Status(v) == LowUtilization ==> Status(u) == LowUtilization
  {
  }

  /** The 80 % operating ceiling, kW. */
  const MaxOperatingKW: real := 352.0

  /** Dollars per kW of electricity saved: $15 energy plus $250 capacity. */
  const DollarsPerKW: real := 265.0

  /** `savingsKWElec * 15 + savingsKWElec * 250` where `savingsKWElec = load * (gain / 100)`. */
  function AssetValue(loadKW: real, gain: real): (v: real)
    ensures v * 100.0 == loadKW * gain * DollarsPerKW
  {
    var savingsKWElec := loadKW * (gain / 100.0);
    savingsKWElec * 15.0 + savingsKWElec * 250.0
  }

  datatype BorefieldPanel = BorefieldPanel(
    currentLoad: real,
    availableCapacity: real,
    utilizationPercent: real,
    barWidth: real,
    availableToMaxOperating: real,
    additionalBuildings: int,
    totalAssetValue: real,
    totalPotentialAssetValue: real,
    status: UtilizationStatus)

  /**
   * One borefield card: utilization against 440 kW, the head-room to the
   * 352 kW operating ceiling in 20 kW buildings, and the asset values at the
   * current load and at the ceiling, with `systemEfficiencyGain || 0`.
   */
  function BorefieldPanelOf(metrics: BorefieldMetrics, systemEfficiencyGain: Option<real>): (p: BorefieldPanel)
    ensures p.currentLoad >= 0.0 && p.currentLoad == Abs(metrics.currentLoadKW)
    ensures p.availableCapacity + p.currentLoad == CapacityKW
    ensures p.utilizationPercent >= 0.0 && p.utilizationPercent * CapacityKW == p.currentLoad * 100.0
    ensures p.barWidth <= 100.0 && (p.utilizationPercent <= 100.0 ==> p.barWidth == p.utilizationPercent)
    ensures p.utilizationPercent >= 100.0 ==> p.barWidth == 100.0
    ensures 0.0 <= p.availableToMaxOperating <= MaxOperatingKW
    ensures p.currentLoad <= MaxOperatingKW ==> p.availableToMaxOperating + p.currentLoad == MaxOperatingKW
    ensures p.currentLoad >= MaxOperatingKW ==> p.availableToMaxOperating == 0.0
    ensures 0 <= p.additionalBuildings <= 17
    ensures p.additionalBuildings as real * 20.0 <= p.availableToMaxOperating < (p.additionalBuildings + 1) as real * 20.0
    ensures p.totalAssetValue == AssetValue(p.currentLoad, OrZero(systemEfficiencyGain))
    ensures p.totalPotentialAssetValue == AssetValue(MaxOperatingKW, OrZero(systemEfficiencyGain))
    ensures p.status == Status(p.utilizationPercent)
  {
    var currentLoad := Abs(metrics.currentLoadKW);
    var utilizationPercent := currentLoad / CapacityKW * 100.0;
    var availableToMaxOperating := Max(0.0, MaxOperatingKW - currentLoad);
    var additionalBuildings := (availableToMaxOperating / 20.0).Floor;
    var gain := OrZero(systemEfficiencyGain);
    BorefieldPanel(
      currentLoad,
      CapacityKW - currentLoad,
      utilizationPercent,
      Min(100.0, utilizationPercent),
      availableToMaxOperating,
      additionalBuildings,
      AssetValue(currentLoad, gain),
      AssetValue(MaxOperatingKW, gain),
      Status(utilizationPercent))
  }

  /** An idle borefield has room for 17 more 20 kW buildings under the ceiling. */
  lemma IdleBorefieldExpansion(systemEfficiencyGain: Option<real>)
    ensures BorefieldPanelOf(BorefieldMetrics(0.0, 0.0, 0), systemEfficiencyGain).additionalBuildings == 17
  {
  }

  /** With a non-negative gain, the value at the current load never exceeds the value at the ceiling while under it. */
  lemma AssetValueBelowPotential(metrics: BorefieldMetrics, systemEfficiencyGain: Option<real>)
    requires OrZero(systemEfficiencyGain) >= 0.0
    requires Abs(metrics.currentLoadKW) <= MaxOperatingKW
    ensures BorefieldPanelOf(metrics, systemEfficiencyGain).totalAssetValue
            <= BorefieldPanelOf(metrics, systemEfficiencyGain).totalPotentialAssetValue
  {
    var p := BorefieldPanelOf(metrics, systemEfficiencyGain);
    var g := OrZero(systemEfficiencyGain);
    assert p.currentLoad * g <= MaxOperatingKW * g;
  }

  // ---------------------------------------------------------------- new asset

  /**
   * The data-centre card: the value of raising the efficiency gain by 3
   * points on borefield 2's load; `null` without a current hour.
   */
  function NewAssetValue(currentData: Option<HourSnapshot>): (r: Option<real>)
    ensures r.None? <==> currentData.None?
    ensures r.Some? ==> r.value * 100.0
                        == Abs(CalculateBorefieldMetrics(currentData, "borefield_2").value.currentLoadKW) * 3.0 * DollarsPerKW
  {
    match CalculateBorefieldMetrics(currentData, "borefield_2")
    case None => None
    case Some(bf2Metrics) =>
      var currentEfficiencyGain := OrZero(currentData.value.systemMetrics.systemEfficiencyGain);
      var newEfficiencyGain := currentEfficiencyGain + 3.0;
      var bf2Load := Abs(bf2Metrics.currentLoadKW);
      var oldSavingsKWElec := bf2Load * (currentEfficiencyGain / 100.0);
      var newSavingsKWElec := bf2Load * (newEfficiencyGain / 100.0);
      var deltaSavingsKWElec := newSavingsKWElec - oldSavingsKWElec;
      assert deltaSavingsKWElec * 100.0 == bf2Load * 3.0;
      Some(deltaSavingsKWElec * 15.0 + deltaSavingsKWElec * 250.0)
  }

  /** The new-asset value does not depend on the current efficiency gain, only on borefield 2's load. */
  lemma NewAssetValueIgnoresGain(h1: HourSnapshot, h2: HourSnapshot)
    requires h1.buildings == h2.buildings
    ensures NewAssetValue(Some(h1)) == NewAssetValue(Some(h2))
  {
    var a, b := NewAssetValue(Some(h1)).value, NewAssetValue(Some(h2)).value;
    assert a * 100.0 == b * 100.0;
  }
}
