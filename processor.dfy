/**
 * The hourly data store and query layer: the `ThermalNetworkDataProcessor`
 * class of src/utils/dataProcessor.js, with its four fields, `processData`,
 * the current-hour cursor and the read-only queries.
 */
module Processor {
  import opened Common
  import opened Collections
  import opened Roster
  import opened Hourly
  import opened Text

  /** Whether a call completed or threw. */
  datatype Outcome = Pass | Fail(error: string)

  /** `getHourlyData`'s three answers: `null` (nothing loaded), `undefined` (no such hour), or the snapshot. */
  datatype HourLookup = NotLoaded | NotFound | Found(snapshot: HourSnapshot)

  /** One entry of `getTimeSeriesData`. */
  datatype TimeSeriesPoint = TimeSeriesPoint(
    hour: Option<real>,
    outdoorTemp: Option<real>,
    geoTotal: real,
    airTotal: real,
    savings: real,
    geoCOP: Option<real>,
    airCOP: Option<real>)

  datatype NodeType = HeatSink | HeatSource

  /** One entry of `getBuildingNetworkData`. */
  datatype BuildingNode = BuildingNode(
    id: string,
    name: string,
    x: int,
    y: int,
    nodeType: NodeType,
    temperature: Option<real>,
    load: Option<real>,
    geoEfficiency: Option<real>,
    airEfficiency: Option<real>,
    energySavings: Option<real>,
    efficiencyGain: Option<real>)

  /** `processedData` after `processData`: one snapshot per raw row, in row order. */
  function SnapshotFn(roster: seq<string>): RawRow -> HourSnapshot
  {
    row => HourSnapshotOf(row, roster)
  }

  function ProcessedRows(rows: seq<RawRow>, roster: seq<string>): (data: seq<HourSnapshot>)
    ensures |data| == |rows|
    ensures forall i :: 0 <= i < |rows| ==> data[i] == HourSnapshotOf(rows[i], roster)
  {
    Map(rows, SnapshotFn(roster))
  }

  /** Every processed hour is keyed by the roster. */
  lemma ProcessedRowsKeys(rows: seq<RawRow>, roster: seq<string>)
    ensures forall k :: 0 <= k < |rows| ==> Ids(ProcessedRows(rows, roster)[k].buildings) == roster
  {
    forall k | 0 <= k < |rows| ensures Ids(ProcessedRows(rows, roster)[k].buildings) == roster {
      HourSnapshotKeys(rows[k], roster);
    }
  }

  /** `processedData.find(data => data.hour === hour)`: the first snapshot of that hour. */
  function FindHour(data: seq<HourSnapshot>, hour: real): (r: Option<HourSnapshot>)
    ensures r.None? <==> forall i :: 0 <= i < |data| ==> data[i].hour != Some(hour)
    ensures r.Some? ==> exists i :: 0 <= i < |data| && data[i] == r.value && r.value.hour == Some(hour)
                                    && forall j :: 0 <= j < i ==> data[j].hour != Some(hour)
    decreases |data|
  {
    if data == [] then None
    else if data[0].hour == Some(hour) then Some(data[0])
    else
      var r := FindHour(data[1..], hour);
      assert forall i :: 1 <= i < |data| ==> data[i] == data[1..][i - 1];
      if r.Some? then
        var i :| 0 <= i < |data[1..]| && data[1..][i] == r.value && r.value.hour == Some(hour)
                 && forall j :: 0 <= j < i ==> data[1..][j].hour != Some(hour);
        assert data[i + 1] == r.value && forall j :: 0 <= j < i + 1 ==> data[j].hour != Some(hour);
        r
      else r
  }

  /** The hours of a dataset are the dense sequence 1..N matching positions. */
  ghost predicate DenseHours(data: seq<HourSnapshot>)
  {
    forall i :: 0 <= i < |data| ==> data[i].hour == Some((i + 1) as real)
  }

  /**
   * When the hours are 1..N in order, looking an hour up is direct indexing:
   * hour h in 1..N is found at position h - 1, and any other value (0, a value
   * beyond N, a fraction) is not found.
   */
  lemma DenseHoursLookup(data: seq<HourSnapshot>, hour: real)
    requires DenseHours(data)
    ensures hour.Floor as real == hour && 1 <= hour.Floor <= |data| ==> FindHour(data, hour) == Some(data[hour.Floor - 1])
    ensures !(hour.Floor as real == hour && 1 <= hour.Floor <= |data|) ==> FindHour(data, hour) == None
  {
    forall i | 0 <= i < |data|
      ensures data[i].hour == Some(hour) ==> hour.Floor == i + 1 && hour.Floor as real == hour
    {
    }
    if hour.Floor as real == hour && 1 <= hour.Floor <= |data| {
      assert data[hour.Floor - 1].hour == Some(hour);
    }
  }

  function TimeSeriesPointOf(h: HourSnapshot): (p: TimeSeriesPoint)
    ensures p.hour == h.hour && p.outdoorTemp == h.outdoorTemp.celsius
    ensures p.geoTotal == h.systemMetrics.totalGeoElectric && p.airTotal == h.systemMetrics.totalAirElectric
    ensures p.savings == h.systemMetrics.totalEnergySavings
    ensures p.geoCOP == h.systemMetrics.avgGeoCOP && p.airCOP == h.systemMetrics.avgAirCOP
  {
    var m := h.systemMetrics;
    TimeSeriesPoint(h.hour, h.outdoorTemp.celsius, m.totalGeoElectric, m.totalAirElectric,
                    m.totalEnergySavings, m.avgGeoCOP, m.avgAirCOP)
  }

  /** `getTimeSeriesData` as a function of the dataset alone: it never looks at the cursor. */
  function TimeSeries(processedData: Option<seq<HourSnapshot>>): (r: seq<TimeSeriesPoint>)
    ensures processedData.None? ==> r == []
    ensures processedData.Some? ==> |r| == |processedData.value|
    ensures processedData.Some? ==> forall i :: 0 <= i < |r| ==> r[i] == TimeSeriesPointOf(processedData.value[i])
  {
    match processedData
    case None => []
    case Some(data) => seq(|data|, i requires 0 <= i < |data| => TimeSeriesPointOf(data[i]))
  }

  /** In every processed hour the plotted savings are the air-source total minus the geothermal total. */
  lemma TimeSeriesSavings(rows: seq<RawRow>, roster: seq<string>, i: nat)
    requires i < |rows|
    ensures var p := TimeSeries(Some(ProcessedRows(rows, roster)))[i];
            p.savings == p.airTotal - p.geoTotal
  {
  }

  /** `` `Building ${id.split('_')[1]}` `` (with `undefined` when the id has no `_`). */
  function DisplayName(id: string): string
  {
    match SplitSecond(id)
    case Some(n) => "Building " + n
    case None => "Building undefined"
  }

  /** Grid position of the building at roster index `index`: seven per row. */
  function GridX(index: nat): (x: int)
    ensures 50 <= x <= 650
  {
    (index % 7) * 100 + 50
  }

  function GridY(index: nat): (y: int)
    ensures y >= 50
  {
    (index / 7) * 80 + 50
  }

  /** No two roster positions share a grid cell. */
  lemma GridPositionsDistinct(i: nat, j: nat)
    requires i != j
    ensures GridX(i) != GridX(j) || GridY(i) != GridY(j)
  {
    assert i == (i / 7) * 7 + i % 7;
    assert j == (j / 7) * 7 + j % 7;
  }

  /** The record `getBuildingNetworkData` builds for the building at roster index `index`. */
  function BuildingNodeOf(b: BuildingSnapshot, index: nat): (n: BuildingNode)
    ensures n.id == b.id && n.name == DisplayName(b.id)
    ensures n.nodeType == HeatSink <==> b.load.Some? && b.load.value < 0.0
    ensures n.load.Some? <==> b.load.Some?
    ensures n.load.Some? ==> n.load.value >= 0.0 && (n.load.value == b.load.value || n.load.value == -b.load.value)
    ensures n.x == GridX(index) && n.y == GridY(index)
    ensures n.temperature == b.inletTemp.celsius
    ensures n.geoEfficiency == b.geo.cop && n.airEfficiency == b.air.cop
    ensures n.energySavings == b.efficiency.energySavings && n.efficiencyGain == b.efficiency.efficiencyGain
  {
    BuildingNode(
      b.id,
      DisplayName(b.id),
      GridX(index),
      GridY(index),
      if b.load.Some? && b.load.value < 0.0 then HeatSink else HeatSource,
      b.inletTemp.celsius,
      if b.load.Some? then Some(Abs(b.load.value)) else None,
      b.geo.cop,
      b.air.cop,
      b.efficiency.energySavings,
      b.efficiency.efficiencyGain)
  }

  /** `rawData.map(row => this.processHourlyData(row))`. */
  method ProcessRows(rows: seq<RawRow>, roster: seq<string>) returns (snapshots: seq<HourSnapshot>)
    ensures snapshots == ProcessedRows(rows, roster)
  {
    var f := SnapshotFn(roster);
    snapshots := [];
    var i := 0;
    while i < |rows|
      invariant 0 <= i <= |rows|
      invariant snapshots == Map(rows[..i], f)
    {
      var h := ProcessHourlyData(rows[i], roster);
      MapExtend(rows, f, i);
      snapshots := snapshots + [h];
      i := i + 1;
    }
    assert rows[..i] == rows;
  }

  /** The work of `processData` on a non-empty dataset: the roster from the first row, then every hour. */
  method ProcessDataset(rows: seq<RawRow>) returns (roster: seq<string>, snapshots: seq<HourSnapshot>)
    requires rows != []
    ensures roster == BuildingRoster(rows[0]) && Distinct(roster)
    ensures snapshots == ProcessedRows(rows, roster)
    ensures forall k :: 0 <= k < |snapshots| ==> Ids(snapshots[k].buildings) == roster
  {
    roster := ExtractBuildingList(rows[0]);
    RosterDistinct(rows[0]);
    snapshots := ProcessRows(rows, roster);
    ProcessedRowsKeys(rows, roster);
  }

  class ThermalNetworkDataProcessor {
    var rawData: Option<seq<RawRow>>
    var processedData: Option<seq<HourSnapshot>>
    var buildings: seq<string>
    var currentHour: real

    /** The roster has no duplicates and is the key list of every processed hour. */
    ghost predicate Valid()
      reads this
    {
      && Distinct(buildings)
      && (processedData.Some? ==>
            forall i :: 0 <= i < |processedData.value| ==> Ids(processedData.value[i].buildings) == buildings)
    }

    constructor ()
      ensures Valid()
      ensures rawData == None && processedData == None && buildings == [] && currentHour == 1.0
    {
      rawData := None;
      processedData := None;
      buildings := [];
      currentHour := 1.0;
    }

    /**
     * `processData`: nothing happens before raw data is present; on an empty
     * dataset `extractBuildingList` throws (there is no first row) before any
     * field is assigned; otherwise the roster and every hour are rebuilt from
     * scratch, replacing what was there.
     */
    method ProcessData() returns (outcome: Outcome)
      requires Valid()
      modifies this`buildings, this`processedData
      ensures Valid()
      ensures rawData.None? ==> outcome == Pass && unchanged(this)
      ensures rawData == Some([]) ==> outcome.Fail? && unchanged(this)
      ensures rawData.Some? && rawData.value != [] ==>
                && outcome == Pass
                && buildings == BuildingRoster(rawData.value[0])
                && processedData == Some(ProcessedRows(rawData.value, buildings))
    {
      if rawData.None? {
        return Pass;
      }
      var rows := rawData.value;
      if rows == [] {
        return Fail("TypeError: Cannot convert undefined or null to object");
      }
      var roster, snapshots := ProcessDataset(rows);
      buildings := roster;
      processedData := Some(snapshots);
      outcome := Pass;
    }

    /**
     * `loadData` after its fetch: the parsed rows become `rawData` and are
     * processed; a failure of `processData` is passed on to the caller.
     */
    method LoadRows(rows: seq<RawRow>) returns (outcome: Outcome)
      requires Valid()
      modifies this`rawData, this`buildings, this`processedData
      ensures Valid()
      ensures rawData == Some(rows)
      ensures rows == [] ==> outcome.Fail? && buildings == old(buildings) && processedData == old(processedData)
      ensures rows != [] ==>
                && outcome == Pass
                && buildings == BuildingRoster(rows[0])
                && processedData == Some(ProcessedRows(rows, buildings))
    {
      rawData := Some(rows);
      outcome := ProcessData();
    }

    function GetHourlyData(hour: real): (r: HourLookup)
      reads this
      ensures r.NotLoaded? <==> processedData.None?
      ensures r.NotFound? <==> processedData.Some? && forall i :: 0 <= i < |processedData.value| ==> processedData.value[i].hour != Some(hour)
      ensures r.Found? ==> r.snapshot in processedData.value && r.snapshot.hour == Some(hour)
      ensures r.Found? ==> r.snapshot == FindHour(processedData.value, hour).value
    {
      match processedData
      case None => NotLoaded
      case Some(data) =>
        match FindHour(data, hour)
        case None => NotFound
        case Some(h) => Found(h)
    }

    function GetCurrentHourData(): (r: HourLookup)
      reads this
      ensures r == GetHourlyData(currentHour)
      ensures r.Found? ==> r.snapshot.hour == Some(currentHour)
    {
      GetHourlyData(currentHour)
    }

    /** The cursor takes any value; an hour outside the data only shows up later, as "not found". */
    method SetCurrentHour(hour: real)
      modifies this`currentHour
      ensures currentHour == hour
    {
      currentHour := hour;
    }

    function GetTimeSeriesData(): (r: seq<TimeSeriesPoint>)
      reads this
      ensures r == TimeSeries(processedData)
      ensures processedData.Some? ==> |r| == |processedData.value|
    {
      TimeSeries(processedData)
    }

    /**
     * `getBuildingNetworkData`: one record per roster building, in roster
     * order, for the current hour; nothing when no data is loaded or the
     * current hour is missing.  `currentData.buildings[id]` is the building at
     * the same index, because every hour's keys are the roster (`Valid`).
     */
    function GetBuildingNetworkData(): (r: seq<BuildingNode>)
      requires Valid()
      reads this
      ensures processedData.None? ==> r == []
      ensures !GetCurrentHourData().Found? ==> r == []
      ensures GetCurrentHourData().Found? ==>
                && |r| == |buildings|
                && forall i :: 0 <= i < |r| ==>
                     && r[i].id == buildings[i]
                     && LookupBuilding(GetCurrentHourData().snapshot.buildings, buildings[i]).Some?
                     && r[i] == BuildingNodeOf(LookupBuilding(GetCurrentHourData().snapshot.buildings, buildings[i]).value, i)
    {
      match GetCurrentHourData()
      case Found(current) =>
        var roster := buildings;
        assert Ids(current.buildings) == roster;
        var nodes := seq(|roster|, i requires 0 <= i < |roster| => BuildingNodeOf(current.buildings[i], i));
        assert forall i :: 0 <= i < |buildings| ==> LookupBuilding(current.buildings, buildings[i]) == Some(current.buildings[i]) by {
          forall i | 0 <= i < |buildings| ensures LookupBuilding(current.buildings, buildings[i]) == Some(current.buildings[i]) {
            assert current.buildings[i].id == Ids(current.buildings)[i] == buildings[i];
            LookupBuildingAt(current.buildings, i);
          }
        }
        nodes
      case _ => []
    }
  }

  /** Loading the same rows twice gives the same state as loading them once. */
  method ReloadIsIdempotent(rows: seq<RawRow>) returns (first: Outcome, second: Outcome, sameState: bool)
    requires rows != []
    ensures first == Pass && second == Pass && sameState
  {
    var p := new ThermalNetworkDataProcessor();
    first := p.LoadRows(rows);
    var buildingsOnce, dataOnce := p.buildings, p.processedData;
    second := p.LoadRows(rows);
    sameState := p.buildings == buildingsOnce && p.processedData == dataOnce;
  }
}
