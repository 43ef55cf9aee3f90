/**
 * The efficiency dashboard (src/components/EfficiencyDashboard.js): the
 * hour's system figures in kW, the cost saving at $0.12 per kWh, the
 * payback of a $5M network, and the first week of the time series.
 */
module Dashboard {
  import opened Common
  import opened Hourly
  import opened Processor

  /** Assumed electricity price, $ per kWh. */
  const EnergyRate: real := 0.12

  /** Hours in a year. */
  const HoursPerYear: real := 8760.0

  /** Assumed network investment, $. */
  const InfrastructureInvestment: real := 5000000.0

  datatype Figures = Figures(
    totalGeoElectric: real,
    totalAirElectric: real,
    totalSavings: real,
    efficiencyGain: Option<real>,
    avgGeoCOP: Option<real>,
    avgAirCOP: Option<real>,
    hourlyCostSavings: real,
    annualCostSavings: real,
    peakDemandReduction: real,
    paybackPeriod: real)

  /** `infrastructureInvestment / Math.max(1, annualCostSavings)`, in years. */
  function PaybackPeriod(annualCostSavings: real): (years: real)
    ensures 0.0 < years <= InfrastructureInvestment
    ensures years * Max(1.0, annualCostSavings) == InfrastructureInvestment
    ensures annualCostSavings <= 1.0 ==> years == InfrastructureInvestment
  {
    InfrastructureInvestment / Max(1.0, annualCostSavings)
  }

  /** A larger annual saving never lengthens the payback. */
  lemma PaybackMonotone(a: real, b: real)
    requires a <= b
    ensures PaybackPeriod(b) <= PaybackPeriod(a)
  {
    var pa, pb := PaybackPeriod(a), PaybackPeriod(b);
    var ma, mb := Max(1.0, a), Max(1.0, b);
    assert pb * mb == InfrastructureInvestment == pa * ma;
    assert pa * ma <= pa * mb;
    assert (pb - pa) * mb <= 0.0;
  }

  /**
   * The dashboard's figures; the loading placeholder (`None`) unless both
   * the hour and its system metrics are present.
   */
  function DashboardFigures(currentData: Option<HourSnapshot>, systemMetrics: Option<SystemMetrics>): (r: Option<Figures>)
    ensures r.Some? <==> currentData.Some? && systemMetrics.Some?
    ensures r.Some? ==>
              var m := systemMetrics.value;
              && r.value.totalGeoElectric * 1000.0 == m.totalGeoElectric
              && r.value.totalAirElectric * 1000.0 == m.totalAirElectric
              && r.value.totalSavings * 1000.0 == m.totalEnergySavings
              && r.value.efficiencyGain == m.systemEfficiencyGain
              && r.value.avgGeoCOP == m.avgGeoCOP && r.value.avgAirCOP == m.avgAirCOP
    ensures r.Some? ==> r.value.annualCostSavings == r.value.totalSavings * EnergyRate * HoursPerYear
    ensures r.Some? ==> r.value.hourlyCostSavings * 8760.0 == r.value.annualCostSavings
    ensures r.Some? ==> r.value.peakDemandReduction == r.value.totalSavings
    ensures r.Some? ==> r.value.paybackPeriod * Max(1.0, r.value.annualCostSavings) == InfrastructureInvestment
  {
    if currentData.None? || systemMetrics.None? then None
    else
      var m := systemMetrics.value;
      var totalSavings := m.totalEnergySavings / 1000.0;
      var hourlyCostSavings := totalSavings * EnergyRate;
      var annualCostSavings := hourlyCostSavings * HoursPerYear;
      Some(Figures(
        m.totalGeoElectric / 1000.0,
        m.totalAirElectric / 1000.0,
        totalSavings,
        m.systemEfficiencyGain,
        m.avgGeoCOP,
        m.avgAirCOP,
        hourlyCostSavings,
        annualCostSavings,
        totalSavings,
        PaybackPeriod(annualCostSavings)))
  }

  /**
   * For a processed hour the dashboard's saving is the air-source draw
   * minus the network's draw, in kW, and a network that draws less than
   * the heat pumps would never shows a negative annual saving.
   */
  lemma DashboardSavingsOfHour(h: HourSnapshot)
    requires h.systemMetrics == CalculateSystemMetrics(h.buildings)
    ensures var f := DashboardFigures(Some(h), Some(h.systemMetrics)).value;
            && f.totalSavings == f.totalAirElectric - f.totalGeoElectric
            && (h.systemMetrics.totalGeoElectric <= h.systemMetrics.totalAirElectric ==> f.annualCostSavings >= 0.0)
  {
  }

  /** The network chart's 4.5 kW of savings, about $4,730 a year, pays $5M back in about 1,057 years. */
  lemma DashboardExample()
    ensures var m := SystemMetrics(500.0, 5000.0, 0.0, 0.0, 0.0, 0.0, None, None, None, 4500.0, 4500.0);
            var f := DashboardFigures(Some(HourSnapshot(Some(1.0), Temperature(None, None), [], m)), Some(m)).value;
            && f.annualCostSavings == 4730.4
            && 1056.9 < f.paybackPeriod < 1057.0
  {
    var m := SystemMetrics(500.0, 5000.0, 0.0, 0.0, 0.0, 0.0, None, None, None, 4500.0, 4500.0);
    var f := DashboardFigures(Some(HourSnapshot(Some(1.0), Temperature(None, None), [], m)), Some(m)).value;
    assert f.annualCostSavings == 4730.4;
    assert f.paybackPeriod * 4730.4 == 5000000.0;
    assert 1056.9 * 4730.4 < 5000000.0 < 1057.0 * 4730.4;
  }

  /** The trend chart: the first 168 hours (a week), and no chart when there are none. */
  function WeekTrend(timeSeriesData: seq<TimeSeriesPoint>): (r: Option<seq<TimeSeriesPoint>>)
    ensures r.Some? <==> |timeSeriesData| > 0
    ensures r.Some? ==> r.value <= timeSeriesData && 0 < |r.value| <= 168
    ensures r.Some? ==> |r.value| == if |timeSeriesData| < 168 then |timeSeriesData| else 168
  {
    if |timeSeriesData| > 0 then
      Some(timeSeriesData[..if |timeSeriesData| < 168 then |timeSeriesData| else 168])
    else None
  }

  /** The chart shows the whole series exactly when it is at most a week long. */
  lemma WeekTrendWhole(timeSeriesData: seq<TimeSeriesPoint>)
    requires |timeSeriesData| > 0
    ensures WeekTrend(timeSeriesData).value == timeSeriesData <==> |timeSeriesData| <= 168
  {
  }
}
