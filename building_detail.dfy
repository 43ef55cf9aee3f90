/**
 * The building detail card of src/App.js: the building's type and
 * connected borefield, its COP rating, its flexibility class, its
 * demand-response enrolment and its demand-response value.
 */
module BuildingDetail {
  import opened Common
  import opened Text
  import opened Borefields

  datatype BuildingKind =
    | FireDepartment
    | GulfStation
    | CornerCabinet
    | PublicSchool
    | HousingDepartment
    | Residential

  /** The card's type and the number of the borefield it names (`'Borefield k'`). */
  datatype Placement = Placement(kind: BuildingKind, borefield: nat)

  /**
   * The five named buildings b_1..b_5, and every other node a residence:
   * on borefield 1 when `parseInt(id.split('_')[1]) >= 16`, else on
   * borefield 3 (also when that number is `NaN`).
   */
  function Classify(selectedNode: string): (p: Placement)
    ensures 1 <= p.borefield <= 3
    ensures p.kind != Residential <==> selectedNode in ["b_1", "b_2", "b_3", "b_4", "b_5"]
    ensures p.borefield == 2 <==> selectedNode in ["b_1", "b_2", "b_3"]
  {
    if selectedNode == "b_1" then Placement(FireDepartment, 2)
    else if selectedNode == "b_2" then Placement(GulfStation, 2)
    else if selectedNode == "b_3" then Placement(CornerCabinet, 2)
    else if selectedNode == "b_4" then Placement(PublicSchool, 3)
    else if selectedNode == "b_5" then Placement(HousingDepartment, 3)
    else
      match SplitSecond(selectedNode)
      case Some(field) =>
        (match ParseLeadingInt(field)
         case Some(v) => if v >= 16 then Placement(Residential, 1) else Placement(Residential, 3)
         case None => Placement(Residential, 3))
      case None => Placement(Residential, 3)
  }

  /** The card's connected borefield agrees with the membership lists for every b_1..b_36. */
  lemma ClassifyAgreesWithMembership(n: nat)
    requires 1 <= n <= 36
    ensures Classify(BuildingId(n)).borefield == 1 <==> BuildingId(n) in ServedBy("borefield_1")
    ensures Classify(BuildingId(n)).borefield == 2 <==> BuildingId(n) in ServedBy("borefield_2")
    ensures Classify(BuildingId(n)).borefield == 3 <==> BuildingId(n) in ServedBy("borefield_3")
  {
    ServedByMembers(n);
    if n > 5 {
      ClassifyResidence(n);
    } else {
      LowIds();
    }
  }

  /** b_6..b_36 are residences, on borefield 1 from b_16 and on borefield 3 before. */
  lemma ClassifyResidence(n: nat)
    requires 6 <= n <= 36
    ensures Classify(BuildingId(n)) == Placement(Residential, if n >= 16 then 1 else 3)
  {
    LowIds();
    BuildingIdParses(n);
    BuildingIdNumber(n);
    BuildingIdNumber(1);
    BuildingIdNumber(2);
    BuildingIdNumber(3);
    BuildingIdNumber(4);
    BuildingIdNumber(5);
    assert BuildingId(n) !in ["b_1", "b_2", "b_3", "b_4", "b_5"];
  }

  /** Estimated peak demand by type, W: 15 kW for a residence. */
  function MaxDemand(kind: BuildingKind): (w: real)
    ensures w >= 15000.0
    ensures kind == Residential ==> w == 15000.0
  {
    match kind
    case FireDepartment => 50000.0
    case GulfStation => 30000.0
    case CornerCabinet => 20000.0
    case PublicSchool => 80000.0
    case HousingDepartment => 40000.0
    case Residential => 15000.0
  }

  datatype Rating = Excellent | Good | Fair | Poor

  function RatingRank(r: Rating): nat
  {
    match r
    case Poor => 0
    case Fair => 1
    case Good => 2
    case Excellent => 3
  }

  /** The geothermal COP rating, on `building.geo.cop || 0`. */
  function GeoRating(geoCop: Option<real>): (r: Rating)
    ensures r == Excellent <==> OrZero(geoCop) >= 4.5
    ensures r == Good <==> 3.5 <= OrZero(geoCop) < 4.5
    ensures r == Fair <==> 2.5 <= OrZero(geoCop) < 3.5
    ensures r == Poor <==> OrZero(geoCop) < 2.5
  {
    var c := OrZero(geoCop);
    if c >= 4.5 then Excellent else if c >= 3.5 then Good else if c >= 2.5 then Fair else Poor
  }

  /** A higher COP never gets a lower rating. */
  lemma GeoRatingMonotone(a: real, b: real)
    requires a <= b
    ensures RatingRank(GeoRating(Some(a))) <= RatingRank(GeoRating(Some(b)))
  {
  }

  datatype Flex = Low | Medium | High

  /** The load ratio `|load || 0| / maxDemand` of a building of that kind. */
  function LoadRatio(load: Option<real>, kind: BuildingKind): (ratio: real)
    ensures ratio >= 0.0
    ensures ratio * MaxDemand(kind) == Abs(OrZero(load))
  {
    Abs(OrZero(load)) / MaxDemand(kind)
  }

  /** Flexibility potential: the load ratio against thresholds 0.33 and 0.67. */
  function FlexPotential(load: Option<real>, kind: BuildingKind): (f: Flex)
    ensures f == Low <==> LoadRatio(load, kind) <= 0.33
    ensures f == Medium <==> 0.33 < LoadRatio(load, kind) <= 0.67
    ensures f == High <==> LoadRatio(load, kind) > 0.67
  {
    var loadRatio := LoadRatio(load, kind);
    if loadRatio <= 0.33 then Low else if loadRatio <= 0.67 then Medium else High
  }

  /** A residence drawing at most 4.95 kW either way is always of low flexibility. */
  lemma SmallResidentialLoadIsLowFlex(load: real)
    requires -4950.0 <= load <= 4950.0
    ensures FlexPotential(Some(load), Residential) == Low
  {
    var ratio := LoadRatio(Some(load), Residential);
    assert ratio * 15000.0 <= 4950.0;
  }

  /** `selectedNode === 'b_6' || … 'b_15' || … 'b_36'`. */
  predicate IsEnrolledInDR(selectedNode: string)
  {
    selectedNode == "b_6" || selectedNode == "b_15" || selectedNode == "b_36"
  }

  /** Among the network's buildings exactly b_6, b_15 and b_36 are enrolled. */
  lemma EnrolledBuildings(n: nat)
    ensures IsEnrolledInDR(BuildingId(n)) <==> n == 6 || n == 15 || n == 36
  {
    BuildingIdNumber(n);
    BuildingIdNumber(6);
    BuildingIdNumber(15);
    BuildingIdNumber(36);
    assert BuildingId(6) == "b_6" && BuildingId(36) == "b_36";
    assert BuildingId(15) == "b_15" by {
      assert NatToString(15) == "15";
    }
  }

  /**
   * The building's demand-response value: its heating draw in kW times
   * 0.1 times $5, and nothing when it is not heating.
   */
  function DrValue(load: Option<real>): (v: real)
    ensures v >= 0.0
    ensures load.Some? && load.value < 0.0 ==> v * 2000.0 == -load.value
    ensures !(load.Some? && load.value < 0.0) ==> v == 0.0
  {
    var isHeating := load.Some? && load.value < 0.0;
    var heatingLoad := if isHeating then Abs(OrZero(load)) else 0.0;
    heatingLoad / 1000.0 * 0.1 * 5.0
  }
}
